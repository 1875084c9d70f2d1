/** 64-bit integers in JSON. A JSON number in cJSON is a double, so such values travel as strings
    of their digits and are parsed here with overflow checks.
 */
module ExactIntegers {
  import opened CJson
  import opened Numerals

  newtype uint64 = x: int | 0 <= x < 0x1_0000_0000_0000_0000
  newtype int64 = x: int | -0x8000_0000_0000_0000 <= x < 0x8000_0000_0000_0000

  const INT64_MAX: uint64 := 0x7fff_ffff_ffff_ffff
  const UINT64_MAX: uint64 := 0xffff_ffff_ffff_ffff
  /** The largest integer that a double holds exactly together with all smaller ones. */
  const JSON_SAFE_INTEGER_MAX: int := 9007199254740991

  /** `item` writes the integer `n`: by its canonical digits, or as a number that no double
      rounding can have touched. */
  predicate Denotes(item: Json, n: int) {
    || item == JString(SignedDecimal(n))
    || (IsInteger(item, n) && -JSON_SAFE_INTEGER_MAX <= n <= JSON_SAFE_INTEGER_MAX)
  }

  /** A number counts only up to 2^53 - 1, beyond which a double may stand for another integer. */
  lemma NumbersAreSafe(n: int)
    ensures Denotes(JNumber(n as real), n) <==> -0x20_0000_0000_0000 < n < 0x20_0000_0000_0000
  {
  }

  predicate FitsInt64(n: int) {
    -0x8000_0000_0000_0000 <= n < 0x8000_0000_0000_0000
  }

  predicate FitsUint64(n: int) {
    0 <= n < 0x1_0000_0000_0000_0000
  }

  lemma {:induction false} DigitsValuePrefix(s: string, k: nat)
    requires AllDigits(s) && k <= |s|
    ensures DigitsValue(s[..k]) <= DigitsValue(s)
    decreases |s| - k
  {
    if k == |s| {
      assert s[..k] == s;
    } else {
      assert s[..k + 1][..k] == s[..k];
      DigitsValuePrefix(s, k + 1);
    }
  }

  /** No integer is written by a text that is not canonical. */
  lemma NonCanonicalWritesNothing(text: string)
    requires !CanonicalInt(text)
    ensures forall n: int :: text != SignedDecimal(n)
  {
    forall n: int
      ensures text != SignedDecimal(n)
    {
      SignedDecimalIsCanonical(n);
    }
  }

  /** The digits of a canonical text follow its sign. */
  lemma {:induction false} DigitsOf(text: string, start: nat)
    requires CanonicalInt(text)
    requires start == if text[0] == '-' then 1 else 0
    ensures AllDigits(text[start..])
    ensures DigitsValue(text[start..]) == if IntValue(text) < 0 then -IntValue(text) else IntValue(text)
  {
    CanonicalIsSignedDecimal(text);
    assert start == 0 ==> text[start..] == text;
  }

  /** `text` is not the decimal of any integer of magnitude up to `bound`. */
  ghost predicate WritesNothingWithin(text: string, bound: int) {
    forall n: int :: text == SignedDecimal(n) ==> n < -bound || bound < n
  }

  /** Once the digits read so far exceed `bound`, the text writes no integer of that magnitude. */
  lemma {:induction false} TooLarge(text: string, start: nat, k: nat, bound: int)
    requires start <= k <= |text| && start <= 1
    requires start == 1 <==> text != [] && text[0] == '-'
    requires AllDigits(text[start..k]) && DigitsValue(text[start..k]) > bound
    ensures WritesNothingWithin(text, bound)
  {
    assert text[start..][..k - start] == text[start..k];
    forall n: int | text == SignedDecimal(n)
      ensures n < -bound || bound < n
    {
      SignedDecimalIsCanonical(n);
      DigitsOf(text, start);
      DigitsValuePrefix(text[start..], k - start);
    }
  }

  /** Accepts exactly the canonical decimals of magnitude at most `maxMagnitude`. The arithmetic is
      on a 64-bit type, so every intermediate value is in range. */
  method TextToMagnitude(text: string, maxMagnitude: uint64) returns (r: Result<(bool, uint64)>)
    requires 9 <= maxMagnitude
    ensures r.Ok? ==> CanonicalInt(text) && r.value.1 <= maxMagnitude
    ensures r.Ok? ==> IntValue(text) == if r.value.0 then -(r.value.1 as int) else r.value.1 as int
    ensures r.Ok? ==> (r.value.0 <==> IntValue(text) < 0)
    ensures r.Err? ==> WritesNothingWithin(text, maxMagnitude as int)
  {
    var negative := text != [] && text[0] == '-';
    var start := if negative then 1 else 0;
    if start == |text| || !IsDigit(text[start]) || (text[start] == '0' && start + 1 < |text|)
       || (negative && text[start] == '0') {
      NonCanonicalWritesNothing(text);
      return Err(JsonParse);
    }
    var magnitude: uint64 := 0;
    var p := start;
    while p < |text|
      invariant start <= p <= |text|
      invariant AllDigits(text[start..p])
      invariant magnitude as int == DigitsValue(text[start..p]) <= maxMagnitude as int
    {
      if !IsDigit(text[p]) {
        NonCanonicalWritesNothing(text);
        return Err(JsonParse);
      }
      var digit := DigitValue(text[p]) as uint64;
      assert text[start..p + 1][..p - start] == text[start..p];
      if magnitude > (maxMagnitude - digit) / 10 {
        TooLarge(text, start, p + 1, maxMagnitude as int);
        return Err(JsonParse);
      }
      magnitude := magnitude * 10 + digit;
      p := p + 1;
    }
    assert text[start..p] == text[start..];
    assert start == 0 ==> text[start..] == text;
    CanonicalIsSignedDecimal(text);
    return Ok((negative, magnitude));
  }

  /** The two's complement reading of a 64-bit word. */
  function AsInt64(word: uint64): int64 {
    if word <= INT64_MAX then word as int64 else (word as int - 0x1_0000_0000_0000_0000) as int64
  }

  /** Subtraction from zero in unsigned 64-bit arithmetic. */
  function Negate(word: uint64): uint64 {
    ((0x1_0000_0000_0000_0000 - word as int) % 0x1_0000_0000_0000_0000) as uint64
  }

  /** The signed reading of a parsed sign and magnitude. */
  lemma NegateIsMinus(magnitude: uint64)
    requires 0 < magnitude <= INT64_MAX + 1
    ensures AsInt64(Negate(magnitude)) as int == -(magnitude as int)
  {
  }

  lemma WritesOnly(text: string, n: int)
    requires text == SignedDecimal(n)
    ensures CanonicalInt(text) && IntValue(text) == n
  {
    SignedDecimalIsCanonical(n);
  }

  method ReadInt64(parent: Json, key: string) returns (r: Result<int64>)
    ensures r.Ok? ==> HasItem(parent, key) && Denotes(GetItem(parent, key).value, r.value as int)
    ensures r.Err? && HasItem(parent, key) ==>
              forall n: int :: Denotes(GetItem(parent, key).value, n) ==> !FitsInt64(n)
  {
    var item :- GetItem(parent, key);
    if item.JNumber? {
      var value :- ItemToInteger(item, -JSON_SAFE_INTEGER_MAX, JSON_SAFE_INTEGER_MAX);
      return Ok(value as int64);
    }
    if !item.JString? {
      return Err(JsonParse);
    }
    var text := TextToMagnitude(item.text, INT64_MAX + 1);
    if text.Err? {
      return Err(JsonParse);
    }
    var negative, magnitude := text.value.0, text.value.1;
    if !negative && magnitude > INT64_MAX {
      forall n: int | Denotes(item, n)
        ensures !FitsInt64(n)
      {
        WritesOnly(item.text, n);
      }
      return Err(JsonParse);
    }
    CanonicalIsSignedDecimal(item.text);
    if negative {
      NegateIsMinus(magnitude);
      return Ok(AsInt64(Negate(magnitude)));
    }
    return Ok(magnitude as int64);
  }

  method ReadUint64(parent: Json, key: string) returns (r: Result<uint64>)
    ensures r.Ok? ==> HasItem(parent, key) && Denotes(GetItem(parent, key).value, r.value as int)
    ensures r.Err? && HasItem(parent, key) ==>
              forall n: int :: Denotes(GetItem(parent, key).value, n) ==> !FitsUint64(n)
  {
    var item :- GetItem(parent, key);
    if item.JNumber? {
      var value :- ItemToInteger(item, 0, JSON_SAFE_INTEGER_MAX);
      return Ok(value as uint64);
    }
    if !item.JString? {
      return Err(JsonParse);
    }
    var text := TextToMagnitude(item.text, UINT64_MAX);
    if text.Err? {
      return Err(JsonParse);
    }
    if text.value.0 {
      forall n: int | Denotes(item, n)
        ensures !FitsUint64(n)
      {
        WritesOnly(item.text, n);
      }
      return Err(JsonParse);
    }
    CanonicalIsSignedDecimal(item.text);
    return Ok(text.value.1);
  }
}
