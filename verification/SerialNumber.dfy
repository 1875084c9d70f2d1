/** X.509 serial numbers: decimal text on the JSON side, a sign and a big-endian octet string on the
    EXI side. EXI stores a negative integer N as the magnitude |N| - 1 (section 7.1.5 of EXI 1.0);
    a serial has at most 20 significant octets (section 4.1.2.2 of RFC 5280).
 */
module SerialNumber {
  import opened CJson
  import opened ExactIntegers
  import opened Numerals
  import opened Slices

  const SERIAL_MAX_OCTETS: nat := 25
  const SERIAL_SIGNIFICANT_OCTETS: nat := 20

  datatype ExiSigned = ExiSigned(octets: seq<byte>, negative: bool)

  /** The integer that an EXI signed integer stands for. */
  function ExiValue(serial: ExiSigned): int {
    if serial.negative then -(BytesValue(serial.octets) as int) - 1 else BytesValue(serial.octets)
  }

  predicate SerialInRange(n: int) {
    -(Pow256(SERIAL_SIGNIFICANT_OCTETS) as int) < n < Pow256(SERIAL_SIGNIFICANT_OCTETS)
  }

  /** The structure that the reader fills in for `n`. */
  function SerialOf(n: int): ExiSigned {
    if n < 0 then ExiSigned(ToOctets(-n - 1, SERIAL_MAX_OCTETS), true)
    else ExiSigned(ToOctets(n, SERIAL_MAX_OCTETS), false)
  }

  /** Serial numbers are those of 160 bits and a sign, and are handed over in 25 octets. */
  lemma {:induction false} SerialRange(n: int)
    ensures SerialInRange(n) <==>
            -0x1_00000000_00000000_00000000_00000000_00000000 < n < 0x1_00000000_00000000_00000000_00000000_00000000
    ensures |SerialOf(n).octets| == 25 && SerialOf(n).negative == (n < 0)
  {
    assert Pow256(4) == 0x1_00000000;
    assert Pow256(8) == 0x1_00000000_00000000;
    assert Pow256(12) == 0x1_00000000_00000000_00000000;
    assert Pow256(16) == 0x1_00000000_00000000_00000000_00000000;
    assert Pow256(20) == 0x1_00000000_00000000_00000000_00000000_00000000;
  }

  lemma {:induction false} Pow256Monotone(j: nat, k: nat)
    requires j <= k
    ensures Pow256(j) <= Pow256(k)
    decreases k
  {
    if j < k {
      Pow256Monotone(j, k - 1);
    }
  }

  lemma SerialOfValue(n: int)
    requires SerialInRange(n)
    ensures ExiValue(SerialOf(n)) == n
  {
    Pow256Monotone(SERIAL_SIGNIFICANT_OCTETS, SERIAL_MAX_OCTETS);
    ToOctetsValue(if n < 0 then -n - 1 else n, SERIAL_MAX_OCTETS);
  }

  lemma ProductAtLeast(a: nat, p: nat)
    requires a > 0
    ensures a * p >= p
  {
  }

  /** The leading octets of a numeral are zero exactly when its value fits the remaining ones. */
  lemma {:induction false} LeadingZeros(s: seq<byte>, k: nat)
    requires k <= |s|
    ensures (forall i :: 0 <= i < |s| - k ==> s[i] == 0) <==> BytesValue(s) < Pow256(k)
  {
    var high, low := s[..|s| - k], s[|s| - k..];
    assert BytesValue(s) == BytesValue(high) * Pow256(k) + BytesValue(low) && BytesValue(low) < Pow256(k) by {
      assert s == high + low;
      BytesValueSplit(high, low);
      BytesValueBound(low);
    }
    assert BytesValue(high) == 0 <==> forall i :: 0 <= i < |s| - k ==> s[i] == 0 by {
      BytesValueZero(high);
      assert forall i :: 0 <= i < |high| ==> s[i] == high[i];
    }
    if BytesValue(high) > 0 {
      ProductAtLeast(BytesValue(high), Pow256(k));
    }
  }

  // ---------- In-place arithmetic on octet strings ----------

  /** One more octet of a suffix. */
  lemma {:induction false} SuffixValue(s: seq<byte>, i: nat)
    requires i < |s|
    ensures BytesValue(s[i..]) == s[i] * Pow256(|s| - 1 - i) + BytesValue(s[i + 1..])
  {
    assert s[i..] == [s[i]] + s[i + 1..];
    BytesValuePrepend(s[i], s[i + 1..]);
  }

  /** Carry propagation in one octet. */
  lemma CarryStep(octet: int, carry: int, v: int, p: int, low: int, lowOld: int, digit: int)
    requires v == octet * 10 + carry
    requires low + carry * p == lowOld * 10 + digit
    ensures (v % 256) * p + low + (v / 256) * (256 * p) == (octet * p + lowOld) * 10 + digit
  {
    assert v == 256 * (v / 256) + v % 256;
    assert v * p == 256 * (v / 256) * p + (v % 256) * p;
    assert v * p == octet * 10 * p + carry * p;
  }

  /** magnitude := 10 * magnitude + digit, with what does not fit returned as carry. */
  method TimesTenPlus(magnitude: array<byte>, digit: nat) returns (carry: nat)
    requires digit < 10
    modifies magnitude
    ensures BytesValue(magnitude[..]) + carry * Pow256(magnitude.Length) == 10 * old(BytesValue(magnitude[..])) + digit
  {
    ghost var before := magnitude[..];
    var n := magnitude.Length;
    carry := digit;
    var i := n;
    while i > 0
      invariant 0 <= i <= n
      invariant carry < 10
      invariant forall j :: 0 <= j < i ==> magnitude[j] == before[j]
      invariant BytesValue(magnitude[i..]) + carry * Pow256(n - i) == BytesValue(before[i..]) * 10 + digit
    {
      i := i - 1;
      var v := magnitude[i] * 10 + carry;
      SuffixValue(before, i);
      CarryStep(before[i], carry, v, Pow256(n - 1 - i), BytesValue(magnitude[i + 1..]), BytesValue(before[i + 1..]), digit);
      ghost var rest := magnitude[i + 1..];
      magnitude[i] := v % 256;
      carry := v / 256;
      assert magnitude[i + 1..] == rest;
      SuffixValue(magnitude[..], i);
      assert magnitude[..][i..] == magnitude[i..] && magnitude[..][i + 1..] == rest;
    }
    assert magnitude[0..] == magnitude[..] && before[0..] == before;
  }

  /** A borrow that passes octet `i`, or ends there. */
  lemma {:induction false} BorrowStep(before: seq<byte>, after: seq<byte>, i: nat)
    requires i < |before| == |after|
    requires BytesValue(after[i + 1..]) == BytesValue(before[i + 1..]) - 1 + Pow256(|before| - 1 - i)
    requires after[i] == if before[i] == 0 then 255 else before[i] - 1
    ensures BytesValue(after[i..]) == BytesValue(before[i..]) - 1 + if before[i] == 0 then Pow256(|before| - i) else 0
  {
    SuffixValue(before, i);
    SuffixValue(after, i);
    OctetMinusOne(before[i], after[i], Pow256(|before| - 1 - i));
  }

  lemma OctetMinusOne(x: byte, y: byte, p: nat)
    requires y == if x == 0 then 255 else x - 1
    ensures y * p == x * p - p + if x == 0 then 256 * p else 0
  {
    if x > 0 {
      assert (x - 1) * p == x * p - p;
    }
  }

  /** magnitude := magnitude - 1 */
  method Decrement(magnitude: array<byte>)
    requires BytesValue(magnitude[..]) > 0
    modifies magnitude
    ensures BytesValue(magnitude[..]) == old(BytesValue(magnitude[..])) - 1
  {
    ghost var before := magnitude[..];
    var n := magnitude.Length;
    var i := n;
    var borrow := true;
    while i > 0 && borrow
      invariant 0 <= i <= n
      invariant forall j :: 0 <= j < i ==> magnitude[j] == before[j]
      invariant BytesValue(magnitude[..][i..]) == BytesValue(before[i..]) - 1 + if borrow then Pow256(n - i) else 0
    {
      i := i - 1;
      ghost var rest := magnitude[..][i + 1..];
      borrow := magnitude[i] == 0;
      magnitude[i] := (magnitude[i] as int + 255) % 256;
      assert magnitude[..][i + 1..] == rest;
      BorrowStep(before, magnitude[..], i);
    }
    UnchangedPrefix(before, magnitude[..], i);
    BytesValueBound(magnitude[..]);
    assert i == 0 ==> before[i..] == before && magnitude[..][i..] == magnitude[..];
  }

  /** A carry that passes octet `i`, or ends there. */
  lemma {:induction false} IncrementStep(before: seq<byte>, after: seq<byte>, i: nat)
    requires i < |before| == |after|
    requires BytesValue(after[i + 1..]) == BytesValue(before[i + 1..]) + 1 - Pow256(|before| - 1 - i)
    requires after[i] == if before[i] == 255 then 0 else before[i] + 1
    ensures BytesValue(after[i..]) == BytesValue(before[i..]) + 1 - if after[i] == 0 then Pow256(|before| - i) else 0
  {
    SuffixValue(before, i);
    SuffixValue(after, i);
    OctetPlusOne(before[i], after[i], Pow256(|before| - 1 - i));
  }

  lemma OctetPlusOne(x: byte, y: byte, p: nat)
    requires y == if x == 255 then 0 else x + 1
    ensures y * p == x * p + p - if y == 0 then 256 * p else 0
  {
    if x < 255 {
      assert (x + 1) * p == x * p + p;
    }
  }

  /** magnitude := magnitude + 1 */
  method Increment(magnitude: array<byte>)
    requires BytesValue(magnitude[..]) + 1 < Pow256(magnitude.Length)
    modifies magnitude
    ensures BytesValue(magnitude[..]) == old(BytesValue(magnitude[..])) + 1
  {
    ghost var before := magnitude[..];
    var n := magnitude.Length;
    var i := n;
    var carry := true;
    while i > 0 && carry
      invariant 0 <= i <= n
      invariant forall j :: 0 <= j < i ==> magnitude[j] == before[j]
      invariant BytesValue(magnitude[..][i..]) == BytesValue(before[i..]) + 1 - if carry then Pow256(n - i) else 0
    {
      i := i - 1;
      ghost var rest := magnitude[..][i + 1..];
      magnitude[i] := (magnitude[i] as int + 1) % 256;
      carry := magnitude[i] == 0;
      assert magnitude[..][i + 1..] == rest;
      IncrementStep(before, magnitude[..], i);
    }
    UnchangedPrefix(before, magnitude[..], i);
    assert i == 0 ==> before[i..] == before && magnitude[..][i..] == magnitude[..];
  }

  /** Two numerals that agree on a prefix differ in value as their suffixes do. */
  lemma {:induction false} UnchangedPrefix(a: seq<byte>, b: seq<byte>, i: nat)
    requires |a| == |b| && i <= |a|
    requires forall j :: 0 <= j < i ==> a[j] == b[j]
    ensures BytesValue(a) - BytesValue(a[i..]) == BytesValue(b) - BytesValue(b[i..])
  {
    assert a == a[..i] + a[i..] && b == b[..i] + b[i..];
    assert a[..i] == b[..i];
    BytesValueSplit(a[..i], a[i..]);
    BytesValueSplit(b[..i], b[i..]);
  }

  lemma {:induction false} AppendOctet(s: seq<byte>, b: byte)
    ensures BytesValue(s + [b]) == 256 * BytesValue(s) + b
  {
    assert (s + [b])[..|s|] == s;
  }

  /** Long division takes one more octet. */
  lemma {:induction false} DivideStep(dividend: seq<byte>, quotient: seq<byte>, octet: byte, remainder: nat, v: nat)
    requires 10 * BytesValue(quotient) + remainder == BytesValue(dividend) && remainder < 10
    requires v == 256 * remainder + octet
    ensures v / 10 < 256
    ensures 10 * BytesValue(quotient + [v / 10]) + v % 10 == BytesValue(dividend + [octet])
    ensures BytesValue(quotient + [v / 10]) == 0 <==> BytesValue(quotient) == 0 && v / 10 == 0
  {
    assert v / 10 < 256;
    AppendOctet(dividend, octet);
    AppendOctet(quotient, v / 10);
  }

  /** magnitude := magnitude / 10, returning the remainder and whether a quotient is left. */
  method DivideByTen(magnitude: array<byte>) returns (remainder: nat, nonzero: bool)
    modifies magnitude
    ensures remainder == old(BytesValue(magnitude[..])) % 10
    ensures BytesValue(magnitude[..]) == old(BytesValue(magnitude[..])) / 10
    ensures nonzero <==> BytesValue(magnitude[..]) != 0
  {
    ghost var before := magnitude[..];
    ghost var seen, done: seq<byte> := [], [];
    remainder := 0;
    nonzero := false;
    var i := 0;
    while i < magnitude.Length
      invariant 0 <= i <= magnitude.Length
      invariant seen == before[..i] && done == magnitude[..i] && magnitude[i..] == before[i..]
      invariant remainder < 10
      invariant 10 * BytesValue(done) + remainder == BytesValue(seen)
      invariant nonzero <==> BytesValue(done) != 0
    {
      assert magnitude[i] == magnitude[i..][0] == before[i];
      var v := 256 * remainder + magnitude[i];
      DivideStep(seen, done, magnitude[i], remainder, v);
      seen, done := seen + [before[i]], done + [v / 10];
      PutOctet(magnitude, before, i, v / 10);
      remainder := v % 10;
      nonzero := nonzero || v / 10 != 0;
      i := i + 1;
    }
    Whole(before);
    assert magnitude[..i] == magnitude[..];
  }

  /** Replaces octet `i`. */
  method PutOctet(magnitude: array<byte>, ghost before: seq<byte>, i: nat, octet: byte)
    requires i < magnitude.Length == |before| && magnitude[i..] == before[i..]
    modifies magnitude
    ensures magnitude[..i + 1] == old(magnitude[..i]) + [octet]
    ensures magnitude[i + 1..] == before[i + 1..]
    ensures before[..i + 1] == before[..i] + [before[i]]
  {
    assert before[i + 1..] == magnitude[i..][1..];
    magnitude[i] := octet;
  }

  // ---------- Reading ----------

  lemma NonDigitWritesNothing(text: string, start: nat, p: nat)
    requires start <= p < |text| && start <= 1 && (start == 1 <==> text[0] == '-') && !IsDigit(text[p])
    ensures forall n: int :: text != SignedDecimal(n)
  {
    assert start == 1 ==> text[1..][p - 1] == text[p];
    NonCanonicalWritesNothing(text);
  }

  lemma {:induction false} OneMoreDigit(text: string, start: nat, p: nat)
    requires start <= p < |text| && AllDigits(text[start..p]) && IsDigit(text[p])
    ensures AllDigits(text[start..p + 1])
    ensures DigitsValue(text[start..p + 1]) == 10 * DigitsValue(text[start..p]) + DigitValue(text[p])
  {
    assert text[start..p + 1][..p - start] == text[start..p];
  }

  lemma {:induction false} CarryWritesNothing(text: string, start: nat, p: nat, value: nat, carry: nat, size: nat)
    requires start <= p <= |text| && start <= 1 && (start == 1 <==> text != [] && text[0] == '-')
    requires AllDigits(text[start..p]) && carry > 0 && value + carry * Pow256(size) == DigitsValue(text[start..p])
    ensures WritesNothingWithin(text, Pow256(size) - 1)
  {
    ProductAtLeast(carry, Pow256(size));
    TooLarge(text, start, p, Pow256(size) - 1);
  }

  /** Adds up the decimal digits of `text` from `start` on in `magnitude`; fails when `text` writes
      no integer that `magnitude` can hold. */
  method AccumulateDigits(text: string, start: nat, magnitude: array<byte>) returns (ok: bool)
    requires start <= |text| && start <= 1
    requires start == 1 <==> text != [] && text[0] == '-'
    requires BytesValue(magnitude[..]) == 0
    modifies magnitude
    ensures ok ==> AllDigits(text[start..]) && BytesValue(magnitude[..]) == DigitsValue(text[start..])
    ensures !ok ==> WritesNothingWithin(text, Pow256(magnitude.Length) - 1)
  {
    var p := start;
    while p < |text|
      invariant start <= p <= |text|
      invariant AllDigits(text[start..p])
      invariant BytesValue(magnitude[..]) == DigitsValue(text[start..p])
    {
      if !IsDigit(text[p]) {
        NonDigitWritesNothing(text, start, p);
        return false;
      }
      var carry := TimesTenPlus(magnitude, DigitValue(text[p]));
      OneMoreDigit(text, start, p);
      p := p + 1;
      if carry != 0 {
        CarryWritesNothing(text, start, p, BytesValue(magnitude[..]), carry, magnitude.Length);
        return false;
      }
    }
    assert text[start..p] == text[start..];
    return true;
  }

  /** The digits of `text` from `start` on as `size` octets, of which only the last `significant` may
      be in use. */
  method ParseMagnitude(text: string, start: nat, size: nat, significant: nat) returns (ok: bool, magnitude: array<byte>)
    requires start < |text| && start <= 1 && (start == 1 <==> text[0] == '-')
    requires significant <= size
    ensures fresh(magnitude) && magnitude.Length == size
    ensures ok ==> AllDigits(text[start..]) && BytesValue(magnitude[..]) == DigitsValue(text[start..])
                   && DigitsValue(text[start..]) < Pow256(significant)
    ensures !ok ==> WritesNothingWithin(text, Pow256(significant) - 1)
  {
    magnitude := new byte[size](_ => 0);
    BytesValueZero(magnitude[..]);
    ok := AccumulateDigits(text, start, magnitude);
    if !ok {
      Pow256Monotone(significant, size);
      return;
    }
    assert text[start..|text|] == text[start..];
    var long := HasLeadingOctets(magnitude, significant);
    if long {
      TooLarge(text, start, |text|, Pow256(significant) - 1);
      ok := false;
    }
  }

  /** Accepts exactly the canonical decimals of the integers with at most 20 octets of magnitude. */
  method TextToSerial(text: string) returns (r: Result<ExiSigned>)
    ensures r.Ok? ==> CanonicalInt(text) && SerialInRange(IntValue(text)) && r.value == SerialOf(IntValue(text))
    ensures r.Err? ==> WritesNothingWithin(text, Pow256(SERIAL_SIGNIFICANT_OCTETS) - 1)
  {
    var negative := text != [] && text[0] == '-';
    var start := if negative then 1 else 0;
    if start == |text| || (text[start] == '0' && start + 1 < |text|) {
      NonCanonicalWritesNothing(text);
      return Err(JsonParse);
    }
    var octets := ReadMagnitude(text, start, SERIAL_MAX_OCTETS, SERIAL_SIGNIFICANT_OCTETS);
    if octets.Err? {
      return Err(JsonParse);
    }
    SerialIsRead(text, start, octets.value);
    return Ok(ExiSigned(octets.value, negative));
  }

  /** The octets of the magnitude of `text`, less one if it has a sign. */
  method ReadMagnitude(text: string, start: nat, size: nat, significant: nat) returns (r: Result<seq<byte>>)
    requires start < |text| && start <= 1 && (start == 1 <==> text[0] == '-') && significant <= size
    requires text[start] == '0' ==> |text| == start + 1
    ensures r.Ok? ==> AllDigits(text[start..]) && DigitsValue(text[start..]) < Pow256(significant)
    ensures r.Ok? ==> |r.value| == size && BytesValue(r.value) == DigitsValue(text[start..]) - start
    ensures r.Ok? && start == 1 ==> CanonicalInt(text)
    ensures r.Err? ==> WritesNothingWithin(text, Pow256(significant) - 1)
  {
    var ok, magnitude := ParseMagnitude(text, start, size, significant);
    if !ok {
      return Err(JsonParse);
    }
    if start == 1 {
      var nonzero := IsNonzero(magnitude);
      if !nonzero {
        NoNegativeZero(text);
        return Err(JsonParse);
      }
      NumeralIsCanonical(text);
      Decrement(magnitude);
    }
    return Ok(magnitude[..]);
  }

  /** The octets that reading `text` leaves are those of its value. */
  lemma {:induction false} SerialIsRead(text: string, start: nat, octets: seq<byte>)
    requires start <= 1 && start < |text| && (start == 1 <==> text[0] == '-')
    requires start == 1 ==> CanonicalInt(text)
    requires start == 0 && text[0] == '0' ==> |text| == 1
    requires AllDigits(text[start..])
    requires |octets| == SERIAL_MAX_OCTETS && DigitsValue(text[start..]) < Pow256(SERIAL_SIGNIFICANT_OCTETS)
    requires BytesValue(octets) == DigitsValue(text[start..]) - start
    ensures CanonicalInt(text) && SerialInRange(IntValue(text))
    ensures SerialOf(IntValue(text)) == ExiSigned(octets, start == 1)
  {
    assert start == 0 ==> text[start..] == text;
    DigitsOf(text, start);
    CanonicalIsSignedDecimal(text);
    SerialOfValue(IntValue(text));
    BytesValueInjective(octets, SerialOf(IntValue(text)).octets);
  }

  method HasLeadingOctets(magnitude: array<byte>, k: nat) returns (found: bool)
    requires k <= magnitude.Length
    ensures found <==> BytesValue(magnitude[..]) >= Pow256(k)
  {
    LeadingZeros(magnitude[..], k);
    for i := 0 to magnitude.Length - k
      invariant forall j :: 0 <= j < i ==> magnitude[j] == 0
    {
      if magnitude[i] != 0 {
        return true;
      }
    }
    return false;
  }

  /** A minus sign before a nonzero numeral. */
  lemma {:induction false} NumeralIsCanonical(text: string)
    requires |text| > 1 && text[0] == '-'
    requires AllDigits(text[1..]) && DigitsValue(text[1..]) > 0
    requires text[1] == '0' ==> |text| == 2
    ensures CanonicalInt(text)
  {
    assert text[1..][..0] == "";
    assert |text| == 2 ==> text[1..] == [text[1]];
  }

  lemma {:induction false} NoNegativeZero(text: string)
    requires text != [] && text[0] == '-'
    requires AllDigits(text[1..]) && DigitsValue(text[1..]) == 0
    ensures forall n: int :: text != SignedDecimal(n)
  {
    assert !CanonicalInt(text) by {
      if CanonicalInt(text) {
        CanonicalIsSignedDecimal(text);
        assert false;
      }
    }
    NonCanonicalWritesNothing(text);
  }

  method IsNonzero(magnitude: array<byte>) returns (nonzero: bool)
    ensures nonzero <==> BytesValue(magnitude[..]) != 0
  {
    BytesValueZero(magnitude[..]);
    nonzero := false;
    for i := 0 to magnitude.Length
      invariant nonzero <==> exists j :: 0 <= j < i && magnitude[j] != 0
    {
      nonzero := nonzero || magnitude[i] != 0;
    }
  }

  method ItemToSerialNumber(item: Json) returns (r: Result<ExiSigned>)
    ensures r.Ok? ==> SerialInRange(ExiValue(r.value)) && Denotes(item, ExiValue(r.value))
                      && r.value == SerialOf(ExiValue(r.value))
    ensures r.Err? ==> forall n: int :: Denotes(item, n) ==> !SerialInRange(n)
  {
    var text;
    if item.JString? {
      text := item.text;
    } else if item.JNumber? {
      var value :- ItemToInteger(item, -JSON_SAFE_INTEGER_MAX, JSON_SAFE_INTEGER_MAX);
      text := SignedDecimal(value);
      SignedDecimalIsCanonical(value);
    } else {
      return Err(JsonParse);
    }
    r := TextToSerial(text);
    if r.Ok? {
      SerialOfValue(IntValue(text));
      CanonicalIsSignedDecimal(text);
    }
  }

  // ---------- Printing ----------

  function Reversed(s: string): (t: string)
    ensures |t| == |s|
  {
    if s == [] then [] else [s[|s| - 1]] + Reversed(s[..|s| - 1])
  }

  lemma {:induction false} ReversedAt(s: string, k: nat)
    requires k < |s|
    ensures Reversed(s)[k] == s[|s| - 1 - k]
  {
    if k > 0 {
      ReversedAt(s[..|s| - 1], k - 1);
    }
  }

  /** The decimal digits of a magnitude, least significant first: repeated long division, whose
      measure is the integer that is left. `magnitude` is used up. */
  method DigitsBackwards(magnitude: array<byte>, reversed: array<char>) returns (n: nat)
    requires 0 < magnitude.Length && 3 * magnitude.Length <= reversed.Length
    modifies magnitude, reversed
    ensures n <= 3 * magnitude.Length
    ensures Reversed(reversed[..n]) == Decimal(old(BytesValue(magnitude[..])))
  {
    ghost var value := BytesValue(magnitude[..]);
    BytesValueBound(magnitude[..]);
    DecimalLength(value, magnitude.Length);
    n := 0;
    var nonzero := true;
    ghost var left := value;
    ghost var emitted := "";
    while nonzero
      invariant n == |emitted| <= |Decimal(value)| && reversed[..n] == emitted
      invariant left == BytesValue(magnitude[..])
      invariant Emitted(value, left, emitted, nonzero)
      decreases nonzero, left
    {
      EmitStep(value, left, emitted);
      nonzero := EmitDigit(magnitude, reversed, n);
      emitted := emitted + [DigitChar(left % 10)];
      n := n + 1;
      left := left / 10;
    }
  }

  /** Divides by ten and puts the remainder at position `n`. */
  method EmitDigit(magnitude: array<byte>, reversed: array<char>, n: nat) returns (nonzero: bool)
    requires n < reversed.Length
    modifies magnitude, reversed
    ensures BytesValue(magnitude[..]) == old(BytesValue(magnitude[..])) / 10
    ensures nonzero <==> BytesValue(magnitude[..]) != 0
    ensures reversed[..n + 1] == old(reversed[..n]) + [DigitChar(old(BytesValue(magnitude[..])) % 10)]
  {
    var remainder;
    remainder, nonzero := DivideByTen(magnitude);
    reversed[n] := DigitChar(remainder);
  }

  /** The digits emitted so far are the last ones of the numeral; what is left writes the others. */
  predicate Emitted(value: nat, left: nat, emitted: string, more: bool) {
    if more then Decimal(value) == Decimal(left) + Reversed(emitted) && (emitted != "" ==> left > 0)
    else Decimal(value) == Reversed(emitted)
  }

  lemma {:induction false} EmitStep(value: nat, left: nat, emitted: string)
    requires Emitted(value, left, emitted, true)
    ensures |emitted| < |Decimal(value)|
    ensures Emitted(value, left / 10, emitted + [DigitChar(left % 10)], left / 10 != 0)
  {
    var digit := [DigitChar(left % 10)];
    Halves(emitted, digit);
    assert Reversed(emitted + digit) == digit + Reversed(emitted);
    if left >= 10 {
      Associative(Decimal(left / 10), digit, Reversed(emitted));
    }
  }

  /** The number of octets from the first nonzero one on. */
  method SignificantOctets(octets: seq<byte>) returns (significant: nat)
    ensures significant <= |octets|
    ensures significant <= SERIAL_SIGNIFICANT_OCTETS <==> BytesValue(octets) < Pow256(SERIAL_SIGNIFICANT_OCTETS)
  {
    significant := |octets|;
    var i := 0;
    while i < |octets| && octets[i] == 0
      invariant 0 <= i <= |octets| && significant == |octets| - i
      invariant forall j :: 0 <= j < i ==> octets[j] == 0
    {
      significant := significant - 1;
      i := i + 1;
    }
    if significant > SERIAL_SIGNIFICANT_OCTETS {
      LeadingZeros(octets, SERIAL_SIGNIFICANT_OCTETS);
    } else {
      LeadingZeros(octets, significant);
      Pow256Monotone(significant, SERIAL_SIGNIFICANT_OCTETS);
    }
  }

  /** Writes a sign and the reversed digits in their reading order. */
  method WriteDigits(negative: bool, reversed: array<char>, count: nat) returns (text: string)
    requires count <= reversed.Length
    ensures text == (if negative then "-" else "") + Reversed(reversed[..count])
  {
    var digits := new char[reversed.Length + 1](_ => '0');
    var k := 0;
    if negative {
      digits[0] := '-';
      k := 1;
    }
    ghost var sign := if negative then "-" else "";
    ghost var numeral := Reversed(reversed[..count]);
    var n := count;
    while n > 0
      invariant 0 <= n <= count && k == |sign| + count - n
      invariant digits[..k] == sign + numeral[..count - n]
    {
      n := n - 1;
      ReversedAt(reversed[..count], count - 1 - n);
      digits[k] := reversed[n];
      assert digits[..k + 1] == digits[..k] + [digits[k]];
      assert numeral[..count - n] == numeral[..count - n - 1] + [numeral[count - n - 1]];
      k := k + 1;
    }
    assert numeral[..count] == numeral;
    return digits[..k];
  }

  lemma RightAligned(s: seq<byte>, octets: seq<byte>, padding: nat)
    requires |s| == padding + |octets|
    requires forall j :: 0 <= j < |octets| ==> s[padding + j] == octets[j]
    ensures s == s[..padding] + octets
  {
    assert s[padding..] == octets;
    assert s == s[..padding] + s[padding..];
  }

  lemma {:induction false} PaddedValue(s: seq<byte>, octets: seq<byte>, padding: nat)
    requires |s| == padding + |octets|
    requires forall j :: 0 <= j < padding ==> s[j] == 0
    requires forall j :: 0 <= j < |octets| ==> s[padding + j] == octets[j]
    ensures BytesValue(s) == BytesValue(octets)
  {
    RightAligned(s, octets, padding);
    BytesValueSplit(s[..padding], octets);
    BytesValueZero(s[..padding]);
  }

  /** The octets right-aligned in a buffer of `size`. */
  method Padded(octets: seq<byte>, size: nat) returns (magnitude: array<byte>)
    requires |octets| <= size
    ensures fresh(magnitude) && magnitude.Length == size
    ensures BytesValue(magnitude[..]) == BytesValue(octets)
  {
    var padding := size - |octets|;
    magnitude := new byte[size](_ => 0);
    forall j | 0 <= j < |octets| {
      magnitude[padding + j] := octets[j];
    }
    PaddedValue(magnitude[..], octets, padding);
  }

  lemma {:induction false} SignedNumeral(serial: ExiSigned, value: nat)
    requires value == BytesValue(serial.octets) + if serial.negative then 1 else 0
    ensures SignedDecimal(ExiValue(serial)) == (if serial.negative then "-" else "") + Decimal(value)
  {
  }

  /** The sign and the decimal of a magnitude that has room in a buffer of `size` octets. */
  method PrintMagnitude(octets: seq<byte>, negative: bool, size: nat) returns (text: string)
    requires |octets| < size && BytesValue(octets) < Pow256(size - 1)
    ensures text == (if negative then "-" else "") + Decimal(BytesValue(octets) + if negative then 1 else 0)
  {
    var magnitude := Padded(octets, size);
    if negative {
      Increment(magnitude);
    }
    var reversed := new char[3 * size + 2](_ => '0');
    var n := DigitsBackwards(magnitude, reversed);
    text := WriteDigits(negative, reversed, n);
  }

  /** Prints exactly the serials of at most 20 significant octets, as canonical decimals. The EXI library
      is configured for magnitudes of up to `capacity` octets. */
  method AddSerialNumber(serial: ExiSigned, capacity: nat) returns (r: Result<string>)
    requires SERIAL_SIGNIFICANT_OCTETS <= capacity
    ensures r.Ok? <==> |serial.octets| <= capacity
                       && BytesValue(serial.octets) < Pow256(SERIAL_SIGNIFICANT_OCTETS)
    ensures r.Ok? ==> r.value == SignedDecimal(ExiValue(serial))
  {
    var count := |serial.octets|;
    var significant := SignificantOctets(serial.octets);
    if count > capacity || significant > SERIAL_SIGNIFICANT_OCTETS {
      return Err(JsonGenerate);
    }
    Pow256Monotone(SERIAL_SIGNIFICANT_OCTETS, capacity);
    var text := PrintMagnitude(serial.octets, serial.negative, capacity + 1);
    SignedNumeral(serial, BytesValue(serial.octets) + if serial.negative then 1 else 0);
    return Ok(text);
  }

  // ---------- Round trips ----------

  /** Printing a structure and reading the text back gives the same number, except for one value:
      -2^160 is stored in 20 octets and so is printed, but its decimal needs 21 octets to read. */
  method PrintThenRead(serial: ExiSigned, capacity: nat) returns (text: Result<string>, back: Result<ExiSigned>)
    requires SERIAL_SIGNIFICANT_OCTETS <= capacity
    ensures text.Ok? <==> |serial.octets| <= capacity
                          && BytesValue(serial.octets) < Pow256(SERIAL_SIGNIFICANT_OCTETS)
    ensures back.Ok? <==> text.Ok? && ExiValue(serial) != -(Pow256(SERIAL_SIGNIFICANT_OCTETS) as int)
    ensures back.Ok? ==> ExiValue(back.value) == ExiValue(serial) && back.value.negative == serial.negative
                         && BytesValue(back.value.octets) == BytesValue(serial.octets)
  {
    text := AddSerialNumber(serial, capacity);
    if text.Err? {
      return text, Err(JsonParse);
    }
    SignedDecimalIsCanonical(ExiValue(serial));
    back := ItemToSerialNumber(JString(text.value));
    if back.Ok? {
      SignedDecimalIsCanonical(ExiValue(back.value));
    } else {
      assert Denotes(JString(text.value), ExiValue(serial));
    }
  }

  /** Reading a text and printing the result gives the text back, for every text that is read. */
  method ReadThenPrint(text: string, capacity: nat) returns (serial: Result<ExiSigned>, again: Result<string>)
    requires SERIAL_MAX_OCTETS <= capacity
    ensures serial.Ok? <==> CanonicalInt(text) && SerialInRange(IntValue(text))
    ensures serial.Ok? ==> again == Ok(text)
  {
    serial := TextToSerial(text);
    if serial.Err? {
      if CanonicalInt(text) {
        CanonicalIsSignedDecimal(text);
      }
      return serial, Err(JsonParse);
    }
    SerialOfValue(IntValue(text));
    CanonicalIsSignedDecimal(text);
    again := AddSerialNumber(serial.value, capacity);
  }
}
