/** A 64-bit value or a serial number on its way through a document: printed as raw digits, quoted
    before cJSON parses the text, and read back from the string.
 */
module ExactTravel {
  import opened CJson
  import opened ExactIntegers
  import opened JsonTexts
  import opened JsonTokens
  import opened Numerals
  import PrepareJson
  import SerialNumber

  lemma {:induction false} DecimalIsNumber(n: nat)
    ensures AllNumberChars(Decimal(n)) && StartsNumber(Decimal(n)[0])
  {
    if n >= 10 {
      DecimalIsNumber(n / 10);
    }
  }

  /** What the printers write is one number to the lexer. */
  lemma SignedDecimalIsNumber(n: int)
    ensures SignedDecimal(n) != "" && AllNumberChars(SignedDecimal(n)) && StartsNumber(SignedDecimal(n)[0])
  {
    DecimalIsNumber(if n < 0 then -n else n);
  }

  /** The context of a member: text that ends outside of strings before it, one of the four keys, a colon
      between white space, and no further number character after it. */
  predicate MemberContext(before: string, key: string, a: string, b: string, after: string) {
    && EndsOutside(before) && IsExactKey(key) && AllSpace(a) && AllSpace(b)
    && (after == "" || after[0] !in "+-.eE0123456789")
  }

  function Document(before: string, key: string, gap: string, digits: string, after: string): string {
    before + (key + gap + digits + after)
  }

  /** The prepared document is refused for what surrounds the member only, and consists of what
      preparation makes of that, the key, and the digits as a string. */
  ghost predicate IsPrepared(text: Result<string>, before: string, key: string, gap: string, digits: string, after: string) {
    && (text.Err? <==> Refused(Lex(before)) || Refused(Lex(after)))
    && (text.Ok? ==> text.value == Quoted(Lex(before)) + (key + gap + "\"" + digits + "\"" + Quoted(Lex(after))))
    && (text.Ok? ==> Lex(text.value) == RequoteAll(Lex(before))
                     + ([Keyed(key, gap, ""), Str("\"" + digits + "\"")] + RequoteAll(Lex(after))))
  }

  lemma {:induction false} MemberIsPrepared(text: Result<string>, before: string, key: string, gap: string, digits: string,
                                            after: string)
    requires EndsOutside(before) && digits != "" && TokenBefore(Keyed(key, gap, digits), after)
    requires text.Err? <==> Refused(Lex(Document(before, key, gap, digits, after)))
    requires text.Ok? ==> text.value == Quoted(Lex(Document(before, key, gap, digits, after)))
    ensures IsPrepared(text, before, key, gap, digits, after)
  {
    MemberIsQuoted(before, key, gap, digits, after);
    MemberRefusal(before, key, gap, digits, after);
    MemberRelexing(before, key, gap, digits, after);
  }

  lemma PrintedIsToken(key: string, a: string, b: string, n: int, after: string)
    requires IsExactKey(key) && AllSpace(a) && AllSpace(b) && (after == "" || after[0] !in "+-.eE0123456789")
    ensures SignedDecimal(n) != "" && TokenBefore(Keyed(key, Separator(a, b), SignedDecimal(n)), after)
  {
    CharactersAre(key, if after == "" then ' ' else after[0]);
    SeparatorIsGap(a, b);
    SignedDecimalIsNumber(n);
  }

  /** Preparing a document turns a printed integer into a string of the same digits, whatever
      surrounds it, or refuses the document for what surrounds it. */
  method PrepareMember(before: string, key: string, a: string, b: string, n: int, after: string) returns (text: Result<string>)
    requires MemberContext(before, key, a, b, after)
    ensures IsPrepared(text, before, key, a + ":" + b, SignedDecimal(n), after)
  {
    var gap, digits := Separator(a, b), SignedDecimal(n);
    text := PrepareJson.PrepareJson(Document(before, key, gap, digits, after));
    PrintedIsToken(key, a, b, n, after);
    MemberIsPrepared(text, before, key, gap, digits, after);
  }

  /** The name that a key stands for. */
  function Unquoted(text: string): string {
    if |text| < 2 then "" else text[1..|text| - 1]
  }

  /** The object that cJSON makes of the tokens from the `i`-th on: a name, and a string without
      escapes for its value. */
  function ParsedMember(tokens: seq<Token>, i: nat): Json
    requires i + 1 < |tokens| && tokens[i].Keyed? && tokens[i + 1].Str?
  {
    JObject(map[Unquoted(tokens[i].key) := JString(Unquoted(tokens[i + 1].text))])
  }

  /** What is parsed for the key denotes the printed integer and no other. */
  lemma ParsedDigits(tokens: seq<Token>, i: nat, key: string, gap: string, n: int)
    requires i + 1 < |tokens| && tokens[i] == Keyed(key, gap, "") && tokens[i + 1] == Str("\"" + SignedDecimal(n) + "\"")
    ensures GetItem(ParsedMember(tokens, i), Unquoted(key)) == Ok(JString(SignedDecimal(n)))
    ensures forall m: int :: Denotes(JString(SignedDecimal(n)), m) <==> m == n
  {
    assert Unquoted("\"" + SignedDecimal(n) + "\"") == SignedDecimal(n);
    SignedDecimalIsCanonical(n);
    forall m: int | Denotes(JString(SignedDecimal(n)), m)
      ensures m == n
    {
      SignedDecimalIsCanonical(m);
    }
  }

  /** Where the member is found in the prepared document. */
  lemma {:induction false} MemberPosition(text: Result<string>, before: string, key: string, gap: string, digits: string,
                                          after: string)
    requires IsPrepared(text, before, key, gap, digits, after) && text.Ok?
    ensures var tokens, i := Lex(text.value), |RequoteAll(Lex(before))|;
            i + 1 < |tokens| && tokens[i] == Keyed(key, gap, "") && tokens[i + 1] == Str("\"" + digits + "\"")
  {
  }

  /** Prepares the document and parses the member in it. */
  method PrepareAndParse(before: string, key: string, a: string, b: string, n: int, after: string)
    returns (text: Result<string>, parsed: Json)
    requires MemberContext(before, key, a, b, after)
    ensures IsPrepared(text, before, key, a + ":" + b, SignedDecimal(n), after)
    ensures text.Ok? ==> GetItem(parsed, Unquoted(key)).Ok?
                         && forall m: int :: Denotes(GetItem(parsed, Unquoted(key)).value, m) <==> m == n
  {
    text := PrepareMember(before, key, a, b, n, after);
    if text.Err? {
      return text, JNull;
    }
    var tokens, at := Lex(text.value), |RequoteAll(Lex(before))|;
    MemberPosition(text, before, key, a + ":" + b, SignedDecimal(n), after);
    ParsedDigits(tokens, at, key, a + ":" + b, n);
    parsed := ParsedMember(tokens, at);
  }

  /** Any integer that is printed for a key, anywhere in a document that is not refused, is read from
      the prepared document as itself if it is an int64, and refused if it is not. */
  method Int64Travels(before: string, key: string, a: string, b: string, n: int, after: string)
    returns (text: Result<string>, r: Result<int64>)
    requires MemberContext(before, key, a, b, after)
    ensures IsPrepared(text, before, key, a + ":" + b, SignedDecimal(n), after)
    ensures r.Ok? <==> text.Ok? && FitsInt64(n)
    ensures r.Ok? ==> r.value as int == n
  {
    var parsed;
    text, parsed := PrepareAndParse(before, key, a, b, n, after);
    if text.Err? {
      return text, Err(text.error);
    }
    r := ReadInt64(parsed, Unquoted(key));
  }

  /** The same for uint64. */
  method Uint64Travels(before: string, key: string, a: string, b: string, n: int, after: string)
    returns (text: Result<string>, r: Result<uint64>)
    requires MemberContext(before, key, a, b, after)
    ensures IsPrepared(text, before, key, a + ":" + b, SignedDecimal(n), after)
    ensures r.Ok? <==> text.Ok? && FitsUint64(n)
    ensures r.Ok? ==> r.value as int == n
  {
    var parsed;
    text, parsed := PrepareAndParse(before, key, a, b, n, after);
    if text.Err? {
      return text, Err(text.error);
    }
    r := ReadUint64(parsed, Unquoted(key));
  }

  /** The same for the serial number of a certificate. */
  method SerialTravels(before: string, key: string, a: string, b: string, n: int, after: string)
    returns (text: Result<string>, r: Result<SerialNumber.ExiSigned>)
    requires MemberContext(before, key, a, b, after)
    ensures IsPrepared(text, before, key, a + ":" + b, SignedDecimal(n), after)
    ensures r.Ok? <==> text.Ok? && SerialNumber.SerialInRange(n)
    ensures r.Ok? ==> r.value == SerialNumber.SerialOf(n) && SerialNumber.ExiValue(r.value) == n
  {
    var parsed;
    text, parsed := PrepareAndParse(before, key, a, b, n, after);
    if text.Err? {
      return text, Err(text.error);
    }
    r := SerialNumber.ItemToSerialNumber(GetItem(parsed, Unquoted(key)).value);
  }
}
