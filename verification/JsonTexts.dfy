/** What preparation does to a text, in terms of its characters: the four keys, the separators and the
    numbers are written out, and so is the escape that is refused.
 */
module JsonTexts {
  import opened JsonTokens
  import opened PrepareJson
  import opened Slices

  // ---------- The characters ----------

  predicate IsExactKey(key: string) {
    || key == "\"X509SerialNumber\"" || key == "\"MeterReading\"" || key == "\"TMeter\"" || key == "\"EVSETimeStamp\""
  }

  /** The white space of JSON. */
  predicate IsSpace(c: char) {
    c in " \t\n\r"
  }

  predicate AllSpace(s: string) {
    forall i :: 0 <= i < |s| ==> IsSpace(s[i])
  }

  predicate AllNumeric(s: string) {
    forall i :: 0 <= i < |s| ==> s[i] in "+-.eE0123456789"
  }

  /** The keys, the separators and the characters of numbers are these and no others. */
  lemma CharactersAre(key: string, c: char)
    ensures key in EXACT_INTEGER_KEYS <==> IsExactKey(key)
    ensures IsGap(c) <==> IsSpace(c) || c == ':'
    ensures StartsNumber(c) <==> c in "-0123456789"
    ensures IsNumberChar(c) <==> c in "+-.eE0123456789"
  {
    assert key in EXACT_INTEGER_KEYS ==>
        key == EXACT_INTEGER_KEYS[0] || key == EXACT_INTEGER_KEYS[1] || key == EXACT_INTEGER_KEYS[2] || key == EXACT_INTEGER_KEYS[3];
    assert EXACT_INTEGER_KEYS[0] in EXACT_INTEGER_KEYS && EXACT_INTEGER_KEYS[1] in EXACT_INTEGER_KEYS;
    assert EXACT_INTEGER_KEYS[2] in EXACT_INTEGER_KEYS && EXACT_INTEGER_KEYS[3] in EXACT_INTEGER_KEYS;
  }

  // ---------- Members ----------

  /** Text that ends outside of strings. */
  predicate EndsOutside(before: string) {
    before == "" || Lex(before)[|Lex(before)| - 1].Plain?
  }

  /** What stands between a key and its value in JSON. */
  function Separator(a: string, b: string): string {
    a + ":" + b
  }

  lemma SeparatorIsGap(a: string, b: string)
    requires AllSpace(a) && AllSpace(b)
    ensures AllGap(Separator(a, b))
  {
    var gap := Separator(a, b);
    forall i | 0 <= i < |gap|
      ensures IsGap(gap[i])
    {
      CharactersAre("", gap[i]);
    }
  }

  lemma NumericIsNumber(number: string)
    requires number != "" && AllNumeric(number) && number[0] in "-0123456789"
    ensures AllNumberChars(number) && StartsNumber(number[0])
  {
    CharactersAre("", number[0]);
    forall i | 0 <= i < |number|
      ensures IsNumberChar(number[i])
    {
      CharactersAre("", number[i]);
    }
  }

  lemma MemberIsToken(key: string, a: string, b: string, number: string, after: string)
    requires IsExactKey(key) && AllSpace(a) && AllSpace(b)
    requires number != "" && AllNumeric(number) && number[0] in "-0123456789"
    requires after == "" || after[0] !in "+-.eE0123456789"
    ensures TokenBefore(Keyed(key, Separator(a, b), number), after)
  {
    CharactersAre(key, if after == "" then ' ' else after[0]);
    SeparatorIsGap(a, b);
    NumericIsNumber(number);
  }

  /** Wherever one of the four keys is given a number, it and it alone gains quotes. */
  lemma {:induction false} NumberGainsQuotes(before: string, key: string, a: string, b: string, number: string, after: string)
    requires EndsOutside(before) && IsExactKey(key) && AllSpace(a) && AllSpace(b)
    requires number != "" && AllNumeric(number) && number[0] in "-0123456789"
    requires after == "" || after[0] !in "+-.eE0123456789"
    ensures Quoted(Lex(before + (key + (a + ":" + b) + number + after)))
            == Quoted(Lex(before)) + (key + (a + ":" + b) + "\"" + number + "\"" + Quoted(Lex(after)))
  {
    MemberIsToken(key, a, b, number, after);
    MemberIsQuoted(before, key, Separator(a, b), number, after);
  }

  lemma ValueIsToken(key: string, a: string, b: string, rest: string)
    requires IsExactKey(key) && AllSpace(a) && AllSpace(b)
    requires rest == "" || rest[0] !in " \t\n\r:-0123456789"
    ensures TokenBefore(Keyed(key, Separator(a, b), ""), rest)
  {
    CharactersAre(key, if rest == "" then 'x' else rest[0]);
    SeparatorIsGap(a, b);
  }

  /** Any other value of such a key, a string that is quoted already above all, is left as it is. */
  lemma {:induction false} OtherValuesStay(before: string, key: string, a: string, b: string, rest: string)
    requires EndsOutside(before) && IsExactKey(key) && AllSpace(a) && AllSpace(b)
    requires rest == "" || rest[0] !in " \t\n\r:-0123456789"
    ensures Quoted(Lex(before + (key + (a + ":" + b) + rest)))
            == Quoted(Lex(before)) + (key + (a + ":" + b) + Quoted(Lex(rest)))
  {
    var gap := Separator(a, b);
    var token := Keyed(key, gap, "");
    ValueIsToken(key, a, b, rest);
    Whole(key + gap);
    MemberLexing(before, key, gap, "", rest);
    QuotedAppend(Lex(before), [token] + Lex(rest));
    assert ([token] + Lex(rest))[1..] == Lex(rest);
  }

  // ---------- Whole texts ----------

  function WithoutQuotes(s: string): string {
    if s == "" then "" else if s[0] == '"' then WithoutQuotes(s[1..]) else [s[0]] + WithoutQuotes(s[1..])
  }

  lemma {:induction false} WithoutQuotesAppend(a: string, b: string)
    ensures WithoutQuotes(a + b) == WithoutQuotes(a) + WithoutQuotes(b)
  {
    if a == "" {
      Whole(b);
    } else {
      WithoutQuotesAppend(a[1..], b);
      assert (a + b)[0] == a[0] && (a + b)[1..] == a[1..] + b;
      Associative([a[0]], WithoutQuotes(a[1..]), WithoutQuotes(b));
    }
  }

  lemma {:induction false} TokenWithoutQuotes(t: Token)
    ensures WithoutQuotes(QuotedText(t)) == WithoutQuotes(Text(t))
  {
    if t.Keyed? && t.number != "" {
      var quote := "\"";
      assert quote[1..] == "";
      assert WithoutQuotes(quote) == "";
      WithoutQuotesAppend(t.key + t.gap, quote + t.number + quote);
      WithoutQuotesAppend(quote + t.number, quote);
      WithoutQuotesAppend(quote, t.number);
      WithoutQuotesAppend(t.key + t.gap, t.number);
    } else if t.Keyed? {
      Whole(t.key + t.gap);
    }
  }

  /** Preparation adds quotes and changes nothing else. */
  lemma {:induction false} OnlyQuotesAreAdded(s: string)
    ensures WithoutQuotes(Quoted(Lex(s))) == WithoutQuotes(s)
  {
    if s != "" {
      var t := NextToken(s);
      var rest := s[|Text(t)|..];
      OnlyQuotesAreAdded(rest);
      assert Lex(s)[1..] == Lex(rest);
      TokenWithoutQuotes(t);
      WithoutQuotesAppend(QuotedText(t), Quoted(Lex(rest)));
      WithoutQuotesAppend(Text(t), rest);
      assert s == Text(t) + rest;
    }
  }

  /** `part` occurs in `s` at position `i`. */
  predicate OccursAt(part: string, s: string, i: nat) {
    i <= |s| && part <= s[i..]
  }

  /** One of the keys occurs somewhere in the text. */
  ghost predicate HoldsKey(s: string) {
    exists key, i :: IsExactKey(key) && 0 <= i && OccursAt(key, s, i)
  }

  lemma OccursLater(part: string, s: string, n: nat, i: nat)
    requires n <= |s| && OccursAt(part, s[n..], i)
    ensures OccursAt(part, s, n + i)
  {
    assert s[n..][i..] == s[n + i..];
  }

  lemma {:induction false} FirstTokenStays(s: string)
    requires s != "" && !HoldsKey(s)
    ensures QuotedText(NextToken(s)) == Text(NextToken(s)) && !HoldsKey(s[|Text(NextToken(s))|..])
  {
    var t := NextToken(s);
    var rest := s[|Text(t)|..];
    KeyAtFinds(s);
    if t.Keyed? {
      CharactersAre(t.key, ' ');
      assert s[0..] == s;
      assert OccursAt(t.key, s, 0);
    }
    if HoldsKey(rest) {
      var key, i :| IsExactKey(key) && 0 <= i && OccursAt(key, rest, i);
      OccursLater(key, s, |Text(t)|, i);
    }
  }

  /** A text in which none of the keys occurs is left as it is. */
  lemma {:induction false} WithoutKeyNothingChanges(s: string)
    requires !HoldsKey(s)
    ensures Quoted(Lex(s)) == s
  {
    if s != "" {
      var t := NextToken(s);
      FirstTokenStays(s);
      WithoutKeyNothingChanges(s[|Text(t)|..]);
      assert Lex(s)[1..] == Lex(s[|Text(t)|..]);
    }
  }

  // ---------- Refusal ----------

  /** The escape for NUL occurs somewhere in the text. */
  ghost predicate HoldsNulEscape(s: string) {
    exists i :: 0 <= i && OccursAt("\\u0000", s, i)
  }

  lemma {:induction false} RefusedTokenHolds(t: Token, s: string)
    requires RefusedToken(t) && Text(t) <= s
    ensures HoldsNulEscape(s)
  {
    var body := t.text[1..];
    var k :| 0 <= k <= |body| && NulAt(body, k);
    assert NUL_ESCAPE == "\\u0000";
    assert body[k..] == t.text[1 + k..];
    assert t.text[1 + k..] <= s[1 + k..];
    assert OccursAt("\\u0000", s, 1 + k);
  }

  /** A text in which the escape for NUL does not occur is not refused. */
  lemma {:induction false} WithoutNulNotRefused(s: string)
    ensures Refused(Lex(s)) ==> HoldsNulEscape(s)
  {
    if s != "" && Refused(Lex(s)) {
      var t := NextToken(s);
      var rest := s[|Text(t)|..];
      LexStep(s);
      if RefusedToken(t) {
        RefusedTokenHolds(t, s);
      } else {
        WithoutNulNotRefused(rest);
        var i :| 0 <= i && OccursAt("\\u0000", rest, i);
        OccursLater("\\u0000", s, |Text(t)|, i);
      }
    }
  }

  // ---------- Strings ----------

  /** A character of a string that stands for itself, or an escape. */
  datatype Unit = Literal(c: char) | Escape(c: char)

  predicate IsUnit(u: Unit) {
    u.Literal? ==> u.c != '"' && u.c != '\\'
  }

  predicate AllUnits(units: seq<Unit>) {
    forall i :: 0 <= i < |units| ==> IsUnit(units[i])
  }

  function Render(units: seq<Unit>): string {
    if units == [] then ""
    else (match units[0] case Literal(c) => [c] case Escape(c) => ['\\', c]) + Render(units[1..])
  }

  lemma {:induction false} RenderIsBody(units: seq<Unit>)
    requires AllUnits(units)
    ensures IsStringBody(Render(units))
  {
    if units != [] {
      var rest := Render(units[1..]);
      RenderIsBody(units[1..]);
      assert units[0].Literal? ==> Render(units)[1..] == rest;
      assert units[0].Escape? ==> Render(units)[2..] == rest;
    }
  }

  /** A string that is not one of the keys is copied as it is, with all its escapes and whatever it
      holds, a key above all. */
  lemma {:induction false} StringsStay(before: string, units: seq<Unit>, after: string)
    requires EndsOutside(before) && AllUnits(units) && !IsExactKey("\"" + Render(units) + "\"")
    ensures Quoted(Lex(before + ("\"" + Render(units) + "\"" + after)))
            == Quoted(Lex(before)) + ("\"" + Render(units) + "\"" + Quoted(Lex(after)))
  {
    var text := "\"" + Render(units) + "\"";
    RenderIsBody(units);
    assert text[1..|text| - 1] == Render(units);
    ClosedIsNoKey(text);
    ClosedNotKey(text, after);
    LexLexes(before);
    LexLexes(after);
    LexesCons(Str(text), Lex(after), after);
    LexingContinues(Lex(before), before, [Str(text)] + Lex(after), text + after);
    LexingIsUnique(Lex(before) + ([Str(text)] + Lex(after)), before + (text + after));
    QuotedAppend(Lex(before), [Str(text)] + Lex(after));
    assert ([Str(text)] + Lex(after))[1..] == Lex(after);
  }

  /** A closed string that starts with a key is that key. */
  lemma {:induction false} ClosedIsNoKey(text: string)
    requires IsClosedString(text) && !IsExactKey(text)
    ensures !StartsWithKey(text)
  {
    forall i | 0 <= i < |EXACT_INTEGER_KEYS|
      ensures !(EXACT_INTEGER_KEYS[i] <= text)
    {
      var key := EXACT_INTEGER_KEYS[i];
      CharactersAre(key, ' ');
      KeyShape(i);
      KeyEnds(i);
      if key <= text && |key| < |text| {
        QuoteEndsBody(text[1..|text| - 1], |key| - 2);
        assert false;
      }
      assert key <= text && |key| == |text| ==> key == text;
    }
  }

  /** There is no quote in a body without a backslash before it. */
  lemma {:induction false} QuoteEndsBody(body: string, k: nat)
    requires IsStringBody(body) && k < |body| && forall j :: 0 <= j < k ==> body[j] != '\\'
    ensures body[k] != '"'
  {
    if k > 0 {
      QuoteEndsBody(body[1..], k - 1);
    }
  }

  lemma KeyEnds(i: nat)
    requires i < |EXACT_INTEGER_KEYS|
    ensures EXACT_INTEGER_KEYS[i][|EXACT_INTEGER_KEYS[i]| - 1] == '"'
  {
  }

  lemma {:induction false} NulIsFound(units: seq<Unit>, rest: string)
    requires AllUnits(units)
    ensures FindsNul(Render(units) + ("\\u0000" + rest))
  {
    var nul := "\\u0000" + rest;
    var s := Render(units) + nul;
    if units == [] {
      assert s == nul;
      assert NUL_ESCAPE <= s;
    } else {
      NulIsFound(units[1..], rest);
      assert units[0].Literal? ==> s[1..] == Render(units[1..]) + nul;
      assert units[0].Escape? ==> s[2..] == Render(units[1..]) + nul;
    }
  }

  /** The characters in front of the first escape. */
  function Plain(units: seq<Unit>): string {
    if units == [] || units[0].Escape? then "" else [units[0].c] + Plain(units[1..])
  }

  lemma {:induction false} PlainThenEscape(units: seq<Unit>, rest: string)
    requires AllUnits(units)
    ensures forall i :: 0 <= i < |Plain(units)| ==> Plain(units)[i] != '"' && Plain(units)[i] != '\\'
    ensures Plain(units) + "\\" <= Render(units) + ("\\" + rest)
  {
    var s := Render(units) + ("\\" + rest);
    if units != [] && units[0].Literal? {
      PlainThenEscape(units[1..], rest);
      assert s == [units[0].c] + (Render(units[1..]) + ("\\" + rest));
    } else if units != [] {
      assert s[0] == '\\';
    }
  }

  lemma NoKeyBeforeEscape(plain: string, s: string)
    requires forall i :: 0 <= i < |plain| ==> plain[i] != '"' && plain[i] != '\\'
    requires "\"" + plain + "\\" <= s
    ensures !StartsWithKey(s)
  {
    forall i | 0 <= i < |EXACT_INTEGER_KEYS|
      ensures !(EXACT_INTEGER_KEYS[i] <= s)
    {
      var key := EXACT_INTEGER_KEYS[i];
      KeyShape(i);
      KeyEnds(i);
      if |plain| + 1 < |key| - 1 {
        KeyInterior(i, |plain| + 1);
      }
      assert s[|plain| + 1] == '\\' && (|key| - 1 <= |plain| ==> s[|key| - 1] == plain[|key| - 2]);
    }
  }

  /** A string that holds the escape for NUL, behind any other characters and escapes, makes the document
      refused, wherever it stands. */
  lemma {:induction false} NulIsRefused(before: string, units: seq<Unit>, rest: string)
    requires EndsOutside(before) && AllUnits(units)
    ensures Refused(Lex(before + ("\"" + (Render(units) + ("\\u0000" + rest)))))
  {
    var tail := Render(units) + ("\\u0000" + rest);
    var s := "\"" + tail;
    assert s[1..] == tail;
    assert "\\u0000" + rest == "\\" + ("u0000" + rest);
    PlainThenEscape(units, "u0000" + rest);
    NoKeyBeforeEscape(Plain(units), s);
    KeyAtFinds(s);
    NulIsFound(units, rest);
    StringIsRefused(s);
    LexStep(s);
    LexLexes(before);
    LexLexes(s);
    LexingContinues(Lex(before), before, Lex(s), s);
    LexingIsUnique(Lex(before) + Lex(s), before + s);
    RefusedAppend(Lex(before), Lex(s));
  }

  /** A backslash that is escaped itself does not make an escape of what follows. */
  lemma EscapedBackslashIsNotRefused()
    ensures !HoldsNul("\"\\\\u0000\"")
  {
    var body := "\\\\u0000\"";
    assert "\"\\\\u0000\""[1..] == body;
    forall k | 0 <= k <= |body|
      ensures !NulAt(body, k)
    {
      if k == 1 {
        assert body[..1] == "\\";
      } else if k < |body| {
        assert body[k..][0] == body[k];
        assert k == 0 ==> body[k..][1] == '\\';
      }
    }
  }
}
