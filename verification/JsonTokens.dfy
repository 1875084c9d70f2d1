/** A grammar of tokens for the rewriter that runs before cJSON parses a document. The rewriter puts
    quotes around a number given for one of four keys, so that cJSON does not round it, and refuses
    a \u0000 escape, at which cJSON would end the string.

    Every text has exactly one lexing; quoting is idempotent and local.
 */
module JsonTokens {
  import opened Slices

  const EXACT_INTEGER_KEYS: seq<string> :=
    ["\"X509SerialNumber\"", "\"MeterReading\"", "\"TMeter\"", "\"EVSETimeStamp\""]

  const NUL_ESCAPE: string := "\\u0000"

  predicate IsGap(c: char) {
    c == ' ' || c == '\t' || c == '\n' || c == '\r' || c == ':'
  }

  predicate StartsNumber(c: char) {
    c == '-' || '0' <= c <= '9'
  }

  predicate IsNumberChar(c: char) {
    c == '-' || c == '+' || c == '.' || c == 'e' || c == 'E' || '0' <= c <= '9'
  }

  predicate AllGap(s: string) {
    forall i :: 0 <= i < |s| ==> IsGap(s[i])
  }

  predicate AllNumberChars(s: string) {
    forall i :: 0 <= i < |s| ==> IsNumberChar(s[i])
  }

  // ---------- The grammar ----------

  datatype Token =
    | Plain(c: char)                                    // outside of strings
    | Keyed(key: string, gap: string, number: string)   // an exact-integer key and what follows it
    | Str(text: string)                                 // any other string, opening quote included

  function Text(t: Token): string {
    match t
    case Plain(c) => [c]
    case Keyed(key, gap, number) => key + gap + number
    case Str(text) => text
  }

  /** The token with quotes around its number. */
  function QuotedText(t: Token): string {
    match t
    case Plain(c) => [c]
    case Keyed(key, gap, number) => key + gap + if number == "" then "" else "\"" + number + "\""
    case Str(text) => text
  }

  /** Characters and two-character escapes of a JSON string. */
  predicate IsStringBody(s: string) {
    s == "" ||
    (if s[0] == '\\' then |s| >= 2 && IsStringBody(s[2..]) else s[0] != '"' && IsStringBody(s[1..]))
  }

  /** A string that a quote ends. */
  predicate IsClosedString(s: string) {
    |s| >= 2 && s[0] == '"' && s[|s| - 1] == '"' && IsStringBody(s[1..|s| - 1])
  }

  /** A string that the end of the text cuts off, possibly within an escape. */
  predicate IsOpenString(s: string) {
    |s| >= 1 && s[0] == '"' &&
    (IsStringBody(s[1..]) || (|s| >= 2 && s[|s| - 1] == '\\' && IsStringBody(s[1..|s| - 1])))
  }

  predicate StartsWithKey(s: string) {
    exists i :: 0 <= i < |EXACT_INTEGER_KEYS| && EXACT_INTEGER_KEYS[i] <= s
  }

  /** `t` is a token when `rest` follows it: runs are as long as they can be, and a string is only
      taken for a key where it is one. */
  predicate TokenBefore(t: Token, rest: string) {
    match t
    case Plain(c) => c != '"'
    case Keyed(key, gap, number) =>
      && key in EXACT_INTEGER_KEYS && AllGap(gap) && AllNumberChars(number)
      && (if number == "" then rest != "" ==> !IsGap(rest[0]) && !StartsNumber(rest[0])
          else StartsNumber(number[0]) && (rest != "" ==> !IsNumberChar(rest[0])))
    case Str(text) =>
      && !StartsWithKey(text + rest)
      && (IsClosedString(text) || (rest == "" && IsOpenString(text)))
  }

  predicate Lexes(tokens: seq<Token>, s: string) {
    if tokens == [] then s == ""
    else
      var n := |Text(tokens[0])|;
      && n <= |s| && s[..n] == Text(tokens[0])
      && TokenBefore(tokens[0], s[n..])
      && Lexes(tokens[1..], s[n..])
  }

  function Quoted(tokens: seq<Token>): string {
    if tokens == [] then "" else QuotedText(tokens[0]) + Quoted(tokens[1..])
  }

  /** An escape for NUL starts at position `k` of a string body. */
  predicate NulAt(body: string, k: nat)
    requires k <= |body|
  {
    IsStringBody(body[..k]) && NUL_ESCAPE <= body[k..]
  }

  /** The string, given with its opening quote, holds an escape for NUL at an unescaped position. */
  ghost predicate HoldsNul(text: string) {
    text != "" && exists k :: 0 <= k <= |text[1..]| && NulAt(text[1..], k)
  }

  ghost predicate RefusedToken(t: Token) {
    t.Str? && HoldsNul(t.text)
  }

  ghost predicate Refused(tokens: seq<Token>) {
    exists i :: 0 <= i < |tokens| && RefusedToken(tokens[i])
  }

  // ---------- The lexing of a text ----------

  /** The length of the key that starts `s`, 0 without one. */
  function KeyAt(s: string): (n: nat)
    ensures n <= |s|
  {
    FirstKey(s, 0)
  }

  function FirstKey(s: string, i: nat): (n: nat)
    requires i <= |EXACT_INTEGER_KEYS|
    ensures n <= |s|
    decreases |EXACT_INTEGER_KEYS| - i
  {
    if i == |EXACT_INTEGER_KEYS| then 0
    else if EXACT_INTEGER_KEYS[i] <= s then |EXACT_INTEGER_KEYS[i]|
    else FirstKey(s, i + 1)
  }

  /** A key is a quoted name of at least six letters. */
  lemma KeyShape(i: nat)
    requires i < |EXACT_INTEGER_KEYS|
    ensures |EXACT_INTEGER_KEYS[i]| >= 8 && EXACT_INTEGER_KEYS[i][0] == '"'
  {
  }

  lemma {:induction false} FirstKeyFinds(s: string, i: nat)
    requires i <= |EXACT_INTEGER_KEYS|
    ensures FirstKey(s, i) > 0 <==> exists j :: i <= j < |EXACT_INTEGER_KEYS| && EXACT_INTEGER_KEYS[j] <= s
    ensures FirstKey(s, i) > 0 ==> 8 <= FirstKey(s, i) && s[..FirstKey(s, i)] in EXACT_INTEGER_KEYS && s[0] == '"'
    decreases |EXACT_INTEGER_KEYS| - i
  {
    if i < |EXACT_INTEGER_KEYS| {
      if EXACT_INTEGER_KEYS[i] <= s {
        KeyShape(i);
        assert s[..|EXACT_INTEGER_KEYS[i]|] == EXACT_INTEGER_KEYS[i];
      } else {
        FirstKeyFinds(s, i + 1);
      }
    }
  }

  lemma KeyAtFinds(s: string)
    ensures KeyAt(s) > 0 <==> StartsWithKey(s)
    ensures KeyAt(s) > 0 ==> 8 <= KeyAt(s) && s[..KeyAt(s)] in EXACT_INTEGER_KEYS && s[0] == '"'
  {
    FirstKeyFinds(s, 0);
  }

  function GapLen(s: string): (n: nat)
    ensures n <= |s|
  {
    if s == "" || !IsGap(s[0]) then 0 else 1 + GapLen(s[1..])
  }

  function RunLen(s: string): (n: nat)
    ensures n <= |s|
  {
    if s == "" || !IsNumberChar(s[0]) then 0 else 1 + RunLen(s[1..])
  }

  lemma {:induction false} GapIsMaximal(s: string)
    ensures var n := GapLen(s); AllGap(s[..n]) && (n < |s| ==> !IsGap(s[n]))
  {
    if s != "" && IsGap(s[0]) {
      var n := GapLen(s[1..]);
      GapIsMaximal(s[1..]);
      assert s[..n + 1] == [s[0]] + s[1..][..n];
    }
  }

  lemma {:induction false} RunIsMaximal(s: string)
    ensures var n := RunLen(s); AllNumberChars(s[..n]) && (n < |s| ==> !IsNumberChar(s[n]))
  {
    if s != "" && IsNumberChar(s[0]) {
      var n := RunLen(s[1..]);
      RunIsMaximal(s[1..]);
      assert s[..n + 1] == [s[0]] + s[1..][..n];
    }
  }

  function NumberLen(s: string): (n: nat)
    ensures n <= |s|
  {
    if s != "" && StartsNumber(s[0]) then RunLen(s) else 0
  }

  /** What a string takes up after its opening quote. */
  function StringLen(s: string): (n: nat)
    ensures n <= |s|
  {
    if s == "" then 0
    else if s[0] == '"' then 1
    else if s[0] == '\\' && |s| > 1 then 2 + StringLen(s[2..])
    else 1 + StringLen(s[1..])
  }

  function NextToken(s: string): (t: Token)
    requires s != ""
    ensures Text(t) <= s && Text(t) != ""
  {
    if s[0] != '"' then Plain(s[0])
    else if KeyAt(s) > 0 then KeyedAt(s, KeyAt(s))
    else Str(s[..1 + StringLen(s[1..])])
  }

  /** A key of `k` characters, the gap after it and the number after that. */
  function KeyedAt(s: string, k: nat): (t: Token)
    requires 0 < k <= |s|
    ensures Text(t) <= s && Text(t) != ""
  {
    var g := k + GapLen(s[k..]);
    var n := g + NumberLen(s[g..]);
    assert s[..k] + s[k..g] + s[g..n] == s[..n];
    Keyed(s[..k], s[k..g], s[g..n])
  }

  function Lex(s: string): seq<Token> {
    if s == "" then [] else [NextToken(s)] + Lex(s[|Text(NextToken(s))|..])
  }

  // ---------- Every text has exactly one lexing ----------

  /** What StringLen delimits: a closed string, or everything. */
  lemma {:induction false} StringLenDelimits(s: string)
    ensures var n := StringLen(s);
            || (n >= 1 && s[n - 1] == '"' && IsStringBody(s[..n - 1]))
            || (n == |s| && IsStringBody(s))
            || (n == |s| && n >= 1 && s[n - 1] == '\\' && IsStringBody(s[..n - 1]))
  {
    if s == "" || s[0] == '"' {
    } else if s[0] == '\\' && |s| > 1 {
      var tail := s[2..];
      StringLenDelimits(tail);
      var m := StringLen(tail);
      assert m >= 1 ==> s[..m + 1][2..] == tail[..m - 1];
    } else {
      var tail := s[1..];
      StringLenDelimits(tail);
      var m := StringLen(tail);
      assert m >= 1 ==> s[..m][1..] == tail[..m - 1];
    }
  }

  /** ... and nothing ends it earlier. */
  lemma {:induction false} StringLenAfterBody(body: string, rest: string)
    requires IsStringBody(body)
    ensures StringLen(body + rest) == |body| + StringLen(rest)
  {
    var s := body + rest;
    if body == "" {
      assert s == rest;
    } else if body[0] == '\\' {
      StringLenAfterBody(body[2..], rest);
      assert s[2..] == body[2..] + rest;
    } else {
      StringLenAfterBody(body[1..], rest);
      assert s[1..] == body[1..] + rest;
    }
  }

  lemma NextIsToken(s: string)
    requires s != ""
    ensures TokenBefore(NextToken(s), s[|Text(NextToken(s))|..])
  {
    KeyAtFinds(s);
    if s[0] != '"' {
    } else if KeyAt(s) > 0 {
      KeyedAtIsToken(s, KeyAt(s));
    } else {
      StrAtIsToken(s, 1 + StringLen(s[1..]));
    }
  }

  lemma {:induction false} StrAtIsToken(s: string, n: nat)
    requires s != "" && s[0] == '"' && !StartsWithKey(s) && n == 1 + StringLen(s[1..])
    ensures TokenBefore(Str(s[..n]), s[n..])
  {
    var text := s[..n];
    StringLenDelimits(s[1..]);
    assert text + s[n..] == s;
    SliceOfPrefix(s, n, 1);
    assert n == |s| ==> text == s;
    if n >= 2 {
      SliceOfPrefix(s, n - 1, 1);
      assert text[1..n - 1] == s[1..n - 1];
    }
  }

  lemma KeyedAtIsToken(s: string, k: nat)
    requires 0 < k <= |s| && s[..k] in EXACT_INTEGER_KEYS
    ensures TokenBefore(KeyedAt(s, k), s[|Text(KeyedAt(s, k))|..])
  {
    var g := k + GapLen(s[k..]);
    var n := g + NumberLen(s[g..]);
    KeyedFromRuns(s, k, g, n);
    GapOfSuffix(s, k, g);
    NumberOfSuffix(s, g, n);
    RunsAreToken(s, k, g, n);
  }

  lemma RunsAreToken(s: string, k: nat, g: nat, n: nat)
    requires k <= g <= n <= |s| && s[..k] in EXACT_INTEGER_KEYS
    requires AllGap(s[k..g]) && AllNumberChars(s[g..n]) && (g < |s| ==> !IsGap(s[g]))
    requires if n == g then g < |s| ==> !StartsNumber(s[g])
             else StartsNumber(s[g]) && (n < |s| ==> !IsNumberChar(s[n]))
    ensures TokenBefore(Keyed(s[..k], s[k..g], s[g..n]), s[n..])
  {
    var number, rest := s[g..n], s[n..];
    assert number != "" ==> number[0] == s[g];
    assert rest != "" ==> rest[0] == s[n];
  }

  lemma {:induction false} GapOfSuffix(s: string, k: nat, g: nat)
    requires k <= |s| && g == k + GapLen(s[k..])
    ensures AllGap(s[k..g]) && (g < |s| ==> !IsGap(s[g]))
  {
    GapIsMaximal(s[k..]);
    SliceOfSuffix(s, k, g - k, g - k);
  }

  lemma NumberOfSuffix(s: string, g: nat, n: nat)
    requires g <= |s| && n == g + NumberLen(s[g..])
    ensures AllNumberChars(s[g..n])
    ensures if n == g then g < |s| ==> !StartsNumber(s[g])
            else StartsNumber(s[g]) && (n < |s| ==> !IsNumberChar(s[n]))
  {
    if n > g {
      RunIsMaximal(s[g..]);
      SliceOfSuffix(s, g, n - g, n - g);
    }
  }

  lemma {:induction false} LexLexes(s: string)
    ensures Lexes(Lex(s), s)
  {
    if s != "" {
      NextIsToken(s);
      var n := |Text(NextToken(s))|;
      assert Lex(s)[1..] == Lex(s[n..]);
      LexLexes(s[n..]);
    }
  }

  /** The keys are prefix-free, so at most one of them starts a text. */
  lemma KeysPrefixFree(key: string, s: string)
    requires key in EXACT_INTEGER_KEYS && key <= s
    ensures s[..KeyAt(s)] == key && |key| >= 8 && key[0] == '"'
  {
    KeyAtFinds(s);
    assert key == EXACT_INTEGER_KEYS[0] || key == EXACT_INTEGER_KEYS[1] || key == EXACT_INTEGER_KEYS[2] || key == EXACT_INTEGER_KEYS[3];
    assert key[1] == s[1] && key[2] == s[2];
  }

  lemma {:induction false} GapIsRun(gap: string, rest: string)
    requires AllGap(gap) && (rest != "" ==> !IsGap(rest[0]))
    ensures GapLen(gap + rest) == |gap|
  {
    if gap != "" {
      GapIsRun(gap[1..], rest);
      assert (gap + rest)[1..] == gap[1..] + rest;
    } else {
      assert gap + rest == rest;
    }
  }

  lemma {:induction false} NumberIsRun(number: string, rest: string)
    requires AllNumberChars(number) && (rest != "" ==> !IsNumberChar(rest[0]))
    ensures RunLen(number + rest) == |number|
  {
    if number != "" {
      NumberIsRun(number[1..], rest);
      assert (number + rest)[1..] == number[1..] + rest;
    } else {
      assert number + rest == rest;
    }
  }

  lemma KeyedIsNext(s: string, k: nat, g: nat, n: nat)
    requires k <= g <= n <= |s|
    requires TokenBefore(Keyed(s[..k], s[k..g], s[g..n]), s[n..])
    ensures s != "" && NextToken(s) == Keyed(s[..k], s[k..g], s[g..n])
  {
    KeysPrefixFree(s[..k], s);
    KeyedRuns(s, k, g, n);
  }

  lemma KeyedRuns(s: string, k: nat, g: nat, n: nat)
    requires 0 < k <= g <= n <= |s|
    requires AllGap(s[k..g]) && AllNumberChars(s[g..n])
    requires if g == n then g < |s| ==> !IsGap(s[g]) && !StartsNumber(s[g])
             else StartsNumber(s[g]) && (n < |s| ==> !IsNumberChar(s[n]))
    ensures KeyedAt(s, k) == Keyed(s[..k], s[k..g], s[g..n])
  {
    GapFrom(s, k, g);
    NumberFrom(s, g, n);
    KeyedFromRuns(s, k, g, n);
  }

  lemma {:induction false} GapFrom(s: string, k: nat, g: nat)
    requires k <= g <= |s| && AllGap(s[k..g]) && (g < |s| ==> !IsGap(s[g]))
    ensures GapLen(s[k..]) == g - k
  {
    assert s[k..g] + s[g..] == s[k..];
    GapIsRun(s[k..g], s[g..]);
  }

  lemma NumberFrom(s: string, g: nat, n: nat)
    requires g <= n <= |s| && AllNumberChars(s[g..n])
    requires if g == n then g < |s| ==> !StartsNumber(s[g])
             else StartsNumber(s[g]) && (n < |s| ==> !IsNumberChar(s[n]))
    ensures NumberLen(s[g..]) == n - g
  {
    assert s[g..n] + s[n..] == s[g..];
    if g < n {
      NumberIsRun(s[g..n], s[n..]);
    }
  }

  lemma {:induction false} KeyedFromRuns(s: string, k: nat, g: nat, n: nat)
    requires 0 < k <= g <= n <= |s|
    requires GapLen(s[k..]) == g - k && NumberLen(s[g..]) == n - g
    ensures KeyedAt(s, k) == Keyed(s[..k], s[k..g], s[g..n])
  {
  }

  lemma StrIsNext(text: string, rest: string)
    requires TokenBefore(Str(text), rest)
    ensures NextToken(text + rest) == Str(text)
  {
    var s := text + rest;
    KeyAtFinds(s);
    if IsClosedString(text) {
      var body := text[1..|text| - 1];
      StringLenAfterBody(body, "\"" + rest);
      assert s[1..] == body + ("\"" + rest);
    } else {
      assert s == text;
      if IsStringBody(text[1..]) {
        StringLenAfterBody(text[1..], "");
        assert text[1..] + "" == text[1..];
      } else {
        var body := text[1..|text| - 1];
        StringLenAfterBody(body, "\\");
        assert s[1..] == body + "\\";
      }
    }
    assert s[..|text|] == text;
  }

  lemma TokenIsNext(t: Token, s: string)
    requires Text(t) <= s && TokenBefore(t, s[|Text(t)|..])
    ensures s != "" && NextToken(s) == t
  {
    var rest := s[|Text(t)|..];
    assert s == Text(t) + rest;
    match t
    case Plain(c) =>
    case Keyed(key, gap, number) =>
      var k, g, n := |key|, |key| + |gap|, |key| + |gap| + |number|;
      assert s[..k] == key && s[k..g] == gap && s[g..n] == number && s[n..] == rest;
      KeyedIsNext(s, k, g, n);
    case Str(text) => StrIsNext(text, rest);
  }

  /** A lexing is the lexing. */
  lemma {:induction false} LexingIsUnique(tokens: seq<Token>, s: string)
    requires Lexes(tokens, s)
    ensures tokens == Lex(s)
  {
    if tokens != [] {
      TokenIsNext(tokens[0], s);
      LexingIsUnique(tokens[1..], s[|Text(tokens[0])|..]);
      assert tokens == [tokens[0]] + tokens[1..];
    }
  }

  lemma {:induction false} LexStep(s: string)
    requires s != ""
    ensures var t := NextToken(s);
            && Quoted(Lex(s)) == QuotedText(t) + Quoted(Lex(s[|Text(t)|..]))
            && (Refused(Lex(s)) <==> RefusedToken(t) || Refused(Lex(s[|Text(t)|..])))
            && 4 * (|QuotedText(t)| - |Text(t)|) <= |Text(t)|
  {
    KeyAtFinds(s);
    var t := NextToken(s);
    var rest := Lex(s[|Text(t)|..]);
    assert Lex(s) == [t] + rest;
    assert Lex(s)[1..] == rest;
    RefusedStep(t, rest);
  }

  lemma RefusedStep(t: Token, rest: seq<Token>)
    ensures Refused([t] + rest) <==> RefusedToken(t) || Refused(rest)
  {
    var tokens := [t] + rest;
    assert forall i :: 0 <= i < |rest| ==> rest[i] == tokens[i + 1];
    if Refused(rest) {
      var i :| 0 <= i < |rest| && RefusedToken(rest[i]);
      assert RefusedToken(tokens[i + 1]);
    }
    if RefusedToken(t) {
      assert RefusedToken(tokens[0]);
    }
  }

  // ---------- What the rewrite means ----------

  /** No quote or backslash within a key, and a letter after its opening quote. */
  lemma KeyInterior(i: nat, p: nat)
    requires i < |EXACT_INTEGER_KEYS| && 0 < p < |EXACT_INTEGER_KEYS[i]| - 1
    ensures EXACT_INTEGER_KEYS[i][p] != '"' && EXACT_INTEGER_KEYS[i][p] != '\\'
    ensures !StartsNumber(EXACT_INTEGER_KEYS[i][1])
  {
  }

  /** What follows a closed string does not turn it into a key. */
  lemma ClosedNotKey(text: string, rest: string)
    requires IsClosedString(text)
    ensures StartsWithKey(text + rest) <==> StartsWithKey(text)
  {
    forall i | 0 <= i < |EXACT_INTEGER_KEYS|
      ensures EXACT_INTEGER_KEYS[i] <= text + rest <==> EXACT_INTEGER_KEYS[i] <= text
    {
      var key := EXACT_INTEGER_KEYS[i];
      if |key| > |text| {
        KeyInterior(i, |text| - 1);
        assert (text + rest)[|text| - 1] == '"';
      }
    }
  }

  lemma {:induction false} LexesCons(t: Token, tokens: seq<Token>, rest: string)
    requires TokenBefore(t, rest) && Lexes(tokens, rest)
    ensures Lexes([t] + tokens, Text(t) + rest)
  {
    Halves(Text(t), rest);
    assert ([t] + tokens)[1..] == tokens;
  }

  lemma TokenIsNonempty(t: Token, rest: string)
    requires TokenBefore(t, rest)
    ensures Text(t) != ""
  {
    if t.Keyed? {
      var i :| 0 <= i < |EXACT_INTEGER_KEYS| && EXACT_INTEGER_KEYS[i] == t.key;
      KeyShape(i);
    }
  }

  /** A number that has been quoted is a string of its own. */
  function Requote(t: Token): seq<Token> {
    if t.Keyed? && t.number != "" then [t.(number := ""), Str("\"" + t.number + "\"")] else [t]
  }

  function RequoteAll(tokens: seq<Token>): seq<Token> {
    if tokens == [] then [] else Requote(tokens[0]) + RequoteAll(tokens[1..])
  }

  lemma {:induction false} NumberIsBody(number: string)
    requires AllNumberChars(number)
    ensures IsStringBody(number)
  {
    if number != "" {
      NumberIsBody(number[1..]);
    }
  }

  /** A quoted number is a string token, no key, and holds no escape. */
  lemma QuotedNumber(number: string, rest: string)
    requires number != "" && AllNumberChars(number) && StartsNumber(number[0])
    ensures TokenBefore(Str("\"" + number + "\""), rest) && !HoldsNul("\"" + number + "\"")
  {
    var text := "\"" + number + "\"";
    assert text[1..|text| - 1] == number;
    NumberIsBody(number);
    forall i | 0 <= i < |EXACT_INTEGER_KEYS|
      ensures !(EXACT_INTEGER_KEYS[i] <= text + rest)
    {
      KeyShape(i);
      KeyInterior(i, 1);
      assert (text + rest)[1] == number[0];
    }
    forall k | 0 <= k <= |text[1..]|
      ensures !NulAt(text[1..], k)
    {
      if k < |text[1..]| {
        assert text[1..][k..][0] == text[k + 1];
        assert text[k + 1] != '\\';
      }
    }
  }

  /** The head of a lexing, after quoting: a number becomes a string of its own, ... */
  lemma {:induction false} RelexNumber(t: Token, rest: string, tokens: seq<Token>, quoted: string)
    requires TokenBefore(t, rest) && t.Keyed? && t.number != "" && Lexes(tokens, quoted)
    ensures Lexes(Requote(t) + tokens, QuotedText(t) + quoted)
  {
    var number := "\"" + t.number + "\"";
    var bare := t.(number := "");
    QuotedNumber(t.number, quoted);
    LexesCons(Str(number), tokens, quoted);
    LexesCons(bare, [Str(number)] + tokens, number + quoted);
    Associative([bare], [Str(number)], tokens);
    QuotedSplit(t, quoted);
  }

  lemma QuotedSplit(t: Token, quoted: string)
    requires t.Keyed? && t.number != ""
    ensures Text(t.(number := "")) + ("\"" + t.number + "\"" + quoted) == QuotedText(t) + quoted
  {
    Whole(t.key + t.gap);
    Associative(t.key + t.gap, "\"" + t.number + "\"", quoted);
  }

  /** ... and any other token stays what it is. */
  lemma TokenStays(t: Token, rest: string, quoted: string)
    requires TokenBefore(t, rest) && (t.Keyed? ==> t.number == "")
    requires (rest == "" <==> quoted == "") && (rest != "" ==> rest[0] == quoted[0])
    ensures TokenBefore(t, quoted)
  {
    if t.Str? && IsClosedString(t.text) {
      ClosedNotKey(t.text, rest);
      ClosedNotKey(t.text, quoted);
    }
  }

  lemma {:induction false} RelexHead(t: Token, rest: string, tokens: seq<Token>, quoted: string)
    requires TokenBefore(t, rest) && Lexes(tokens, quoted)
    requires (rest == "" <==> quoted == "") && (rest != "" ==> rest[0] == quoted[0])
    ensures Lexes(Requote(t) + tokens, QuotedText(t) + quoted)
  {
    if t.Keyed? && t.number != "" {
      RelexNumber(t, rest, tokens, quoted);
    } else {
      TokenStays(t, rest, quoted);
      LexesCons(t, tokens, quoted);
    }
  }

  lemma SameStart(t: Token, rest: string)
    requires TokenBefore(t, rest)
    ensures QuotedText(t) != "" && Text(t) != "" && QuotedText(t)[0] == Text(t)[0]
  {
    if t.Keyed? {
      KeyIsQuoted(t.key);
    }
  }

  lemma KeyIsQuoted(key: string)
    requires key in EXACT_INTEGER_KEYS
    ensures key != "" && key[0] == '"'
  {
    var i :| 0 <= i < |EXACT_INTEGER_KEYS| && EXACT_INTEGER_KEYS[i] == key;
    KeyShape(i);
  }

  lemma {:induction false} Relex(tokens: seq<Token>, s: string)
    requires Lexes(tokens, s)
    ensures Lexes(RequoteAll(tokens), Quoted(tokens))
    ensures (s == "" <==> Quoted(tokens) == "") && (s != "" ==> Quoted(tokens)[0] == s[0])
  {
    if tokens != [] {
      var n := |Text(tokens[0])|;
      Relex(tokens[1..], s[n..]);
      SameStart(tokens[0], s[n..]);
      RelexHead(tokens[0], s[n..], RequoteAll(tokens[1..]), Quoted(tokens[1..]));
    }
  }

  lemma {:induction false} RequoteKeepsText(tokens: seq<Token>)
    ensures Quoted(RequoteAll(tokens)) == Quoted(tokens)
  {
    if tokens != [] {
      RequoteKeepsText(tokens[1..]);
      var t, rest := tokens[0], RequoteAll(tokens[1..]);
      if t.Keyed? && t.number != "" {
        var all := Requote(t) + rest;
        assert all[1..][1..] == rest;
      } else {
        assert (Requote(t) + rest)[1..] == rest;
      }
    }
  }

  lemma {:induction false} RequoteKeepsRefusal(tokens: seq<Token>, s: string)
    requires Lexes(tokens, s)
    ensures Refused(RequoteAll(tokens)) <==> Refused(tokens)
  {
    if tokens != [] {
      var t, rest := tokens[0], RequoteAll(tokens[1..]);
      RequoteKeepsRefusal(tokens[1..], s[|Text(t)|..]);
      assert tokens == [t] + tokens[1..];
      RefusedStep(t, tokens[1..]);
      if t.Keyed? && t.number != "" {
        var quoted := Str("\"" + t.number + "\"");
        QuotedNumber(t.number, "");
        RefusedStep(quoted, rest);
        RefusedStep(t.(number := ""), [quoted] + rest);
        assert Requote(t) + rest == [t.(number := "")] + ([quoted] + rest);
      } else {
        RefusedStep(t, rest);
      }
    }
  }

  /** Preparing a prepared text changes nothing. */
  lemma {:induction false} PreparedIsFixed(s: string)
    ensures Quoted(Lex(Quoted(Lex(s)))) == Quoted(Lex(s))
    ensures Refused(Lex(Quoted(Lex(s)))) <==> Refused(Lex(s))
  {
    LexLexes(s);
    Relex(Lex(s), s);
    LexingIsUnique(RequoteAll(Lex(s)), Quoted(Lex(s)));
    RequoteKeepsText(Lex(s));
    RequoteKeepsRefusal(Lex(s), s);
  }

  /** More text does not change a token that another one follows. */
  lemma TokenContinues(t: Token, tail: string, rest: string)
    requires TokenBefore(t, tail) && (t.Plain? || tail != "")
    ensures TokenBefore(t, tail + rest)
  {
    if t.Str? {
      ClosedNotKey(t.text, tail);
      ClosedNotKey(t.text, tail + rest);
    }
  }

  /** A text that ends outside of strings and numbers lexes the same whatever follows it. */
  lemma {:induction false} LexingContinues(tokens: seq<Token>, s: string, more: seq<Token>, rest: string)
    requires Lexes(tokens, s) && Lexes(more, rest)
    requires tokens == [] || tokens[|tokens| - 1].Plain?
    ensures Lexes(tokens + more, s + rest)
  {
    if tokens == [] {
      Whole(rest);
      Whole(more);
    } else {
      var t := tokens[0];
      var tail := s[|Text(t)|..];
      LexingContinues(tokens[1..], tail, more, rest);
      if |tokens| > 1 {
        TokenIsNonempty(tokens[1], tail[|Text(tokens[1])|..]);
      }
      TokenContinues(t, tail, rest);
      LexesCons(t, tokens[1..] + more, tail + rest);
      assert [t] + tokens[1..] == tokens;
      Associative([t], tokens[1..], more);
      assert Text(t) + tail == s;
      Associative(Text(t), tail, rest);
    }
  }

  lemma {:induction false} QuotedAppend(a: seq<Token>, b: seq<Token>)
    ensures Quoted(a + b) == Quoted(a) + Quoted(b)
  {
    if a == [] {
      Whole(b);
    } else {
      QuotedAppend(a[1..], b);
      assert (a + b)[1..] == a[1..] + b;
      Associative(QuotedText(a[0]), Quoted(a[1..]), Quoted(b));
    }
  }

  lemma {:induction false} QuotedMember(key: string, gap: string, number: string, after: string)
    requires number != ""
    ensures Quoted([Keyed(key, gap, number)] + Lex(after)) == key + gap + "\"" + number + "\"" + Quoted(Lex(after))
  {
    var tokens := [Keyed(key, gap, number)] + Lex(after);
    assert tokens[1..] == Lex(after);
    Associative(key + gap, "\"", number);
    Associative(key + gap, "\"" + number, "\"");
  }

  lemma {:induction false} MemberLexing(before: string, key: string, gap: string, number: string, after: string)
    requires before == "" || Lex(before)[|Lex(before)| - 1].Plain?
    requires TokenBefore(Keyed(key, gap, number), after)
    ensures Lex(before + (key + gap + number + after)) == Lex(before) + ([Keyed(key, gap, number)] + Lex(after))
  {
    var token := Keyed(key, gap, number);
    LexLexes(before);
    LexLexes(after);
    LexesCons(token, Lex(after), after);
    LexingContinues(Lex(before), before, [token] + Lex(after), key + gap + number + after);
    LexingIsUnique(Lex(before) + ([token] + Lex(after)), before + (key + gap + number + after));
  }

  /** Wherever a number is given for one of the keys, it and it alone gains quotes. */
  lemma {:induction false} MemberIsQuoted(before: string, key: string, gap: string, number: string, after: string)
    requires before == "" || Lex(before)[|Lex(before)| - 1].Plain?
    requires TokenBefore(Keyed(key, gap, number), after) && number != ""
    ensures Quoted(Lex(before + (key + gap + number + after)))
            == Quoted(Lex(before)) + (key + gap + "\"" + number + "\"" + Quoted(Lex(after)))
  {
    MemberLexing(before, key, gap, number, after);
    QuotedAppend(Lex(before), [Keyed(key, gap, number)] + Lex(after));
    QuotedMember(key, gap, number, after);
  }

  lemma {:induction false} RefusedAppend(a: seq<Token>, b: seq<Token>)
    ensures Refused(a + b) <==> Refused(a) || Refused(b)
  {
    if a == [] {
      Whole(b);
    } else {
      RefusedAppend(a[1..], b);
      RefusedStep(a[0], a[1..]);
      RefusedStep(a[0], a[1..] + b);
      assert a == [a[0]] + a[1..];
      assert a + b == [a[0]] + (a[1..] + b);
    }
  }

  /** A number is never the reason for a refusal. */
  lemma {:induction false} MemberRefusal(before: string, key: string, gap: string, number: string, after: string)
    requires before == "" || Lex(before)[|Lex(before)| - 1].Plain?
    requires TokenBefore(Keyed(key, gap, number), after)
    ensures Refused(Lex(before + (key + gap + number + after))) <==> Refused(Lex(before)) || Refused(Lex(after))
  {
    MemberLexing(before, key, gap, number, after);
    RefusedAppend(Lex(before), [Keyed(key, gap, number)] + Lex(after));
    RefusedStep(Keyed(key, gap, number), Lex(after));
  }

  lemma {:induction false} RequoteAppend(a: seq<Token>, b: seq<Token>)
    ensures RequoteAll(a + b) == RequoteAll(a) + RequoteAll(b)
  {
    if a == [] {
      Whole(b);
    } else {
      RequoteAppend(a[1..], b);
      assert (a + b)[1..] == a[1..] + b;
      Associative(Requote(a[0]), RequoteAll(a[1..]), RequoteAll(b));
    }
  }

  /** After preparation such a number is the string that follows its key, and the rest of the document
      is what preparation makes of it. */
  lemma {:induction false} MemberRelexing(before: string, key: string, gap: string, number: string, after: string)
    requires before == "" || Lex(before)[|Lex(before)| - 1].Plain?
    requires TokenBefore(Keyed(key, gap, number), after) && number != ""
    ensures Lex(Quoted(Lex(before + (key + gap + number + after))))
            == RequoteAll(Lex(before)) + ([Keyed(key, gap, ""), Str("\"" + number + "\"")] + RequoteAll(Lex(after)))
  {
    var s := before + (key + gap + number + after);
    var token := Keyed(key, gap, number);
    LexLexes(s);
    Relex(Lex(s), s);
    LexingIsUnique(RequoteAll(Lex(s)), Quoted(Lex(s)));
    MemberLexing(before, key, gap, number, after);
    RequoteAppend(Lex(before), [token] + Lex(after));
    assert ([token] + Lex(after))[1..] == Lex(after);
  }
}
