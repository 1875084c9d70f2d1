/** The character loop that prepares a document for cJSON, proved against the grammar of tokens. */
module PrepareJson {
  import opened CJson
  import opened JsonTokens
  import opened Slices

  /** What the string loop looks for: an escape for NUL before the string ends. */
  predicate FindsNul(s: string) {
    && s != "" && s[0] != '"'
    && (NUL_ESCAPE <= s || FindsNul(if s[0] == '\\' && |s| > 1 then s[2..] else s[1..]))
  }

  lemma {:induction false} NulEscapeLen(rest: string)
    ensures StringLen(NUL_ESCAPE + rest) >= 6
  {
    assert IsStringBody("0000") by {
      assert "0000"[1..] == "000" && "000"[1..] == "00" && "00"[1..] == "0";
    }
    assert NUL_ESCAPE[2..] == "0000";
    StringLenAfterBody(NUL_ESCAPE, rest);
  }

  lemma {:induction false} FoundIsHeld(s: string) returns (k: nat)
    requires FindsNul(s)
    ensures k <= StringLen(s) && NulAt(s[..StringLen(s)], k)
  {
    var n := StringLen(s);
    if NUL_ESCAPE <= s {
      k := 0;
      assert s == NUL_ESCAPE + s[6..];
      NulEscapeLen(s[6..]);
      assert s[..n][0..] == s[..n];
    } else {
      var m := if s[0] == '\\' && |s| > 1 then 2 else 1;
      var j := FoundIsHeld(s[m..]);
      k := j + m;
      assert s[m..][..n - m] == s[..n][m..];
      assert s[..n][..k][m..] == s[m..][..n - m][..j];
      assert s[..n][k..] == s[m..][..n - m][j..];
    }
  }

  lemma {:induction false} HeldIsFound(s: string, k: nat)
    requires k <= StringLen(s) && NulAt(s[..StringLen(s)], k)
    ensures FindsNul(s)
  {
    if k == 0 {
      HeldFirst(s);
    } else {
      var m := if s[0] == '\\' then 2 else 1;
      HeldInTail(s, k, m);
      HeldIsFound(s[m..], k - m);
      StringTail(s, m);
    }
  }

  lemma {:induction false} HeldFirst(s: string)
    requires NulAt(s[..StringLen(s)], 0)
    ensures FindsNul(s)
  {
    Whole(s[..StringLen(s)]);
    NulFirst(s, StringLen(s));
  }

  lemma {:induction false} HeldInTail(s: string, k: nat, m: nat)
    requires 0 < k <= StringLen(s) && NulAt(s[..StringLen(s)], k) && m == if s[0] == '\\' then 2 else 1
    ensures s[0] != '"' && m <= k && StringLen(s) == m + StringLen(s[m..])
    ensures NulAt(s[m..][..StringLen(s[m..])], k - m)
  {
    var n := StringLen(s);
    SliceOfPrefix(s, n, k);
    BodyTail(s, k);
    SliceOfPrefix(s, k, m);
    StringTail(s, m);
    NulInTail(s, n, k, m);
  }

  lemma {:induction false} StringTail(s: string, m: nat)
    requires s != "" && s[0] != '"' && m == (if s[0] == '\\' then 2 else 1) <= |s|
    ensures StringLen(s) == m + StringLen(s[m..])
    ensures FindsNul(s[m..]) ==> FindsNul(s)
  {
  }

  lemma {:induction false} NulFirst(s: string, n: nat)
    requires n <= |s| && NUL_ESCAPE <= s[..n]
    ensures FindsNul(s)
  {
    assert s[..n] <= s;
    assert s[0] == s[..n][0] == NUL_ESCAPE[0];
  }

  lemma {:induction false} BodyTail(s: string, k: nat)
    requires 0 < k <= |s| && IsStringBody(s[..k])
    ensures s[0] != '"' && (s[0] == '\\' ==> k >= 2)
    ensures IsStringBody(s[..k][if s[0] == '\\' then 2 else 1..])
  {
    assert s[..k][0] == s[0];
  }

  lemma {:induction false} NulInTail(s: string, n: nat, k: nat, m: nat)
    requires m <= k <= n <= |s| && IsStringBody(s[m..k]) && NUL_ESCAPE <= s[..n][k..]
    ensures NulAt(s[m..][..n - m], k - m)
  {
    SliceOfPrefix(s, n, k);
    SliceOfSuffix(s, m, n - m, n - m);
    SliceOfSuffix(s, m, k - m, n - m);
    assert s[m..n][..k - m] == s[m..k];
    assert s[m..n][k - m..] == s[k..n];
  }

  lemma {:induction false} StringIsRefused(s: string)
    requires s != "" && s[0] == '"' && KeyAt(s) == 0
    ensures RefusedToken(NextToken(s)) <==> FindsNul(s[1..])
  {
    var text := NextToken(s).text;
    var n := StringLen(s[1..]);
    assert text[1..] == s[1..][..n];
    if FindsNul(s[1..]) {
      var k := FoundIsHeld(s[1..]);
      assert NulAt(text[1..], k);
    }
    if HoldsNul(text) {
      var k :| 0 <= k <= |text[1..]| && NulAt(text[1..], k);
      HeldIsFound(s[1..], k);
    }
  }

  method CopyRange(json: string, from: nat, to: nat, copy: array<char>, start: nat) returns (o: nat)
    requires from <= to <= |json| && start + (to - from) <= copy.Length
    modifies copy
    ensures o == start + (to - from)
    ensures copy[..o] == old(copy[..start]) + json[from..to]
  {
    o := start;
    var i := from;
    while i < to
      invariant from <= i <= to && o == start + (i - from)
      invariant copy[..o] == old(copy[..start]) + json[from..i]
    {
      copy[o] := json[i];
      assert copy[..o + 1] == copy[..o] + [json[i]];
      assert json[from..i + 1] == json[from..i] + [json[i]];
      i, o := i + 1, o + 1;
    }
  }

  method CopyGap(json: string, from: nat, copy: array<char>, start: nat) returns (to: nat, o: nat)
    requires from <= |json| && start + (|json| - from) <= copy.Length
    modifies copy
    ensures to == from + GapLen(json[from..]) && o == start + (to - from)
    ensures copy[..o] == old(copy[..start]) + json[from..to]
  {
    to, o := from, start;
    while to < |json| && IsGap(json[to])
      invariant from <= to <= |json| && o == start + (to - from)
      invariant GapLen(json[from..]) == to - from + GapLen(json[to..])
      invariant copy[..o] == old(copy[..start]) + json[from..to]
    {
      copy[o] := json[to];
      assert copy[..o + 1] == copy[..o] + [json[to]];
      assert json[from..to + 1] == json[from..to] + [json[to]];
      assert json[to..][1..] == json[to + 1..];
      to, o := to + 1, o + 1;
    }
  }

  method CopyRun(json: string, from: nat, copy: array<char>, start: nat) returns (to: nat, o: nat)
    requires from <= |json| && start + (|json| - from) <= copy.Length
    modifies copy
    ensures to == from + RunLen(json[from..]) && o == start + (to - from)
    ensures copy[..o] == old(copy[..start]) + json[from..to]
  {
    to, o := from, start;
    while to < |json| && IsNumberChar(json[to])
      invariant from <= to <= |json| && o == start + (to - from)
      invariant RunLen(json[from..]) == to - from + RunLen(json[to..])
      invariant copy[..o] == old(copy[..start]) + json[from..to]
    {
      copy[o] := json[to];
      assert copy[..o + 1] == copy[..o] + [json[to]];
      assert json[from..to + 1] == json[from..to] + [json[to]];
      assert json[to..][1..] == json[to + 1..];
      to, o := to + 1, o + 1;
    }
  }

  /** A number in quotes, nothing if there is none. */
  method CopyNumber(json: string, from: nat, copy: array<char>, start: nat) returns (to: nat, o: nat)
    requires from <= |json| && start + (|json| - from) + 2 <= copy.Length
    modifies copy
    ensures to == from + NumberLen(json[from..]) && o <= copy.Length
    ensures start <= o
    ensures copy[..o] == old(copy[..start]) + if to == from then "" else "\"" + json[from..to] + "\""
  {
    to, o := from, start;
    if from < |json| && StartsNumber(json[from]) {
      copy[o] := '"';
      assert copy[..o + 1] == copy[..o] + "\"";
      to, o := CopyRun(json, from, copy, start + 1);
      copy[o] := '"';
      assert copy[..o + 1] == copy[..o] + "\"";
      o := o + 1;
    }
  }

  /** Copies a key, what separates it from its value, and the value with quotes if it is a number. */
  method CopyKeyed(json: string, start: nat, keyLen: nat, copy: array<char>, o0: nat) returns (pos: nat, o: nat)
    requires 0 < keyLen <= |json| - start
    requires o0 + (|json| - start) + 2 <= copy.Length
    modifies copy
    ensures pos == start + |Text(KeyedAt(json[start..], keyLen))|
    ensures o0 <= o <= copy.Length && copy[..o] == old(copy[..o0]) + QuotedText(KeyedAt(json[start..], keyLen))
  {
    ghost var before := copy[..o0];
    var gap := start + keyLen;
    o := CopyRange(json, start, gap, copy, o0);
    var number;
    number, o := CopyGap(json, gap, copy, o);
    ghost var text := copy[..o];
    assert text == before + json[start..gap] + json[gap..number];
    pos, o := CopyNumber(json, number, copy, o);
    KeyedSlices(json, start, gap, number, pos);
    KeyedTexts(json[start..gap], json[gap..number], json[number..pos], before);
  }

  lemma {:induction false} KeyedSlices(json: string, start: nat, gap: nat, number: nat, end: nat)
    requires start < gap <= number <= end <= |json|
    requires number == gap + GapLen(json[gap..]) && end == number + NumberLen(json[number..])
    ensures KeyedAt(json[start..], gap - start) == Keyed(json[start..gap], json[gap..number], json[number..end])
  {
    var s, k, g, n := json[start..], gap - start, number - start, end - start;
    assert GapLen(s[k..]) == g - k && s[..k] == json[start..gap] && s[k..g] == json[gap..number] by {
      SliceOfSuffix(json, start, k, g);
    }
    assert NumberLen(s[g..]) == n - g && s[g..n] == json[number..end] by {
      SliceOfSuffix(json, start, g, n);
    }
    KeyedFromRuns(s, k, g, n);
  }

  lemma KeyedTexts(key: string, gap: string, number: string, before: string)
    ensures |Text(Keyed(key, gap, number))| == |key| + |gap| + |number|
    ensures before + key + gap + (if number == "" then "" else "\"" + number + "\"")
            == before + QuotedText(Keyed(key, gap, number))
  {
    Associative(before, key, gap);
    Associative(before, key + gap, if number == "" then "" else "\"" + number + "\"");
  }

  /** Copies the rest of a string, its closing quote included; stops at an escape for NUL. */
  method CopyString(json: string, from: nat, copy: array<char>, start: nat) returns (refused: bool, to: nat, o: nat)
    requires from <= |json| && start + (|json| - from) <= copy.Length
    modifies copy
    ensures refused <==> FindsNul(json[from..])
    ensures !refused ==> to == from + StringLen(json[from..]) && o == start + (to - from)
    ensures !refused ==> copy[..o] == old(copy[..start]) + json[from..to]
  {
    to, o := from, start;
    ghost var before := copy[..start];
    Whole(before);
    while to < |json| && json[to] != '"'
      invariant from <= to <= |json| && o == start + (to - from)
      invariant StringLen(json[from..]) == to - from + StringLen(json[to..])
      invariant FindsNul(json[from..]) == FindsNul(json[to..])
      invariant copy[..o] == before + json[from..to]
    {
      if json[to] == '\\' && NUL_ESCAPE <= json[to..] {
        return true, to, o;
      }
      var n := if json[to] == '\\' && to + 1 < |json| then 2 else 1;
      StringStep(json, to, n);
      to, o := CopyMore(json, from, to, to + n, copy, o, before);
    }
    refused := false;
    if to < |json| {
      to, o := CopyMore(json, from, to, to + 1, copy, o, before);
    }
  }

  /** Copies some more of what is being copied. */
  method CopyMore(json: string, ghost from: nat, to: nat, next: nat, copy: array<char>, o: nat, ghost before: string)
    returns (end: nat, out: nat)
    requires from <= to <= next <= |json| && o + (next - to) <= copy.Length
    requires copy[..o] == before + json[from..to]
    modifies copy
    ensures end == next && out == o + (next - to) && copy[..out] == before + json[from..next]
  {
    Adjacent(json, from, to, next);
    Associative(before, json[from..to], json[to..next]);
    out := CopyRange(json, to, next, copy, o);
    end := next;
  }

  lemma {:induction false} StringStep(json: string, p: nat, n: nat)
    requires p < |json| && json[p] != '"' && !(NUL_ESCAPE <= json[p..])
    requires n == if json[p] == '\\' && p + 1 < |json| then 2 else 1
    ensures StringLen(json[p..]) == n + StringLen(json[p + n..])
    ensures FindsNul(json[p..]) == FindsNul(json[p + n..])
  {
    SliceOfSuffix(json, p, n, n);
  }

  /** One round of the main loop: one token. */
  method CopyToken(json: string, start: nat, copy: array<char>, o0: nat) returns (refused: bool, pos: nat, o: nat)
    requires start < |json|
    requires o0 + (|json| - start) <= copy.Length
    requires KeyAt(json[start..]) > 0 ==> o0 + (|json| - start) + 2 <= copy.Length
    modifies copy
    ensures refused <==> RefusedToken(NextToken(json[start..]))
    ensures !refused ==> pos == start + |Text(NextToken(json[start..]))|
    ensures !refused ==> o0 <= o <= copy.Length && copy[..o] == old(copy[..o0]) + QuotedText(NextToken(json[start..]))
  {
    refused := false;
    if json[start] != '"' {
      o := CopyRange(json, start, start + 1, copy, o0);
      pos := start + 1;
      return;
    }
    var keyLen := KeyAt(json[start..]);
    if keyLen > 0 {
      pos, o := CopyKeyed(json, start, keyLen, copy, o0);
    } else {
      refused, pos, o := CopyStr(json, start, copy, o0);
    }
  }

  /** Copies a string that is not one of the keys. */
  method CopyStr(json: string, start: nat, copy: array<char>, o0: nat) returns (refused: bool, pos: nat, o: nat)
    requires start < |json| && json[start] == '"' && KeyAt(json[start..]) == 0
    requires o0 + (|json| - start) <= copy.Length
    modifies copy
    ensures refused <==> RefusedToken(NextToken(json[start..]))
    ensures !refused ==> pos == start + |Text(NextToken(json[start..]))|
    ensures !refused ==> o0 <= o <= copy.Length && copy[..o] == old(copy[..o0]) + QuotedText(NextToken(json[start..]))
  {
    ghost var before := copy[..o0];
    o := CopyRange(json, start, start + 1, copy, o0);
    refused, pos, o := CopyString(json, start + 1, copy, o);
    StringIsRefused(json[start..]);
    SliceOfSuffix(json, start, 1, 1);
    if !refused {
      StringText(json, start, pos);
      Associative(before, json[start..start + 1], json[start + 1..pos]);
      Adjacent(json, start, start + 1, pos);
    }
  }

  lemma {:induction false} StringText(json: string, start: nat, pos: nat)
    requires start < |json| && json[start] == '"' && KeyAt(json[start..]) == 0
    requires pos == start + 1 + StringLen(json[start + 1..]) <= |json|
    ensures NextToken(json[start..]) == Str(json[start..pos])
  {
    SliceOfSuffix(json, start, 1, 1);
    SliceOfSuffix(json, start, 0, pos - start);
    SliceOfSuffix(json, start, pos - start, pos - start);
  }

  /** Fills a buffer of the size that the source allocates; no write goes past it. The result is the
      quoted form of the one lexing of `json`, and a text is refused exactly for a string that holds
      an escape for NUL. */
  method PrepareJson(json: string) returns (r: Result<string>)
    ensures r.Err? <==> Refused(Lex(json))
    ensures r.Ok? ==> r.value == Quoted(Lex(json))
  {
    var len := |json|;
    var copy := new char[len + 2 * (len / 8 + 1) + 1](_ => '\0');
    var refused, o := CopyTokens(json, copy);
    if refused {
      return Err(JsonParse);
    }
    copy[o] := '\0';
    return Ok(copy[..o]);
  }

  method CopyTokens(json: string, copy: array<char>) returns (refused: bool, o: nat)
    requires copy.Length == |json| + 2 * (|json| / 8 + 1) + 1
    modifies copy
    ensures refused <==> Refused(Lex(json))
    ensures !refused ==> o < copy.Length && copy[..o] == Quoted(Lex(json))
  {
    var pos := 0;
    ghost var whole := Quoted(Lex(json));
    Whole(json);
    Whole(whole);
    o := 0;
    CapacitySuffices(|json|, pos, o);
    while pos < |json|
      invariant 0 <= pos <= |json| && 0 <= o && 4 * (o - pos) <= pos && o < copy.Length
      invariant copy[..o] + Quoted(Lex(json[pos..])) == whole
      invariant Refused(Lex(json)) <==> Refused(Lex(json[pos..]))
    {
      refused, pos, o := Advance(json, pos, copy, o, whole);
      if refused {
        return;
      }
    }
    Whole(copy[..o]);
    refused := false;
  }

  /** One round of the loop. */
  method Advance(json: string, pos: nat, copy: array<char>, o: nat, ghost whole: string)
    returns (refused: bool, next: nat, end: nat)
    requires pos < |json| && 4 * (o - pos) <= pos && copy.Length == |json| + 2 * (|json| / 8 + 1) + 1
    requires o <= copy.Length && copy[..o] + Quoted(Lex(json[pos..])) == whole
    modifies copy
    ensures refused ==> Refused(Lex(json[pos..]))
    ensures !refused ==> pos < next <= |json| && 4 * (end - next) <= next && end < copy.Length
    ensures !refused ==> copy[..end] + Quoted(Lex(json[next..])) == whole
    ensures !refused ==> (Refused(Lex(json[pos..])) <==> Refused(Lex(json[next..])))
  {
    TokenRefusal(json, pos);
    CapacitySuffices(|json|, pos, o);
    refused, next, end := CopyOnto(json, pos, copy, o, whole);
    if !refused {
      CapacitySuffices(|json|, next, end);
    }
  }

  /** What follows the token at `pos`. */
  function After(json: string, pos: nat): string
    requires pos < |json|
  {
    json[pos..][|Text(NextToken(json[pos..]))|..]
  }

  lemma {:induction false} TokenStep(json: string, pos: nat)
    requires pos < |json|
    ensures var t := NextToken(json[pos..]);
            && 0 < |Text(t)| <= |json| - pos && After(json, pos) == json[pos + |Text(t)|..]
            && Quoted(Lex(json[pos..])) == QuotedText(t) + Quoted(Lex(After(json, pos)))
            && 4 * (|QuotedText(t)| - |Text(t)|) <= |Text(t)|
  {
    LexStep(json[pos..]);
    var n := |Text(NextToken(json[pos..]))|;
    SliceOfSuffix(json, pos, n, n);
  }

  lemma {:induction false} TokenRefusal(json: string, pos: nat)
    requires pos < |json|
    ensures Refused(Lex(json[pos..])) <==> RefusedToken(NextToken(json[pos..])) || Refused(Lex(After(json, pos)))
  {
    LexStep(json[pos..]);
  }

  /** Copies one token, so that what is copied and what is to follow make up the `whole`. */
  method CopyOnto(json: string, pos: nat, copy: array<char>, o: nat, ghost whole: string)
    returns (refused: bool, next: nat, end: nat)
    requires pos < |json| && o + (|json| - pos) + 2 <= copy.Length
    requires copy[..o] + Quoted(Lex(json[pos..])) == whole
    modifies copy
    ensures refused <==> RefusedToken(NextToken(json[pos..]))
    ensures !refused ==> pos < next <= |json| && After(json, pos) == json[next..]
    ensures !refused ==> end <= copy.Length && 4 * ((end - o) - (next - pos)) <= next - pos
    ensures !refused ==> copy[..end] + Quoted(Lex(After(json, pos))) == whole
  {
    ghost var token := NextToken(json[pos..]);
    TokenStep(json, pos);
    Associative(copy[..o], QuotedText(token), Quoted(Lex(After(json, pos))));
    refused, next, end := CopyToken(json, pos, copy, o);
  }

  /** Quotes add at most a quarter, for which the buffer has room. */
  lemma CapacitySuffices(len: nat, pos: nat, o: nat)
    requires pos <= len && 4 * (o - pos) <= pos
    ensures var size := len + 2 * (len / 8 + 1) + 1;
            o < size && o + (len - pos) < size && (pos < len ==> o + (len - pos) + 2 <= size)
  {
  }
}
