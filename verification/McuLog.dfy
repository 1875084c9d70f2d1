/** Reassembly of the MCU's debug output. The MCU sends its log as a byte stream cut into packets
    at arbitrary places; the bridge prints one log entry per complete line and gives up on a line
    that stays unterminated for too long.
 */
module McuLog {
  import opened Numerals
  import opened Slices

  type Text = seq<byte>

  const NEWLINE: byte := 10
  const CARRIAGE_RETURN: byte := 13
  const DEBUG_UART: int := 7
  const HEADER_SIZE: nat := 4
  const LINE_MAX: nat := 128
  const PACKET_SIZE: nat := HEADER_SIZE + LINE_MAX
  const MAX_PARTIAL: nat := 2048

  // ---------- The newline split of a text ----------

  /** The text after the last newline. */
  function Rest(s: Text): Text {
    if s == [] || s[|s| - 1] == NEWLINE then [] else Rest(s[..|s| - 1]) + [s[|s| - 1]]
  }

  /** The terminated lines, each with its newline. */
  function Lines(s: Text): seq<Text> {
    if s == [] then []
    else
      var front := s[..|s| - 1];
      if s[|s| - 1] == NEWLINE then Lines(front) + [Rest(front) + [NEWLINE]] else Lines(front)
  }

  function Concat(parts: seq<Text>): Text {
    if parts == [] then [] else Concat(parts[..|parts| - 1]) + parts[|parts| - 1]
  }

  /** A newline at the end and nowhere else. */
  predicate Terminated(line: Text) {
    line != [] && line[|line| - 1] == NEWLINE && NEWLINE !in line[..|line| - 1]
  }

  predicate AllTerminated(lines: seq<Text>) {
    forall i :: 0 <= i < |lines| ==> Terminated(lines[i])
  }

  lemma {:induction false} ConcatAppend(parts: seq<Text>, part: Text)
    ensures Concat(parts + [part]) == Concat(parts) + part
  {
    Halves(parts, [part]);
  }

  lemma {:induction false} SplitStep(s: Text, c: byte)
    ensures Rest(s + [c]) == if c == NEWLINE then [] else Rest(s) + [c]
    ensures Lines(s + [c]) == if c == NEWLINE then Lines(s) + [Rest(s) + [NEWLINE]] else Lines(s)
  {
    Halves(s, [c]);
  }

  lemma {:induction false} LinesAreTerminated(s: Text)
    ensures AllTerminated(Lines(s)) && NEWLINE !in Rest(s)
  {
    if s != [] {
      LinesAreTerminated(s[..|s| - 1]);
      Halves(Rest(s[..|s| - 1]), [NEWLINE]);
    }
  }

  lemma {:induction false} SplitKeepsText(s: Text)
    ensures Concat(Lines(s)) + Rest(s) == s
  {
    if s != [] {
      var front, last := s[..|s| - 1], s[|s| - 1];
      SplitKeepsText(front);
      assert s == front + [last];
      Associative(Concat(Lines(front)), Rest(front), [last]);
      if last == NEWLINE {
        ConcatAppend(Lines(front), Rest(front) + [NEWLINE]);
        Whole(Concat(Lines(s)));
      }
    }
  }

  /** Nothing is lost by the split, and it cuts behind the newlines only. */
  lemma {:induction false} SplitCovers(s: Text)
    ensures Concat(Lines(s)) + Rest(s) == s
    ensures AllTerminated(Lines(s)) && NEWLINE !in Rest(s)
  {
    LinesAreTerminated(s);
    SplitKeepsText(s);
  }

  /** A text can be split in two steps: first its head, then what that left over and the tail. */
  lemma {:induction false} SplitContinues(a: Text, b: Text)
    ensures Lines(a + b) == Lines(a) + Lines(Rest(a) + b)
    ensures Rest(a + b) == Rest(Rest(a) + b)
  {
    if b == [] {
      Whole(a);
      Whole(Rest(a));
      SplitCovers(a);
      NoNewline(Rest(a));
    } else {
      var front, last := b[..|b| - 1], b[|b| - 1];
      SplitContinues(a, front);
      assert b == front + [last];
      Associative(a, front, [last]);
      Associative(Rest(a), front, [last]);
      SplitByByte(Lines(a), a + front, Rest(a) + front, last);
    }
  }

  /** Two texts that split alike, up to the lines `done`, do so with one more byte. */
  lemma {:induction false} SplitByByte(done: seq<Text>, s: Text, t: Text, c: byte)
    requires Lines(s) == done + Lines(t) && Rest(s) == Rest(t)
    ensures Lines(s + [c]) == done + Lines(t + [c]) && Rest(s + [c]) == Rest(t + [c])
  {
    SplitStep(s, c);
    SplitStep(t, c);
    Associative(done, Lines(t), [Rest(t) + [NEWLINE]]);
  }

  lemma {:induction false} NoNewline(s: Text)
    requires NEWLINE !in s
    ensures Lines(s) == [] && Rest(s) == s
  {
    if s != [] {
      NoNewline(s[..|s| - 1]);
    }
  }

  lemma {:induction false} OneLine(line: Text)
    requires Terminated(line)
    ensures Lines(line) == [line] && Rest(line) == []
  {
    var front := line[..|line| - 1];
    NoNewline(front);
    assert line == front + [NEWLINE];
  }

  /** There is only one way to cut a text into terminated lines and a newline-free rest. */
  lemma {:induction false} SplitIsUnique(lines: seq<Text>, rest: Text)
    requires AllTerminated(lines) && NEWLINE !in rest
    ensures Lines(Concat(lines) + rest) == lines && Rest(Concat(lines) + rest) == rest
  {
    if lines == [] {
      Whole(rest);
      NoNewline(rest);
    } else {
      LinesAreUnique(lines);
      RestFollows(Concat(lines), rest);
    }
  }

  lemma {:induction false} RestFollows(s: Text, rest: Text)
    requires Rest(s) == [] && NEWLINE !in rest
    ensures Lines(s + rest) == Lines(s) && Rest(s + rest) == rest
  {
    SplitContinues(s, rest);
    Whole(rest);
    NoNewline(rest);
    Whole(Lines(s));
  }

  lemma {:induction false} LinesAreUnique(lines: seq<Text>)
    requires AllTerminated(lines)
    ensures Lines(Concat(lines)) == lines && Rest(Concat(lines)) == []
  {
    if lines != [] {
      var front, last := lines[..|lines| - 1], lines[|lines| - 1];
      LinesAreUnique(front);
      OneLine(last);
      SplitContinues(Concat(front), last);
      Whole(last);
      assert lines == front + [last];
    }
  }

  // ---------- Feeding packets ----------

  /** What was printed, with the bytes that printing leaves away, and the line still open. */
  datatype Log = Log(printed: seq<Text>, partial: Text)

  function Feed(log: Log, chunk: Text): Log {
    var text := log.partial + chunk;
    if |Rest(text)| > MAX_PARTIAL then Log(log.printed + Lines(text) + [Rest(text)], [])
    else Log(log.printed + Lines(text), Rest(text))
  }

  function FeedAll(chunks: seq<Text>): Log {
    if chunks == [] then Log([], []) else Feed(FeedAll(chunks[..|chunks| - 1]), chunks[|chunks| - 1])
  }

  /** In no packet does the text since the last newline grow beyond the limit. */
  predicate StaysShort(chunks: seq<Text>) {
    forall k :: 0 <= k <= |chunks| ==> |Rest(Concat(chunks[..k]))| <= 2048
  }

  lemma {:induction false} ConcatMore(parts: seq<Text>, more: seq<Text>)
    ensures Concat(parts + more) == Concat(parts) + Concat(more)
  {
    if more == [] {
      Whole(parts);
      Whole(Concat(parts));
    } else {
      var front, last := more[..|more| - 1], more[|more| - 1];
      ConcatMore(parts, front);
      assert parts + more == parts + front + [last];
      ConcatAppend(parts + front, last);
      Associative(Concat(parts), Concat(front), last);
    }
  }

  lemma {:induction false} FeedKeepsText(log: Log, chunk: Text)
    ensures var next := Feed(log, chunk);
            && Concat(next.printed) + next.partial == Concat(log.printed) + log.partial + chunk
            && NEWLINE !in next.partial && |next.partial| <= MAX_PARTIAL
  {
    var text := log.partial + chunk;
    SplitCovers(text);
    ConcatMore(log.printed, Lines(text));
    Associative(Concat(log.printed), log.partial, chunk);
    Associative(Concat(log.printed), Concat(Lines(text)), Rest(text));
    if |Rest(text)| > MAX_PARTIAL {
      ConcatAppend(log.printed + Lines(text), Rest(text));
      Whole(Concat(log.printed + Lines(text)) + Rest(text));
    }
  }

  /** However the stream is cut, what was printed and the open line together are everything that
      was received, in order. */
  lemma {:induction false} NothingIsLost(chunks: seq<Text>)
    ensures Concat(FeedAll(chunks).printed) + FeedAll(chunks).partial == Concat(chunks)
    ensures NEWLINE !in FeedAll(chunks).partial && |FeedAll(chunks).partial| <= MAX_PARTIAL
  {
    if chunks != [] {
      NothingIsLost(chunks[..|chunks| - 1]);
      FeedKeepsText(FeedAll(chunks[..|chunks| - 1]), chunks[|chunks| - 1]);
    }
  }

  lemma {:induction false} StaysShortStep(chunks: seq<Text>)
    requires chunks != []
    ensures StaysShort(chunks) <==>
            StaysShort(chunks[..|chunks| - 1]) && |Rest(Concat(chunks))| <= MAX_PARTIAL
  {
    var front := chunks[..|chunks| - 1];
    Whole(chunks);
    assert forall k :: 0 <= k <= |front| ==> front[..k] == chunks[..k];
  }

  lemma {:induction false} FeedingSplits(chunks: seq<Text>)
    ensures StaysShort(chunks) ==> FeedAll(chunks) == Log(Lines(Concat(chunks)), Rest(Concat(chunks)))
    ensures !StaysShort(chunks) ==> !AllTerminated(FeedAll(chunks).printed)
  {
    if chunks == [] {
      assert chunks[..0] == [];
    } else {
      var front, last := chunks[..|chunks| - 1], chunks[|chunks| - 1];
      var before, after := FeedAll(front), FeedAll(chunks);
      FeedingSplits(front);
      StaysShortStep(chunks);
      SplitContinues(Concat(front), last);
      if StaysShort(front) {
        var text := before.partial + last;
        if |Rest(text)| > MAX_PARTIAL {
          SplitCovers(text);
          assert after.printed[|after.printed| - 1] == Rest(text);
        }
      } else {
        var i :| 0 <= i < |before.printed| && !Terminated(before.printed[i]);
        assert after.printed[i] == before.printed[i];
      }
    }
  }

  /** The printed lines are the newline split of the stream, whatever the packets it came in,
      exactly when no packet leaves an open line beyond the limit. */
  lemma {:induction false} ReassemblyIsExact(chunks: seq<Text>)
    ensures FeedAll(chunks) == Log(Lines(Concat(chunks)), Rest(Concat(chunks))) <==> StaysShort(chunks)
  {
    FeedingSplits(chunks);
    SplitCovers(Concat(chunks));
  }

  lemma {:induction false} LineThenMore(line: Text, more: Text)
    requires Terminated(line)
    ensures Lines(line + more) == [line] + Lines(more) && Rest(line + more) == Rest(more)
  {
    OneLine(line);
    SplitContinues(line, more);
    Whole(more);
  }

  lemma Within<T>(a: seq<T>, x: T, b: seq<T>)
    ensures x in a + ([x] + b)
  {
    assert (a + ([x] + b))[|a|] == x;
  }

  lemma JoinedIsTerminated(rest: Text, tail: Text, i: nat)
    requires NEWLINE !in rest
    requires i < |tail| && tail[i] == NEWLINE && NEWLINE !in tail[..i]
    ensures Terminated(rest + tail[..i + 1])
    ensures rest + tail == rest + tail[..i + 1] + tail[i + 1..]
  {
    var line := rest + tail[..i + 1];
    assert line[..|line| - 1] == rest + tail[..i];
  }

  /** The line that is open at the end of `head` grows until the next newline of `tail`. */
  lemma {:induction false} OpenLine(head: Text, tail: Text, i: nat)
    requires i < |tail| && tail[i] == NEWLINE && NEWLINE !in tail[..i]
    ensures Rest(head) + tail[..i + 1] in Lines(head + tail)
  {
    var line, more := Rest(head) + tail[..i + 1], tail[i + 1..];
    LinesAreTerminated(head);
    JoinedIsTerminated(Rest(head), tail, i);
    SplitContinues(head, tail);
    LineThenMore(line, more);
    Within(Lines(head), line, Lines(more));
  }

  lemma {:induction false} RestIsShort(head: Text, tail: Text, limit: nat)
    requires forall line :: line in Lines(head + tail) ==> |line| <= limit + 1
    requires |Rest(head + tail)| <= limit
    ensures |Rest(head)| <= limit
  {
    if NEWLINE in tail {
      var i := FirstNewline(tail);
      OpenLine(head, tail, i);
    } else {
      SplitContinues(head, tail);
      SplitCovers(head);
      NoNewline(Rest(head) + tail);
    }
  }

  ghost function FirstNewline(s: Text): (i: nat)
    requires NEWLINE in s
    ensures i < |s| && s[i] == NEWLINE && NEWLINE !in s[..i]
  {
    if s[0] == NEWLINE then 0
    else
      assert s == [s[0]] + s[1..];
      var i := 1 + FirstNewline(s[1..]);
      assert s[..i] == [s[0]] + s[1..][..i - 1];
      i
  }

  /** A stream whose lines are all short enough is reassembled exactly however it is cut. */
  lemma {:induction false} ShortLinesAreReassembled(chunks: seq<Text>)
    requires forall line :: line in Lines(Concat(chunks)) ==> |line| <= MAX_PARTIAL + 1
    requires |Rest(Concat(chunks))| <= MAX_PARTIAL
    ensures FeedAll(chunks) == Log(Lines(Concat(chunks)), Rest(Concat(chunks)))
  {
    forall k | 0 <= k <= |chunks|
      ensures |Rest(Concat(chunks[..k]))| <= MAX_PARTIAL
    {
      ConcatMore(chunks[..k], chunks[k..]);
      assert chunks == chunks[..k] + chunks[k..];
      RestIsShort(Concat(chunks[..k]), Concat(chunks[k..]), MAX_PARTIAL);
    }
    ReassemblyIsExact(chunks);
  }

  // ---------- The packet handler ----------

  /** Little-endian. */
  function Uint16(low: byte, high: byte): nat {
    low as int + 256 * (high as int)
  }

  /** The text of a debug packet: as long as it says, but no longer than a packet can carry and no
      longer than what arrived. Nothing for other packets and for those without a whole header. */
  function ChunkOf(payload: seq<byte>): Text {
    if |payload| < HEADER_SIZE || Uint16(payload[0], payload[1]) != DEBUG_UART then []
    else
      var declared := Uint16(payload[2], payload[3]);
      var received := (if |payload| < PACKET_SIZE then |payload| else PACKET_SIZE) - HEADER_SIZE;
      payload[HEADER_SIZE..HEADER_SIZE + if declared < received then declared else received]
  }

  /** A debug packet, which starts with 7 and the length of the text, both little-endian, brings as much of
      the text as it declares, has arrived and goes into 128 bytes; any other packet brings nothing. */
  lemma PacketBrings(declared: nat, text: Text, payload: seq<byte>)
    requires declared < 65536
    ensures ChunkOf([7, 0, declared % 256, declared / 256] + text) ==
            text[..if declared <= 128 && declared <= |text| then declared else if |text| <= 128 then |text| else 128]
    ensures |payload| < 4 || payload[0] != 7 || payload[1] != 0 ==> ChunkOf(payload) == []
  {
    var packet := [7, 0, declared % 256, declared / 256] + text;
    assert forall n: nat :: n <= |text| ==> packet[4..4 + n] == text[..n];
  }

  /** A full debug packet. */
  function PacketOf(line: Text): seq<byte>
    requires |line| == LINE_MAX
  {
    [DEBUG_UART, 0, LINE_MAX, 0] + line
  }

  lemma {:induction false} CopiesConcat(line: Text, n: nat)
    requires NEWLINE !in line
    ensures var text := Concat(seq(n, _ => line)); |text| == n * |line| && NEWLINE !in text
  {
    if n > 0 {
      CopiesConcat(line, n - 1);
      assert seq(n, _ => line) == seq(n - 1, _ => line) + [line];
      ConcatAppend(seq(n - 1, _ => line), line);
    }
  }

  /** Reassembly does fail: seventeen full packets without a newline are an open line of 2176 bytes,
      which is printed although it has not ended. */
  lemma {:induction false} LongLineIsCut(line: Text)
    requires |line| == LINE_MAX && NEWLINE !in line
    ensures ChunkOf(PacketOf(line)) == line
    ensures var chunks := seq(17, _ => ChunkOf(PacketOf(line)));
            !StaysShort(chunks) && FeedAll(chunks) != Log(Lines(Concat(chunks)), Rest(Concat(chunks)))
  {
    assert PacketOf(line)[HEADER_SIZE..HEADER_SIZE + LINE_MAX] == line;
    var chunks := seq(17, _ => ChunkOf(PacketOf(line)));
    assert chunks == seq(17, _ => line);
    CopiesConcat(line, 17);
    NoNewline(Concat(chunks));
    assert chunks[..17] == chunks;
    ReassemblyIsExact(chunks);
  }

  function WithoutReturn(line: Text): Text {
    if line != [] && line[|line| - 1] == CARRIAGE_RETURN then line[..|line| - 1] else line
  }

  /** The entry that is printed: a line without its newline and without one carriage return in
      front of that, or an over-long line as it is. */
  function Shown(raw: Text): Text {
    if raw == [] || raw[|raw| - 1] != NEWLINE then raw
    else
      WithoutReturn(raw[..|raw| - 1])
  }

  /** A line is shown without its newline and without a carriage return in front of that, but with any
      other; a line that has not ended is shown as it is. */
  lemma ShownWithoutEnd(line: Text)
    ensures Shown(line + [13, 10]) == line
    ensures line == [] || line[|line| - 1] != 13 ==> Shown(line + [10]) == line
    ensures line == [] || line[|line| - 1] != 10 ==> Shown(line) == line
  {
    assert (line + [13, 10])[..|line| + 1] == line + [13];
    assert (line + [10])[..|line|] == line;
  }

  function ShownAll(raws: seq<Text>): seq<Text> {
    if raws == [] then [] else ShownAll(raws[..|raws| - 1]) + [Shown(raws[|raws| - 1])]
  }

  lemma {:induction false} ShownStep(printed: seq<Text>, done: seq<Text>, raw: Text)
    ensures ShownAll(printed + (done + [raw])) == ShownAll(printed + done) + [Shown(raw)]
  {
    Associative(printed, done, [raw]);
    Halves(printed + done, [raw]);
  }

  lemma {:induction false} NextLine(s: Text, i: nat)
    requires i < |s| && s[i] == NEWLINE && NEWLINE !in s[..i]
    ensures Lines(s) == [s[..i + 1]] + Lines(s[i + 1..]) && Rest(s) == Rest(s[i + 1..])
  {
    JoinedIsTerminated([], s, i);
    Whole(s[..i + 1]);
    Whole(s);
    LineThenMore(s[..i + 1], s[i + 1..]);
  }

  /** Of the lines of `text`, those in `done` are printed, behind the ones in `printed`. */
  predicate Printing(text: Text, printed: seq<Text>, done: seq<Text>, partial: Text, entries: seq<Text>) {
    && Lines(text) == done + Lines(partial)
    && Rest(text) == Rest(partial)
    && entries == ShownAll(printed + done)
  }

  lemma {:induction false} PrintingStarts(text: Text, printed: seq<Text>)
    ensures Printing(text, printed, [], text, ShownAll(printed))
  {
    Whole(printed);
    Whole(Lines(text));
  }

  lemma PrintingStep(text: Text, printed: seq<Text>, done: seq<Text>, partial: Text,
                     entries: seq<Text>, i: nat)
    requires Printing(text, printed, done, partial, entries)
    requires i < |partial| && partial[i] == NEWLINE && NEWLINE !in partial[..i]
    ensures Printing(text, printed, done + [partial[..i + 1]], partial[i + 1..], entries + [WithoutReturn(partial[..i])])
  {
    NextLine(partial, i);
    ShownStep(printed, done, partial[..i + 1]);
    SliceOfPrefix(partial, i + 1, i);
    Associative(done, [partial[..i + 1]], Lines(partial[i + 1..]));
  }

  lemma {:induction false} PrintingEnds(text: Text, printed: seq<Text>, done: seq<Text>, partial: Text, entries: seq<Text>)
    requires Printing(text, printed, done, partial, entries) && NEWLINE !in partial
    ensures partial == Rest(text) && entries == ShownAll(printed + Lines(text))
  {
    NoNewline(partial);
    Whole(done);
  }

  /** The text and the entries after one more packet, given that its lines are printed. */
  lemma {:induction false} PrintedAll(chunks: seq<Text>, chunk: Text)
    ensures var printed, text := FeedAll(chunks).printed, FeedAll(chunks).partial + chunk;
            var entries := ShownAll(printed + Lines(text));
            FeedAll(chunks + [chunk]).partial == (if |Rest(text)| > MAX_PARTIAL then [] else Rest(text)) &&
            ShownAll(FeedAll(chunks + [chunk]).printed) ==
              (if |Rest(text)| > MAX_PARTIAL then entries + [Rest(text)] else entries)
  {
    var printed, text := FeedAll(chunks).printed, FeedAll(chunks).partial + chunk;
    FeedAllStep(chunks, chunk);
    if |Rest(text)| > MAX_PARTIAL {
      LinesAreTerminated(text);
      ShownStep(printed, Lines(text), Rest(text));
      Associative(printed, Lines(text), [Rest(text)]);
    }
  }

  lemma {:induction false} FeedAllStep(chunks: seq<Text>, chunk: Text)
    ensures FeedAll(chunks + [chunk]) == Feed(FeedAll(chunks), chunk)
  {
    Halves(chunks, [chunk]);
  }

  /** A packet without text changes nothing. */
  lemma {:induction false} FeedNothing(chunks: seq<Text>)
    ensures Feed(FeedAll(chunks), []) == FeedAll(chunks)
  {
    NothingIsLost(chunks);
    NoNewline(FeedAll(chunks).partial);
    Whole(FeedAll(chunks).partial);
    Whole(FeedAll(chunks).printed);
  }

  method Find(s: Text, c: byte) returns (i: nat)
    ensures i <= |s| && c !in s[..i]
    ensures i < |s| ==> s[i] == c
  {
    i := 0;
    while i < |s| && s[i] != c
      invariant 0 <= i <= |s| && c !in s[..i]
    {
      i := i + 1;
    }
  }

  /** The length that a packet declares, cut to what it can hold and to what arrived. */
  method TextLength(payload: seq<byte>) returns (len: nat)
    requires |payload| >= HEADER_SIZE && Uint16(payload[0], payload[1]) == DEBUG_UART
    ensures len == |ChunkOf(payload)| && HEADER_SIZE + len <= |payload|
    ensures payload[HEADER_SIZE..HEADER_SIZE + len] == ChunkOf(payload)
  {
    var copied := if |payload| < PACKET_SIZE then |payload| else PACKET_SIZE;
    len := Uint16(payload[2], payload[3]);
    if len > LINE_MAX {
      len := LINE_MAX;
    }
    if len > copied - HEADER_SIZE {
      len := copied - HEADER_SIZE;
    }
  }

  class Reassembler {
    var partial: Text
    var entries: seq<Text>
    ghost var chunks: seq<Text>

    /** The log is what feeding all packets so far gives. */
    ghost predicate Valid()
      reads this
    {
      && partial == FeedAll(chunks).partial
      && entries == ShownAll(FeedAll(chunks).printed)
    }

    constructor ()
      ensures Valid() && chunks == []
    {
      partial := [];
      entries := [];
      chunks := [];
    }

    method HandleUdpRx(payload: seq<byte>)
      requires Valid()
      modifies this
      ensures Valid() && chunks == old(chunks) + [ChunkOf(payload)]
    {
      if |payload| >= HEADER_SIZE && Uint16(payload[0], payload[1]) == DEBUG_UART {
        var len := TextLength(payload);
        Append(payload[HEADER_SIZE..HEADER_SIZE + len]);
      } else {
        FeedAllStep(chunks, []);
        FeedNothing(chunks);
        chunks := chunks + [[]];
      }
    }

    method Append(chunk: Text)
      requires Valid()
      modifies this
      ensures Valid() && chunks == old(chunks) + [chunk]
    {
      PrintedAll(chunks, chunk);
      ghost var printed := FeedAll(chunks).printed;
      partial := partial + chunk;
      PrintLines(printed);
      if |partial| > MAX_PARTIAL {
        entries := entries + [partial];
        partial := [];
      }
      chunks := chunks + [chunk];
    }

    /** Prints the terminated lines of the partial text. */
    method PrintLines(ghost printed: seq<Text>)
      requires entries == ShownAll(printed)
      modifies this`partial, this`entries
      ensures partial == Rest(old(partial))
      ensures entries == ShownAll(printed + Lines(old(partial)))
    {
      ghost var text := partial;
      ghost var done: seq<Text> := [];
      PrintingStarts(text, printed);
      var i: nat := Find(partial, NEWLINE);
      while i < |partial|
        invariant i <= |partial| && NEWLINE !in partial[..i] && (i < |partial| ==> partial[i] == NEWLINE)
        invariant Printing(text, printed, done, partial, entries)
        decreases |partial|
      {
        PrintingStep(text, printed, done, partial, entries, i);
        done := done + [partial[..i + 1]];
        var line := partial[..i];
        partial := partial[i + 1..];
        if line != [] && line[|line| - 1] == CARRIAGE_RETURN {
          line := line[..|line| - 1];
        }
        entries := entries + [line];
        i := Find(partial, NEWLINE);
      }
      Whole(partial);
      PrintingEnds(text, printed, done, partial, entries);
    }
  }
}
