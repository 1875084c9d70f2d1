/** Datagrams of CAN records. A record has a fixed size; the unused data bytes at the end of the
    last one may be left out.
 */
module CanDatagram {
  import opened CanPacing
  import opened Numerals
  import opened Slices

  const HEADER_SIZE: nat := 36
  const RECORD_SIZE: nat := HEADER_SIZE + DATA_SIZE
  const FLAGS_AT: nat := 30
  const ID_AT: nat := 31
  const DLC_AT: nat := 35

  predicate Encodable(frame: Frame) {
    FitsRecord(frame) && frame.id < 0x1_0000_0000
  }

  function Zeros(n: nat): seq<byte> {
    seq(n, _ => 0)
  }

  /** EFF, RTR and ERR from the lowest bit on. */
  function Flags(frame: Frame): byte {
    (if frame.extended then 1 else 0) + (if frame.remote then 2 else 0) + (if frame.error then 4 else 0)
  }

  /** Four octets, the least significant first. */
  function LittleEndian(n: nat): (s: seq<byte>)
    requires n < 0x1_0000_0000
    ensures |s| == 4
  {
    [n % 256, n / 256 % 256, n / 0x1_0000 % 256, n / 0x100_0000]
  }

  function FromLittleEndian(a: byte, b: byte, c: byte, d: byte): nat {
    a as int + 0x100 * (b as int) + 0x1_0000 * (c as int) + 0x100_0000 * (d as int)
  }

  function Header(frame: Frame): (s: seq<byte>)
    requires Encodable(frame)
    ensures |s| == HEADER_SIZE
  {
    Zeros(FLAGS_AT) + [Flags(frame)] + LittleEndian(frame.id) + [|frame.payload|]
  }

  function Record(frame: Frame): (s: seq<byte>)
    requires Encodable(frame)
    ensures |s| == RECORD_SIZE
  {
    Header(frame) + frame.payload + Zeros(DATA_SIZE - |frame.payload|)
  }

  function Datagram(frames: seq<Frame>): (s: seq<byte>)
    requires forall f :: f in frames ==> Encodable(f)
    ensures |s| == RECORD_SIZE * |frames|
  {
    if frames == [] then [] else Record(frames[0]) + Datagram(frames[1..])
  }

  lemma {:induction false} DatagramAppend(frames: seq<Frame>, frame: Frame)
    requires Encodable(frame) && forall f :: f in frames ==> Encodable(f)
    ensures Datagram(frames + [frame]) == Datagram(frames) + Record(frame)
  {
    if frames == [] {
      assert frames + [frame] == [frame];
      Whole(Record(frame));
    } else {
      assert (frames + [frame])[1..] == frames[1..] + [frame];
      DatagramAppend(frames[1..], frame);
      Associative(Record(frames[0]), Datagram(frames[1..]), Record(frame));
    }
  }

  /** The received bytes of a record, the missing ones zero. */
  function Padded(s: seq<byte>): (r: seq<byte>)
    ensures |r| == RECORD_SIZE
  {
    if |s| >= RECORD_SIZE then s[..RECORD_SIZE] else s + Zeros(RECORD_SIZE - |s|)
  }

  /** The frame of a record; a DLC beyond the data array counts as the whole array. */
  function FrameOf(r: seq<byte>): Frame
    requires |r| == RECORD_SIZE
  {
    var len := if r[DLC_AT] < DATA_SIZE then r[DLC_AT] else DATA_SIZE;
    Frame(FromLittleEndian(r[ID_AT], r[ID_AT + 1], r[ID_AT + 2], r[ID_AT + 3]),
          r[FLAGS_AT] % 2 == 1, r[FLAGS_AT] / 2 % 2 == 1, r[FLAGS_AT] / 4 % 2 == 1,
          r[HEADER_SIZE..HEADER_SIZE + len])
  }

  function FramesOf(data: seq<byte>): seq<Frame> {
    if |data| < HEADER_SIZE then []
    else [FrameOf(Padded(data))] + if |data| <= RECORD_SIZE then [] else FramesOf(data[RECORD_SIZE..])
  }

  /** What is left of the datagram at an offset that may lie behind its end. */
  function From(data: seq<byte>, off: nat): seq<byte> {
    if off < |data| then data[off..] else []
  }

  lemma {:induction false} FramesFromStep(data: seq<byte>, off: nat, frames: seq<Frame>)
    requires off + HEADER_SIZE <= |data|
    requires FramesOf(data) == frames + FramesOf(From(data, off))
    ensures FramesOf(data) == frames + [FrameOf(Padded(data[off..]))] + FramesOf(From(data, off + RECORD_SIZE))
  {
    if off + RECORD_SIZE < |data| {
      SliceOfSuffix(data, off, RECORD_SIZE, RECORD_SIZE);
    }
    Associative(frames, [FrameOf(Padded(data[off..]))], FramesOf(From(data, off + RECORD_SIZE)));
  }

  /** Copies the bytes of one record over a zeroed one. */
  method CopyRecord(data: seq<byte>, off: nat) returns (record: seq<byte>)
    requires off <= |data|
    ensures record == Padded(data[off..])
  {
    var chunk := if |data| - off < RECORD_SIZE then |data| - off else RECORD_SIZE;
    record := data[off..off + chunk] + Zeros(RECORD_SIZE - chunk);
    if chunk == RECORD_SIZE {
      SliceOfSuffix(data, off, RECORD_SIZE, RECORD_SIZE);
      Whole(data[off..off + chunk]);
    }
  }

  /** The handler of a datagram from the ChargeBridge: one frame per record. */
  method HandleUdpRx(data: seq<byte>) returns (frames: seq<Frame>)
    ensures frames == FramesOf(data)
  {
    frames := [];
    var off := 0;
    Whole(data);
    Whole(FramesOf(data));
    while off + HEADER_SIZE <= |data|
      invariant 0 <= off
      invariant FramesOf(data) == frames + FramesOf(From(data, off))
      decreases |data| - off
    {
      var record := CopyRecord(data, off);
      FramesFromStep(data, off, frames);
      frames := frames + [FrameOf(record)];
      off := off + RECORD_SIZE;
    }
    Whole(frames);
  }

  lemma LittleEndianInverse(n: nat)
    requires n < 0x1_0000_0000
    ensures var s := LittleEndian(n); FromLittleEndian(s[0], s[1], s[2], s[3]) == n
  {
    var a, b, c := n / 256, n / 0x1_0000, n / 0x100_0000;
    assert n == 256 * a + n % 256;
    assert a == 256 * b + a % 256;
    assert b == 256 * c + b % 256;
  }

  lemma FlagsInverse(frame: Frame)
    ensures (Flags(frame) % 2 == 1) == frame.extended
    ensures (Flags(frame) / 2 % 2 == 1) == frame.remote
    ensures (Flags(frame) / 4 % 2 == 1) == frame.error
  {
  }

  /** A record that was cut behind its used bytes is filled up again. */
  lemma PaddedRecord(frame: Frame, tail: seq<byte>, len: nat)
    requires Encodable(frame)
    requires HEADER_SIZE + |frame.payload| <= len <= RECORD_SIZE
    ensures Padded(Record(frame)[..len]) == Record(frame)
    ensures Padded(Record(frame) + tail) == Record(frame)
  {
    Halves(Record(frame), tail);
  }

  lemma RecordFields(frame: Frame)
    requires Encodable(frame)
    ensures var r := Record(frame);
            && r[FLAGS_AT] == Flags(frame)
            && (forall i :: 0 <= i < 4 ==> r[ID_AT + i] == LittleEndian(frame.id)[i])
            && r[DLC_AT] == |frame.payload|
            && r[HEADER_SIZE..HEADER_SIZE + |frame.payload|] == frame.payload
  {
  }

  lemma RecordInverse(frame: Frame)
    requires Encodable(frame)
    ensures FrameOf(Record(frame)) == frame
  {
    var r := Record(frame);
    RecordFields(frame);
    LittleEndianInverse(frame.id);
    FlagsInverse(frame);
    assert r[ID_AT + 0] == LittleEndian(frame.id)[0] && r[ID_AT + 1] == LittleEndian(frame.id)[1];
    assert r[ID_AT + 2] == LittleEndian(frame.id)[2] && r[ID_AT + 3] == LittleEndian(frame.id)[3];
  }

  lemma {:induction false} FirstRecord(frame: Frame, more: seq<byte>)
    requires Encodable(frame)
    ensures FramesOf(Record(frame) + more) == [frame] + FramesOf(more)
  {
    RecordInverse(frame);
    PaddedRecord(frame, more, RECORD_SIZE);
    Halves(Record(frame), more);
  }

  lemma {:induction false} LastRecord(frame: Frame, len: nat)
    requires Encodable(frame)
    requires HEADER_SIZE + |frame.payload| <= len <= RECORD_SIZE
    ensures FramesOf(Record(frame)[..len]) == [frame]
  {
    RecordInverse(frame);
    PaddedRecord(frame, [], len);
  }

  lemma {:induction false} DatagramThenMore(frames: seq<Frame>, more: seq<byte>)
    requires forall f :: f in frames ==> Encodable(f)
    ensures FramesOf(Datagram(frames) + more) == frames + FramesOf(more)
  {
    if frames == [] {
      Whole(more);
      Whole(FramesOf(more));
    } else {
      var first, rest := frames[0], frames[1..];
      DatagramThenMore(rest, more);
      Associative(Record(first), Datagram(rest), more);
      FirstRecord(first, Datagram(rest) + more);
      Associative([first], rest, FramesOf(more));
      assert frames == [first] + rest;
    }
  }

  /** A datagram is read back as the frames it was made of, in order, also when it was cut anywhere
      behind the last used data byte of its last record. */
  lemma {:induction false} DatagramInverse(frames: seq<Frame>, last: Frame, len: nat)
    requires Encodable(last) && forall f :: f in frames ==> Encodable(f)
    requires HEADER_SIZE + |last.payload| <= len <= RECORD_SIZE
    ensures FramesOf(Datagram(frames)) == frames
    ensures FramesOf(Datagram(frames) + Record(last)[..len]) == frames + [last]
  {
    DatagramThenMore(frames, []);
    Whole(Datagram(frames));
    Whole(frames);
    DatagramThenMore(frames, Record(last)[..len]);
    LastRecord(last, len);
  }

  /** Where a record holds what: 100 bytes, of them the flags at 30, the identifier least significant byte
      first at 31, the payload size at 35 and the payload from 36 on; the others are zero. */
  lemma RecordLayout(frame: Frame)
    requires Encodable(frame)
    ensures var r := Record(frame);
            && |r| == 100
            && r[30] == (if frame.extended then 1 else 0) + (if frame.remote then 2 else 0) + (if frame.error then 4 else 0)
            && frame.id == r[31] as int + 256 * (r[32] as int) + 65536 * (r[33] as int) + 16777216 * (r[34] as int)
            && r[35] == |frame.payload| && r[36..36 + |frame.payload|] == frame.payload
            && (forall i :: 0 <= i < 30 || 36 + |frame.payload| <= i < 100 ==> r[i] == 0)
  {
    var r := Record(frame);
    RecordFields(frame);
    LittleEndianInverse(frame.id);
    assert r[31 + 0] == LittleEndian(frame.id)[0] && r[31 + 1] == LittleEndian(frame.id)[1];
    assert r[31 + 2] == LittleEndian(frame.id)[2] && r[31 + 3] == LittleEndian(frame.id)[3];
  }

  /** A record is read by the same layout, whatever its bytes. */
  lemma FrameLayout(r: seq<byte>)
    requires |r| == 100
    ensures var f := FrameOf(r);
            && f.id == r[31] as int + 256 * (r[32] as int) + 65536 * (r[33] as int) + 16777216 * (r[34] as int)
            && (f.extended <==> r[30] % 2 == 1) && (f.remote <==> r[30] % 4 >= 2) && (f.error <==> r[30] % 8 >= 4)
            && f.payload == r[36..36 + if r[35] < 64 then r[35] else 64]
  {
  }
}
