/** The arithmetic of the CAN bridge: what a frame costs on the wire, the token bucket that paces
    the datagrams, and the rate of the emulated bus. Durations are in seconds.
 */
module CanPacing {
  import opened Numerals

  /** A frame read from the virtual bus. The payload fits the record that carries it. */
  datatype Frame = Frame(id: nat, extended: bool, remote: bool, error: bool, payload: seq<byte>)

  const DATA_SIZE: nat := 64

  predicate FitsRecord(frame: Frame) {
    |frame.payload| <= DATA_SIZE
  }

  const BATCH_MAX: nat := 12

  // ---------- Wire cost ----------

  const FD_LENGTHS: seq<nat> := [12, 16, 20, 24, 32, 48, 64]

  /** The payload bytes of a DLC code; codes beyond 15 count like 15. */
  function PayloadBytes(dlc: nat): nat {
    if dlc <= 8 then dlc else FD_LENGTHS[if dlc - 9 < 6 then dlc - 9 else 6]
  }

  /** The record's DLC field holds the payload size, which is then read as a DLC code. */
  function WireBits(frame: Frame): nat {
    var fixed := (if frame.extended then 67 else 47) + 8 * PayloadBytes(|frame.payload|);
    fixed + (fixed - 13) * 65 / 1000
  }

  function TotalBits(frames: seq<Frame>): nat {
    if frames == [] then 0 else TotalBits(frames[..|frames| - 1]) + WireBits(frames[|frames| - 1])
  }

  const MIN_WIRE_BITS: nat := 49
  const MAX_CLASSIC_BITS: nat := 138
  const MAX_WIRE_BITS: nat := 615

  /** Reading the payload size as a DLC code never counts too few bytes, and the cost of a frame
      stays between that of an empty standard frame and that of a full extended FD frame. */
  lemma WireBitsBounds(frame: Frame)
    requires FitsRecord(frame)
    ensures WireBits(frame) >= (if frame.extended then 67 else 47) + 8 * |frame.payload|
    ensures MIN_WIRE_BITS <= WireBits(frame) <= MAX_WIRE_BITS && (!frame.extended ==> WireBits(frame) <= MAX_WIRE_BITS - 21)
    ensures |frame.payload| <= CLASSIC_SIZE ==> WireBits(frame) <= MAX_CLASSIC_BITS && (!frame.extended ==> WireBits(frame) <= MAX_CLASSIC_BITS - 21)
  {
    var bytes := PayloadBytes(|frame.payload|);
    assert |frame.payload| <= bytes <= 64;
  }

  lemma {:induction false} TotalBitsAppend(frames: seq<Frame>, frame: Frame)
    ensures TotalBits(frames + [frame]) == TotalBits(frames) + WireBits(frame)
  {
    assert (frames + [frame])[..|frames|] == frames;
  }

  /** The cost of a classic frame is exact: the fixed bits of its kind, eight for each payload byte, and
      the stuff bits for 6.5 percent of all but the last thirteen, cut to an integer. */
  lemma WireBitsExact(frame: Frame)
    requires |frame.payload| <= 8
    ensures var fixed := (if frame.extended then 67 else 47) + 8 * |frame.payload|;
            var stuff := WireBits(frame) - fixed;
            stuff >= 0 && 1000 * stuff <= 65 * (fixed - 13) < 1000 * (stuff + 1)
  {
    assert PayloadBytes(|frame.payload|) == |frame.payload|;
  }

  /** The payload that each DLC code stands for. */
  lemma DlcTable(dlc: nat)
    ensures PayloadBytes(dlc) ==
            match dlc
            case 9 => 12 case 10 => 16 case 11 => 20 case 12 => 24 case 13 => 32 case 14 => 48
            case _ => if dlc <= 8 then dlc else 64
  {
  }

  /** One more byte costs eight or nine bits, and the long identifier 21 or 22. */
  lemma WireBitsGrow(frame: Frame, more: Frame)
    requires |frame.payload| <= |more.payload| <= 8
    ensures |more.payload| == |frame.payload| + 1 && more.extended == frame.extended ==>
              8 <= WireBits(more) - WireBits(frame) <= 9
    ensures |more.payload| == |frame.payload| && more.extended && !frame.extended ==>
              21 <= WireBits(more) - WireBits(frame) <= 22
  {
    WireBitsExact(frame);
    WireBitsExact(more);
  }

  // ---------- Token bucket ----------

  function Min(a: real, b: real): real {
    if a < b then a else b
  }

  function Max(a: real, b: real): real {
    if a < b then b else a
  }

  /** Bits per second that are let through. */
  function PaceRate(bitrate: nat): real {
    bitrate as real * 95.0 / 100.0
  }

  function Bucket(bitrate: nat): real {
    PaceRate(bitrate) * 15.0 / 1000.0
  }

  /** The tokens that a new connection starts with, which is more than the bucket holds. */
  function Seed(bitrate: nat): real {
    bitrate as real * 15.0 / 1000.0
  }

  function Refill(tokens: real, elapsed: real, bitrate: nat): real {
    Min(Bucket(bitrate), tokens + elapsed * PaceRate(bitrate))
  }

  /** A duration cut to whole nanoseconds. */
  function Nanoseconds(t: real): real {
    (t * 1000000000.0).Floor as real / 1000000000.0
  }

  const MIN_HOLD: real := 0.0001

  /** How long the timer waits for the missing tokens. */
  function HoldTime(bits: nat, tokens: real, bitrate: nat): real
    requires bitrate > 0
  {
    Max(Nanoseconds((bits as real - tokens) / PaceRate(bitrate)), MIN_HOLD)
  }

  lemma BucketPositive(bitrate: nat)
    ensures Bucket(bitrate) >= 0.0 && PaceRate(bitrate) >= 0.0
  {
    var b := bitrate as real;
    assert PaceRate(bitrate) == b * 0.95;
    assert Bucket(bitrate) == b * 0.01425;
  }

  lemma NanosecondsClose(t: real)
    ensures t - 0.000000001 < Nanoseconds(t) <= t
  {
    var n := t * 1000000000.0;
    assert n.Floor as real <= n < n.Floor as real + 1.0;
  }

  lemma Scales(a: real, b: real, factor: real)
    requires a <= b && factor >= 0.0
    ensures a * factor <= b * factor
  {
  }

  lemma ProductPositive(a: real, b: real)
    requires a >= 0.0 && b >= 0.0
    ensures a * b >= 0.0
  {
  }

  lemma ScalesStrictly(a: real, b: real, factor: real)
    requires a < b && factor > 0.0
    ensures a * factor < b * factor
  {
  }

  /** Waiting for the hold time leaves less than a nanosecond's worth of tokens missing. */
  lemma HoldNearlySuffices(bits: nat, tokens: real, elapsed: real, bitrate: nat)
    requires bitrate > 0 && elapsed >= HoldTime(bits, tokens, bitrate)
    ensures tokens + elapsed * PaceRate(bitrate) >= bits as real - 0.000000001 * PaceRate(bitrate)
  {
    var rate := PaceRate(bitrate);
    var missing := (bits as real - tokens) / rate;
    NanosecondsClose(missing);
    assert missing * rate == bits as real - tokens;
    Scales(missing - 0.000000001, elapsed, rate);
  }

  lemma ShortHoldCovers(needed: real, tokens: real, elapsed: real, rate: real)
    requires tokens >= needed - 0.000000001 * rate && elapsed >= MIN_HOLD && rate >= 0.0
    ensures tokens + elapsed * rate >= needed
  {
    Scales(MIN_HOLD, elapsed, rate);
    Scales(0.000000001, MIN_HOLD, rate);
  }

  /** A batch that was held ships no later than at the second firing of the re-armed timer if, and
      only if, it fits the bucket. The firings come when the timer is due or later. */
  lemma HeldBatchShips(bits: nat, tokens: real, first: real, second: real, bitrate: nat)
    requires bitrate > 0
    requires first >= HoldTime(bits, tokens, bitrate)
    requires second >= HoldTime(bits, Refill(tokens, first, bitrate), bitrate)
    ensures var once := Refill(tokens, first, bitrate);
            bits as real <= Bucket(bitrate)
            <==> bits as real <= once || bits as real <= Refill(once, second, bitrate)
  {
    var rate := PaceRate(bitrate);
    var once := Refill(tokens, first, bitrate);
    if bits as real <= Bucket(bitrate) && once < bits as real {
      HoldNearlySuffices(bits, tokens, first, bitrate);
      BucketPositive(bitrate);
      ShortHoldCovers(bits as real, once, second, rate);
    }
  }

  const CLASSIC_SIZE: nat := 8

  /** The CAN socket delivers classic frames only. */
  predicate AllClassic(frames: seq<Frame>) {
    forall f :: f in frames ==> |f.payload| <= CLASSIC_SIZE
  }

  lemma {:induction false} ClassicTotal(frames: seq<Frame>)
    requires AllClassic(frames)
    ensures TotalBits(frames) <= |frames| * MAX_CLASSIC_BITS
  {
    if frames != [] {
      ClassicTotal(frames[..|frames| - 1]);
      WireBitsBounds(frames[|frames| - 1]);
    }
  }

  /** From 125 kbit/s on, any batch of classic frames fits the bucket. */
  lemma {:induction false} ClassicBatchFits(frames: seq<Frame>, bitrate: nat)
    requires |frames| <= BATCH_MAX && bitrate >= 125000
    requires AllClassic(frames)
    ensures TotalBits(frames) as real <= Bucket(bitrate)
  {
    ClassicTotal(frames);
    assert Bucket(125000) == 1781.25;
    Scales(125000.0, bitrate as real, 0.95 * 15.0 / 1000.0);
  }

  // ---------- Conformance over a connection ----------

  /** A datagram that took its bits from the bucket at `time`, left `left` tokens in it, and went out
      when `flow` bits could have flowed since the clock started. */
  datatype Ship = Ship(time: real, flow: real, bits: nat, left: real)

  function ShippedBits(ships: seq<Ship>): nat {
    if ships == [] then 0 else ShippedBits(ships[..|ships| - 1]) + ships[|ships| - 1].bits
  }

  predicate Follows(a: Ship, b: Ship) {
    && a.time <= b.time
    && b.left + b.bits as real <= a.left + b.flow - a.flow
  }

  /** Each datagram was covered by the bucket and by what was left plus what flowed in since. */
  predicate Conforming(ships: seq<Ship>, cap: real) {
    && (forall i :: 0 <= i < |ships| ==> ships[i].left >= 0.0 && ships[i].left + ships[i].bits as real <= cap)
    && (forall i, j :: 0 <= i < |ships| && j == i + 1 && j < |ships| ==> Follows(ships[i], ships[j]))
  }

  predicate Flows(ships: seq<Ship>, rate: real) {
    forall i :: 0 <= i < |ships| ==> ships[i].flow == ships[i].time * rate
  }

  lemma {:induction false} ShippedStep(ships: seq<Ship>, i: nat, j: nat)
    requires i <= j < |ships|
    ensures ShippedBits(ships[i..j + 1]) == ShippedBits(ships[i..j]) + ships[j].bits
  {
    assert ships[i..j + 1][..j - i] == ships[i..j];
  }

  lemma {:induction false} ShippedUpTo(ships: seq<Ship>, i: nat, j: nat, cap: real)
    requires i <= j < |ships| && Conforming(ships, cap)
    ensures ships[i].time <= ships[j].time
    ensures ShippedBits(ships[i..j + 1]) as real + ships[j].left <= cap + ships[j].flow - ships[i].flow
  {
    ShippedStep(ships, i, j);
    if i == j {
      assert ShippedBits(ships[i..j]) == 0;
    } else {
      ShippedUpTo(ships, i, j - 1, cap);
      assert Follows(ships[j - 1], ships[j]);
    }
  }

  lemma Distributes(a: real, b: real, factor: real)
    ensures a * factor - b * factor == (a - b) * factor
  {
  }

  /** Within one connection, the bits shipped from one datagram to another, both included, are no
      more than a full bucket and what flows in meanwhile. */
  lemma {:induction false} PacingConforms(ships: seq<Ship>, i: nat, j: nat, rate: real, cap: real)
    requires i <= j < |ships| && Conforming(ships, cap) && Flows(ships, rate)
    ensures ShippedBits(ships[i..j + 1]) as real <= cap + (ships[j].time - ships[i].time) * rate
  {
    ShippedUpTo(ships, i, j, cap);
    Distributes(ships[j].time, ships[i].time, rate);
  }

  /** The tokens in the bucket at `last` are covered by what the last datagram left and what flowed
      in since. */
  predicate Covered(ships: seq<Ship>, tokens: real, last: real, flow: real, cap: real) {
    && tokens >= 0.0
    && Conforming(ships, cap)
    && (ships != [] ==>
          ships[|ships| - 1].time <= last && tokens <= ships[|ships| - 1].left + flow - ships[|ships| - 1].flow)
  }

  lemma RefillPositive(tokens: real, elapsed: real, bitrate: nat)
    requires tokens >= 0.0 && elapsed >= 0.0
    ensures Refill(tokens, elapsed, bitrate) >= 0.0
  {
    BucketPositive(bitrate);
    ProductPositive(elapsed, PaceRate(bitrate));
  }

  lemma RefillIsCovered(ships: seq<Ship>, tokens: real, last: real, now: real, bitrate: nat)
    requires Covered(ships, tokens, last, last * PaceRate(bitrate), Bucket(bitrate)) && last <= now
    ensures Covered(ships, Refill(tokens, now - last, bitrate), now, now * PaceRate(bitrate), Bucket(bitrate))
  {
    RefillPositive(tokens, now - last, bitrate);
    Distributes(now, last, PaceRate(bitrate));
  }

  lemma ShipIsCovered(ships: seq<Ship>, tokens: real, now: real, flow: real, bits: nat, cap: real)
    requires Covered(ships, tokens, now, flow, cap) && bits as real <= tokens <= cap
    ensures Covered(ships + [Ship(now, flow, bits, tokens - bits as real)], tokens - bits as real, now, flow, cap)
  {
    var more := ships + [Ship(now, flow, bits, tokens - bits as real)];
    forall i, j | 0 <= i < |more| && j == i + 1 && j < |more|
      ensures Follows(more[i], more[j])
    {
      if j < |ships| {
        assert Follows(ships[i], ships[j]);
      }
    }
  }

  /** The bucket, last filled at `last`, and the datagrams taken from it are within the bitrate. */
  predicate Paced(ships: seq<Ship>, tokens: real, last: real, bitrate: nat) {
    && Covered(ships, tokens, last, last * PaceRate(bitrate), Bucket(bitrate))
    && Flows(ships, PaceRate(bitrate))
  }

  lemma PacedStart(now: real, bitrate: nat)
    ensures Paced([], Seed(bitrate), now, bitrate)
  {
  }

  lemma PacedRefill(ships: seq<Ship>, tokens: real, last: real, now: real, bitrate: nat)
    requires Paced(ships, tokens, last, bitrate) && last <= now
    ensures Paced(ships, Refill(tokens, now - last, bitrate), now, bitrate)
  {
    RefillIsCovered(ships, tokens, last, now, bitrate);
  }

  function ShipAt(now: real, bits: nat, left: real, bitrate: nat): Ship {
    Ship(now, now * PaceRate(bitrate), bits, left)
  }

  lemma PacedShip(ships: seq<Ship>, tokens: real, now: real, bits: nat, bitrate: nat)
    requires Paced(ships, tokens, now, bitrate) && bits as real <= tokens <= Bucket(bitrate)
    ensures Paced(ships + [ShipAt(now, bits, tokens - bits as real, bitrate)], tokens - bits as real, now, bitrate)
  {
    ShipIsCovered(ships, tokens, now, now * PaceRate(bitrate), bits, Bucket(bitrate));
  }

  // ---------- Rate of the emulated bus ----------

  const INITIAL_WIRE_BITS: real := 150.0

  function Average(average: real, bits: nat): real {
    average + (bits as real - average) / 64.0
  }

  /** The running average after the frames `seen`. */
  function RunningAverage(initial: real, seen: seq<Frame>): real {
    if seen == [] then initial
    else Average(RunningAverage(initial, seen[..|seen| - 1]), WireBits(seen[|seen| - 1]))
  }

  function BusRate(average: real, bitrate: nat): (rate: nat)
  {
    assert Max(average, 1.0) >= 1.0;
    var exact := bitrate as real * 128.0 * 95.0 / 100.0 / Max(average, 1.0);
    QuotientPositive(bitrate as real * 128.0 * 95.0 / 100.0, Max(average, 1.0));
    exact.Floor
  }

  lemma QuotientPositive(a: real, b: real)
    requires a >= 0.0 && b > 0.0
    ensures a / b >= 0.0
  {
  }

  /** The average never leaves the range of the costs seen and the initial assumption. */
  lemma {:induction false} AverageStaysBetween(initial: real, seen: seq<Frame>, low: real, high: real)
    requires low <= initial <= high
    requires forall f :: f in seen ==> low <= WireBits(f) as real <= high
    ensures low <= RunningAverage(initial, seen) <= high
  {
    if seen != [] {
      AverageStaysBetween(initial, seen[..|seen| - 1], low, high);
    }
  }

  lemma QuotientAntitone(a: real, b: real, c: real)
    requires a >= 0.0 && 0.0 < b <= c
    ensures a / c <= a / b
  {
    var x, y := a / b, a / c;
    assert x * b == a && y * c == a;
    QuotientPositive(a, c);
    Scales(b, c, y);
    if y > x {
      ScalesStrictly(x, y, b);
      assert false;
    }
  }

  lemma BusRateAntitone(a: real, b: real, bitrate: nat)
    requires a <= b
    ensures BusRate(b, bitrate) <= BusRate(a, bitrate)
  {
    QuotientAntitone(bitrate as real * 128.0 * 95.0 / 100.0, Max(a, 1.0), Max(b, 1.0));
  }

  /** Whatever frames were forwarded, the wanted rate stays between those for the costliest and the
      cheapest of them, the initial assumption being one of them. */
  lemma {:induction false} WantedRateStaysBetween(seen: seq<Frame>, low: real, high: real, bitrate: nat)
    requires low <= INITIAL_WIRE_BITS <= high
    requires forall f :: f in seen ==> low <= WireBits(f) as real <= high
    ensures BusRate(high, bitrate) <= BusRate(RunningAverage(INITIAL_WIRE_BITS, seen), bitrate) <= BusRate(low, bitrate)
  {
    AverageStaysBetween(INITIAL_WIRE_BITS, seen, low, high);
    BusRateAntitone(low, RunningAverage(INITIAL_WIRE_BITS, seen), bitrate);
    BusRateAntitone(RunningAverage(INITIAL_WIRE_BITS, seen), high, bitrate);
  }

  lemma AverageStep(average: real, bits: nat)
    ensures Average(average, bits) - bits as real == 0.984375 * (average - bits as real)
  {
  }

  /** Each frame takes the average a 64th of the way to its cost: 63/64 of what it is off remain. */
  lemma {:induction false} AverageMoves(initial: real, seen: seq<Frame>, frame: Frame)
    ensures RunningAverage(initial, seen + [frame]) - WireBits(frame) as real ==
            0.984375 * (RunningAverage(initial, seen) - WireBits(frame) as real)
  {
    assert (seen + [frame])[..|seen|] == seen;
    AverageStep(RunningAverage(initial, seen), WireBits(frame));
  }

  lemma FloorBelow(load: real, average: real, exact: real, low: real)
    requires average > 0.0 && exact * average == load && low <= exact
    ensures low * average <= load
  {
    Scales(low, exact, average);
  }

  lemma FloorAbove(load: real, average: real, exact: real, high: real)
    requires average > 0.0 && exact * average == load && exact < high
    ensures load < high * average
  {
    ScalesStrictly(exact, high, average);
  }

  /** A frame counts as 16 bytes on the virtual bus: as many frames as the real bus can carry of the
      average cost, at 95 percent of its bitrate, take up the rate, cut to an integer. */
  lemma BusRateMeaning(average: real, bitrate: nat)
    requires average >= 1.0
    ensures var load, rate := 0.95 * bitrate as real * 128.0, BusRate(average, bitrate);
            rate as real * average <= load < (rate as real + 1.0) * average
  {
    var load := bitrate as real * 128.0 * 95.0 / 100.0;
    assert load == 0.95 * bitrate as real * 128.0;
    var exact, rate := load / average, BusRate(average, bitrate);
    assert exact * average == load && rate as real <= exact < rate as real + 1.0;
    FloorBelow(load, average, exact, rate as real);
    FloorAbove(load, average, exact, rate as real + 1.0);
  }

  /** The timer waits a tenth of a millisecond, or as long as the missing tokens take to come in, up to
      less than a nanosecond. */
  lemma HoldIsTight(bits: nat, tokens: real, bitrate: nat)
    requires bitrate > 0
    ensures var hold, missing := HoldTime(bits, tokens, bitrate), (bits as real - tokens) / (0.95 * bitrate as real);
            hold >= 0.0001 && (hold == 0.0001 || missing - 0.000000001 < hold <= missing) && hold > missing - 0.000000001
  {
    assert PaceRate(bitrate) == 0.95 * bitrate as real;
    NanosecondsClose((bits as real - tokens) / PaceRate(bitrate));
  }
}
