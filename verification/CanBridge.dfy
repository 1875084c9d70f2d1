/** The bridge from a virtual CAN bus to the ChargeBridge: frames are collected into datagrams,
    which leave when they are full or after a short hold-off, paced by a token bucket where the
    virtual bus could not be shaped.

    The handlers are given as functions on the state of the bridge, with what holds over every run
    of them; the class `Bridge` carries them out on its fields.
 */
module CanBridge {
  import opened CanDatagram
  import opened CanFates
  import opened CanPacing
  import opened Numerals
  import opened Slices

  const HOLD_OFF: real := 0.003
  const DECREASE_PERIOD: real := 0.01
  const INCREASE_PERIOD: real := 1.0
  const HYSTERESIS_PCT: nat := 3
  const FULL: nat := BATCH_MAX * RECORD_SIZE

  // ---------- State ----------

  /** The batch as the bridge holds it: its bytes, its wire bits and the running average of the
      costs; and what became of all frames. */
  datatype Account = Account(ledger: Ledger, buffer: seq<byte>, bits: nat, average: real)

  /** The token bucket, the datagrams taken from it since the connection began, and how many
      datagrams were sent before. */
  datatype Pace = Pace(tokens: real, last: real, ships: seq<Ship>, base: nat)

  /** The rate of the shaper and when it was last set. */
  datatype Shaper = Shaper(rate: nat, updated: real)

  datatype State = State(bitrate: nat, shaped: bool, udp: bool, armed: bool, due: real, paused: bool,
                         shaper: Shaper, account: Account, pace: Pace)

  function InitialAverage(bitrate: nat): real {
    if bitrate == 0 then 0.0 else INITIAL_WIRE_BITS
  }

  function FreshPace(bitrate: nat, now: real, base: nat): Pace {
    Pace(Seed(bitrate), now, [], base)
  }

  function Initial(bitrate: nat, netlink: bool, now: real): State {
    var shaped := bitrate != 0 && netlink;
    State(bitrate, shaped, true, false, now, false,
          if shaped then Shaper(BusRate(INITIAL_WIRE_BITS, bitrate), now) else Shaper(0, 0.0),
          Account(Ledger([], [], [], [], []), [], 0, InitialAverage(bitrate)),
          FreshPace(bitrate, now, 0))
  }

  // ---------- Handlers ----------

  function Collected(a: Account, frame: Frame): Account
    requires Encodable(frame)
  {
    Account(Collect(a.ledger, frame), a.buffer + Record(frame), a.bits + WireBits(frame), Average(a.average, WireBits(frame)))
  }

  function Refused(a: Account, frame: Frame): Account {
    Account(Refuse(a.ledger, frame), a.buffer, a.bits, a.average)
  }

  /** The batch leaves, for the UDP client or for good. */
  function Emptied(a: Account, udp: bool): Account {
    Account(if udp then Send(a.ledger, a.buffer) else Discard(a.ledger), [], 0, a.average)
  }

  predicate AllEncodable(frames: seq<Frame>) {
    forall f :: f in frames ==> Encodable(f)
  }

  /** Frames that wait in the kernel are read until the batch is full. */
  function Drained(a: Account, queue: seq<Frame>): Account
    requires AllEncodable(queue)
    decreases |queue|
  {
    if |a.buffer| >= FULL || queue == [] then a else Drained(Collected(a, queue[0]), queue[1..])
  }

  /** The frames from the `i`-th on. */
  function DrainedFrom(a: Account, queue: seq<Frame>, i: nat): Account
    requires AllEncodable(queue) && i <= |queue|
  {
    Drained(a, queue[i..])
  }

  lemma {:induction false} DrainedStep(a: Account, queue: seq<Frame>, i: nat)
    requires AllEncodable(queue) && i < |queue| && |a.buffer| < FULL
    ensures DrainedFrom(a, queue, i) == DrainedFrom(Collected(a, queue[i]), queue, i + 1)
  {
    SliceOfSuffix(queue, i, 1, 1);
  }

  lemma {:induction false} DrainedEnds(start: Account, a: Account, queue: seq<Frame>, i: nat)
    requires AllEncodable(queue) && i <= |queue| && (|a.buffer| >= FULL || i == |queue|)
    requires DrainedFrom(a, queue, i) == DrainedFrom(start, queue, 0)
    ensures Drained(start, queue) == a
  {
    Whole(queue);
  }

  function Refilled(p: Pace, bitrate: nat, now: real): Pace {
    Pace(Refill(p.tokens, now - p.last, bitrate), now, p.ships, p.base)
  }

  function Taken(p: Pace, bits: nat, bitrate: nat): Pace {
    Pace(p.tokens - bits as real, p.last, p.ships + [ShipAt(p.last, bits, p.tokens - bits as real, bitrate)], p.base)
  }

  /** The installed rate differs from the wanted one by less than the hysteresis. */
  predicate Near(installed: nat, wanted: nat) {
    if wanted < installed then (installed - wanted) * 100 < installed * HYSTERESIS_PCT
    else installed != 0 && (wanted - installed) * 100 < installed * HYSTERESIS_PCT
  }

  /** The last change is too young for another one. */
  predicate Recent(installed: nat, wanted: nat, updated: real, now: real) {
    now - updated < if wanted < installed then DECREASE_PERIOD else INCREASE_PERIOD
  }

  function Reshaped(s: Shaper, wanted: nat, now: real, netlink: bool): Shaper {
    if Recent(s.rate, wanted, s.updated, now) || Near(s.rate, wanted) then s
    else Shaper(if netlink then wanted else s.rate, now)
  }

  predicate Paces(s: State) {
    s.bitrate != 0 && !s.shaped
  }

  /** The bucket does not cover the batch at `now`. */
  predicate Short(s: State, now: real) {
    Paces(s) && Refilled(s.pace, s.bitrate, now).tokens < s.account.bits as real
  }

  function Held(s: State, now: real, pauses: bool): State
    requires s.bitrate != 0
  {
    var pace := Refilled(s.pace, s.bitrate, now);
    s.(pace := pace, armed := true, due := now + HoldTime(s.account.bits, pace.tokens, s.bitrate),
       paused := s.paused || pauses)
  }

  function Shipped(s: State, now: real, netlink: bool): State {
    s.(armed := false, paused := false, account := Emptied(s.account, s.udp),
       pace := if Paces(s) then Taken(Refilled(s.pace, s.bitrate, now), s.account.bits, s.bitrate) else s.pace,
       shaper := if s.shaped && s.bitrate != 0 then Reshaped(s.shaper, BusRate(s.account.average, s.bitrate), now, netlink)
                 else s.shaper)
  }

  function Flushed(s: State, now: real, pauses: bool, netlink: bool): State {
    if s.account.buffer == [] then s.(armed := false)
    else if Short(s, now) then Held(s, now, pauses)
    else Shipped(s, now, netlink)
  }

  function Disconnected(s: State, now: real): State {
    s.(udp := false, armed := false, paused := false, account := Emptied(s.account, false),
       pace := FreshPace(s.bitrate, now, |s.account.ledger.sent|))
  }

  /** A batch with room takes the frame and what waits behind it. */
  function Filled(s: State, frame: Frame, queue: seq<Frame>, now: real, pauses: bool, netlink: bool): State
    requires Encodable(frame) && AllEncodable(queue)
  {
    var next := s.(account := Drained(Collected(s.account, frame), queue));
    if |next.account.buffer| >= FULL then Flushed(next, now, pauses, netlink)
    else if next.armed then next
    else next.(armed := true, due := now + HOLD_OFF)
  }

  function Received(s: State, frame: Frame, queue: seq<Frame>, now: real, pauses: bool, netlink: bool): State
    requires Encodable(frame) && AllEncodable(queue)
  {
    var room := if |s.account.buffer| >= FULL then Flushed(s, now, pauses, netlink) else s;
    if |room.account.buffer| >= FULL then room.(account := Refused(room.account, frame))
    else Filled(room, frame, queue, now, pauses, netlink)
  }

  // ---------- The class ----------

  class Bridge {
    const bitrate: nat
    const shaped: bool
    var udp: bool
    var buffer: seq<byte>
    var armed: bool
    var due: real
    var bits: nat
    var tokens: real
    var paceLast: real
    var paused: bool
    var average: real
    var rate: nat
    var rateUpdated: real
    ghost var ledger: Ledger
    ghost var ships: seq<Ship>
    ghost var base: nat

    ghost function View(): State
      reads this
    {
      State(bitrate, shaped, udp, armed, due, paused, Shaper(rate, rateUpdated),
            Account(ledger, buffer, bits, average), Pace(tokens, paceLast, ships, base))
    }

    constructor (bitrate: nat, netlink: bool, now: real)
      ensures View() == Initial(bitrate, netlink, now)
    {
      this.bitrate := bitrate;
      shaped := bitrate != 0 && netlink;
      average := if bitrate == 0 then 0.0 else INITIAL_WIRE_BITS;
      rate := if bitrate != 0 && netlink then BusRate(INITIAL_WIRE_BITS, bitrate) else 0;
      rateUpdated := if bitrate != 0 && netlink then now else 0.0;
      udp, buffer, armed, due, bits, paused := true, [], false, now, 0, false;
      tokens, paceLast := if bitrate != 0 then bitrate as real * 15.0 / 1000.0 else 0.0, now;
      ledger, ships, base := Ledger([], [], [], [], []), [], 0;
    }

    method ResetPacing(now: real)
      modifies this`bits, this`tokens, this`paceLast, this`paused, this`ships, this`base
      ensures bits == 0 && !paused && View().pace == FreshPace(bitrate, now, |ledger.sent|)
    {
      bits := 0;
      tokens := if bitrate != 0 then bitrate as real * 15.0 / 1000.0 else 0.0;
      paceLast := now;
      paused := false;
      ships, base := [], |ledger.sent|;
    }

    method DisconnectCbEndpoint(now: real)
      modifies this
      ensures View() == Disconnected(old(View()), now)
    {
      ledger := Discard(ledger);
      buffer := [];
      armed := false;
      ResetPacing(now);
      udp := false;
    }

    method ConnectCbEndpoint(now: real)
      modifies this
      ensures View() == Disconnected(old(View()), now).(udp := true)
    {
      DisconnectCbEndpoint(now);
      udp := true;
    }

    method Append(frame: Frame)
      requires Encodable(frame)
      modifies this`buffer, this`bits, this`average, this`ledger
      ensures View() == old(View()).(account := Collected(old(View()).account, frame))
    {
      buffer := buffer + Record(frame);
      var cost := WireBits(frame);
      bits := bits + cost;
      average := average + (cost as real - average) / 64.0;
      ledger := Collect(ledger, frame);
    }

    method UpdateRate(now: real, netlink: bool)
      modifies this`rate, this`rateUpdated
      ensures Shaper(rate, rateUpdated) ==
              if shaped && bitrate != 0 then Reshaped(old(Shaper(rate, rateUpdated)), BusRate(average, bitrate), now, netlink)
              else old(Shaper(rate, rateUpdated))
    {
      if !shaped || bitrate == 0 {
        return;
      }
      var wanted := BusRate(average, bitrate);
      var installed := rate;
      if wanted < installed {
        if now - rateUpdated < DECREASE_PERIOD {
          return;
        }
        if (installed - wanted) * 100 < installed * HYSTERESIS_PCT {
          return;
        }
      } else {
        if now - rateUpdated < INCREASE_PERIOD {
          return;
        }
        if installed != 0 && (wanted - installed) * 100 < installed * HYSTERESIS_PCT {
          return;
        }
      }
      rateUpdated := now;
      if netlink {
        rate := wanted;
      }
    }

    /** Refills the bucket and takes the batch from it if it covers the batch. */
    method TakeTokens(now: real) returns (covered: bool)
      modifies this`tokens, this`paceLast, this`ships
      ensures covered == (bits as real <= Refilled(old(View()).pace, bitrate, now).tokens)
      ensures var refilled := Refilled(old(View()).pace, bitrate, now);
              View().pace == if covered then Taken(refilled, bits, bitrate) else refilled
    {
      tokens := Refill(tokens, now - paceLast, bitrate);
      paceLast := now;
      covered := bits as real <= tokens;
      if covered {
        tokens := tokens - bits as real;
        ships := ships + [ShipAt(now, bits, tokens, bitrate)];
      }
    }

    /** Sets the timer for when the bucket should cover the batch. */
    method Hold(now: real, pauses: bool)
      requires bitrate != 0
      modifies this`armed, this`due, this`paused
      ensures armed && due == now + HoldTime(bits, tokens, bitrate) && paused == (old(paused) || pauses)
    {
      var wait := Nanoseconds((bits as real - tokens) / PaceRate(bitrate));
      due := now + Max(wait, MIN_HOLD);
      armed := true;
      if !paused {
        paused := pauses;
      }
    }

    /** Hands the batch to the UDP client, or drops it if there is none. */
    method SendBatch(now: real, netlink: bool)
      modifies this`buffer, this`bits, this`paused, this`rate, this`rateUpdated, this`ledger
      ensures View().account == Emptied(old(View()).account, udp) && !paused
      ensures View().shaper ==
              if shaped && bitrate != 0 then Reshaped(old(View()).shaper, BusRate(average, bitrate), now, netlink)
              else old(View()).shaper
    {
      ledger := if udp then Send(ledger, buffer) else Discard(ledger);
      buffer := [];
      bits := 0;
      UpdateRate(now, netlink);
      if paused {
        paused := false;
      }
    }

    /** Also the handler of the batch timer. */
    method Flush(now: real, pauses: bool, netlink: bool)
      modifies this
      ensures View() == Flushed(old(View()), now, pauses, netlink)
    {
      armed := false;
      if buffer == [] {
        return;
      }
      if bitrate != 0 && !shaped {
        var covered := TakeTokens(now);
        if !covered {
          Hold(now, pauses);
          return;
        }
      }
      SendBatch(now, netlink);
    }

    /** One frame from the virtual bus, and those that wait behind it in the kernel's queue. */
    method HandleCanRx(frame: Frame, queue: seq<Frame>, now: real, pauses: bool, netlink: bool)
      requires Encodable(frame) && AllEncodable(queue)
      modifies this
      ensures View() == Received(old(View()), frame, queue, now, pauses, netlink)
    {
      if |buffer| >= FULL {
        Flush(now, pauses, netlink);
        if |buffer| >= FULL {
          ledger := Refuse(ledger, frame);
          return;
        }
      }
      Fill(frame, queue, now, pauses, netlink);
    }

    /** Takes the frame and what waits behind it into a batch with room. */
    method Fill(frame: Frame, queue: seq<Frame>, now: real, pauses: bool, netlink: bool)
      requires Encodable(frame) && AllEncodable(queue)
      modifies this
      ensures View() == Filled(old(View()), frame, queue, now, pauses, netlink)
    {
      Append(frame);
      Drain(queue);
      if |buffer| >= FULL {
        Flush(now, pauses, netlink);
      } else if !armed {
        due := now + HOLD_OFF;
        armed := true;
      }
    }

    method Drain(queue: seq<Frame>)
      requires AllEncodable(queue)
      modifies this`buffer, this`bits, this`average, this`ledger
      ensures View() == old(View()).(account := Drained(old(View()).account, queue))
    {
      ghost var start := View().account;
      ghost var a := start;
      var next := 0;
      while |buffer| < FULL && next < |queue|
        invariant 0 <= next <= |queue|
        invariant View().account == a
        invariant DrainedFrom(a, queue, next) == DrainedFrom(start, queue, 0)
        decreases |queue| - next
      {
        DrainedStep(a, queue, next);
        a := Collected(a, queue[next]);
        Append(queue[next]);
        next := next + 1;
      }
      DrainedEnds(start, a, queue, next);
    }
  }
}
