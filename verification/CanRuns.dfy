/** What holds over every run of the CAN bridge. */
module CanRuns {
  import opened CanBridge
  import opened CanDatagram
  import opened CanFates
  import opened CanPacing
  import opened Numerals
  import opened Slices

  // ---------- Invariant ----------

  /** The batch holds what still waits, and its bytes, its wire bits and the average go with it. */
  ghost predicate Sound(a: Account, bitrate: nat) {
    && Accounted(a.ledger)
    && |a.ledger.batch| <= BATCH_MAX
    && AllEncodable(a.ledger.batch)
    && a.buffer == Datagram(a.ledger.batch)
    && a.bits == TotalBits(a.ledger.batch)
    && a.average == RunningAverage(InitialAverage(bitrate), a.ledger.seen)
  }

  predicate InPace(p: Pace, bitrate: nat) {
    Paced(p.ships, p.tokens, p.last, bitrate)
  }

  /** A datagram of frames that cost so many bits on the wire. */
  predicate Carries(datagram: seq<byte>, bits: nat) {
    bits == TotalBits(FramesOf(datagram))
  }

  /** The entries of the bucket are the datagrams of this connection. */
  ghost predicate Tied(sent: seq<seq<byte>>, p: Pace) {
    && |sent| == p.base + |p.ships|
    && forall i :: 0 <= i < |p.ships| ==> Carries(sent[p.base + i], p.ships[i].bits)
  }

  /** Holds between any two events. */
  ghost predicate Valid(s: State) {
    && Sound(s.account, s.bitrate)
    && (Paces(s) && s.udp ==> Tied(s.account.ledger.sent, s.pace))
    && InPace(s.pace, s.bitrate)
    && (s.armed <==> s.account.ledger.batch != [])
    && (s.paused ==> s.account.ledger.batch != [])
  }

  lemma {:induction false} BatchAppend(frames: seq<Frame>, frame: Frame)
    requires AllEncodable(frames) && |Datagram(frames)| < FULL && Encodable(frame)
    ensures |frames + [frame]| <= BATCH_MAX && AllEncodable(frames + [frame])
    ensures Datagram(frames + [frame]) == Datagram(frames) + Record(frame)
  {
    DatagramAppend(frames, frame);
  }

  lemma {:induction false} AverageAppend(initial: real, seen: seq<Frame>, frame: Frame)
    ensures RunningAverage(initial, seen + [frame]) == Average(RunningAverage(initial, seen), WireBits(frame))
  {
    Halves(seen, [frame]);
  }

  lemma CollectedIsSound(a: Account, frame: Frame, bitrate: nat)
    requires Sound(a, bitrate) && |a.buffer| < FULL && Encodable(frame)
    ensures Sound(Collected(a, frame), bitrate)
  {
    CollectIsAccounted(a.ledger, frame);
    BatchAppend(a.ledger.batch, frame);
    TotalBitsAppend(a.ledger.batch, frame);
    AverageAppend(InitialAverage(bitrate), a.ledger.seen, frame);
  }

  lemma {:induction false} DrainedSendsNothing(a: Account, queue: seq<Frame>)
    requires AllEncodable(queue)
    ensures Drained(a, queue).ledger.sent == a.ledger.sent
    decreases |queue|
  {
    if |a.buffer| < FULL && queue != [] {
      DrainedSendsNothing(Collected(a, queue[0]), queue[1..]);
    }
  }

  lemma {:induction false} DrainedIsSound(a: Account, queue: seq<Frame>, bitrate: nat)
    requires Sound(a, bitrate) && AllEncodable(queue)
    ensures Sound(Drained(a, queue), bitrate)
    ensures |a.ledger.batch| <= |Drained(a, queue).ledger.batch|
    decreases |queue|
  {
    if |a.buffer| < FULL && queue != [] {
      CollectedIsSound(a, queue[0], bitrate);
      DrainedIsSound(Collected(a, queue[0]), queue[1..], bitrate);
    }
  }

  lemma {:induction false} EmptiedIsSound(a: Account, udp: bool, bitrate: nat)
    requires Sound(a, bitrate)
    ensures Sound(Emptied(a, udp), bitrate)
  {
    SendIsAccounted(a.ledger);
    DiscardIsAccounted(a.ledger);
  }

  lemma RefusedIsSound(a: Account, frame: Frame, bitrate: nat)
    requires Sound(a, bitrate)
    ensures Sound(Refused(a, frame), bitrate)
  {
    RefuseIsAccounted(a.ledger, frame);
  }

  lemma {:induction false} BatchSize(frames: seq<Frame>)
    requires AllEncodable(frames) && |frames| <= BATCH_MAX
    ensures |Datagram(frames)| >= FULL <==> |frames| == BATCH_MAX
    ensures Datagram(frames) == [] <==> frames == []
  {
  }

  lemma FullBatch(a: Account, bitrate: nat)
    requires Sound(a, bitrate)
    ensures |a.buffer| >= FULL <==> |a.ledger.batch| == BATCH_MAX
    ensures a.buffer == [] <==> a.ledger.batch == []
  {
    BatchSize(a.ledger.batch);
  }

  lemma RefilledInPace(p: Pace, bitrate: nat, now: real)
    requires InPace(p, bitrate) && p.last <= now
    ensures InPace(Refilled(p, bitrate, now), bitrate)
  {
    PacedRefill(p.ships, p.tokens, p.last, now, bitrate);
  }

  lemma TakenInPace(p: Pace, bits: nat, bitrate: nat)
    requires InPace(p, bitrate) && bits as real <= p.tokens <= Bucket(bitrate)
    ensures InPace(Taken(p, bits, bitrate), bitrate)
  {
    PacedShip(p.ships, p.tokens, p.last, bits, bitrate);
  }

  lemma FreshInPace(bitrate: nat, now: real, base: nat)
    ensures InPace(FreshPace(bitrate, now, base), bitrate)
  {
    PacedStart(now, bitrate);
  }

  lemma {:induction false} BatchIsReadBack(a: Account, bitrate: nat)
    requires Sound(a, bitrate)
    ensures FramesOf(a.buffer) == a.ledger.batch
  {
    DatagramThenMore(a.ledger.batch, []);
    Whole(a.buffer);
    Whole(a.ledger.batch);
  }

  lemma {:induction false} TakenIsTied(a: Account, p: Pace, bitrate: nat)
    requires Sound(a, bitrate) && Tied(a.ledger.sent, p)
    ensures Tied(Emptied(a, true).ledger.sent, Taken(p, a.bits, bitrate))
  {
    BatchIsReadBack(a, bitrate);
    TiedAppend(a.ledger.sent, p, a.buffer, Taken(p, a.bits, bitrate));
  }

  lemma TiedAppend(sent: seq<seq<byte>>, p: Pace, datagram: seq<byte>, next: Pace)
    requires Tied(sent, p) && next.base == p.base && |next.ships| == |p.ships| + 1
    requires next.ships[..|p.ships|] == p.ships && Carries(datagram, next.ships[|p.ships|].bits)
    ensures Tied(sent + [datagram], next)
  {
    forall i | 0 <= i < |next.ships|
      ensures Carries((sent + [datagram])[p.base + i], next.ships[i].bits)
    {
      if i < |p.ships| {
        assert next.ships[i] == next.ships[..|p.ships|][i];
      }
    }
  }

  /** All of `Valid` but the timer, which a flush sets anew. */
  ghost predicate Steady(s: State) {
    && Sound(s.account, s.bitrate)
    && (Paces(s) && s.udp ==> Tied(s.account.ledger.sent, s.pace))
    && InPace(s.pace, s.bitrate)
    && (s.paused ==> s.account.ledger.batch != [])
  }

  lemma HeldIsValid(s: State, now: real, pauses: bool)
    requires Steady(s) && now >= s.pace.last && s.bitrate != 0 && s.account.ledger.batch != []
    ensures Valid(Held(s, now, pauses))
  {
    RefilledInPace(s.pace, s.bitrate, now);
    var held := Held(s, now, pauses);
    assert held.account == s.account && held.pace == Refilled(s.pace, s.bitrate, now);
    assert Tied(s.account.ledger.sent, s.pace) ==> Tied(held.account.ledger.sent, held.pace);
  }

  lemma TokensWithinBucket(p: Pace, bitrate: nat, now: real)
    ensures Refilled(p, bitrate, now).tokens <= Bucket(bitrate)
  {
  }

  lemma ShippedPace(s: State, now: real)
    requires Steady(s) && now >= s.pace.last && Paces(s) && !Short(s, now)
    ensures InPace(Taken(Refilled(s.pace, s.bitrate, now), s.account.bits, s.bitrate), s.bitrate)
  {
    TokensWithinBucket(s.pace, s.bitrate, now);
    RefilledInPace(s.pace, s.bitrate, now);
    TakenInPace(Refilled(s.pace, s.bitrate, now), s.account.bits, s.bitrate);
  }

  lemma {:induction false} ShippedIsValid(s: State, now: real, netlink: bool)
    requires Steady(s) && now >= s.pace.last && !Short(s, now)
    ensures Valid(CanBridge.Shipped(s, now, netlink))
  {
    EmptiedIsSound(s.account, s.udp, s.bitrate);
    if Paces(s) {
      ShippedPace(s, now);
      if s.udp {
        TakenIsTied(s.account, Refilled(s.pace, s.bitrate, now), s.bitrate);
      }
    }
  }

  /** A flush may come while the timer does not yet match the batch. */
  lemma FlushedIsValid(s: State, now: real, pauses: bool, netlink: bool)
    requires Steady(s) && now >= s.pace.last
    ensures Valid(Flushed(s, now, pauses, netlink)) && now >= Flushed(s, now, pauses, netlink).pace.last
  {
    FullBatch(s.account, s.bitrate);
    if s.account.buffer != [] {
      if Short(s, now) {
        HeldIsValid(s, now, pauses);
      } else {
        ShippedIsValid(s, now, netlink);
      }
    }
  }

  lemma {:induction false} DrainedIsSteady(s: State, frame: Frame, queue: seq<Frame>)
    requires Valid(s) && |s.account.buffer| < FULL && Encodable(frame) && AllEncodable(queue)
    ensures var next := s.(account := Drained(Collected(s.account, frame), queue));
            Steady(next) && next.account.ledger.batch != []
  {
    var a := Collected(s.account, frame);
    CollectedIsSound(s.account, frame, s.bitrate);
    DrainedIsSound(a, queue, s.bitrate);
    DrainedSendsNothing(a, queue);
    assert |a.ledger.batch| > 0;
  }

  lemma ArmedIsValid(s: State, due: real)
    requires Steady(s) && s.account.ledger.batch != []
    ensures Valid(s.(armed := true, due := due)) && (s.armed ==> Valid(s))
  {
  }

  lemma FilledIsValid(s: State, frame: Frame, queue: seq<Frame>, now: real, pauses: bool, netlink: bool)
    requires Valid(s) && now >= s.pace.last && |s.account.buffer| < FULL
    requires Encodable(frame) && AllEncodable(queue)
    ensures Valid(Filled(s, frame, queue, now, pauses, netlink))
  {
    var next := s.(account := Drained(Collected(s.account, frame), queue));
    DrainedIsSteady(s, frame, queue);
    if |next.account.buffer| >= FULL {
      FlushedIsValid(next, now, pauses, netlink);
    } else {
      ArmedIsValid(next, now + HOLD_OFF);
    }
  }

  lemma ReceivedIsValid(s: State, frame: Frame, queue: seq<Frame>, now: real, pauses: bool, netlink: bool)
    requires Valid(s) && now >= s.pace.last
    requires Encodable(frame) && AllEncodable(queue)
    ensures Valid(Received(s, frame, queue, now, pauses, netlink))
  {
    var room := if |s.account.buffer| >= FULL then Flushed(s, now, pauses, netlink) else s;
    FlushedIsValid(s, now, pauses, netlink);
    if |room.account.buffer| >= FULL {
      RefusedIsSound(room.account, frame, room.bitrate);
    } else {
      FilledIsValid(room, frame, queue, now, pauses, netlink);
    }
  }

  lemma DisconnectedIsValid(s: State, now: real, udp: bool)
    requires Valid(s)
    ensures Valid(Disconnected(s, now).(udp := udp))
  {
    EmptiedIsSound(s.account, false, s.bitrate);
    FreshInPace(s.bitrate, now, |s.account.ledger.sent|);
  }

  // ---------- Runs ----------

  /** What the event loop calls the bridge for. `pauses` and `netlink` tell whether pausing the
      socket and setting the shaper's rate would succeed. */
  datatype Event =
    | Rx(now: real, pauses: bool, netlink: bool, frame: Frame, queue: seq<Frame>)
    | Timer(now: real, pauses: bool, netlink: bool)
    | Disconnect(now: real)
    | Connect(now: real)

  /** The clock does not run backwards, and frames fit a record. */
  predicate Possible(s: State, e: Event) {
    e.now >= s.pace.last && (e.Rx? ==> Encodable(e.frame) && AllEncodable(e.queue))
  }

  function Step(s: State, e: Event): State
    requires Possible(s, e)
  {
    match e
    case Rx(now, pauses, netlink, frame, queue) => Received(s, frame, queue, now, pauses, netlink)
    case Timer(now, pauses, netlink) => Flushed(s, now, pauses, netlink)
    case Disconnect(now) => Disconnected(s, now)
    case Connect(now) => Disconnected(s, now).(udp := true)
  }

  /** The states of a run, each the step of the one before. */
  ghost predicate IsRun(states: seq<State>, events: seq<Event>) {
    && |states| == |events| + 1
    && (exists bitrate, netlink, now :: states[0] == Initial(bitrate, netlink, now))
    && (forall k :: 0 <= k < |events| ==> Possible(states[k], events[k]) && states[k + 1] == Step(states[k], events[k]))
  }

  lemma InitialIsValid(bitrate: nat, netlink: bool, now: real)
    ensures Valid(Initial(bitrate, netlink, now))
  {
    FreshInPace(bitrate, now, 0);
  }

  lemma StepIsValid(s: State, e: Event)
    requires Valid(s) && Possible(s, e)
    ensures Valid(Step(s, e))
  {
    match e
    case Rx(now, pauses, netlink, frame, queue) => ReceivedIsValid(s, frame, queue, now, pauses, netlink);
    case Timer(now, pauses, netlink) => FlushedIsValid(s, now, pauses, netlink);
    case Disconnect(now) => DisconnectedIsValid(s, now, false);
    case Connect(now) => DisconnectedIsValid(s, now, true);
  }

  lemma {:induction false} RunIsValid(states: seq<State>, events: seq<Event>, k: nat)
    requires IsRun(states, events) && k < |states|
    ensures Valid(states[k])
  {
    if k == 0 {
      var bitrate, netlink, now :| states[0] == Initial(bitrate, netlink, now);
      InitialIsValid(bitrate, netlink, now);
    } else {
      RunIsValid(states, events, k - 1);
      assert states[k - 1 + 1] == Step(states[k - 1], events[k - 1]);
      StepIsValid(states[k - 1], events[k - 1]);
    }
  }

  // ---------- Results ----------

  /** In every state of every run: at most a full datagram waits, its bit count is the sum over its
      frames, the timer is armed exactly while something waits, reading is paused only then, the
      receiver of the datagrams reads the shipped frames in order, and every frame received is in
      exactly one of the batch, the datagrams and the drops. */
  lemma {:induction false} BatchIsAccountedFor(states: seq<State>, events: seq<Event>, k: nat)
    requires IsRun(states, events) && k < |states|
    ensures var s := states[k];
            var l := s.account.ledger;
            && |l.batch| <= BATCH_MAX && s.account.bits == TotalBits(l.batch)
            && AllEncodable(l.batch) && FramesOf(s.account.buffer) == l.batch
            && (s.armed <==> l.batch != []) && (s.paused ==> l.batch != [])
            && |l.fates| == |l.received|
            && Chosen(l.received, l.fates, Batched) == l.batch
            && Chosen(l.received, l.fates, Fate.Shipped) == Delivered(l.sent)
            && multiset(l.received) == multiset(l.batch) + multiset(Delivered(l.sent)) + Census(l.received, l.fates, Dropped)
  {
    RunIsValid(states, events, k);
    var l := states[k].account.ledger;
    NothingVanishes(l.received, l.fates);
    BatchIsReadBack(states[k].account, states[k].bitrate);
  }

  /** In every state of every run that paces, any two datagrams of the present connection: the wire
      bits of the frames sent from the one to the other, both included, are at most a full bucket plus
      what the paced rate carries meanwhile, although the connection starts with more than a full
      bucket. */
  lemma {:induction false} RunConforms(states: seq<State>, events: seq<Event>, k: nat, i: nat, j: nat)
    requires IsRun(states, events) && k < |states|
    requires i <= j < |states[k].pace.ships|
    ensures var s := states[k];
            ShippedBits(s.pace.ships[i..j + 1]) as real <=
            0.95 * s.bitrate as real * (0.015 + (s.pace.ships[j].time - s.pace.ships[i].time))
  {
    RunIsInPace(states, events, k);
    InPaceConforms(states[k].pace, states[k].bitrate, i, j);
    BucketAndFlow(states[k].bitrate, states[k].pace.ships[j].time - states[k].pace.ships[i].time);
  }

  lemma BucketAndFlow(bitrate: nat, time: real)
    ensures Bucket(bitrate) + time * PaceRate(bitrate) == 0.95 * bitrate as real * (0.015 + time)
  {
    var rate := 0.95 * bitrate as real;
    assert PaceRate(bitrate) == rate && Bucket(bitrate) == rate * 0.015;
    Distributes(0.015, -time, rate);
  }

  lemma RunIsInPace(states: seq<State>, events: seq<Event>, k: nat)
    requires IsRun(states, events) && k < |states|
    ensures InPace(states[k].pace, states[k].bitrate)
  {
    RunIsValid(states, events, k);
  }

  lemma {:induction false} InPaceConforms(p: Pace, bitrate: nat, i: nat, j: nat)
    requires InPace(p, bitrate) && i <= j < |p.ships|
    ensures ShippedBits(p.ships[i..j + 1]) as real <=
            Bucket(bitrate) + (p.ships[j].time - p.ships[i].time) * PaceRate(bitrate)
  {
    PacingConforms(p.ships, i, j, PaceRate(bitrate), Bucket(bitrate));
  }

  /** The entries that conform are the datagrams: those sent since the connection began, in order,
      each with the wire bits of the frames that a receiver reads from it. */
  lemma PacedDatagramsAreSent(states: seq<State>, events: seq<Event>, k: nat)
    requires IsRun(states, events) && k < |states| && Paces(states[k]) && states[k].udp
    ensures Tied(states[k].account.ledger.sent, states[k].pace)
  {
    RunIsValid(states, events, k);
  }

  // ---------- A held batch leaves ----------

  /** A flush left the batch waiting for the bucket, and nothing was added to it since. */
  predicate IsHeld(s: State) {
    && Paces(s) && s.account.buffer != []
    && s.pace.tokens < s.account.bits as real
    && s.due == s.pace.last + HoldTime(s.account.bits, s.pace.tokens, s.bitrate)
  }

  predicate FitsBucket(s: State) {
    s.account.bits as real <= Bucket(s.bitrate)
  }

  lemma FlushedIsHeld(s: State, now: real, pauses: bool, netlink: bool)
    ensures var next := Flushed(s, now, pauses, netlink);
            next.account.buffer == [] || (IsHeld(next) && next.account == s.account && next.bitrate == s.bitrate)
  {
  }

  /** A batch that was held leaves at the first or second firing of its timer if, and only if, it
      fits the bucket, and otherwise stays. */
  lemma HeldBatchLeaves(s: State, first: Event, second: Event)
    requires IsHeld(s) && first.Timer? && second.Timer? && first.now >= s.due
    requires var once := Flushed(s, first.now, first.pauses, first.netlink);
             once.account.buffer != [] ==> second.now >= once.due
    ensures var once := Flushed(s, first.now, first.pauses, first.netlink);
            var twice := Flushed(once, second.now, second.pauses, second.netlink);
            && (FitsBucket(s) <==> twice.account.buffer == [])
            && (twice.account.buffer != [] ==> twice.account == s.account)
  {
    var once := Flushed(s, first.now, first.pauses, first.netlink);
    FlushedIsHeld(s, first.now, first.pauses, first.netlink);
    if Short(s, first.now) {
      HeldBatchShips(s.account.bits, s.pace.tokens, first.now - s.pace.last, second.now - first.now, s.bitrate);
    } else {
      assert s.account.bits as real <= Refilled(s.pace, s.bitrate, first.now).tokens;
    }
  }

  predicate ClassicEvent(e: Event) {
    e.Rx? ==> |e.frame.payload| <= CLASSIC_SIZE && AllClassic(e.queue)
  }

  /** All frames of the run are classic ones, which is all that the CAN socket delivers. */
  predicate IsClassic(events: seq<Event>) {
    forall k :: 0 <= k < |events| ==> ClassicEvent(events[k])
  }

  lemma {:induction false} DrainedIsClassic(a: Account, queue: seq<Frame>)
    requires AllClassic(a.ledger.batch) && AllEncodable(queue) && AllClassic(queue)
    ensures AllClassic(Drained(a, queue).ledger.batch)
    decreases |queue|
  {
    if |a.buffer| < FULL && queue != [] {
      DrainedIsClassic(Collected(a, queue[0]), queue[1..]);
    }
  }

  lemma FlushedIsClassic(s: State, now: real, pauses: bool, netlink: bool)
    requires AllClassic(s.account.ledger.batch)
    ensures AllClassic(Flushed(s, now, pauses, netlink).account.ledger.batch)
  {
  }

  lemma FilledIsClassic(s: State, frame: Frame, queue: seq<Frame>, now: real, pauses: bool, netlink: bool)
    requires AllClassic(s.account.ledger.batch) && Encodable(frame) && AllEncodable(queue)
    requires |frame.payload| <= CLASSIC_SIZE && AllClassic(queue)
    ensures AllClassic(Filled(s, frame, queue, now, pauses, netlink).account.ledger.batch)
  {
    DrainedIsClassic(Collected(s.account, frame), queue);
    FlushedIsClassic(s.(account := Drained(Collected(s.account, frame), queue)), now, pauses, netlink);
  }

  lemma StepIsClassic(s: State, e: Event)
    requires AllClassic(s.account.ledger.batch) && Possible(s, e) && ClassicEvent(e)
    ensures AllClassic(Step(s, e).account.ledger.batch)
  {
    if e.Rx? {
      FlushedIsClassic(s, e.now, e.pauses, e.netlink);
      var room := if |s.account.buffer| >= FULL then Flushed(s, e.now, e.pauses, e.netlink) else s;
      FilledIsClassic(room, e.frame, e.queue, e.now, e.pauses, e.netlink);
    } else if e.Timer? {
      FlushedIsClassic(s, e.now, e.pauses, e.netlink);
    }
  }

  lemma {:induction false} RunIsClassic(states: seq<State>, events: seq<Event>, k: nat)
    requires IsRun(states, events) && IsClassic(events) && k < |states|
    ensures AllClassic(states[k].account.ledger.batch)
  {
    if k > 0 {
      RunIsClassic(states, events, k - 1);
      assert states[k - 1 + 1] == Step(states[k - 1], events[k - 1]);
      StepIsClassic(states[k - 1], events[k - 1]);
    }
  }

  lemma ClassicRunFits(states: seq<State>, events: seq<Event>, k: nat)
    requires IsRun(states, events) && IsClassic(events) && k < |states| && states[k].bitrate >= 125000
    ensures FitsBucket(states[k])
  {
    RunIsValid(states, events, k);
    RunIsClassic(states, events, k);
    ClassicBatchFits(states[k].account.ledger.batch, states[k].bitrate);
  }

  // ---------- Every frame leaves ----------

  /** Frame number `i` of those received is in the batch. */
  predicate Waits(s: State, i: nat) {
    i < |s.account.ledger.fates| && s.account.ledger.fates[i] == Batched
  }

  /** Less than what a nanosecond brings is missing in the bucket. */
  predicate IsClose(s: State) {
    s.account.bits as real - s.pace.tokens <= 0.000000001 * PaceRate(s.bitrate)
  }

  /** How many more firings of the timer the batch can take if nothing is added to it. */
  function Phase(s: State): nat {
    if !IsHeld(s) then 2 else if !IsClose(s) then 1 else 0
  }

  /** How many more firings of the timer the batch can take. */
  function Rank(s: State): int {
    3 * (BATCH_MAX - |s.account.ledger.batch|) + Phase(s)
  }

  predicate FiresDue(s: State, e: Event) {
    e.Timer? && e.now >= s.due
  }

  lemma {:induction false} EmptyBatchWaitsForNothing(a: Account, bitrate: nat)
    requires Sound(a, bitrate) && a.ledger.batch == []
    ensures Batched !in a.ledger.fates
  {
    ChosenNone(a.ledger.received, a.ledger.fates, Batched);
  }

  lemma {:induction false} EmptiedWaitsForNothing(a: Account, udp: bool)
    ensures Batched !in Emptied(a, udp).ledger.fates
    ensures |Emptied(a, udp).ledger.fates| == |a.ledger.fates|
  {
    SettledIsInOrder(a.ledger.fates, Fate.Shipped);
    SettledIsInOrder(a.ledger.fates, Dropped);
    SettledAt(a.ledger.fates, Fate.Shipped);
    SettledAt(a.ledger.fates, Dropped);
  }

  /** A frame that waits after a flush was held by it. */
  lemma FlushedWaits(s: State, now: real, pauses: bool, netlink: bool, i: nat)
    requires Sound(s.account, s.bitrate)
    ensures var next := Flushed(s, now, pauses, netlink);
            && |next.account.ledger.fates| == |s.account.ledger.fates|
            && (Waits(next, i) ==> s.account.buffer != [] && Short(s, now) && next == Held(s, now, pauses) && Waits(s, i))
  {
    FullBatch(s.account, s.bitrate);
    EmptiedWaitsForNothing(s.account, s.udp);
    if s.account.buffer == [] {
      EmptyBatchWaitsForNothing(s.account, s.bitrate);
    }
  }

  /** Holding a batch that is held already brings it closer, and more so if the timer was due. */
  lemma HoldingLowersPhase(s: State, now: real, pauses: bool)
    requires Paces(s) && s.account.buffer != [] && Short(s, now) && FitsBucket(s) && now >= s.pace.last
    ensures var held := Held(s, now, pauses);
            Phase(held) <= 1 && Phase(held) + (if now >= s.due then 1 else 0) <= Phase(s)
  {
    var rate := PaceRate(s.bitrate);
    var elapsed := now - s.pace.last;
    BucketPositive(s.bitrate);
    ProductPositive(elapsed, rate);
    if IsHeld(s) && now >= s.due {
      HoldNearlySuffices(s.account.bits, s.pace.tokens, elapsed, s.bitrate);
      if IsClose(s) {
        ShortHoldCovers(s.account.bits as real, s.pace.tokens, elapsed, rate);
        assert false;
      }
    }
  }

  lemma {:induction false} DrainedFates(a: Account, queue: seq<Frame>)
    requires AllEncodable(queue)
    ensures a.ledger.fates <= Drained(a, queue).ledger.fates
    decreases |queue|
  {
    if |a.buffer| < FULL && queue != [] {
      DrainedFates(Collected(a, queue[0]), queue[1..]);
    }
  }

  /** The batch with a frame and those behind it. */
  lemma {:induction false} FillingWaits(s: State, frame: Frame, queue: seq<Frame>, i: nat)
    requires Valid(s) && |s.account.buffer| < FULL && Encodable(frame) && AllEncodable(queue)
    ensures var next := s.(account := Drained(Collected(s.account, frame), queue));
            && |s.account.ledger.batch| < |next.account.ledger.batch| <= BATCH_MAX
            && |s.account.ledger.fates| < |next.account.ledger.fates|
            && (Waits(next, i) && i < |s.account.ledger.fates| ==> Waits(s, i))
  {
    CollectedIsSound(s.account, frame, s.bitrate);
    DrainedIsSound(Collected(s.account, frame), queue, s.bitrate);
    DrainedFates(Collected(s.account, frame), queue);
  }

  /** What waits in a batch that was filled up waited in it before, and the batch has grown. */
  predicate HasGrown(s: State, next: State, i: nat) {
    && |s.account.ledger.fates| <= |next.account.ledger.fates|
    && (Waits(next, i) && i < |s.account.ledger.fates| ==>
        Waits(s, i) && |s.account.ledger.batch| < |next.account.ledger.batch|)
  }

  lemma FilledHasGrown(s: State, frame: Frame, queue: seq<Frame>, now: real, pauses: bool, netlink: bool, i: nat)
    requires Valid(s) && |s.account.buffer| < FULL && Encodable(frame) && AllEncodable(queue)
    ensures HasGrown(s, Filled(s, frame, queue, now, pauses, netlink), i)
  {
    var next := s.(account := Drained(Collected(s.account, frame), queue));
    FillingWaits(s, frame, queue, i);
    DrainedIsSteady(s, frame, queue);
    FlushedWaits(next, now, pauses, netlink, i);
  }

  /** A frame that waits after an event waited before it, and the event lowered the rank if it was a
      firing of the timer that was due. */
  predicate KeepsWaiting(s: State, e: Event, next: State, i: nat) {
    && |s.account.ledger.fates| <= |next.account.ledger.fates|
    && (Waits(next, i) && i < |s.account.ledger.fates| ==>
        Waits(s, i) && Rank(next) + (if FiresDue(s, e) then 1 else 0) <= Rank(s))
  }

  lemma GrownKeepsWaiting(s: State, e: Event, next: State, i: nat)
    requires HasGrown(s, next, i) && !e.Timer?
    ensures KeepsWaiting(s, e, next, i)
  {
    assert Phase(next) <= 2;
  }

  lemma FullStaysFull(s: State, now: real, pauses: bool, netlink: bool)
    requires |Flushed(s, now, pauses, netlink).account.buffer| >= FULL
    ensures s.account.buffer != [] && Short(s, now) && Flushed(s, now, pauses, netlink) == Held(s, now, pauses)
  {
  }

  lemma RefusalKeepsRank(s: State, frame: Frame, i: nat)
    ensures var next := s.(account := Refused(s.account, frame));
            && Rank(next) == Rank(s) && |s.account.ledger.fates| < |next.account.ledger.fates|
            && (Waits(next, i) && i < |s.account.ledger.fates| ==> Waits(s, i))
  {
    var next := s.(account := Refused(s.account, frame));
    assert IsHeld(next) == IsHeld(s) && IsClose(next) == IsClose(s);
  }

  lemma RefusalKeepsWaiting(s: State, e: Event, i: nat)
    requires Valid(s) && Possible(s, e) && (Paces(s) ==> FitsBucket(s)) && e.Rx?
    requires |Flushed(s, e.now, e.pauses, e.netlink).account.buffer| >= FULL
    ensures var room := Flushed(s, e.now, e.pauses, e.netlink);
            KeepsWaiting(s, e, room.(account := Refused(room.account, e.frame)), i)
  {
    var room := Flushed(s, e.now, e.pauses, e.netlink);
    FlushedWaits(s, e.now, e.pauses, e.netlink, i);
    FullStaysFull(s, e.now, e.pauses, e.netlink);
    HoldingLowersPhase(s, e.now, e.pauses);
    RefusalKeepsRank(room, e.frame, i);
  }

  /** A full batch that leaves takes all with it that waited. */
  lemma FreedHasGrown(s: State, e: Event, i: nat)
    requires Valid(s) && Possible(s, e) && e.Rx? && |s.account.buffer| >= FULL
    requires |Flushed(s, e.now, e.pauses, e.netlink).account.buffer| < FULL
    ensures HasGrown(s, Step(s, e), i)
  {
    var room := Flushed(s, e.now, e.pauses, e.netlink);
    FlushedWaits(s, e.now, e.pauses, e.netlink, i);
    FlushedIsValid(s, e.now, e.pauses, e.netlink);
    FilledHasGrown(room, e.frame, e.queue, e.now, e.pauses, e.netlink, i);
  }

  lemma ReceptionKeepsWaiting(s: State, e: Event, i: nat)
    requires Valid(s) && Possible(s, e) && (Paces(s) ==> FitsBucket(s)) && e.Rx?
    ensures KeepsWaiting(s, e, Step(s, e), i)
  {
    if |s.account.buffer| < FULL {
      FilledHasGrown(s, e.frame, e.queue, e.now, e.pauses, e.netlink, i);
      GrownKeepsWaiting(s, e, Step(s, e), i);
    } else if |Flushed(s, e.now, e.pauses, e.netlink).account.buffer| < FULL {
      FreedHasGrown(s, e, i);
      GrownKeepsWaiting(s, e, Step(s, e), i);
    } else {
      RefusalKeepsWaiting(s, e, i);
    }
  }

  lemma StepKeepsWaiting(s: State, e: Event, i: nat)
    requires Valid(s) && Possible(s, e) && (Paces(s) ==> FitsBucket(s))
    ensures KeepsWaiting(s, e, Step(s, e), i)
  {
    match e
    case Rx(_, _, _, _, _) => ReceptionKeepsWaiting(s, e, i);
    case Timer(now, pauses, netlink) =>
      FlushedWaits(s, now, pauses, netlink, i);
      if Waits(Step(s, e), i) {
        HoldingLowersPhase(s, now, pauses);
      }
    case Disconnect(_) => EmptiedWaitsForNothing(s.account, false);
    case Connect(_) => EmptiedWaitsForNothing(s.account, false);
  }

  /** How often the timer fires, when it is due, from event `k` up to event `m`. */
  function Firings(states: seq<State>, events: seq<Event>, k: nat, m: nat): nat
    requires k <= m <= |events| < |states|
  {
    if k == m then 0 else Firings(states, events, k, m - 1) + (if FiresDue(states[m - 1], events[m - 1]) then 1 else 0)
  }

  lemma {:induction false} RankBoundsFirings(states: seq<State>, events: seq<Event>, k: nat, m: nat, i: nat)
    requires k <= m <= |events| < |states|
    requires forall j :: k <= j < m ==> KeepsWaiting(states[j], events[j], states[j + 1], i)
    requires i < |states[k].account.ledger.fates|
    ensures i < |states[m].account.ledger.fates|
    ensures Waits(states[m], i) ==>
              Waits(states[k], i) && Firings(states, events, k, m) + Rank(states[m]) <= Rank(states[k])
  {
    if k < m {
      RankBoundsFirings(states, events, k, m - 1, i);
      assert KeepsWaiting(states[m - 1], events[m - 1], states[m - 1 + 1], i);
    }
  }

  /** A bitrate that can be configured, where 0 stands for an unknown one. */
  predicate IsConfigurable(bitrate: nat) {
    bitrate == 0 || bitrate >= 125000
  }

  lemma {:induction false} RunKeepsBitrate(states: seq<State>, events: seq<Event>, k: nat)
    requires IsRun(states, events) && k < |states|
    ensures states[k].bitrate == states[0].bitrate
  {
    if k > 0 {
      RunKeepsBitrate(states, events, k - 1);
      assert states[k - 1 + 1] == Step(states[k - 1], events[k - 1]);
      StepKeepsBus(states[k - 1], events[k - 1]);
    }
  }

  /** What is configured stays. */
  predicate SameBus(s: State, next: State) {
    next.bitrate == s.bitrate && next.shaped == s.shaped
  }

  lemma FlushedKeepsBus(s: State, now: real, pauses: bool, netlink: bool)
    ensures SameBus(s, Flushed(s, now, pauses, netlink))
  {
  }

  lemma FilledKeepsBus(s: State, frame: Frame, queue: seq<Frame>, now: real, pauses: bool, netlink: bool)
    requires Encodable(frame) && AllEncodable(queue)
    ensures SameBus(s, Filled(s, frame, queue, now, pauses, netlink))
  {
    FlushedKeepsBus(s.(account := Drained(Collected(s.account, frame), queue)), now, pauses, netlink);
  }

  lemma ReceivedKeepsBus(s: State, e: Event)
    requires Possible(s, e) && e.Rx?
    ensures SameBus(s, Step(s, e))
  {
    var room := if |s.account.buffer| >= FULL then Flushed(s, e.now, e.pauses, e.netlink) else s;
    FlushedKeepsBus(s, e.now, e.pauses, e.netlink);
    if |room.account.buffer| < FULL {
      FilledKeepsBus(room, e.frame, e.queue, e.now, e.pauses, e.netlink);
    }
  }

  lemma StepKeepsBus(s: State, e: Event)
    requires Possible(s, e)
    ensures SameBus(s, Step(s, e))
  {
    if e.Rx? {
      ReceivedKeepsBus(s, e);
    } else if e.Timer? {
      FlushedKeepsBus(s, e.now, e.pauses, e.netlink);
    }
  }

  lemma RunKeepsWaiting(states: seq<State>, events: seq<Event>, k: nat, i: nat)
    requires IsRun(states, events) && IsClassic(events) && IsConfigurable(states[0].bitrate) && k < |events|
    ensures KeepsWaiting(states[k], events[k], states[k + 1], i)
  {
    RunIsValid(states, events, k);
    RunKeepsBitrate(states, events, k);
    if states[k].bitrate != 0 {
      ClassicRunFits(states, events, k);
    }
    StepKeepsWaiting(states[k], events[k], i);
  }

  /** In every run, at every bitrate, whatever is received in between and whether or not reading can be
      paused: a frame that waits in the batch is in it without a break since it was received, and the
      timer fires at most twice meanwhile when it is due, and three times more for each frame that
      joins; so with the 36th firing at the latest the frame leaves. */
  lemma {:induction false} EveryFrameLeaves(states: seq<State>, events: seq<Event>, k: nat, m: nat, i: nat)
    requires IsRun(states, events) && IsClassic(events) && IsConfigurable(states[0].bitrate)
    requires k <= m < |states| && i < |states[k].account.ledger.received| && Waits(states[m], i)
    ensures Waits(states[k], i)
    ensures var joined := |states[m].account.ledger.batch| - |states[k].account.ledger.batch|;
            && Firings(states, events, k, m) <= Phase(states[k]) + 3 * joined
            && Firings(states, events, k, m) <= 35
  {
    forall j | k <= j < m
      ensures KeepsWaiting(states[j], events[j], states[j + 1], i)
    {
      RunKeepsWaiting(states, events, j, i);
    }
    RunIsValid(states, events, k);
    RunIsValid(states, events, m);
    RankBoundsFirings(states, events, k, m, i);
    if states[k].account.ledger.batch == [] {
      EmptyBatchWaitsForNothing(states[k].account, states[k].bitrate);
    }
  }

  // ---------- Rate of the emulated bus ----------

  /** The rate is near the one that the average of all frames asks for, or was set, or tried to be set,
      too recently for another change. */
  predicate Follows(s: State, now: real) {
    var wanted := BusRate(RunningAverage(INITIAL_WIRE_BITS, s.account.ledger.seen), s.bitrate);
    Near(s.shaper.rate, wanted) || Recent(s.shaper.rate, wanted, s.shaper.updated, now)
  }

  lemma {:induction false} FlushedFollows(s: State, now: real, pauses: bool, netlink: bool)
    requires Sound(s.account, s.bitrate) && s.shaped && s.bitrate != 0 && s.account.buffer != []
    ensures Follows(Flushed(s, now, pauses, netlink), now)
  {
    var next := Flushed(s, now, pauses, netlink);
    assert next.account.average == s.account.average && next.account.ledger.seen == s.account.ledger.seen;
  }

  /** A shaped bus is not paced, so that a full batch leaves at once and none is found full. */
  predicate HasRoom(s: State) {
    s.shaped ==> s.bitrate != 0 && |s.account.buffer| < FULL
  }

  lemma FlushedHasRoom(s: State, now: real, pauses: bool, netlink: bool)
    requires s.shaped
    ensures Flushed(s, now, pauses, netlink).account.buffer == []
  {
  }

  lemma FilledHasRoom(s: State, frame: Frame, queue: seq<Frame>, now: real, pauses: bool, netlink: bool)
    requires HasRoom(s) && Encodable(frame) && AllEncodable(queue)
    ensures HasRoom(Filled(s, frame, queue, now, pauses, netlink))
  {
    FilledKeepsBus(s, frame, queue, now, pauses, netlink);
    if s.shaped {
      FlushedHasRoom(s.(account := Drained(Collected(s.account, frame), queue)), now, pauses, netlink);
    }
  }

  lemma ReceivedHasRoom(s: State, e: Event)
    requires HasRoom(s) && Possible(s, e) && e.Rx?
    ensures HasRoom(Step(s, e))
  {
    ReceivedKeepsBus(s, e);
    if s.shaped {
      FilledHasRoom(s, e.frame, e.queue, e.now, e.pauses, e.netlink);
      assert Step(s, e) == Filled(s, e.frame, e.queue, e.now, e.pauses, e.netlink);
    }
  }

  lemma StepHasRoom(s: State, e: Event)
    requires HasRoom(s) && Possible(s, e)
    ensures HasRoom(Step(s, e))
  {
    match e
    case Rx(now, pauses, netlink, frame, queue) => ReceivedHasRoom(s, e);
    case Timer(now, pauses, netlink) =>
      FlushedKeepsBus(s, now, pauses, netlink);
      if s.shaped {
        FlushedHasRoom(s, now, pauses, netlink);
      }
    case Disconnect(_) =>
    case Connect(_) =>
  }

  lemma {:induction false} RunHasRoom(states: seq<State>, events: seq<Event>, k: nat)
    requires IsRun(states, events) && k < |states|
    ensures HasRoom(states[k])
  {
    if k > 0 {
      RunHasRoom(states, events, k - 1);
      assert states[k - 1 + 1] == Step(states[k - 1], events[k - 1]);
      StepHasRoom(states[k - 1], events[k - 1]);
    }
  }

  /** The event has the batch sent, or dropped for want of a client. */
  predicate BatchLeaves(s: State, e: Event, next: State) {
    next.account.buffer == [] && (e.Rx? || (e.Timer? && s.account.buffer != []))
  }

  lemma FilledFollows(s: State, frame: Frame, queue: seq<Frame>, now: real, pauses: bool, netlink: bool)
    requires Valid(s) && s.shaped && s.bitrate != 0 && |s.account.buffer| < FULL
    requires Encodable(frame) && AllEncodable(queue) && Filled(s, frame, queue, now, pauses, netlink).account.buffer == []
    ensures Follows(Filled(s, frame, queue, now, pauses, netlink), now)
  {
    var next := s.(account := Drained(Collected(s.account, frame), queue));
    DrainedIsSteady(s, frame, queue);
    FullBatch(next.account, next.bitrate);
    FlushedFollows(next, now, pauses, netlink);
  }

  /** In every run on a shaped bus, after every event with which a batch leaves, the shaper's rate
      follows the frames. */
  lemma RateFollows(states: seq<State>, events: seq<Event>, k: nat)
    requires IsRun(states, events) && k < |events| && states[k].shaped
    requires BatchLeaves(states[k], events[k], states[k + 1])
    ensures Follows(states[k + 1], events[k].now)
  {
    var s, e := states[k], events[k];
    RunIsValid(states, events, k);
    RunHasRoom(states, events, k);
    assert states[k + 1] == Step(s, e);
    if e.Rx? {
      FilledFollows(s, e.frame, e.queue, e.now, e.pauses, e.netlink);
    } else {
      FlushedFollows(s, e.now, e.pauses, e.netlink);
    }
  }

  /** All frames cost between `low` and `high` bits, and so does the one assumed before the first. */
  predicate CostsBetween(seen: seq<Frame>, low: real, high: real) {
    low <= INITIAL_WIRE_BITS <= high && forall f :: f in seen ==> low <= WireBits(f) as real <= high
  }

  predicate RateBetween(rate: nat, low: real, high: real, bitrate: nat) {
    BusRate(high, bitrate) <= rate <= BusRate(low, bitrate)
  }

  /** In a shaped state, the installed rate is in the range of the costs. */
  predicate RateValid(s: State, low: real, high: real) {
    s.shaped ==> s.bitrate != 0 && RateBetween(s.shaper.rate, low, high, s.bitrate)
  }

  lemma AverageRate(a: Account, bitrate: nat, low: real, high: real)
    requires Sound(a, bitrate) && bitrate != 0 && CostsBetween(a.ledger.seen, low, high)
    ensures low <= a.average <= high && RateBetween(BusRate(a.average, bitrate), low, high, bitrate)
  {
    AverageStaysBetween(INITIAL_WIRE_BITS, a.ledger.seen, low, high);
    WantedRateStaysBetween(a.ledger.seen, low, high, bitrate);
  }

  lemma FlushedRate(s: State, now: real, pauses: bool, netlink: bool, low: real, high: real)
    requires Sound(s.account, s.bitrate) && RateValid(s, low, high) && CostsBetween(s.account.ledger.seen, low, high)
    ensures var next := Flushed(s, now, pauses, netlink);
            RateValid(next, low, high) && next.account.ledger.seen == s.account.ledger.seen
  {
    if s.shaped {
      AverageRate(s.account, s.bitrate, low, high);
    }
  }

  lemma {:induction false} DrainedSeesMore(a: Account, queue: seq<Frame>)
    requires AllEncodable(queue)
    ensures a.ledger.seen <= Drained(a, queue).ledger.seen
    decreases |queue|
  {
    if |a.buffer| < FULL && queue != [] {
      DrainedSeesMore(Collected(a, queue[0]), queue[1..]);
    }
  }

  lemma CostsOfPrefix(seen: seq<Frame>, more: seq<Frame>, low: real, high: real)
    requires seen <= more && CostsBetween(more, low, high)
    ensures CostsBetween(seen, low, high)
  {
    forall f | f in seen
      ensures low <= WireBits(f) as real <= high
    {
      var i :| 0 <= i < |seen| && seen[i] == f;
      assert more[i] == f;
    }
  }

  lemma {:induction false} FilledSeesMore(s: State, frame: Frame, queue: seq<Frame>, now: real, pauses: bool, netlink: bool)
    requires Encodable(frame) && AllEncodable(queue)
    ensures var all := Drained(Collected(s.account, frame), queue).ledger.seen;
            s.account.ledger.seen <= all == Filled(s, frame, queue, now, pauses, netlink).account.ledger.seen
  {
    DrainedSeesMore(Collected(s.account, frame), queue);
  }

  lemma FilledRate(s: State, frame: Frame, queue: seq<Frame>, now: real, pauses: bool, netlink: bool,
                   low: real, high: real)
    requires Valid(s) && |s.account.buffer| < FULL && Encodable(frame) && AllEncodable(queue)
    requires RateValid(s, low, high)
    requires CostsBetween(Filled(s, frame, queue, now, pauses, netlink).account.ledger.seen, low, high)
    ensures RateValid(Filled(s, frame, queue, now, pauses, netlink), low, high)
  {
    FilledSeesMore(s, frame, queue, now, pauses, netlink);
    DrainedIsSteady(s, frame, queue);
    FlushedRate(s.(account := Drained(Collected(s.account, frame), queue)), now, pauses, netlink, low, high);
  }

  lemma ReceivedRate(s: State, e: Event, low: real, high: real)
    requires Valid(s) && e.Rx? && Possible(s, e) && RateValid(s, low, high)
    requires CostsBetween(Step(s, e).account.ledger.seen, low, high)
    ensures RateValid(Step(s, e), low, high)
  {
    var room := if |s.account.buffer| >= FULL then Flushed(s, e.now, e.pauses, e.netlink) else s;
    StepSeesMore(s, e);
    CostsOfPrefix(s.account.ledger.seen, Step(s, e).account.ledger.seen, low, high);
    FlushedIsValid(s, e.now, e.pauses, e.netlink);
    FlushedRate(s, e.now, e.pauses, e.netlink, low, high);
    if |room.account.buffer| < FULL {
      FilledRate(room, e.frame, e.queue, e.now, e.pauses, e.netlink, low, high);
    }
  }

  lemma FlushedSeesNothing(s: State, now: real, pauses: bool, netlink: bool)
    ensures Flushed(s, now, pauses, netlink).account.ledger.seen == s.account.ledger.seen
  {
  }

  lemma StepSeesMore(s: State, e: Event)
    requires Possible(s, e)
    ensures s.account.ledger.seen <= Step(s, e).account.ledger.seen
  {
    if e.Rx? {
      var room := if |s.account.buffer| >= FULL then Flushed(s, e.now, e.pauses, e.netlink) else s;
      FlushedSeesNothing(s, e.now, e.pauses, e.netlink);
      FilledSeesMore(room, e.frame, e.queue, e.now, e.pauses, e.netlink);
    }
  }

  lemma StepRate(s: State, e: Event, low: real, high: real)
    requires Valid(s) && Possible(s, e) && RateValid(s, low, high)
    requires CostsBetween(Step(s, e).account.ledger.seen, low, high)
    ensures RateValid(Step(s, e), low, high)
  {
    if e.Rx? {
      ReceivedRate(s, e, low, high);
    } else if e.Timer? {
      FlushedSeesNothing(s, e.now, e.pauses, e.netlink);
      FlushedRate(s, e.now, e.pauses, e.netlink, low, high);
    }
  }

  lemma InitialRate(bitrate: nat, netlink: bool, now: real, low: real, high: real)
    requires CostsBetween([], low, high)
    ensures RateValid(Initial(bitrate, netlink, now), low, high)
  {
    WantedRateStaysBetween([], low, high, bitrate);
  }

  /** In every state of every run, the average of the costs, the rate that it asks for and the rate that
      is installed stay within the range of the costs of the frames seen so far and the initial
      assumption. */
  lemma BusRateIsSane(states: seq<State>, events: seq<Event>, k: nat, low: real, high: real)
    requires IsRun(states, events) && k < |states|
    requires CostsBetween(states[k].account.ledger.seen, low, high)
    ensures RateValid(states[k], low, high)
    ensures states[k].bitrate != 0 ==>
              && low <= states[k].account.average <= high
              && RateBetween(BusRate(states[k].account.average, states[k].bitrate), low, high, states[k].bitrate)
  {
    RunIsValid(states, events, k);
    if states[k].bitrate != 0 {
      AverageRate(states[k].account, states[k].bitrate, low, high);
    }
    RunRate(states, events, k, low, high);
  }

  lemma RunSeesMore(states: seq<State>, events: seq<Event>, k: nat, low: real, high: real)
    requires IsRun(states, events) && k < |events| && CostsBetween(states[k + 1].account.ledger.seen, low, high)
    ensures CostsBetween(states[k].account.ledger.seen, low, high)
  {
    StepSeesMore(states[k], events[k]);
    CostsOfPrefix(states[k].account.ledger.seen, states[k + 1].account.ledger.seen, low, high);
  }

  lemma {:induction false} RunRate(states: seq<State>, events: seq<Event>, k: nat, low: real, high: real)
    requires IsRun(states, events) && k < |states|
    requires CostsBetween(states[k].account.ledger.seen, low, high)
    ensures RateValid(states[k], low, high)
  {
    if k == 0 {
      var bitrate, netlink, now :| states[0] == Initial(bitrate, netlink, now);
      InitialRate(bitrate, netlink, now, low, high);
    } else {
      RunSeesMore(states, events, k - 1, low, high);
      RunRate(states, events, k - 1, low, high);
      RunIsValid(states, events, k - 1);
      assert states[k - 1 + 1] == Step(states[k - 1], events[k - 1]);
      StepRate(states[k - 1], events[k - 1], low, high);
    }
  }
}
