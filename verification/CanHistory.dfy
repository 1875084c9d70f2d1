/** What each event does to the CAN bridge, in terms of the frames: which ones wait, which ones are sent,
    when the timer fires and what is in the token bucket.
 */
module CanHistory {
  import opened CanBridge
  import opened CanDatagram
  import opened CanFates
  import opened CanPacing
  import opened CanRuns
  import opened Numerals
  import opened Slices

  // ---------- The UDP client ----------

  function LastEndpoint(events: seq<Event>): bool {
    if events == [] then true
    else
      var e := events[|events| - 1];
      if e.Connect? then true else if e.Disconnect? then false else LastEndpoint(events[..|events| - 1])
  }

  lemma FlushedKeepsEndpoint(s: State, now: real, pauses: bool, netlink: bool)
    ensures Flushed(s, now, pauses, netlink).udp == s.udp
  {
  }

  lemma FilledKeepsEndpoint(s: State, frame: Frame, queue: seq<Frame>, now: real, pauses: bool, netlink: bool)
    requires Encodable(frame) && AllEncodable(queue)
    ensures Filled(s, frame, queue, now, pauses, netlink).udp == s.udp
  {
    FlushedKeepsEndpoint(s.(account := Drained(Collected(s.account, frame), queue)), now, pauses, netlink);
  }

  lemma StepKeepsEndpoint(s: State, e: Event)
    requires Possible(s, e)
    ensures Step(s, e).udp == (e.Connect? || (s.udp && !e.Disconnect?))
  {
    if e.Rx? {
      var room := if |s.account.buffer| >= FULL then Flushed(s, e.now, e.pauses, e.netlink) else s;
      FlushedKeepsEndpoint(s, e.now, e.pauses, e.netlink);
      if |room.account.buffer| < FULL {
        FilledKeepsEndpoint(room, e.frame, e.queue, e.now, e.pauses, e.netlink);
      }
    }
  }

  /** There is a client unless the last event about it was a disconnect. */
  lemma {:induction false} EndpointFollows(states: seq<State>, events: seq<Event>, k: nat)
    requires IsRun(states, events) && k < |states|
    ensures states[k].udp == LastEndpoint(events[..k])
  {
    if k > 0 {
      EndpointFollows(states, events, k - 1);
      assert events[..k] == events[..k - 1] + [events[k - 1]];
      assert states[k - 1 + 1] == Step(states[k - 1], events[k - 1]);
      StepKeepsEndpoint(states[k - 1], events[k - 1]);
    }
  }

  // ---------- A flush ----------

  /** What the bucket holds at `now`: at most what 15 milliseconds bring at 95 percent of the bitrate. */
  function TokensAt(p: Pace, bitrate: nat, now: real): real {
    var rate := 0.95 * bitrate as real;
    var tokens := p.tokens + rate * (now - p.last);
    if tokens < rate * 0.015 then tokens else rate * 0.015
  }

  /** A bus that is shaped, or of unknown bitrate, is not paced. */
  predicate IsCovered(s: State, bits: nat, now: real) {
    s.bitrate == 0 || s.shaped || bits as real <= TokensAt(s.pace, s.bitrate, now)
  }

  /** A datagram from which the receiver reads the frames. */
  predicate IsDatagramOf(datagram: seq<byte>, frames: seq<Frame>) {
    FramesOf(datagram) == frames
  }

  /** The frames that wait leave: to the client, if there is one. */
  ghost predicate AreSent(s: State, next: State, frames: seq<Frame>, now: real) {
    && next.account.ledger.batch == [] && !next.armed && !next.paused
    && (if s.udp then |next.account.ledger.sent| == |s.account.ledger.sent| + 1
                      && next.account.ledger.sent[..|s.account.ledger.sent|] == s.account.ledger.sent
                      && IsDatagramOf(next.account.ledger.sent[|s.account.ledger.sent|], frames)
        else next.account.ledger.sent == s.account.ledger.sent)
    && (if s.bitrate == 0 || s.shaped then next.pace == s.pace
        else next.pace.last == now && next.pace.tokens == TokensAt(s.pace, s.bitrate, now) - TotalBits(frames) as real)
  }

  /** The timer waits for the missing tokens, up to less than a nanosecond, and no less than a tenth of a
      millisecond. */
  predicate WaitsForTokens(s: State, bits: nat, now: real) {
    s.bitrate > 0 &&
    var missing := (bits as real - s.pace.tokens) / (0.95 * s.bitrate as real);
    var hold := s.due - now;
    hold >= 0.0001 && hold > missing - 0.000000001 && (hold == 0.0001 || hold <= missing)
  }

  /** The frames wait for the bucket, with reading paused if that is possible. */
  ghost predicate AreHeld(s: State, next: State, frames: seq<Frame>, now: real, pauses: bool) {
    && next.account.ledger.batch == frames && next.account.ledger.sent == s.account.ledger.sent
    && next.armed && next.paused == (s.paused || pauses)
    && next.pace.last == now && next.pace.tokens == TokensAt(s.pace, s.bitrate, now)
    && WaitsForTokens(next, TotalBits(frames), now)
  }

  /** A flush of `frames`, which wait in the batch. */
  ghost predicate FlushFollows(s: State, next: State, frames: seq<Frame>, now: real, pauses: bool) {
    && next.account.ledger.received == s.account.ledger.received
    && if frames == [] then next == s.(armed := false)
       else if IsCovered(s, TotalBits(frames), now) then AreSent(s, next, frames, now)
       else AreHeld(s, next, frames, now, pauses)
  }

  lemma TokensAgree(s: State, now: real)
    ensures Refilled(s.pace, s.bitrate, now).tokens == TokensAt(s.pace, s.bitrate, now)
  {
    assert PaceRate(s.bitrate) == 0.95 * s.bitrate as real;
    assert Bucket(s.bitrate) == 0.95 * s.bitrate as real * 0.015;
  }

  lemma CoveredIff(s: State, now: real)
    ensures Short(s, now) <==> !IsCovered(s, s.account.bits, now)
  {
    TokensAgree(s, now);
  }

  lemma {:induction false} ShippedFollows(s: State, now: real, netlink: bool)
    requires Sound(s.account, s.bitrate)
    ensures AreSent(s, CanBridge.Shipped(s, now, netlink), s.account.ledger.batch, now)
  {
    TokensAgree(s, now);
    BatchIsReadBack(s.account, s.bitrate);
    Halves(s.account.ledger.sent, [s.account.buffer]);
  }

  lemma {:induction false} HeldFollows(s: State, now: real, pauses: bool)
    requires Sound(s.account, s.bitrate) && s.bitrate != 0
    ensures AreHeld(s, Held(s, now, pauses), s.account.ledger.batch, now, pauses)
  {
    TokensAgree(s, now);
    HoldIsTight(s.account.bits, Refilled(s.pace, s.bitrate, now).tokens, s.bitrate);
  }

  lemma {:induction false} FlushedFollows(s: State, now: real, pauses: bool, netlink: bool)
    requires Sound(s.account, s.bitrate)
    ensures FlushFollows(s, Flushed(s, now, pauses, netlink), s.account.ledger.batch, now, pauses)
  {
    FullBatch(s.account, s.bitrate);
    CoveredIff(s, now);
    if s.account.buffer != [] {
      if Short(s, now) {
        HeldFollows(s, now, pauses);
      } else {
        ShippedFollows(s, now, netlink);
      }
    }
  }

  // ---------- A reception ----------

  /** How many frames of the queue there is room for. */
  function Taken(waiting: nat, queue: seq<Frame>): (n: nat)
    requires waiting <= 12
    ensures n <= |queue| && n <= 12 - waiting
  {
    if |queue| < 12 - waiting then |queue| else 12 - waiting
  }

  /** The bytes of the batch are those of its records. */
  predicate IsSized(a: Account) {
    |a.buffer| == RECORD_SIZE * |a.ledger.batch| && |a.ledger.batch| <= 12
  }

  /** The account `b` has the frames more than `a`. */
  predicate HasMore(a: Account, b: Account, frames: seq<Frame>) {
    && b.ledger.batch == a.ledger.batch + frames
    && b.ledger.received == a.ledger.received + frames
    && b.ledger.sent == a.ledger.sent
  }

  lemma {:induction false} SoundIsSized(a: Account, bitrate: nat)
    requires Sound(a, bitrate)
    ensures IsSized(a)
  {
  }

  lemma CollectedIsSized(a: Account, frame: Frame)
    requires IsSized(a) && |a.ledger.batch| < 12 && Encodable(frame)
    ensures IsSized(Collected(a, frame)) && HasMore(a, Collected(a, frame), [frame])
  {
  }

  lemma NothingMore(a: Account)
    ensures HasMore(a, a, [])
  {
    Whole(a.ledger.batch);
    Whole(a.ledger.received);
  }

  lemma MoreAndMore(a: Account, b: Account, c: Account, first: seq<Frame>, second: seq<Frame>)
    requires HasMore(a, b, first) && HasMore(b, c, second)
    ensures HasMore(a, c, first + second)
  {
    Associative(a.ledger.batch, first, second);
    Associative(a.ledger.received, first, second);
  }

  lemma {:induction false} DrainedTakes(a: Account, queue: seq<Frame>)
    requires IsSized(a) && AllEncodable(queue)
    ensures HasMore(a, Drained(a, queue), queue[..Taken(|a.ledger.batch|, queue)])
    decreases |queue|
  {
    var n := Taken(|a.ledger.batch|, queue);
    if n == 0 {
      NothingMore(a);
    } else {
      var b := Collected(a, queue[0]);
      CollectedIsSized(a, queue[0]);
      DrainedTakes(b, queue[1..]);
      MoreAndMore(a, b, Drained(b, queue[1..]), [queue[0]], queue[1..][..n - 1]);
      assert queue[..n] == [queue[0]] + queue[1..][..n - 1];
    }
  }

  /** A frame and those behind it join a batch with room. If that fills the batch, it is flushed;
      otherwise the timer runs, for three milliseconds since the first frame of the batch. */
  ghost predicate FillFollows(s: State, next: State, frame: Frame, queue: seq<Frame>, now: real, pauses: bool)
    requires |s.account.ledger.batch| < 12
  {
    var taken := [frame] + queue[..Taken(|s.account.ledger.batch| + 1, queue)];
    var frames := s.account.ledger.batch + taken;
    && next.account.ledger.received == s.account.ledger.received + taken
    && if |frames| < 12 then
         && next.account.ledger.batch == frames && next.account.ledger.sent == s.account.ledger.sent
         && next.pace == s.pace && next.paused == s.paused
         && next.armed && next.due == (if s.armed then s.due else now + 0.003)
       else if IsCovered(s, TotalBits(frames), now) then AreSent(s, next, frames, now)
       else AreHeld(s, next, frames, now, pauses)
  }

  lemma {:induction false} FillingTakes(a: Account, frame: Frame, queue: seq<Frame>)
    requires IsSized(a) && |a.ledger.batch| < 12 && Encodable(frame) && AllEncodable(queue)
    ensures HasMore(a, Drained(Collected(a, frame), queue), [frame] + queue[..Taken(|a.ledger.batch| + 1, queue)])
  {
    var b := Collected(a, frame);
    CollectedIsSized(a, frame);
    DrainedTakes(b, queue);
    MoreAndMore(a, b, Drained(b, queue), [frame], queue[..Taken(|a.ledger.batch| + 1, queue)]);
  }

  /** What a flush does depends on the batch and not on how long it has been so. */
  lemma SentCarries(s: State, account: Account, next: State, frames: seq<Frame>, now: real)
    requires account.ledger.sent == s.account.ledger.sent && AreSent(s.(account := account), next, frames, now)
    ensures AreSent(s, next, frames, now)
  {
  }

  lemma HeldCarries(s: State, account: Account, next: State, frames: seq<Frame>, now: real, pauses: bool)
    requires account.ledger.sent == s.account.ledger.sent && AreHeld(s.(account := account), next, frames, now, pauses)
    ensures AreHeld(s, next, frames, now, pauses)
  {
  }

  lemma {:induction false} FlushCarries(s: State, account: Account, next: State, frames: seq<Frame>, now: real, pauses: bool)
    requires account.ledger.sent == s.account.ledger.sent && frames != []
    requires FlushFollows(s.(account := account), next, frames, now, pauses)
    ensures if IsCovered(s, TotalBits(frames), now) then AreSent(s, next, frames, now)
            else AreHeld(s, next, frames, now, pauses)
  {
    if IsCovered(s, TotalBits(frames), now) {
      SentCarries(s, account, next, frames, now);
    } else {
      HeldCarries(s, account, next, frames, now, pauses);
    }
  }

  lemma FilledFollows(s: State, frame: Frame, queue: seq<Frame>, now: real, pauses: bool, netlink: bool)
    requires Valid(s) && |s.account.ledger.batch| < 12 && Encodable(frame) && AllEncodable(queue)
    ensures FillFollows(s, Filled(s, frame, queue, now, pauses, netlink), frame, queue, now, pauses)
  {
    var account := Drained(Collected(s.account, frame), queue);
    var filled := s.(account := account);
    SoundIsSized(s.account, s.bitrate);
    FillingTakes(s.account, frame, queue);
    FullBatch(s.account, s.bitrate);
    DrainedIsSteady(s, frame, queue);
    FullBatch(account, s.bitrate);
    if |account.buffer| >= FULL {
      FlushedFollows(filled, now, pauses, netlink);
      FlushCarries(s, account, Flushed(filled, now, pauses, netlink), account.ledger.batch, now, pauses);
    }
  }

  /** A frame is dropped, and all else is as in `s`. */
  ghost predicate DropFollows(s: State, next: State, frame: Frame) {
    && next == s.(account := next.account)
    && next.account.ledger.received == s.account.ledger.received + [frame]
    && next.account.ledger.batch == s.account.ledger.batch && next.account.ledger.sent == s.account.ledger.sent
  }

  /** A frame that finds the batch full has it flushed first, and is dropped if that does not help. */
  ghost predicate ReceptionFollows(s: State, mid: State, next: State, e: Event)
    requires e.Rx?
  {
    && (if |s.account.ledger.batch| < 12 then mid == s
        else FlushFollows(s, mid, s.account.ledger.batch, e.now, e.pauses))
    && mid.udp == s.udp && mid.bitrate == s.bitrate && mid.shaped == s.shaped
    && if |mid.account.ledger.batch| < 12 then FillFollows(mid, next, e.frame, e.queue, e.now, e.pauses)
       else DropFollows(mid, next, e.frame)
  }

  lemma FullReceived(s: State, e: Event)
    requires Valid(s) && Possible(s, e) && e.Rx? && |s.account.buffer| >= FULL
    ensures var mid := Flushed(s, e.now, e.pauses, e.netlink);
            && FlushFollows(s, mid, s.account.ledger.batch, e.now, e.pauses)
            && mid.udp == s.udp && mid.bitrate == s.bitrate && mid.shaped == s.shaped
            && Valid(mid) && e.now >= mid.pace.last
  {
    FlushedFollows(s, e.now, e.pauses, e.netlink);
    FlushedIsValid(s, e.now, e.pauses, e.netlink);
    FlushedKeepsBus(s, e.now, e.pauses, e.netlink);
    FlushedKeepsEndpoint(s, e.now, e.pauses, e.netlink);
  }

  lemma RoomReceived(mid: State, next: State, e: Event)
    requires Valid(mid) && e.Rx? && Encodable(e.frame) && AllEncodable(e.queue)
    requires next == if |mid.account.buffer| >= FULL then mid.(account := Refused(mid.account, e.frame))
                     else Filled(mid, e.frame, e.queue, e.now, e.pauses, e.netlink)
    ensures if |mid.account.ledger.batch| < 12 then FillFollows(mid, next, e.frame, e.queue, e.now, e.pauses)
            else DropFollows(mid, next, e.frame)
  {
    FullBatch(mid.account, mid.bitrate);
    if |mid.account.ledger.batch| < 12 {
      FilledFollows(mid, e.frame, e.queue, e.now, e.pauses, e.netlink);
    }
  }

  lemma ReceivedFollows(s: State, e: Event)
    requires Valid(s) && Possible(s, e) && e.Rx?
    ensures var mid := if |s.account.buffer| >= FULL then Flushed(s, e.now, e.pauses, e.netlink) else s;
            ReceptionFollows(s, mid, Step(s, e), e)
  {
    var mid := if |s.account.buffer| >= FULL then Flushed(s, e.now, e.pauses, e.netlink) else s;
    FullBatch(s.account, s.bitrate);
    if |s.account.buffer| >= FULL {
      FullReceived(s, e);
    }
    RoomReceived(mid, Step(s, e), e);
  }

  /** The endpoint is given up or replaced: what waits is dropped, and the bucket starts with what 15
      milliseconds bring at the full bitrate. */
  ghost predicate ReplacementFollows(s: State, next: State, now: real) {
    && next.account.ledger.batch == [] && next.account.ledger.sent == s.account.ledger.sent
    && next.account.ledger.received == s.account.ledger.received
    && !next.armed && !next.paused
    && next.pace.last == now && next.pace.tokens == s.bitrate as real * 0.015
  }

  // ---------- Results ----------

  /** In every run, every event does to the frames, the timer and the bucket exactly what is said above. */
  lemma {:induction false} EveryEventFollows(states: seq<State>, events: seq<Event>, k: nat)
    requires IsRun(states, events) && k < |events|
    ensures var s, e, next := states[k], events[k], states[k + 1];
            match e
            case Rx(now, pauses, netlink, _, _) => exists mid :: ReceptionFollows(s, mid, next, e)
            case Timer(now, pauses, _) => FlushFollows(s, next, s.account.ledger.batch, now, pauses)
            case Disconnect(now) => ReplacementFollows(s, next, now)
            case Connect(now) => ReplacementFollows(s, next, now)
  {
    var s, e := states[k], events[k];
    RunIsValid(states, events, k);
    assert states[k + 1] == Step(s, e);
    match e
    case Rx(_, _, _, _, _) => ReceivedFollows(s, e);
    case Timer(now, pauses, netlink) => FlushedFollows(s, now, pauses, netlink);
    case Disconnect(_) =>
    case Connect(_) =>
  }

  /** How the bridge starts. */
  lemma StartFollows(states: seq<State>, events: seq<Event>)
    requires IsRun(states, events)
    ensures var s := states[0];
            && s.udp && !s.armed && !s.paused && s.pace.tokens == s.bitrate as real * 0.015
            && s.account.ledger == Ledger([], [], [], [], [])
            && (s.shaped ==> s.bitrate != 0 && s.shaper.rate == BusRate(150.0, s.bitrate))
  {
  }

  /** Nothing was taken from the bucket yet. */
  predicate IsFresh(s: State) {
    Paces(s) && s.pace.ships == [] ==> s.pace.tokens == Seed(s.bitrate)
  }

  lemma FreshBucketCovers(tokens: real, elapsed: real, bits: nat, bitrate: nat)
    requires tokens == Seed(bitrate) && elapsed >= 0.0 && bits as real <= Bucket(bitrate)
    ensures bits as real <= Refill(tokens, elapsed, bitrate)
  {
    BucketPositive(bitrate);
    ProductPositive(elapsed, PaceRate(bitrate));
    assert Bucket(bitrate) == 0.95 * Seed(bitrate);
  }

  lemma FlushedIsFresh(s: State, now: real, pauses: bool, netlink: bool)
    requires IsFresh(s) && now >= s.pace.last
    requires var next := Flushed(s, now, pauses, netlink); next.account.buffer != [] && Paces(next) ==> FitsBucket(next)
    ensures IsFresh(Flushed(s, now, pauses, netlink))
  {
    if Paces(s) && s.pace.ships == [] && s.account.buffer != [] && Short(s, now) {
      FreshBucketCovers(s.pace.tokens, now - s.pace.last, s.account.bits, s.bitrate);
      assert false;
    }
  }

  lemma FilledIsFresh(s: State, frame: Frame, queue: seq<Frame>, now: real, pauses: bool, netlink: bool)
    requires IsFresh(s) && now >= s.pace.last && Encodable(frame) && AllEncodable(queue)
    requires var next := Filled(s, frame, queue, now, pauses, netlink); Paces(next) ==> FitsBucket(next)
    ensures IsFresh(Filled(s, frame, queue, now, pauses, netlink))
  {
    var filled := s.(account := Drained(Collected(s.account, frame), queue));
    if |filled.account.buffer| >= FULL {
      FlushedIsFresh(filled, now, pauses, netlink);
    }
  }

  lemma ReceivedIsFresh(s: State, e: Event)
    requires Valid(s) && IsFresh(s) && Possible(s, e) && e.Rx?
    requires Paces(s) ==> FitsBucket(s) && FitsBucket(Step(s, e))
    ensures IsFresh(Step(s, e))
  {
    var mid := if |s.account.buffer| >= FULL then Flushed(s, e.now, e.pauses, e.netlink) else s;
    ReceivedKeepsBus(s, e);
    FlushedKeepsBus(s, e.now, e.pauses, e.netlink);
    if |s.account.buffer| >= FULL {
      FullReceived(s, e);
      FlushedIsHeld(s, e.now, e.pauses, e.netlink);
      FlushedIsFresh(s, e.now, e.pauses, e.netlink);
    }
    if |mid.account.buffer| < FULL {
      FilledIsFresh(mid, e.frame, e.queue, e.now, e.pauses, e.netlink);
    }
  }

  lemma StepIsFresh(s: State, e: Event)
    requires Valid(s) && IsFresh(s) && Possible(s, e)
    requires Paces(s) ==> FitsBucket(s) && FitsBucket(Step(s, e))
    ensures IsFresh(Step(s, e))
  {
    if e.Rx? {
      ReceivedIsFresh(s, e);
    } else if e.Timer? {
      FlushedKeepsBus(s, e.now, e.pauses, e.netlink);
      FlushedIsFresh(s, e.now, e.pauses, e.netlink);
    }
  }

  lemma {:induction false} RunIsFresh(states: seq<State>, events: seq<Event>, k: nat)
    requires IsRun(states, events) && IsClassic(events) && IsConfigurable(states[0].bitrate) && k < |states|
    ensures IsFresh(states[k])
  {
    if k > 0 {
      RunIsFresh(states, events, k - 1);
      RunStaysFresh(states, events, k - 1);
    }
  }

  lemma RunStaysFresh(states: seq<State>, events: seq<Event>, k: nat)
    requires IsRun(states, events) && IsClassic(events) && IsConfigurable(states[0].bitrate) && k < |events|
    requires IsFresh(states[k])
    ensures IsFresh(states[k + 1])
  {
    RunIsValid(states, events, k);
    RunFits(states, events, k);
    RunFits(states, events, k + 1);
    assert states[k + 1] == Step(states[k], events[k]);
    StepKeepsBus(states[k], events[k]);
    StepIsFresh(states[k], events[k]);
  }

  lemma RunFits(states: seq<State>, events: seq<Event>, k: nat)
    requires IsRun(states, events) && IsClassic(events) && IsConfigurable(states[0].bitrate) && k < |states|
    ensures Paces(states[k]) ==> FitsBucket(states[k])
  {
    RunKeepsBitrate(states, events, k);
    if states[k].bitrate != 0 {
      ClassicRunFits(states, events, k);
    }
  }

  /** The first datagram of a connection is never held: at every bitrate that can be configured, the bucket
      that it starts with covers any batch of classic frames. */
  lemma FirstBatchIsNotHeld(states: seq<State>, events: seq<Event>, k: nat, now: real)
    requires IsRun(states, events) && IsClassic(events) && IsConfigurable(states[0].bitrate) && k < |states|
    requires states[k].pace.ships == [] && now >= states[k].pace.last
    ensures IsCovered(states[k], states[k].account.bits, now)
  {
    var s := states[k];
    RunFits(states, events, k);
    RunIsFresh(states, events, k);
    CoveredIff(s, now);
    if Paces(s) {
      FreshBucketCovers(s.pace.tokens, now - s.pace.last, s.account.bits, s.bitrate);
    }
  }

  // ---------- The rate of the emulated bus ----------

  /** Three percent, of the installed rate. */
  predicate IsNear(installed: nat, wanted: nat) {
    installed != 0 && -3 * installed < 100 * (wanted - installed) < 3 * installed
  }

  /** Ten milliseconds for a decrease, a second for an increase. */
  predicate IsRecent(shaper: Shaper, wanted: nat, now: real) {
    now - shaper.updated < if wanted < shaper.rate then 0.01 else 1.0
  }

  /** When a batch leaves, the rate is set to the one that the average cost of all frames asks for, unless
      it is near that or was set too recently. */
  predicate ShaperFollows(s: State, next: State, now: real, netlink: bool) {
    var wanted := BusRate(RunningAverage(150.0, next.account.ledger.seen), s.bitrate);
    next.shaper ==
    if IsNear(s.shaper.rate, wanted) || IsRecent(s.shaper, wanted, now) then s.shaper
    else Shaper(if netlink then wanted else s.shaper.rate, now)
  }

  lemma NearIff(installed: nat, wanted: nat)
    ensures Near(installed, wanted) <==> IsNear(installed, wanted)
  {
  }

  lemma {:induction false} FlushedShaper(s: State, now: real, pauses: bool, netlink: bool)
    requires Sound(s.account, s.bitrate) && s.shaped && s.bitrate != 0 && s.account.buffer != []
    ensures ShaperFollows(s, Flushed(s, now, pauses, netlink), now, netlink)
  {
    NearIff(s.shaper.rate, BusRate(s.account.average, s.bitrate));
  }

  lemma {:induction false} FilledShaper(s: State, frame: Frame, queue: seq<Frame>, now: real, pauses: bool, netlink: bool)
    requires Valid(s) && s.shaped && s.bitrate != 0 && |s.account.buffer| < FULL
    requires Encodable(frame) && AllEncodable(queue)
    ensures var next := Filled(s, frame, queue, now, pauses, netlink);
            if next.account.buffer == [] then ShaperFollows(s, next, now, netlink) else next.shaper == s.shaper
  {
    var filled := s.(account := Drained(Collected(s.account, frame), queue));
    DrainedIsSteady(s, frame, queue);
    FullBatch(filled.account, filled.bitrate);
    FlushedHasRoom(filled, now, pauses, netlink);
    if |filled.account.buffer| >= FULL {
      FlushedShaper(filled, now, pauses, netlink);
    }
  }

  /** In every run on a shaped bus: the rate changes only when a batch leaves, and then exactly as said
      above. */
  lemma {:induction false} RateFollowsFrames(states: seq<State>, events: seq<Event>, k: nat)
    requires IsRun(states, events) && k < |events| && states[k].shaped
    ensures var s, e, next := states[k], events[k], states[k + 1];
            if BatchLeaves(s, e, next) then ShaperFollows(s, next, e.now, e.netlink) else next.shaper == s.shaper
  {
    var s, e := states[k], events[k];
    RunIsValid(states, events, k);
    RunHasRoom(states, events, k);
    assert states[k + 1] == Step(s, e);
    match e
    case Rx(now, pauses, netlink, frame, queue) => FilledShaper(s, frame, queue, now, pauses, netlink);
    case Timer(now, pauses, netlink) =>
      FlushedHasRoom(s, now, pauses, netlink);
      if s.account.buffer != [] {
        FlushedShaper(s, now, pauses, netlink);
      }
    case Disconnect(_) =>
    case Connect(_) =>
  }

  lemma FlushedKeepsShaper(s: State, now: real, pauses: bool, netlink: bool)
    requires !s.shaped
    ensures Flushed(s, now, pauses, netlink).shaper == s.shaper
  {
  }

  lemma FilledKeepsShaper(s: State, frame: Frame, queue: seq<Frame>, now: real, pauses: bool, netlink: bool)
    requires !s.shaped && Encodable(frame) && AllEncodable(queue)
    ensures Filled(s, frame, queue, now, pauses, netlink).shaper == s.shaper
  {
    FlushedKeepsShaper(s.(account := Drained(Collected(s.account, frame), queue)), now, pauses, netlink);
  }

  /** The rate of a bus that is not shaped is never touched. */
  lemma UnshapedIsLeftAlone(states: seq<State>, events: seq<Event>, k: nat)
    requires IsRun(states, events) && k < |events| && !states[k].shaped
    ensures states[k + 1].shaper == states[k].shaper
  {
    var s, e := states[k], events[k];
    assert states[k + 1] == Step(s, e);
    if e.Rx? {
      var room := if |s.account.buffer| >= FULL then Flushed(s, e.now, e.pauses, e.netlink) else s;
      FlushedKeepsShaper(s, e.now, e.pauses, e.netlink);
      FlushedKeepsBus(s, e.now, e.pauses, e.netlink);
      if |room.account.buffer| < FULL {
        FilledKeepsShaper(room, e.frame, e.queue, e.now, e.pauses, e.netlink);
      }
    } else if e.Timer? {
      FlushedKeepsShaper(s, e.now, e.pauses, e.netlink);
    }
  }
}
