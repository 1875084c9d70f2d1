/** What each event does to the manager and to the bridges, part by part: when an action is posted, when
    a start succeeds and what it and a retry bring, when a probe is taken, and who is connected.
 */
module ManagerHistory {
  import opened Manager
  import opened Wrappers

  // ---------- When something is due in a cycle ----------

  /** The runtime is up as far as the manager knows, and no stop of it is under way. */
  predicate IsRunning(f: Front) {
    f.flags.started && f.flags.stop.Idle?
  }

  predicate ProbesItself(config: Config, f: Front) {
    Heartbeat !in config && IsRunning(f) && f.connected
  }

  predicate TakesProbe(config: Config, f: Front, now: real) {
    ProbesItself(config, f) && f.live.next.Some? && now >= f.live.next.value
  }

  /** The second probe in a row fails. */
  predicate GivesUp(config: Config, f: Front, now: real, alive: bool) {
    TakesProbe(config, f, now) && !alive && f.live.failures == 1
  }

  /** Connected also after the probe of this cycle. */
  predicate StaysConnected(config: Config, f: Front, now: real, alive: bool) {
    IsRunning(f) && f.connected && !GivesUp(config, f, now, alive)
  }

  predicate RetryIsDue(config: Config, f: Front, now: real, alive: bool) {
    StaysConnected(config, f, now, alive) && f.nextRetry.Some? && now >= f.nextRetry.value
  }

  /** A runtime that is not connected any more is stopped. */
  predicate StopIsDue(config: Config, f: Front, now: real, alive: bool) {
    IsRunning(f) && !StaysConnected(config, f, now, alive)
  }

  /** A device with the right firmware is started if no runtime is up or on its way up or down. */
  predicate StartIsDue(f: Front, firmwareOk: bool) {
    firmwareOk && f.flags.startup.Idle? && (!f.flags.started || f.flags.stop.Ready?)
  }

  function When(due: bool, a: Action): seq<Action> {
    if due then [a] else []
  }

  // ---------- The parts of the state after a cycle ----------

  /** What a cycle posts, in this order. The state of the connection is made known unless a heartbeat
      service does so. */
  predicate QueueFollows(config: Config, f: Front, now: real, alive: bool, firmwareOk: bool, next: Front) {
    next.queue == f.queue
      + When(f.flags.stop.Ready? && Heartbeat !in config, Status(false))
      + When(GivesUp(config, f, now, alive), Status(false))
      + When(RetryIsDue(config, f, now, alive), Retry)
      + When(StopIsDue(config, f, now, alive), Stop)
      + When(f.flags.startup == Ready(true) && Heartbeat !in config, Status(true))
      + When(StartIsDue(f, firmwareOk), Start)
  }

  /** A runtime counts as started from a start that succeeded up to a stop that has run. */
  predicate FlagsFollow(config: Config, f: Front, now: real, alive: bool, firmwareOk: bool, next: Front) {
    && (next.flags.started <==> f.flags.startup == Ready(true) || (f.flags.started && !f.flags.stop.Ready?))
    && next.flags.wasConnected == next.flags.started
    && next.flags.startup == (if f.flags.startup.Pending? || StartIsDue(f, firmwareOk) then Pending else Idle)
    && next.flags.stop == (if f.flags.stop.Pending? || StopIsDue(config, f, now, alive) then Pending else Idle)
  }

  /** Retries and probes are ten seconds apart, the first of each ten seconds after the cycle that found
      the runtime connected. */
  predicate SchedulesFollow(config: Config, f: Front, now: real, alive: bool, next: Front) {
    && next.nextRetry == (if f.flags.stop.Ready? then None
                          else if StaysConnected(config, f, now, alive) && (f.nextRetry.None? || now >= f.nextRetry.value)
                          then Some(now + 10.0) else f.nextRetry)
    && next.live == (if f.flags.stop.Ready? || GivesUp(config, f, now, alive) then Liveness(0, None, [])
                     else if TakesProbe(config, f, now)
                     then Liveness(if alive then 0 else f.live.failures + 1, Some(now + 10.0), f.live.probes + [Probe(now, alive)])
                     else if ProbesItself(config, f) && f.live.next.None?
                     then Liveness(f.live.failures, Some(now + 10.0), f.live.probes)
                     else f.live)
  }

  /** With a heartbeat service a cycle does not touch the connection; without one it is up exactly while
      the runtime counts as started and is not being stopped. */
  predicate ConnectionFollows(config: Config, f: Front, next: Front) {
    next.connected <==> if Heartbeat in config then f.connected else next.flags.started && next.flags.stop.Idle?
  }

  // ---------- Proofs, step by step ----------

  lemma WaitsForStop(config: Config, f: Front, now: real, alive: bool, firmwareOk: bool, up: bool)
    requires FrontValid(f, up) && f.flags.stop.Pending?
    ensures Cycle(config, f, now, alive, firmwareOk) == f && !StartIsDue(f, firmwareOk)
  {
  }

  /** A cycle of a manager whose runtime is neither up nor being stopped, or has just been stopped. */
  lemma CycleWhileDown(config: Config, f: Front, now: real, alive: bool, firmwareOk: bool, up: bool)
    requires FrontValid(f, up) && (!f.flags.started || f.flags.stop.Ready?)
    ensures var a := FinishStop(config, f); Cycle(config, f, now, alive, firmwareOk) == Connect(config, a, firmwareOk)
    ensures var a := FinishStop(config, f);
            && !a.flags.started && !a.flags.wasConnected && a.flags.stop.Idle? && a.flags.startup == f.flags.startup
            && a.queue == f.queue + When(f.flags.stop.Ready? && Heartbeat !in config, Status(false))
            && (f.flags.stop.Ready? ==> a.live == Liveness(0, None, []) && a.nextRetry.None?)
            && (!f.flags.stop.Ready? ==> a == f)
  {
    var a := FinishStop(config, f);
    assert CheckLiveness(config, a, now, alive) == a;
    assert ScheduleRetry(a, now) == a;
    assert BeginStop(a) == a;
  }

  lemma DownFollows(config: Config, f: Front, now: real, alive: bool, firmwareOk: bool, up: bool)
    requires FrontValid(f, up) && (!f.flags.started || f.flags.stop.Ready?)
    ensures var next := Cycle(config, f, now, alive, firmwareOk);
            && QueueFollows(config, f, now, alive, firmwareOk, next)
            && FlagsFollow(config, f, now, alive, firmwareOk, next)
            && SchedulesFollow(config, f, now, alive, next)
  {
    CycleWhileDown(config, f, now, alive, firmwareOk, up);
  }

  /** A cycle of a manager whose runtime is up. */
  lemma CycleWhileUp(config: Config, f: Front, now: real, alive: bool, firmwareOk: bool, up: bool)
    requires FrontValid(f, up) && IsRunning(f) && (Heartbeat !in config ==> f.live.failures < 2)
    ensures Cycle(config, f, now, alive, firmwareOk) == BeginStop(ScheduleRetry(CheckLiveness(config, f, now, alive), now))
    ensures var b := CheckLiveness(config, f, now, alive);
            && b.flags == f.flags && b.nextRetry == f.nextRetry
            && b.queue == f.queue + When(GivesUp(config, f, now, alive), Status(false))
            && (b.connected <==> StaysConnected(config, f, now, alive))
    ensures f.flags.startup.Idle?
  {
  }

  lemma UpFollows(config: Config, f: Front, now: real, alive: bool, firmwareOk: bool, up: bool)
    requires FrontValid(f, up) && IsRunning(f) && (Heartbeat !in config ==> f.live.failures < 2)
    ensures var next := Cycle(config, f, now, alive, firmwareOk);
            && QueueFollows(config, f, now, alive, firmwareOk, next)
            && FlagsFollow(config, f, now, alive, firmwareOk, next)
            && SchedulesFollow(config, f, now, alive, next)
  {
    CycleWhileUp(config, f, now, alive, firmwareOk, up);
  }

  lemma CycleFollows(config: Config, f: Front, now: real, alive: bool, firmwareOk: bool, up: bool)
    requires FrontValid(f, up) && (Heartbeat !in config ==> f.live.failures < 2)
    ensures var next := Cycle(config, f, now, alive, firmwareOk);
            && QueueFollows(config, f, now, alive, firmwareOk, next)
            && FlagsFollow(config, f, now, alive, firmwareOk, next)
            && SchedulesFollow(config, f, now, alive, next)
  {
    if f.flags.stop.Pending? {
      WaitsForStop(config, f, now, alive, firmwareOk, up);
    } else if IsRunning(f) {
      UpFollows(config, f, now, alive, firmwareOk, up);
    } else {
      DownFollows(config, f, now, alive, firmwareOk, up);
    }
  }

  // ---------- Results ----------

  /** In every run, every cycle of the manager posts, schedules and counts exactly as said above. */
  lemma EveryCycleFollows(config: Config, states: seq<State>, events: seq<Event>, k: nat)
    requires IsRun(config, states, events) && k < |events| && events[k].ManagerCycle?
    ensures var f, e, next := states[k].front, events[k], states[k + 1].front;
            && QueueFollows(config, f, e.now, e.alive, e.firmwareOk, next)
            && FlagsFollow(config, f, e.now, e.alive, e.firmwareOk, next)
            && SchedulesFollow(config, f, e.now, e.alive, next)
            && ConnectionFollows(config, f, next)
    ensures states[k + 1].loop == states[k].loop
  {
    var f, e := states[k].front, events[k];
    RunKeepsFront(config, states, events, k);
    assert states[k + 1] == Step(config, states[k], e);
    if Heartbeat !in config {
      RunKeepsProbes(config, states, events, k);
      RunKeepsProbes(config, states, events, k + 1);
    } else {
      CycleKeepsConnection(config, f, e.now, e.alive, e.firmwareOk);
    }
    CycleFollows(config, f, e.now, e.alive, e.firmwareOk, states[k].loop.up);
  }

  lemma CycleKeepsConnection(config: Config, f: Front, now: real, alive: bool, firmwareOk: bool)
    requires Heartbeat in config
    ensures Cycle(config, f, now, alive, firmwareOk).connected == f.connected
  {
  }

  function LastReport(events: seq<Event>): bool {
    if events == [] then false
    else
      var e := events[|events| - 1];
      if e.HeartbeatReport? then e.connected else LastReport(events[..|events| - 1])
  }

  /** With a heartbeat service, the connection is in every state what that last reported. */
  lemma {:induction false} HeartbeatDecides(config: Config, states: seq<State>, events: seq<Event>, k: nat)
    requires IsRun(config, states, events) && k < |states| && Heartbeat in config
    ensures states[k].front.connected == LastReport(events[..k])
  {
    if k > 0 {
      HeartbeatDecides(config, states, events, k - 1);
      assert events[..k] == events[..k - 1] + [events[k - 1]];
      var e := events[k - 1];
      assert states[k - 1 + 1] == Step(config, states[k - 1], e);
      if e.ManagerCycle? {
        CycleKeepsConnection(config, states[k - 1].front, e.now, e.alive, e.firmwareOk);
      }
    }
  }

  /** What a start does: all bridges that can be are created; it succeeds exactly if no exception is
      thrown, there is a bridge if one is configured, the heartbeat service is among them if it is
      configured, and all are accepted; and then all are connected and registered, otherwise none. */
  predicate StartFollows(config: Config, s: State, answer: Answer, next: State) {
    && next.loop.existing == s.loop.existing + answer.can * (config - s.loop.existing)
    && next.front == s.front.(queue := next.front.queue, flags := s.front.flags.(startup := next.front.flags.startup))
    && next.front.flags.startup == Ready(!answer.throws && (config == {} || next.loop.existing != {})
                                         && (Heartbeat in config ==> Heartbeat in next.loop.existing)
                                         && next.loop.existing <= answer.accepted)
    && next.loop.registered == next.loop.endpoints ==
       (if next.front.flags.startup.ok then next.loop.existing else {})
    && next.loop.up == next.front.flags.startup.ok
  }

  predicate StopFollows(s: State, answer: Answer, next: State) {
    && next.loop.existing == s.loop.existing && next.loop.registered == next.loop.endpoints == {} && !next.loop.up
    && next.front == s.front.(queue := next.front.queue, flags := s.front.flags.(stop := Ready(!answer.throws)))
  }

  /** What a retry does: the missing bridges that can be created and are accepted are connected and
      registered; the others are left alone. */
  predicate RetryFollows(config: Config, s: State, answer: Answer, next: State) {
    var late := answer.can * answer.accepted * (config - s.loop.existing);
    && next.loop.existing == s.loop.existing + late
    && next.loop.registered == s.loop.registered + late && next.loop.endpoints == s.loop.endpoints + late
    && next.loop.up == s.loop.up
    && next.front == s.front.(queue := next.front.queue)
  }

  lemma StartStep(config: Config, s: State, answer: Answer)
    requires LoopValid(config, s.loop) && !s.loop.up && s.front.queue != [] && s.front.queue[0].Start?
    ensures StartFollows(config, s, answer, RunAction(config, s, answer))
  {
    StartIsValid(config, s.loop, answer);
  }

  lemma RetryStep(config: Config, s: State, answer: Answer)
    requires s.front.queue != [] && s.front.queue[0].Retry?
    ensures RetryFollows(config, s, answer, RunAction(config, s, answer))
  {
  }

  /** In every run the actions are run in the order in which they were posted, and each does exactly
      what is said above. */
  lemma EveryActionFollows(config: Config, states: seq<State>, events: seq<Event>, k: nat)
    requires IsRun(config, states, events) && k < |events| && events[k].LoopAction?
    ensures states[k].front.queue != [] && states[k + 1].front.queue == states[k].front.queue[1..]
    ensures var s, answer, next := states[k], events[k].answer, states[k + 1];
            match s.front.queue[0]
            case Start => StartFollows(config, s, answer, next)
            case Stop => StopFollows(s, answer, next)
            case Retry => RetryFollows(config, s, answer, next)
            case Status(_) => next == s.(front := s.front.(queue := s.front.queue[1..]))
  {
    var s, answer := states[k], events[k].answer;
    RunKeepsFront(config, states, events, k);
    RunKeepsLoop(config, states, events, k);
    assert states[k + 1] == Step(config, s, events[k]);
    match s.front.queue[0]
    case Start => StartStep(config, s, answer);
    case Stop =>
    case Retry => RetryStep(config, s, answer);
    case Status(_) =>
  }
}
