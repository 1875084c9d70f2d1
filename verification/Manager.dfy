/** The manager of one ChargeBridge. A manager thread starts and stops the internal runtime by posting
    actions to the event loop, which alone touches the bridges and runs the actions in order. Every
    interleaving of manager cycles, actions and heartbeat callbacks is a run.

    The endpoint has a fixed address, so that discovery plays no part.
 */
module Manager {
  import opened Wrappers

  const BASE_CYCLE: real := 10.0
  const FAILURE_LIMIT: nat := 2

  // ---------- State ----------

  datatype Bridge = Can | Serial1 | Serial2 | Serial3 | Plc | Bsp | Io | Heartbeat

  /** The bridges that the configuration asks for; the heartbeat service is one of them. */
  type Config = set<Bridge>

  datatype Action = Start | Stop | Retry | Status(connected: bool)

  /** A promise that an action fulfils. */
  datatype Future = Idle | Pending | Ready(ok: bool)

  datatype Flags = Flags(started: bool, wasConnected: bool, startup: Future, stop: Future)

  /** A liveness probe and its outcome. */
  datatype Probe = Probe(time: real, alive: bool)

  /** The liveness schedule, and the probes of the present runtime. */
  datatype Liveness = Liveness(failures: nat, next: Option<real>, probes: seq<Probe>)

  /** What the manager thread owns or shares. */
  datatype Front = Front(flags: Flags, live: Liveness, nextRetry: Option<real>, connected: bool, queue: seq<Action>)

  /** What the event loop owns: the bridges that exist, those with an endpoint, those registered;
      whether the runtime is up; and whether it was ever tried to register a registered bridge. */
  datatype Loop = Loop(existing: set<Bridge>, endpoints: set<Bridge>, registered: set<Bridge>, up: bool, clashed: bool)

  datatype State = State(front: Front, loop: Loop)

  const NO_LIVENESS: Liveness := Liveness(0, None, [])

  /** After `create_internal_runtime_eagerly`. */
  function Initial(existing: set<Bridge>): State {
    State(Front(Flags(false, false, Idle, Idle), NO_LIVENESS, None, false, []), Loop(existing, {}, {}, false, false))
  }

  // ---------- The manager cycle ----------

  /** Does nothing when a heartbeat service owns the connection state. */
  function SetConnection(config: Config, f: Front, connected: bool): Front {
    if Heartbeat in config then f else f.(connected := connected, queue := f.queue + [Status(connected)])
  }

  function FinishStop(config: Config, f: Front): Front {
    if f.flags.stop.Idle? then f
    else SetConnection(config, Front(Flags(false, false, f.flags.startup, Idle), NO_LIVENESS, None, f.connected, f.queue), false)
  }

  predicate NeedsProbe(config: Config, f: Front) {
    Heartbeat !in config && f.flags.started && f.flags.wasConnected && f.connected
  }

  predicate ProbeDue(config: Config, f: Front, now: real) {
    NeedsProbe(config, f) && f.live.next.Some? && now >= f.live.next.value
  }

  function CheckLiveness(config: Config, f: Front, now: real, alive: bool): Front {
    if !NeedsProbe(config, f) then f
    else if f.live.next.None? then f.(live := Liveness(f.live.failures, Some(now + BASE_CYCLE), f.live.probes))
    else if now < f.live.next.value then f
    else if alive then f.(live := Liveness(0, Some(now + BASE_CYCLE), f.live.probes + [Probe(now, true)]))
    else if f.live.failures + 1 < FAILURE_LIMIT then
      f.(live := Liveness(f.live.failures + 1, Some(now + BASE_CYCLE), f.live.probes + [Probe(now, false)]))
    else SetConnection(config, f.(live := NO_LIVENESS), false)
  }

  function ScheduleRetry(f: Front, now: real): Front {
    if !(f.flags.started && f.flags.wasConnected && f.connected) then f
    else if f.nextRetry.None? then f.(nextRetry := Some(now + BASE_CYCLE))
    else if now < f.nextRetry.value then f
    else f.(nextRetry := Some(now + BASE_CYCLE), queue := f.queue + [Retry])
  }

  function BeginStop(f: Front): Front {
    if f.flags.wasConnected && !f.connected then f.(flags := f.flags.(stop := Pending), queue := f.queue + [Stop]) else f
  }

  /** `firmwareOk`: the device answers with the right firmware. */
  function Connect(config: Config, f: Front, firmwareOk: bool): Front {
    if f.flags.wasConnected then f
    else match f.flags.startup
      case Pending => f
      case Ready(ok) =>
        if ok then SetConnection(config, f.(flags := Flags(true, true, Idle, f.flags.stop)), true)
        else f.(flags := f.flags.(startup := Idle))
      case Idle =>
        if firmwareOk then f.(flags := f.flags.(startup := Pending), queue := f.queue + [Start]) else f
  }

  function Watched(config: Config, f: Front, now: real, alive: bool): Front {
    BeginStop(ScheduleRetry(CheckLiveness(config, FinishStop(config, f), now, alive), now))
  }

  function Cycle(config: Config, f: Front, now: real, alive: bool, firmwareOk: bool): Front {
    if f.flags.stop.Pending? then f else Connect(config, Watched(config, f, now, alive), firmwareOk)
  }

  // ---------- Actions ----------

  /** The bridges that come into being when those of `can` can be created. Their constructors bring
      up an endpoint. */
  function Created(config: Config, l: Loop, can: set<Bridge>): Loop {
    var made := can * (config - l.existing);
    l.(existing := l.existing + made, endpoints := l.endpoints + made)
  }

  /** All bridges are unregistered and disconnected. If disconnecting throws, it is done again. */
  function Down(l: Loop): Loop {
    Loop(l.existing, {}, {}, false, l.clashed)
  }

  /** Connects all bridges and registers those of `tried`, with success those of `accepted`. The event
      loop refuses a bridge that is registered already. */
  function ConnectedAndRegistered(l: Loop, tried: set<Bridge>, accepted: set<Bridge>): Loop {
    Loop(l.existing, l.existing, l.registered + tried * accepted, true, l.clashed || tried * l.registered != {})
  }

  /** The bridges that a start tries to register: all, unless an exception ends it before. */
  function Tried(existing: set<Bridge>, answer: Answer): set<Bridge> {
    if answer.throws then existing * answer.reached else existing
  }

  predicate StartSucceeds(config: Config, l: Loop, answer: Answer) {
    var existing := Created(config, l, answer.can).existing;
    && !answer.throws
    && (config != {} ==> existing != {})
    && (Heartbeat in config ==> Heartbeat in existing)
    && existing <= answer.accepted - l.registered
  }

  /** A start that fails behind the registration, or in which an exception is thrown, unregisters and
      disconnects all bridges. */
  function RunStart(config: Config, l: Loop, answer: Answer): Loop {
    var made := Created(config, l, answer.can);
    if config != {} && made.existing == {} then made
    else if Heartbeat in config && Heartbeat !in made.existing then made.(endpoints := {})
    else
      var live := ConnectedAndRegistered(made, Tried(made.existing, answer), answer.accepted);
      if answer.throws || !(made.existing <= answer.accepted - l.registered) then Down(live) else live
  }

  /** What is missing is created, connected and registered; what fails to be is dropped again. */
  function RunRetry(config: Config, l: Loop, can: set<Bridge>, accepted: set<Bridge>): Loop {
    if config <= l.existing then l
    else
      var late := can * (config - l.existing) * accepted;
      Loop(l.existing + late, l.endpoints + late, l.registered + late, l.up, l.clashed || late * l.registered != {})
  }

  /** How the environment of the event loop answers: which bridges can be created, which are accepted
      for registration, whether an exception is thrown behind the creation, and which bridges a start
      reached until then. */
  datatype Answer = Answer(can: set<Bridge>, accepted: set<Bridge>, throws: bool, reached: set<Bridge>)

  function RunAction(config: Config, s: State, answer: Answer): State
    requires s.front.queue != []
  {
    var f := s.front.(queue := s.front.queue[1..]);
    match s.front.queue[0]
    case Start =>
      State(f.(flags := f.flags.(startup := Ready(StartSucceeds(config, s.loop, answer)))), RunStart(config, s.loop, answer))
    case Stop => State(f.(flags := f.flags.(stop := Ready(!answer.throws))), Down(s.loop))
    case Retry => State(f, RunRetry(config, s.loop, answer.can, answer.accepted))
    case Status(_) => State(f, s.loop)
  }

  // ---------- Runs ----------

  datatype Event =
    | ManagerCycle(now: real, alive: bool, firmwareOk: bool)
    | LoopAction(answer: Answer)
    | HeartbeatReport(connected: bool)

  predicate Possible(config: Config, s: State, e: Event) {
    match e
    case ManagerCycle(_, _, _) => true
    case LoopAction(_) => s.front.queue != []
    case HeartbeatReport(_) => Heartbeat in config
  }

  function Step(config: Config, s: State, e: Event): State
    requires Possible(config, s, e)
  {
    match e
    case ManagerCycle(now, alive, firmwareOk) => s.(front := Cycle(config, s.front, now, alive, firmwareOk))
    case LoopAction(answer) => RunAction(config, s, answer)
    case HeartbeatReport(connected) => s.(front := s.front.(connected := connected))
  }

  predicate IsRun(config: Config, states: seq<State>, events: seq<Event>) {
    && |states| == |events| + 1
    && states[0].loop.existing <= config && states[0] == Initial(states[0].loop.existing)
    && forall k :: 0 <= k < |events| ==> Possible(config, states[k], events[k]) && states[k + 1] == Step(config, states[k], events[k])
  }

  // ---------- Invariant: flags and queue ----------

  predicate OnlyStatus(queue: seq<Action>) {
    forall a :: a in queue ==> a.Status?
  }

  /** A retry waits only while the runtime is up and stays up until the retry runs; a stop waits only
      for a runtime that is up, a start only for one that is not, and nothing waits behind either. */
  predicate QueueValid(queue: seq<Action>, up: bool) {
    queue == [] ||
    match queue[0]
    case Retry => up && QueueValid(queue[1..], up)
    case Status(_) => QueueValid(queue[1..], up)
    case Stop => up && OnlyStatus(queue[1..])
    case Start => !up && OnlyStatus(queue[1..])
  }

  /** The runtime is up while it counts as started and its stop has not run, or when its start has
      succeeded and the manager has not noticed yet. */
  predicate FlagsValid(f: Flags, up: bool) {
    && f.started == f.wasConnected
    && (!f.startup.Idle? ==> !f.wasConnected)
    && (!f.stop.Idle? ==> f.wasConnected)
    && (up <==> (f.started && !f.stop.Ready?) || f.startup == Ready(true))
  }

  predicate FrontValid(f: Front, up: bool) {
    && FlagsValid(f.flags, up)
    && QueueValid(f.queue, up)
    && (Start in f.queue <==> f.flags.startup.Pending?)
    && (Stop in f.queue <==> f.flags.stop.Pending?)
  }

  lemma {:induction false} QueuePosts(queue: seq<Action>, a: Action, up: bool)
    requires QueueValid(queue, up) && Start !in queue && Stop !in queue
    requires (a.Retry? || a.Stop? ==> up) && (a.Start? ==> !up)
    ensures QueueValid(queue + [a], up)
  {
    if queue == [] {
      assert queue + [a] == [a];
      assert (queue + [a])[1..] == [];
    } else {
      QueuePosts(queue[1..], a, up);
      assert (queue + [a])[1..] == queue[1..] + [a];
    }
  }

  lemma Posted(queue: seq<Action>, a: Action, b: Action)
    ensures b in queue + [a] <==> b in queue || b == a
  {
  }

  lemma SetConnectionIsValid(config: Config, f: Front, connected: bool, up: bool)
    requires FrontValid(f, up) && f.flags.startup != Pending && f.flags.stop != Pending
    ensures FrontValid(SetConnection(config, f, connected), up)
  {
    QueuePosts(f.queue, Status(connected), up);
    Posted(f.queue, Status(connected), Start);
    Posted(f.queue, Status(connected), Stop);
  }

  lemma FinishStopIsValid(config: Config, f: Front, up: bool)
    requires FrontValid(f, up) && !f.flags.stop.Pending?
    ensures FrontValid(FinishStop(config, f), up) && FinishStop(config, f).flags.stop.Idle?
  {
    if !f.flags.stop.Idle? {
      SetConnectionIsValid(config, Front(Flags(false, false, f.flags.startup, Idle), NO_LIVENESS, None, f.connected, f.queue), false, up);
    }
  }

  lemma CheckLivenessIsValid(config: Config, f: Front, now: real, alive: bool, up: bool)
    requires FrontValid(f, up) && f.flags.stop.Idle?
    ensures var g := CheckLiveness(config, f, now, alive); FrontValid(g, up) && g.flags == f.flags
  {
    if NeedsProbe(config, f) {
      SetConnectionIsValid(config, f.(live := NO_LIVENESS), false, up);
    }
  }

  lemma ScheduleRetryIsValid(f: Front, now: real, up: bool)
    requires FrontValid(f, up) && f.flags.stop.Idle?
    ensures var g := ScheduleRetry(f, now); FrontValid(g, up) && g.flags == f.flags
  {
    if f.flags.started {
      QueuePosts(f.queue, Retry, up);
      Posted(f.queue, Retry, Start);
      Posted(f.queue, Retry, Stop);
    }
  }

  lemma BeginStopIsValid(f: Front, up: bool)
    requires FrontValid(f, up) && f.flags.stop.Idle?
    ensures FrontValid(BeginStop(f), up)
  {
    if f.flags.wasConnected {
      QueuePosts(f.queue, Stop, up);
      Posted(f.queue, Stop, Start);
      Posted(f.queue, Stop, Stop);
    }
  }

  lemma ConnectIsValid(config: Config, f: Front, firmwareOk: bool, up: bool)
    requires FrontValid(f, up)
    ensures FrontValid(Connect(config, f, firmwareOk), up)
  {
    if !f.flags.wasConnected && f.flags.startup == Ready(true) {
      SetConnectionIsValid(config, f.(flags := Flags(true, true, Idle, f.flags.stop)), true, up);
    } else if !f.flags.wasConnected && f.flags.startup.Idle? {
      QueuePosts(f.queue, Start, up);
      Posted(f.queue, Start, Start);
      Posted(f.queue, Start, Stop);
    }
  }

  lemma CycleIsValid(config: Config, f: Front, now: real, alive: bool, firmwareOk: bool, up: bool)
    requires FrontValid(f, up)
    ensures FrontValid(Cycle(config, f, now, alive, firmwareOk), up)
  {
    if !f.flags.stop.Pending? {
      var a := FinishStop(config, f);
      FinishStopIsValid(config, f, up);
      var b := CheckLiveness(config, a, now, alive);
      CheckLivenessIsValid(config, a, now, alive, up);
      var c := ScheduleRetry(b, now);
      ScheduleRetryIsValid(b, now, up);
      BeginStopIsValid(c, up);
      ConnectIsValid(config, BeginStop(c), firmwareOk, up);
    }
  }

  // ---------- Invariant: bridges ----------

  /** While the runtime is up, exactly the existing bridges are connected and registered, while it is
      not, none is; and nothing was registered twice. */
  predicate LoopValid(config: Config, l: Loop) {
    && l.existing <= config
    && l.registered == l.endpoints == (if l.up then l.existing else {})
    && (l.up ==> (Heartbeat in config ==> Heartbeat in l.existing))
    && !l.clashed
  }

  /** A start succeeds exactly as it reports, and leaves all bridges or none registered. */
  lemma StartIsValid(config: Config, l: Loop, answer: Answer)
    requires LoopValid(config, l) && !l.up
    ensures var m := RunStart(config, l, answer); LoopValid(config, m) && m.up == StartSucceeds(config, l, answer)
  {
    var made := Created(config, l, answer.can);
    if config != {} && made.existing == {} {
      assert answer.can * (config - l.existing) == {};
    } else if made.existing <= answer.accepted - l.registered {
      assert made.existing * answer.accepted == made.existing;
    }
  }

  lemma RetryIsValid(config: Config, l: Loop, answer: Answer)
    requires LoopValid(config, l) && l.up
    ensures var m := RunRetry(config, l, answer.can, answer.accepted);
            LoopValid(config, m) && m.up && l.registered <= m.registered
  {
    var late := answer.can * (config - l.existing) * answer.accepted;
    assert late * l.registered == {};
  }

  lemma {:induction false} QueuePops(queue: seq<Action>, up: bool, b: Action)
    requires QueueValid(queue, up) && queue != []
    ensures b in queue <==> b == queue[0] || b in queue[1..]
    ensures queue[0].Start? || queue[0].Stop? ==> OnlyStatus(queue[1..])
  {
  }

  lemma {:induction false} StatusQueue(queue: seq<Action>, up: bool)
    requires OnlyStatus(queue)
    ensures QueueValid(queue, up)
  {
    if queue != [] {
      assert queue[0] in queue;
      StatusQueue(queue[1..], up);
    }
  }

  lemma ActionKeepsFront(config: Config, s: State, answer: Answer)
    requires FrontValid(s.front, s.loop.up) && s.front.queue != []
    ensures var next := RunAction(config, s, answer); FrontValid(next.front, next.loop.up)
  {
    var queue, up := s.front.queue, s.loop.up;
    QueuePops(queue, up, Start);
    QueuePops(queue, up, Stop);
    match queue[0]
    case Start =>
      StatusQueue(queue[1..], RunStart(config, s.loop, answer).up);
    case Stop =>
      StatusQueue(queue[1..], false);
    case Retry =>
    case Status(_) =>
  }

  lemma ActionKeepsLoop(config: Config, s: State, answer: Answer)
    requires FrontValid(s.front, s.loop.up) && s.front.queue != []
    requires LoopValid(config, s.loop)
    ensures LoopValid(config, RunAction(config, s, answer).loop)
  {
    match s.front.queue[0]
    case Start => StartIsValid(config, s.loop, answer);
    case Stop =>
    case Retry => RetryIsValid(config, s.loop, answer);
    case Status(_) =>
  }

  // ---------- Runs keep the invariants ----------

  lemma StepKeepsFront(config: Config, s: State, e: Event)
    requires FrontValid(s.front, s.loop.up) && Possible(config, s, e)
    ensures var next := Step(config, s, e); FrontValid(next.front, next.loop.up)
  {
    match e
    case ManagerCycle(now, alive, firmwareOk) => CycleIsValid(config, s.front, now, alive, firmwareOk, s.loop.up);
    case LoopAction(answer) => ActionKeepsFront(config, s, answer);
    case HeartbeatReport(_) =>
  }

  lemma {:induction false} RunKeepsFront(config: Config, states: seq<State>, events: seq<Event>, k: nat)
    requires IsRun(config, states, events) && k < |states|
    ensures FrontValid(states[k].front, states[k].loop.up)
  {
    if k > 0 {
      RunKeepsFront(config, states, events, k - 1);
      assert states[k - 1 + 1] == Step(config, states[k - 1], events[k - 1]);
      StepKeepsFront(config, states[k - 1], events[k - 1]);
    }
  }

  lemma {:induction false} RunKeepsLoop(config: Config, states: seq<State>, events: seq<Event>, k: nat)
    requires IsRun(config, states, events) && k < |states|
    ensures LoopValid(config, states[k].loop)
  {
    if k > 0 {
      RunKeepsLoop(config, states, events, k - 1);
      RunKeepsFront(config, states, events, k - 1);
      assert states[k - 1 + 1] == Step(config, states[k - 1], events[k - 1]);
      if events[k - 1].LoopAction? {
        ActionKeepsLoop(config, states[k - 1], events[k - 1].answer);
      }
    }
  }

  // ---------- Invariant: liveness probes ----------

  /** How many probes failed since the last one that did not. */
  function Streak(probes: seq<Probe>): nat {
    if probes == [] || probes[|probes| - 1].alive then 0 else Streak(probes[..|probes| - 1]) + 1
  }

  predicate Spaced(probes: seq<Probe>) {
    forall i, j :: 0 <= i < |probes| && j == i + 1 && j < |probes| ==> probes[j].time >= probes[i].time + BASE_CYCLE
  }

  predicate LivenessValid(l: Liveness) {
    && l.failures == Streak(l.probes) < FAILURE_LIMIT
    && Spaced(l.probes)
    && (l.probes != [] ==> l.next == Some(l.probes[|l.probes| - 1].time + BASE_CYCLE))
  }

  /** Without a heartbeat service, the connection is up exactly while the runtime runs and is not being
      stopped, and probes belong to such a runtime. */
  predicate ProbesValid(f: Front) {
    && LivenessValid(f.live)
    && (f.connected <==> f.flags.started && f.flags.stop.Idle?)
    && (!f.connected ==> f.live == NO_LIVENESS)
  }

  lemma {:induction false} ProbeAppended(l: Liveness, now: real, alive: bool)
    requires LivenessValid(l) && l.next.Some? && now >= l.next.value
    ensures var probes := l.probes + [Probe(now, alive)];
            Spaced(probes) && Streak(probes) == if alive then 0 else l.failures + 1
  {
    var probes := l.probes + [Probe(now, alive)];
    assert probes[..|probes| - 1] == l.probes;
  }

  lemma ProbedIsValid(l: Liveness, now: real, alive: bool)
    requires LivenessValid(l) && l.next.Some? && now >= l.next.value && (alive || l.failures == 0)
    ensures LivenessValid(Liveness(if alive then 0 else l.failures + 1, Some(now + BASE_CYCLE), l.probes + [Probe(now, alive)]))
  {
    ProbeAppended(l, now, alive);
  }

  lemma ProbeKeepsLiveness(config: Config, f: Front, now: real, alive: bool)
    requires Heartbeat !in config && LivenessValid(f.live) && ProbeDue(config, f, now)
    ensures var g := CheckLiveness(config, f, now, alive);
            LivenessValid(g.live) && (g.connected <==> alive || f.live.failures == 0) && (!g.connected ==> g.live == NO_LIVENESS)
  {
    var g := CheckLiveness(config, f, now, alive);
    if alive || f.live.failures == 0 {
      ProbedIsValid(f.live, now, alive);
      assert g.live == Liveness(if alive then 0 else f.live.failures + 1, Some(now + BASE_CYCLE), f.live.probes + [Probe(now, alive)]);
    } else {
      assert g.live == NO_LIVENESS;
    }
  }

  lemma CheckLivenessKeeps(config: Config, f: Front, now: real, alive: bool)
    requires Heartbeat !in config && LivenessValid(f.live) && f.connected
    ensures var g := CheckLiveness(config, f, now, alive);
            && LivenessValid(g.live)
            && (!g.connected ==> g.live == NO_LIVENESS)
            && (!g.connected <==> ProbeDue(config, f, now) && !alive && f.live.failures == 1)
  {
    if ProbeDue(config, f, now) {
      ProbeKeepsLiveness(config, f, now, alive);
    }
  }

  lemma RetryKeepsProbes(f: Front, now: real)
    ensures var g := ScheduleRetry(f, now); g.live == f.live && g.connected == f.connected && g.flags == f.flags
  {
  }

  /** A connection that is up is given up by a cycle exactly if a probe is due, fails, and so did the
      one before. */
  lemma CycleWhileConnected(config: Config, f: Front, now: real, alive: bool, firmwareOk: bool)
    requires Heartbeat !in config && ProbesValid(f) && f.connected && f.flags.started == f.flags.wasConnected
    ensures var g := Cycle(config, f, now, alive, firmwareOk);
            ProbesValid(g) && (!g.connected <==> ProbeDue(config, f, now) && !alive && f.live.failures == 1)
  {
    var b := CheckLiveness(config, f, now, alive);
    CheckLivenessKeeps(config, f, now, alive);
    assert b.flags == f.flags;
    RetryKeepsProbes(b, now);
    var d := BeginStop(ScheduleRetry(b, now));
    assert d.live == b.live && d.connected == b.connected && d.flags.wasConnected;
    assert Cycle(config, f, now, alive, firmwareOk) == d;
  }

  /** One that is down comes up exactly when the manager learns that the start succeeded. */
  lemma CycleWhileDisconnected(config: Config, f: Front, now: real, alive: bool, firmwareOk: bool, up: bool)
    requires Heartbeat !in config && FrontValid(f, up) && ProbesValid(f) && !f.connected
    ensures var g := Cycle(config, f, now, alive, firmwareOk);
            ProbesValid(g) && (g.connected <==> f.flags.startup == Ready(true))
  {
    if !f.flags.stop.Pending? {
      var a := FinishStop(config, f);
      assert !a.connected && !a.flags.started && a.live == NO_LIVENESS && a.flags.stop.Idle?;
      assert a.flags.startup == f.flags.startup && !a.flags.wasConnected;
      assert Watched(config, f, now, alive) == a;
    }
  }

  lemma {:induction false} RunKeepsProbes(config: Config, states: seq<State>, events: seq<Event>, k: nat)
    requires IsRun(config, states, events) && Heartbeat !in config && k < |states|
    ensures ProbesValid(states[k].front)
  {
    if k > 0 {
      RunKeepsProbes(config, states, events, k - 1);
      RunKeepsFront(config, states, events, k - 1);
      var s, e := states[k - 1], events[k - 1];
      assert states[k - 1 + 1] == Step(config, s, e);
      match e
      case ManagerCycle(now, alive, firmwareOk) =>
        if s.front.connected {
          CycleWhileConnected(config, s.front, now, alive, firmwareOk);
        } else {
          CycleWhileDisconnected(config, s.front, now, alive, firmwareOk, s.loop.up);
        }
      case LoopAction(answer) => ActionKeepsProbes(config, s, answer);
      case HeartbeatReport(_) =>
    }
  }

  lemma ActionKeepsProbes(config: Config, s: State, answer: Answer)
    requires FrontValid(s.front, s.loop.up) && s.front.queue != [] && ProbesValid(s.front)
    ensures ProbesValid(RunAction(config, s, answer).front)
  {
    QueuePops(s.front.queue, s.loop.up, Stop);
  }

  // ---------- Results ----------

  /** In every state of every run: the runtime counts as started exactly while it was connected, a
      start is under way only when it is not and a stop only when it is, so never both, and a retry of
      missing bridges or a stop waits only for a runtime that is up. */
  lemma FlagsAgree(config: Config, states: seq<State>, events: seq<Event>, k: nat)
    requires IsRun(config, states, events) && k < |states|
    ensures var f := states[k].front.flags;
            && f.started == f.wasConnected
            && (!f.startup.Idle? ==> !f.wasConnected)
            && (!f.stop.Idle? ==> f.wasConnected)
            && (f.startup.Idle? || f.stop.Idle?)
            && (f.started && !f.stop.Ready? ==> states[k].loop.up)
            && (Retry in states[k].front.queue || Stop in states[k].front.queue ==> states[k].loop.up)
  {
    RunKeepsFront(config, states, events, k);
    if Retry in states[k].front.queue {
      RetryMeansUp(states[k].front.queue, states[k].loop.up);
    }
  }

  lemma {:induction false} RetryMeansUp(queue: seq<Action>, up: bool)
    requires QueueValid(queue, up) && Retry in queue
    ensures up
  {
    assert queue[0].Retry? || Retry in queue[1..];
    if queue[0].Status? {
      RetryMeansUp(queue[1..], up);
    }
  }

  predicate RunsStart(s: State, e: Event) {
    e.LoopAction? && s.front.queue != [] && s.front.queue[0].Start?
  }

  predicate RunsStop(s: State, e: Event) {
    e.LoopAction? && s.front.queue != [] && s.front.queue[0].Stop?
  }

  /** In every state of every interleaving of starts, stops and retries, whatever of it fails: it was
      never tried to register a registered bridge; exactly the existing bridges are connected and
      registered while the runtime is up, and none is while it is not; and a started runtime has its
      heartbeat service if one is configured. */
  lemma RegisteredOnce(config: Config, states: seq<State>, events: seq<Event>, k: nat)
    requires IsRun(config, states, events) && k < |states|
    ensures var l := states[k].loop;
            && !l.clashed
            && l.registered == l.endpoints == (if l.up then l.existing else {})
            && (states[k].front.flags.started && Heartbeat in config ==> Heartbeat in l.existing)
  {
    RunKeepsLoop(config, states, events, k);
    if Heartbeat in config {
      StoppedRuntimeHasHeartbeat(config, states, events, k);
    }
  }

  /** Bridges are never taken away, so that the heartbeat service outlives the stop as well. */
  lemma {:induction false} StoppedRuntimeHasHeartbeat(config: Config, states: seq<State>, events: seq<Event>, k: nat)
    requires IsRun(config, states, events) && k < |states| && Heartbeat in config
    ensures states[k].front.flags.started || states[k].loop.up ==> Heartbeat in states[k].loop.existing
  {
    RunKeepsLoop(config, states, events, k);
    RunKeepsFront(config, states, events, k);
    if k > 0 && states[k].front.flags.started && !states[k].loop.up {
      StoppedRuntimeHasHeartbeat(config, states, events, k - 1);
      RunKeepsFront(config, states, events, k - 1);
      assert states[k - 1 + 1] == Step(config, states[k - 1], events[k - 1]);
      StaysStarted(config, states[k - 1], events[k - 1]);
    }
  }

  lemma StaysStarted(config: Config, s: State, e: Event)
    requires FrontValid(s.front, s.loop.up) && Possible(config, s, e)
    ensures s.loop.existing <= Step(config, s, e).loop.existing
    ensures Step(config, s, e).front.flags.started ==> s.front.flags.started || s.loop.up
  {
  }

  /** In every interleaving: every start leaves all existing bridges connected and registered if it
      reports success, and none if it does not; every stop leaves none; and neither takes a bridge
      away. */
  lemma StartsAndStops(config: Config, states: seq<State>, events: seq<Event>, k: nat)
    requires IsRun(config, states, events) && k < |events|
    ensures states[k].loop.existing <= states[k + 1].loop.existing <= config
    ensures RunsStart(states[k], events[k]) ==>
              && states[k + 1].front.flags.startup.Ready?
              && states[k + 1].loop.registered == states[k + 1].loop.endpoints ==
                 (if states[k + 1].front.flags.startup.ok then states[k + 1].loop.existing else {})
    ensures RunsStop(states[k], events[k]) ==>
              states[k + 1].front.flags.stop.Ready? && states[k + 1].loop.registered == states[k + 1].loop.endpoints == {}
  {
    RunKeepsFront(config, states, events, k);
    RunKeepsLoop(config, states, events, k);
    RunKeepsLoop(config, states, events, k + 1);
    assert states[k + 1] == Step(config, states[k], events[k]);
    StaysStarted(config, states[k], events[k]);
    if RunsStart(states[k], events[k]) {
      StartIsValid(config, states[k].loop, events[k].answer);
    }
  }

  /** Without a heartbeat service, in every cycle of every run: a connection that is up is given up
      exactly if a probe is due, fails, and so did the one before it, which was at least a base cycle
      ago. Nothing else gives it up, and a probe that succeeds in between starts the count anew. */
  lemma SecondFailureDisconnects(config: Config, states: seq<State>, events: seq<Event>, k: nat)
    requires IsRun(config, states, events) && Heartbeat !in config && k < |events| && states[k].front.connected
    ensures var live := states[k].front.live;
            !states[k + 1].front.connected <==>
            && events[k].ManagerCycle? && !events[k].alive
            && live.probes != [] && !live.probes[|live.probes| - 1].alive
            && events[k].now >= live.probes[|live.probes| - 1].time + BASE_CYCLE
  {
    RunKeepsProbes(config, states, events, k);
    RunKeepsFront(config, states, events, k);
    var s, e := states[k], events[k];
    assert states[k + 1] == Step(config, s, e);
    if e.ManagerCycle? {
      CycleWhileConnected(config, s.front, e.now, e.alive, e.firmwareOk);
    }
  }

  /** And the probes of a runtime are at least a base cycle apart, with never two failures in a row. */
  lemma {:induction false} ProbesAreSpaced(config: Config, states: seq<State>, events: seq<Event>, k: nat)
    requires IsRun(config, states, events) && Heartbeat !in config && k < |states|
    ensures Spaced(states[k].front.live.probes) && Streak(states[k].front.live.probes) < FAILURE_LIMIT
  {
    RunKeepsProbes(config, states, events, k);
  }

  // ---------- The class ----------

  class ChargeBridge {
    const config: Config
    var started: bool
    var wasConnected: bool
    var startup: Future
    var stop: Future
    var failures: nat
    var nextProbe: Option<real>
    var nextRetry: Option<real>
    var connected: bool
    var queue: seq<Action>
    var existing: set<Bridge>
    var endpoints: set<Bridge>
    var registered: set<Bridge>
    ghost var probes: seq<Probe>
    ghost var up: bool
    ghost var clashed: bool

    ghost function View(): State
      reads this
    {
      State(Front(Flags(started, wasConnected, startup, stop), Liveness(failures, nextProbe, probes), nextRetry, connected, queue),
            Loop(existing, endpoints, registered, up, clashed))
    }

    constructor (config: Config, can: set<Bridge>)
      ensures this.config == config && View() == Initial(can * config)
    {
      this.config := config;
      started, wasConnected, startup, stop := false, false, Idle, Idle;
      failures, nextProbe, nextRetry, connected, queue := 0, None, None, false, [];
      existing, endpoints, registered := can * config, {}, {};
      probes, up, clashed := [], false, false;
    }

    method SetRuntimeConnectionStatus(value: bool)
      modifies this`connected, this`queue
      ensures View().front == SetConnection(config, old(View()).front, value)
    {
      if Heartbeat in config {
        return;
      }
      connected := value;
      queue := queue + [Status(value)];
    }

    method CompleteStop()
      requires !stop.Pending?
      modifies this`started, this`wasConnected, this`startup, this`stop, this`failures, this`nextProbe, this`nextRetry,
               this`connected, this`queue, this`probes
      ensures View().front == FinishStop(config, old(View()).front)
    {
      if stop.Idle? {
        return;
      }
      stop := Idle;
      started := false;
      wasConnected := false;
      failures := 0;
      nextProbe := None;
      probes := [];
      nextRetry := None;
      SetRuntimeConnectionStatus(false);
    }

    method ProbeLiveness(now: real, alive: bool)
      modifies this`failures, this`nextProbe, this`connected, this`queue, this`probes
      ensures View().front == CheckLiveness(config, old(View()).front, now, alive)
    {
      if !(Heartbeat !in config && started && wasConnected && connected) {
        return;
      }
      if nextProbe.None? {
        nextProbe := Some(now + BASE_CYCLE);
      } else if now >= nextProbe.value {
        nextProbe := Some(now + BASE_CYCLE);
        probes := probes + [Probe(now, alive)];
        if alive {
          failures := 0;
        } else {
          failures := failures + 1;
          if failures >= FAILURE_LIMIT {
            failures := 0;
            nextProbe := None;
            probes := [];
            SetRuntimeConnectionStatus(false);
          }
        }
      }
    }

    method RetryBridges(now: real)
      modifies this`nextRetry, this`queue
      ensures View().front == ScheduleRetry(old(View()).front, now)
    {
      if started && wasConnected && connected {
        if nextRetry.None? {
          nextRetry := Some(now + BASE_CYCLE);
        } else if now >= nextRetry.value {
          nextRetry := Some(now + BASE_CYCLE);
          queue := queue + [Retry];
        }
      }
    }

    method FollowConnection(firmwareOk: bool)
      modifies this`started, this`wasConnected, this`startup, this`stop, this`connected, this`queue
      ensures View().front == Connect(config, BeginStop(old(View()).front), firmwareOk)
    {
      if wasConnected && !connected {
        queue := queue + [Stop];
        stop := Pending;
      }
      if !wasConnected {
        if startup.Pending? {
          return;
        }
        if startup.Ready? {
          var ok := startup.ok;
          startup := Idle;
          if ok {
            started := true;
            wasConnected := true;
            SetRuntimeConnectionStatus(true);
          }
          return;
        }
        if firmwareOk {
          queue := queue + [Start];
          startup := Pending;
        }
      }
    }

    method RunCycle(now: real, alive: bool, firmwareOk: bool)
      modifies this
      ensures View() == Step(config, old(View()), ManagerCycle(now, alive, firmwareOk))
    {
      if stop.Pending? {
        return;
      }
      CompleteStop();
      ProbeLiveness(now, alive);
      RetryBridges(now);
      FollowConnection(firmwareOk);
    }

    method CreateBridges(can: set<Bridge>)
      modifies this`existing, this`endpoints
      ensures View().loop == Created(config, old(View()).loop, can)
    {
      var made := can * (config - existing);
      existing := existing + made;
      endpoints := endpoints + made;
    }

    /** Unregisters and disconnects all bridges. */
    method TakeDown()
      modifies this`endpoints, this`registered, this`up
      ensures View().loop == Down(old(View()).loop)
    {
      registered := {};
      endpoints := {};
      up := false;
    }

    /** Connects and registers all bridges; undone if one of them is not accepted. */
    method RegisterBridges(answer: Answer) returns (ok: bool)
      modifies this`endpoints, this`registered, this`up, this`clashed
      ensures ok == (!answer.throws && existing <= answer.accepted - old(registered))
      ensures var live := ConnectedAndRegistered(old(View()).loop, Tried(existing, answer), answer.accepted);
              View().loop == if ok then live else Down(live)
    {
      endpoints := existing;
      ok := !answer.throws && existing <= answer.accepted - registered;
      var tried := if answer.throws then existing * answer.reached else existing;
      clashed := clashed || tried * registered != {};
      registered := registered + tried * answer.accepted;
      up := true;
      if !ok {
        TakeDown();
      }
    }

    method StartRuntime(answer: Answer)
      modifies this`startup, this`existing, this`endpoints, this`registered, this`up, this`clashed
      ensures startup == Ready(StartSucceeds(config, old(View()).loop, answer))
      ensures View().loop == RunStart(config, old(View()).loop, answer)
    {
      CreateBridges(answer.can);
      if config != {} && existing == {} {
        startup := Ready(false);
      } else if Heartbeat in config && Heartbeat !in existing {
        endpoints := {};
        startup := Ready(false);
      } else {
        var ok := RegisterBridges(answer);
        startup := Ready(ok);
      }
    }

    method StopRuntime(throws: bool)
      modifies this`stop, this`endpoints, this`registered, this`up
      ensures stop == Ready(!throws)
      ensures View().loop == Down(old(View()).loop)
    {
      TakeDown();
      stop := Ready(!throws);
    }

    method RetryMissing(answer: Answer)
      modifies this`existing, this`endpoints, this`registered, this`clashed
      ensures View().loop == RunRetry(config, old(View()).loop, answer.can, answer.accepted)
    {
      if config <= existing {
        return;
      }
      var late := answer.can * (config - existing) * answer.accepted;
      clashed := clashed || late * registered != {};
      existing := existing + late;
      endpoints := endpoints + late;
      registered := registered + late;
    }

    /** The event loop takes the first action of its queue. */
    method RunNextAction(answer: Answer)
      requires queue != []
      modifies this
      ensures View() == Step(config, old(View()), LoopAction(answer))
    {
      var action := queue[0];
      queue := queue[1..];
      match action
      case Start => StartRuntime(answer);
      case Stop => StopRuntime(answer.throws);
      case Retry => RetryMissing(answer);
      case Status(_) =>
    }
  }
}
