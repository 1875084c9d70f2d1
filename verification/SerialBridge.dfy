/** The bridge between a pseudo terminal and a UART of the ChargeBridge, reached over TCP. Reading
    the terminal is paused while the connection cannot take more; connecting is bound to the
    heartbeat-verified state of the ChargeBridge.

    The library's event client is part of the state: what it reports, and when, is an event.
 */
module SerialBridge {
  import opened Wrappers

  const PAUSE_WATERMARK: nat := 64
  const MAX_BUFFERED: nat := 1024

  // ---------- State ----------

  /** Opening, up, or lost. */
  datatype Connection = Fresh | Connected | Failed

  /** The TCP client: its connection, whether it still has to report that the connection came up or
      failed, whether its ready action is queued, and how many payloads it has buffered. */
  datatype Client = Client(connection: Connection, upDue: bool, failureDue: bool, readyDue: bool, depth: nat)

  datatype Tcp = Tcp(client: Option<Client>, ready: bool, timerArmed: bool, txRejected: bool)

  /** The bridge's view of the terminal; and whether it is in fact not read. */
  datatype Pty = Pty(ready: bool, paused: bool, unread: bool)

  datatype Control = Control(endpointRequested: bool, cbConnected: bool, registered: bool)

  datatype State = State(tcp: Tcp, pty: Pty, control: Control, ready: bool)

  const INITIAL: State :=
    State(Tcp(None, false, false, false), Pty(false, false, false), Control(false, false, false), false)

  const NEW_CLIENT: Client := Client(Fresh, false, false, false, 0)

  /** `reset` drops what is buffered and opens the connection anew; nothing is reported for the
      connection it retires. */
  function Reset(c: Client): Client {
    Client(Fresh, false, false, c.readyDue, 0)
  }

  // ---------- Handlers ----------

  /** The state with its readiness up to date. */
  function Settle(tcp: Tcp, pty: Pty, control: Control): State {
    State(tcp, pty, control, tcp.ready && pty.ready && control.cbConnected)
  }

  /** `resumes` tells whether the event loop takes the terminal back. */
  function Resume(p: Pty, resumes: bool): Pty {
    if p.paused then Pty(p.ready, false, p.unread && !resumes) else p
  }

  function DropClient(t: Tcp): Tcp {
    Tcp(None, false, false, t.txRejected)
  }

  /** A client is created unless there is one or it may not be; `registers` tells whether the event
      loop accepts it. */
  predicate Creates(t: Tcp, k: Control) {
    t.client.None? && k.endpointRequested && k.cbConnected
  }

  function EnsureClient(t: Tcp, k: Control, registers: bool): Tcp {
    if !Creates(t, k) then t
    else if k.registered && !registers then Tcp(None, false, false, false)
    else Tcp(Some(NEW_CLIENT), t.ready, t.timerArmed, false)
  }

  /** A client that the event loop does not accept is dropped again, which resumes the terminal. */
  function EnsurePty(t: Tcp, p: Pty, k: Control, registers: bool, resumes: bool): Pty {
    if Creates(t, k) && k.registered && !registers then Resume(p, resumes) else p
  }

  function CbConnects(s: State, registers: bool, resumes: bool): State {
    var k := s.control.(cbConnected := true);
    if s.tcp.client.None? then
      Settle(EnsureClient(s.tcp, k, registers), EnsurePty(s.tcp, s.pty, k, registers, resumes), k)
    else if !s.tcp.ready then
      Settle(Tcp(Some(Reset(s.tcp.client.value)), false, false, s.tcp.txRejected), s.pty, k)
    else Settle(s.tcp, s.pty, k)
  }

  function SetCbStatus(s: State, connected: bool, registers: bool, resumes: bool): State {
    if connected == s.control.cbConnected then s
    else if connected then CbConnects(s, registers, resumes)
    else Settle(s.tcp, s.pty, s.control.(cbConnected := false))
  }

  function DisconnectEndpoint(s: State, resumes: bool): State {
    Settle(DropClient(s.tcp), Resume(s.pty, resumes), s.control.(endpointRequested := false))
  }

  function ConnectEndpoint(s: State, registers: bool, resumes: bool): State {
    var t, p, k := DropClient(s.tcp), Resume(s.pty, resumes), s.control.(endpointRequested := true);
    Settle(EnsureClient(t, k, registers), EnsurePty(t, p, k, registers, resumes), k)
  }

  /** A payload is taken only while the connection is up: merged into the newest one that waits, or
      buffered while there is room. */
  predicate Accepts(c: Client, merges: bool) {
    c.connection.Connected? && (merges || c.depth < MAX_BUFFERED)
  }

  function Buffer(c: Client, merges: bool): Client {
    if Accepts(c, merges) && !merges then c.(depth := c.depth + 1) else c
  }

  function PtyData(s: State, merges: bool, pauses: bool): State {
    if s.tcp.client.None? then s
    else
      var accepted := Accepts(s.tcp.client.value, merges);
      var c := Buffer(s.tcp.client.value, merges);
      State(Tcp(Some(c), s.tcp.ready, s.tcp.timerArmed, !accepted),
            if !s.pty.paused && (!accepted || c.depth >= PAUSE_WATERMARK)
            then Pty(s.pty.ready, pauses, s.pty.unread || pauses)
            else s.pty,
            s.control, s.ready)
  }

  /** The terminal came up or failed; a failed one is opened anew, unpaused. */
  function PtyReport(s: State, ok: bool): State {
    Settle(s.tcp, if ok then s.pty.(ready := true) else Pty(false, s.pty.paused, false), s.control)
  }

  function TimerFires(s: State): State {
    var c := s.tcp.client;
    var reset := c.Some? && !s.tcp.ready && s.control.cbConnected;
    s.(tcp := Tcp(if reset then Some(Reset(c.value)) else c, s.tcp.ready, false, s.tcp.txRejected))
  }

  /** The client's error handler, called with the state that the connection is in. */
  function TcpReport(s: State): State
    requires s.tcp.client.Some?
  {
    var c := s.tcp.client.value;
    var up := c.connection.Connected?;
    Settle(Tcp(Some(c.(upDue := false, failureDue := false)), up, s.tcp.timerArmed || (!up && s.control.cbConnected), s.tcp.txRejected),
           s.pty, s.control)
  }

  // ---------- Events ----------

  datatype Event =
    | CbStatus(connected: bool, registers: bool, resumes: bool)
    | Connect(registers: bool, resumes: bool)
    | Disconnect(resumes: bool)
    | Register(registered: bool)
    | Data(merges: bool, pauses: bool)
    | PtyChanged(ok: bool)
    | Timer
    // Of the TCP client: an attempt ends, the connection is lost, the error handler and the ready
    // action are called, a payload is written.
    | AttemptEnds(ok: bool)
    | ConnectionLost
    | Report
    | ReadyAction(resumes: bool)
    | PayloadSent(resumes: bool)

  predicate ClientActs(s: State) {
    s.control.registered && s.tcp.client.Some?
  }

  /** When an event can happen. */
  predicate Enabled(s: State, e: Event) {
    match e
    case Data(merges, _) =>
      s.control.registered && !s.pty.unread && (merges && s.tcp.client.Some? ==> s.tcp.client.value.depth > 0)
    case Timer => s.control.registered && s.tcp.timerArmed
    case AttemptEnds(_) => ClientActs(s) && s.tcp.client.value.connection.Fresh?
    case ConnectionLost => ClientActs(s) && s.tcp.client.value.connection.Connected?
    case Report => ClientActs(s) && (s.tcp.client.value.upDue || s.tcp.client.value.failureDue)
    case ReadyAction(_) => ClientActs(s) && s.tcp.client.value.readyDue
    case PayloadSent(_) => ClientActs(s) && s.tcp.client.value.connection.Connected? && s.tcp.client.value.depth > 0
    case _ => true
  }

  function WithClient(s: State, c: Client): State {
    s.(tcp := s.tcp.(client := Some(c)))
  }

  function ClientStep(c: Client, e: Event): Client
    requires e.PayloadSent? ==> c.depth > 0
  {
    match e
    case AttemptEnds(ok) => if ok then Client(Connected, true, false, true, c.depth) else Client(Failed, false, true, c.readyDue, c.depth)
    case ConnectionLost => Client(Failed, false, true, c.readyDue, c.depth)
    case ReadyAction(_) => c.(readyDue := false)
    case PayloadSent(_) => c.(depth := c.depth - 1)
    case _ => c
  }

  function Step(s: State, e: Event): State
    requires Enabled(s, e)
  {
    match e
    case CbStatus(connected, registers, resumes) => SetCbStatus(s, connected, registers, resumes)
    case Connect(registers, resumes) => ConnectEndpoint(s, registers, resumes)
    case Disconnect(resumes) => DisconnectEndpoint(s, resumes)
    case Register(registered) => s.(control := s.control.(registered := registered))
    case Data(merges, pauses) => PtyData(s, merges, pauses)
    case PtyChanged(ok) => PtyReport(s, ok)
    case Timer => TimerFires(s)
    case AttemptEnds(_) => WithClient(s, ClientStep(s.tcp.client.value, e))
    case ConnectionLost => WithClient(s, ClientStep(s.tcp.client.value, e))
    case Report => TcpReport(s)
    case ReadyAction(resumes) => WithClient(s, ClientStep(s.tcp.client.value, e)).(pty := Resume(s.pty, resumes))
    case PayloadSent(resumes) =>
      var c := ClientStep(s.tcp.client.value, e);
      WithClient(s, c).(pty := if c.depth == 0 then Resume(s.pty, resumes) else s.pty)
  }

  // ---------- Invariant ----------

  /** What is due to be reported matches the connection, and the flag of the bridge is the state of
      the connection up to that report. */
  predicate ClientValid(c: Client, ready: bool) {
    && (c.upDue ==> c.connection.Connected?)
    && (c.failureDue ==> c.connection.Failed?)
    && (ready ==> (c.connection.Connected? && !c.upDue) || (c.connection.Failed? && c.failureDue))
    && (c.connection.Connected? && !c.upDue ==> ready)
    && (c.connection.Fresh? ==> c.depth == 0)
  }

  /** Something is under way that brings the connection back. */
  predicate Reconnecting(t: Tcp) {
    t.client.Some? && (t.timerArmed || t.client.value.connection.Fresh? || t.client.value.upDue || t.client.value.failureDue)
  }

  predicate TcpValid(t: Tcp, k: Control) {
    if t.client.None? then !t.ready && !t.timerArmed
    else
      && k.endpointRequested
      && ClientValid(t.client.value, t.ready)
      && (k.cbConnected && !t.ready ==> Reconnecting(t))
      && (t.timerArmed ==> t.client.value.connection.Failed? && !t.client.value.failureDue)
  }

  /** What resumes a paused terminal: the last payload to be written, or the ready action of a
      connection that is yet to be made. */
  predicate Resumable(t: Tcp) {
    t.client.Some? && (t.client.value.connection.Connected? ==> t.client.value.depth > 0 || t.client.value.readyDue)
  }

  predicate Valid(s: State) {
    && s.ready == (s.tcp.ready && s.pty.ready && s.control.cbConnected)
    && TcpValid(s.tcp, s.control)
    && (s.pty.paused ==> Resumable(s.tcp))
  }

  lemma CbStatusIsValid(s: State, connected: bool, registers: bool, resumes: bool)
    requires Valid(s)
    ensures Valid(SetCbStatus(s, connected, registers, resumes))
  {
  }

  lemma EndpointIsValid(s: State, registers: bool, resumes: bool)
    requires Valid(s)
    ensures Valid(ConnectEndpoint(s, registers, resumes)) && Valid(DisconnectEndpoint(s, resumes))
  {
  }

  lemma DataIsValid(s: State, merges: bool, pauses: bool)
    requires Valid(s) && Enabled(s, Data(merges, pauses))
    ensures Valid(PtyData(s, merges, pauses))
  {
  }

  lemma ReportIsValid(s: State)
    requires Valid(s) && Enabled(s, Report)
    ensures Valid(TcpReport(s))
  {
  }

  lemma ClientStepIsValid(s: State, e: Event)
    requires Valid(s) && Enabled(s, e)
    requires e.AttemptEnds? || e.ConnectionLost? || e.ReadyAction? || e.PayloadSent?
    ensures Valid(Step(s, e))
  {
  }

  lemma StepIsValid(s: State, e: Event)
    requires Valid(s) && Enabled(s, e)
    ensures Valid(Step(s, e))
  {
    match e
    case CbStatus(connected, registers, resumes) => CbStatusIsValid(s, connected, registers, resumes);
    case Connect(registers, resumes) => EndpointIsValid(s, registers, resumes);
    case Disconnect(resumes) => EndpointIsValid(s, false, resumes);
    case Register(_) =>
    case Data(merges, pauses) => DataIsValid(s, merges, pauses);
    case PtyChanged(_) =>
    case Timer =>
    case Report => ReportIsValid(s);
    case _ => ClientStepIsValid(s, e);
  }

  predicate IsRun(states: seq<State>, events: seq<Event>) {
    && |states| == |events| + 1 && states[0] == INITIAL
    && forall k :: 0 <= k < |events| ==> Enabled(states[k], events[k]) && states[k + 1] == Step(states[k], events[k])
  }

  lemma {:induction false} RunIsValid(states: seq<State>, events: seq<Event>, k: nat)
    requires IsRun(states, events) && k < |states|
    ensures Valid(states[k])
  {
    if k > 0 {
      RunIsValid(states, events, k - 1);
      assert states[k - 1 + 1] == Step(states[k - 1], events[k - 1]);
      StepIsValid(states[k - 1], events[k - 1]);
    }
  }

  // ---------- Results ----------

  /** In every state of every run: a paused terminal has a client, a client that is not ready while
      the ChargeBridge is connected has its timer armed, an attempt in flight, or a report due that
      will arm the timer or make it ready, and the bridge is available exactly when all three sides
      are up. */
  lemma NeverWedges(states: seq<State>, events: seq<Event>, k: nat)
    requires IsRun(states, events) && k < |states|
    ensures var s := states[k];
            && (s.pty.paused ==> s.tcp.client.Some?)
            && (s.tcp.client.Some? && !s.tcp.ready && s.control.cbConnected ==> Reconnecting(s.tcp))
            && s.ready == (s.tcp.ready && s.pty.ready && s.control.cbConnected)
  {
    RunIsValid(states, events, k);
  }

  // ---------- A paused terminal is resumed ----------

  /** What the library does next about a paused terminal when its attempts to connect succeed. */
  predicate IsProgress(e: Event) {
    e.Timer? || e.AttemptEnds? || e.Report? || e.ReadyAction? || e.PayloadSent?
  }

  /** No connection is lost or cannot be made, and nothing more is buffered. */
  predicate IsCalm(e: Event) {
    match e
    case CbStatus(connected, _, _) => connected
    case Register(registered) => registered
    case Data(merges, _) => merges
    case AttemptEnds(ok) => ok
    case ConnectionLost => false
    case _ => true
  }

  /** The most progress that can be made before the terminal is resumed. */
  function Rank(t: Tcp): nat {
    if t.client.None? then 0
    else
      var c := t.client.value;
      match c.connection
      case Connected => c.depth + (if c.upDue then 1 else 0)
      case Fresh => 2
      case Failed => if c.failureDue then 4 else 3
  }

  predicate Waits(s: State) {
    s.pty.paused && s.control.cbConnected && s.control.registered
  }

  lemma ProgressLowersRank(s: State, e: Event)
    requires Valid(s) && Waits(s) && Enabled(s, e) && IsCalm(e) && Step(s, e).pty.paused
    ensures Waits(Step(s, e))
    ensures Rank(Step(s, e).tcp) + (if IsProgress(e) then 1 else 0) <= Rank(s.tcp)
  {
  }

  /** What the library is about to do. */
  function UnderWay(t: Tcp): Event {
    if t.client.None? then Timer
    else
      var c := t.client.value;
      match c.connection
      case Connected => if c.readyDue then ReadyAction(true) else PayloadSent(true)
      case Fresh => AttemptEnds(true)
      case Failed => if c.failureDue then Report else Timer
  }

  lemma ProgressIsUnderWay(s: State)
    requires Valid(s) && Waits(s)
    ensures Enabled(s, UnderWay(s.tcp)) && IsProgress(UnderWay(s.tcp)) && IsCalm(UnderWay(s.tcp))
  {
  }

  /** How much progress is made from event `k` up to event `m`. */
  function Progress(events: seq<Event>, k: nat, m: nat): nat
    requires k <= m <= |events|
  {
    if k == m then 0 else Progress(events, k, m - 1) + (if IsProgress(events[m - 1]) then 1 else 0)
  }

  /** The next event keeps the terminal waiting, and lowers the rank if it is progress. */
  predicate Lowers(s: State, e: Event, next: State) {
    Waits(s) ==> Waits(next) && Rank(next.tcp) + (if IsProgress(e) then 1 else 0) <= Rank(s.tcp)
  }

  lemma RunLowersRank(states: seq<State>, events: seq<Event>, k: nat)
    requires IsRun(states, events) && k < |events| && IsCalm(events[k]) && states[k + 1].pty.paused
    ensures Lowers(states[k], events[k], states[k + 1])
  {
    RunIsValid(states, events, k);
    if Waits(states[k]) {
      ProgressLowersRank(states[k], events[k]);
    }
  }

  lemma {:induction false} RankBoundsProgress(states: seq<State>, events: seq<Event>, k: nat, m: nat)
    requires k <= m <= |events| < |states| && Waits(states[k])
    requires forall j :: k <= j < m ==> Lowers(states[j], events[j], states[j + 1])
    ensures Waits(states[m]) && Progress(events, k, m) + Rank(states[m].tcp) <= Rank(states[k].tcp)
  {
    if k < m {
      RankBoundsProgress(states, events, k, m - 1);
      assert Lowers(states[m - 1], events[m - 1], states[m - 1 + 1]);
    }
  }

  /** From every state of every run in which the bridge is registered and the ChargeBridge connected:
      a paused terminal has progress under way, and is resumed, in whatever order things happen,
      before more progress is made than the rank of the connection. */
  lemma {:induction false} PausedPtyResumes(states: seq<State>, events: seq<Event>, k: nat, m: nat)
    requires IsRun(states, events) && k <= m < |states| && Waits(states[k])
    requires forall j :: k <= j < m ==> IsCalm(events[j])
    ensures exists e :: Enabled(states[k], e) && IsProgress(e) && IsCalm(e)
    ensures Progress(events, k, m) > Rank(states[k].tcp) ==> exists j :: k <= j <= m && !states[j].pty.paused
  {
    RunIsValid(states, events, k);
    ProgressIsUnderWay(states[k]);
    if forall j :: k <= j <= m ==> states[j].pty.paused {
      forall j | k <= j < m
        ensures Lowers(states[j], events[j], states[j + 1])
      {
        RunLowersRank(states, events, j);
      }
      RankBoundsProgress(states, events, k, m);
    }
  }

  // ---------- A refused resume ----------

  /** The terminal is not read although the bridge takes it to be. */
  predicate IsLost(p: Pty) {
    p.unread && !p.paused
  }

  /** A resume is asked for and refused: when the client is dropped or ready, or has written its last
      payload. */
  predicate RefusesResume(s: State, e: Event) {
    && s.pty.paused && s.pty.unread
    && match e
       case Connect(_, resumes) => !resumes
       case Disconnect(resumes) => !resumes
       case ReadyAction(resumes) => !resumes
       case PayloadSent(resumes) => !resumes && s.tcp.client.Some? && s.tcp.client.value.depth == 1
       case _ => false
  }

  predicate Reopens(e: Event) {
    e.PtyChanged? && !e.ok
  }

  lemma StepLoses(s: State, e: Event)
    requires Valid(s) && Enabled(s, e)
    ensures IsLost(Step(s, e).pty) <==> RefusesResume(s, e) || (IsLost(s.pty) && !Reopens(e))
  {
  }

  predicate StaysOpen(events: seq<Event>, from: nat, to: nat)
    requires to <= |events|
  {
    forall j :: from <= j < to ==> !Reopens(events[j])
  }

  /** A resume was refused, and the terminal has not been opened anew since. */
  predicate RefusedSince(states: seq<State>, events: seq<Event>, k: nat)
    requires k <= |events| < |states|
  {
    exists i :: 0 <= i < k && RefusesResume(states[i], events[i]) && StaysOpen(events, i + 1, k)
  }

  lemma RefusedSinceStep(states: seq<State>, events: seq<Event>, k: nat)
    requires k < |events| < |states|
    ensures RefusedSince(states, events, k + 1) <==>
            RefusesResume(states[k], events[k]) || (RefusedSince(states, events, k) && !Reopens(events[k]))
  {
    if RefusedSince(states, events, k + 1) {
      var i :| 0 <= i < k + 1 && RefusesResume(states[i], events[i]) && StaysOpen(events, i + 1, k + 1);
      assert i < k ==> StaysOpen(events, i + 1, k);
    }
    if RefusesResume(states[k], events[k]) {
      assert StaysOpen(events, k + 1, k + 1);
    }
    if RefusedSince(states, events, k) && !Reopens(events[k]) {
      var i :| 0 <= i < k && RefusesResume(states[i], events[i]) && StaysOpen(events, i + 1, k);
      assert StaysOpen(events, i + 1, k + 1);
    }
  }

  /** In every state of every run: the terminal is unread and not known to be paused exactly if a
      resume of it was refused and it has not been opened anew since. */
  lemma {:induction false} LostIffRefused(states: seq<State>, events: seq<Event>, k: nat)
    requires IsRun(states, events) && k < |states|
    ensures IsLost(states[k].pty) <==> RefusedSince(states, events, k)
  {
    if k > 0 {
      LostIffRefused(states, events, k - 1);
      RunIsValid(states, events, k - 1);
      assert states[k - 1 + 1] == Step(states[k - 1], events[k - 1]);
      StepLoses(states[k - 1], events[k - 1]);
      RefusedSinceStep(states, events, k - 1);
    }
  }

  /** This does happen: the terminal sends before the connection is up and is paused, and the resume at
      the disconnect is refused. */
  lemma RefusedResumeIsForgotten()
    ensures exists states: seq<State>, events: seq<Event> :: IsRun(states, events) && IsLost(states[|events|].pty)
  {
    var events := [Connect(true, true), CbStatus(true, true, true), Register(true), Data(false, true), Disconnect(false)];
    var s1 := Step(INITIAL, events[0]);
    var s2 := Step(s1, events[1]);
    var s3 := Step(s2, events[2]);
    var s4 := Step(s3, events[3]);
    var s5 := Step(s4, events[4]);
    assert IsRun([INITIAL, s1, s2, s3, s4, s5], events);
  }

  /** As long as the event loop takes the terminal back whenever it is asked to, a terminal that is
      not read is known to be paused, so that it will be resumed. */
  lemma PauseIsKnown(states: seq<State>, events: seq<Event>, k: nat)
    requires IsRun(states, events) && k < |states|
    requires forall i :: 0 <= i < k ==> !RefusesResume(states[i], events[i])
    ensures states[k].pty.unread ==> states[k].pty.paused
  {
    LostIffRefused(states, events, k);
  }

  // ---------- The class ----------

  class Bridge {
    var client: Option<Client>
    var tcpReady: bool
    var ptyReady: bool
    var ptyPaused: bool
    var txRejected: bool
    var endpointRequested: bool
    var cbConnected: bool
    var timerArmed: bool
    var registered: bool
    var ready: bool
    ghost var unread: bool

    ghost function View(): State
      reads this
    {
      State(Tcp(client, tcpReady, timerArmed, txRejected), Pty(ptyReady, ptyPaused, unread),
            Control(endpointRequested, cbConnected, registered), ready)
    }

    constructor ()
      ensures View() == INITIAL
    {
      client, tcpReady, ptyReady, ptyPaused, txRejected := None, false, false, false, false;
      endpointRequested, cbConnected, timerArmed, registered, ready := false, false, false, false, false;
      unread := false;
    }

    method HandleReady()
      modifies this`ready
      ensures View() == Settle(old(View()).tcp, old(View()).pty, old(View()).control)
    {
      ready := tcpReady && ptyReady && cbConnected;
    }

    method ResumePty(resumes: bool)
      modifies this`ptyPaused, this`unread
      ensures View().pty == Resume(old(View()).pty, resumes)
    {
      if ptyPaused {
        unread := unread && !resumes;
        ptyPaused := false;
      }
    }

    method DropTcpClient(resumes: bool)
      modifies this`timerArmed, this`tcpReady, this`client, this`ptyPaused, this`unread
      ensures View().tcp == DropClient(old(View()).tcp)
      ensures View().pty == Resume(old(View()).pty, resumes)
    {
      timerArmed := false;
      tcpReady := false;
      client := None;
      ResumePty(resumes);
    }

    method EnsureTcpClient(registers: bool, resumes: bool)
      modifies this`timerArmed, this`tcpReady, this`client, this`ptyPaused, this`unread, this`txRejected
      ensures View().tcp == EnsureClient(old(View()).tcp, View().control, registers)
      ensures View().pty == EnsurePty(old(View()).tcp, old(View()).pty, View().control, registers, resumes)
    {
      if client.Some? || !endpointRequested || !cbConnected {
        return;
      }
      txRejected := false;
      client := Some(NEW_CLIENT);
      if registered && !registers {
        DropTcpClient(resumes);
      }
    }

    method SetCbConnectionStatus(connected: bool, registers: bool, resumes: bool)
      modifies this
      ensures View() == SetCbStatus(old(View()), connected, registers, resumes)
    {
      if connected == cbConnected {
        return;
      }
      cbConnected := connected;
      if connected {
        if client.Some? {
          if !tcpReady {
            timerArmed := false;
            client := Some(Reset(client.value));
          }
        } else {
          EnsureTcpClient(registers, resumes);
        }
      }
      HandleReady();
    }

    method DisconnectCbEndpoint(resumes: bool)
      modifies this
      ensures View() == DisconnectEndpoint(old(View()), resumes)
    {
      endpointRequested := false;
      DropTcpClient(resumes);
      HandleReady();
    }

    method ConnectCbEndpoint(registers: bool, resumes: bool)
      modifies this
      ensures View() == ConnectEndpoint(old(View()), registers, resumes)
    {
      DropTcpClient(resumes);
      endpointRequested := true;
      EnsureTcpClient(registers, resumes);
      HandleReady();
    }

    method HandlePtyData(merges: bool, pauses: bool)
      modifies this
      ensures View() == PtyData(old(View()), merges, pauses)
    {
      if client.None? {
        return;
      }
      var accepted := Accepts(client.value, merges);
      client := Some(Buffer(client.value, merges));
      txRejected := !accepted;
      if !ptyPaused && (!accepted || client.value.depth >= PAUSE_WATERMARK) {
        ptyPaused := pauses;
        unread := unread || pauses;
      }
    }

    method HandlePtyError(ok: bool)
      modifies this
      ensures View() == PtyReport(old(View()), ok)
    {
      ptyReady := ok;
      if !ptyReady {
        unread := false;
      }
      HandleReady();
    }

    method HandleReconnectTimer()
      modifies this
      ensures View() == TimerFires(old(View()))
    {
      timerArmed := false;
      if client.Some? && !tcpReady && cbConnected {
        client := Some(Reset(client.value));
      }
    }

    method HandleTcpError()
      requires client.Some?
      modifies this
      ensures View() == TcpReport(old(View()))
    {
      client := Some(client.value.(upDue := false, failureDue := false));
      tcpReady := client.value.connection.Connected?;
      if !tcpReady && cbConnected {
        timerArmed := true;
      }
      HandleReady();
    }
  }
}
