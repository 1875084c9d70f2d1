/** What the state of the serial bridge says about the events so far: each part of it is given by
    the events that count for it, whichever handler they came through.
 */
module SerialHistory {
  import opened SerialBridge
  import opened Wrappers

  // ---------- What was last asked for or reported ----------

  function LastStatus(events: seq<Event>): bool {
    if events == [] then false
    else
      var e := events[|events| - 1];
      if e.CbStatus? then e.connected else LastStatus(events[..|events| - 1])
  }

  function LastRequest(events: seq<Event>): bool {
    if events == [] then false
    else
      var e := events[|events| - 1];
      if e.Connect? then true else if e.Disconnect? then false else LastRequest(events[..|events| - 1])
  }

  function LastRegistration(events: seq<Event>): bool {
    if events == [] then false
    else
      var e := events[|events| - 1];
      if e.Register? then e.registered else LastRegistration(events[..|events| - 1])
  }

  function LastTerminal(events: seq<Event>): bool {
    if events == [] then false
    else
      var e := events[|events| - 1];
      if e.PtyChanged? then e.ok else LastTerminal(events[..|events| - 1])
  }

  predicate Remembers(s: State, events: seq<Event>) {
    && s.control == Control(LastRequest(events), LastStatus(events), LastRegistration(events))
    && s.pty.ready == LastTerminal(events)
  }

  lemma {:induction false} StepRemembers(s: State, events: seq<Event>, e: Event)
    requires Remembers(s, events) && Enabled(s, e)
    ensures Remembers(Step(s, e), events + [e])
  {
    assert (events + [e])[..|events|] == events;
  }

  /** In every state of every run: the endpoint is requested, the ChargeBridge connected, the bridge
      registered and the terminal ready as the last event about it said. */
  lemma {:induction false} RunRemembers(states: seq<State>, events: seq<Event>, k: nat)
    requires IsRun(states, events) && k < |states|
    ensures Remembers(states[k], events[..k])
  {
    if k > 0 {
      RunRemembers(states, events, k - 1);
      assert events[..k] == events[..k - 1] + [events[k - 1]];
      assert states[k - 1 + 1] == Step(states[k - 1], events[k - 1]);
      StepRemembers(states[k - 1], events[..k - 1], events[k - 1]);
    }
  }

  // ---------- When there is a client ----------

  /** The ChargeBridge comes back. */
  predicate IsUpEdge(s: State, e: Event) {
    e.CbStatus? && e.connected && !s.control.cbConnected
  }

  /** A client is called for: by a request on a connected ChargeBridge, or by the return of the
      ChargeBridge for a request that has no client. */
  predicate CallsForClient(s: State, e: Event) {
    || (e.Connect? && s.control.cbConnected)
    || (IsUpEdge(s, e) && s.control.endpointRequested && s.tcp.client.None?)
  }

  predicate RefusesClient(s: State, e: Event) {
    CallsForClient(s, e) && s.control.registered && !e.registers
  }

  /** There is a client exactly if one was called for and accepted, or there was one and the endpoint
      was not given up or replaced. */
  predicate ClientFollows(s: State, e: Event, next: State) {
    next.tcp.client.Some? <==>
    || (CallsForClient(s, e) && !RefusesClient(s, e))
    || (s.tcp.client.Some? && !e.Connect? && !e.Disconnect?)
  }

  /** An endpoint is requested and the ChargeBridge connected, but there is no client. */
  predicate IsBare(s: State) {
    s.control.endpointRequested && s.control.cbConnected && s.tcp.client.None?
  }

  /** What ends the lack of a client or the need of one. */
  predicate EndsNeed(e: Event) {
    e.Connect? || e.Disconnect? || (e.CbStatus? && !e.connected)
  }

  lemma StepBares(s: State, e: Event)
    requires Valid(s) && Enabled(s, e)
    ensures IsBare(Step(s, e)) <==> RefusesClient(s, e) || (IsBare(s) && !EndsNeed(e))
  {
  }

  predicate NeedLasts(events: seq<Event>, from: nat, to: nat)
    requires to <= |events|
  {
    forall j :: from <= j < to ==> !EndsNeed(events[j])
  }

  /** The last client that was called for was refused. */
  predicate RefusedLast(states: seq<State>, events: seq<Event>, k: nat)
    requires k <= |events| < |states|
  {
    exists i :: 0 <= i < k && RefusesClient(states[i], events[i]) && NeedLasts(events, i + 1, k)
  }

  lemma RefusedLastStep(states: seq<State>, events: seq<Event>, k: nat)
    requires k < |events| < |states|
    ensures RefusedLast(states, events, k + 1) <==>
            RefusesClient(states[k], events[k]) || (RefusedLast(states, events, k) && !EndsNeed(events[k]))
  {
    if RefusedLast(states, events, k + 1) {
      var i :| 0 <= i < k + 1 && RefusesClient(states[i], events[i]) && NeedLasts(events, i + 1, k + 1);
      assert i < k ==> NeedLasts(events, i + 1, k);
    }
    if RefusesClient(states[k], events[k]) {
      assert NeedLasts(events, k + 1, k + 1);
    }
    if RefusedLast(states, events, k) && !EndsNeed(events[k]) {
      var i :| 0 <= i < k && RefusesClient(states[i], events[i]) && NeedLasts(events, i + 1, k);
      assert NeedLasts(events, i + 1, k + 1);
    }
  }

  /** In every state of every run: a requested endpoint on a connected ChargeBridge is without a client
      exactly if the event loop refused the last one, and without a request there is none. */
  lemma {:induction false} ClientIffNotRefused(states: seq<State>, events: seq<Event>, k: nat)
    requires IsRun(states, events) && k < |states|
    ensures LastRequest(events[..k]) && LastStatus(events[..k]) ==>
              (states[k].tcp.client.None? <==> RefusedLast(states, events, k))
    ensures !LastRequest(events[..k]) ==> states[k].tcp.client.None?
  {
    RunRemembers(states, events, k);
    RunIsValid(states, events, k);
    BareIffRefused(states, events, k);
  }

  lemma {:induction false} BareIffRefused(states: seq<State>, events: seq<Event>, k: nat)
    requires IsRun(states, events) && k < |states|
    ensures IsBare(states[k]) <==> RefusedLast(states, events, k)
  {
    if k > 0 {
      BareIffRefused(states, events, k - 1);
      RunIsValid(states, events, k - 1);
      assert states[k - 1 + 1] == Step(states[k - 1], events[k - 1]);
      StepBares(states[k - 1], events[k - 1]);
      RefusedLastStep(states, events, k - 1);
    }
  }

  // ---------- The connection ----------

  /** A connection that is down is opened anew: when the ChargeBridge returns, or when the timer fires
      while it is connected. */
  predicate Reopens(s: State, e: Event) {
    s.tcp.client.Some? && !s.tcp.ready && (IsUpEdge(s, e) || (e.Timer? && s.control.cbConnected))
  }

  predicate BeginsAttempt(s: State, e: Event) {
    Reopens(s, e) || (CallsForClient(s, e) && !RefusesClient(s, e))
  }

  /** Where the connection of a client goes: a new attempt, its end, a loss, and nowhere else. */
  predicate ConnectionFollows(s: State, e: Event, next: State) {
    next.tcp.client.Some? ==>
      var connection := next.tcp.client.value.connection;
      if BeginsAttempt(s, e) then connection.Fresh?
      else if e.AttemptEnds? then connection == if e.ok then Connected else Failed
      else if e.ConnectionLost? then connection.Failed?
      else s.tcp.client.Some? && connection == s.tcp.client.value.connection
  }

  /** No attempt is made while the ChargeBridge is not connected or no endpoint is requested. */
  lemma {:induction false} AttemptsAreGated(states: seq<State>, events: seq<Event>, k: nat)
    requires IsRun(states, events) && k < |events| && BeginsAttempt(states[k], events[k])
    ensures LastStatus(events[..k + 1]) && LastRequest(events[..k + 1])
  {
    RunIsValid(states, events, k);
    RunRemembers(states, events, k + 1);
    assert states[k + 1] == Step(states[k], events[k]);
  }

  /** A payload is taken by a connection that is up, into the last one that waits or as one of at most
      1024. */
  predicate TakesPayload(s: State, e: Event) {
    && e.Data? && s.tcp.client.Some? && s.tcp.client.value.connection.Connected?
    && (e.merges || s.tcp.client.value.depth < 1024)
  }

  function Depth(s: State): nat {
    if s.tcp.client.Some? then s.tcp.client.value.depth else 0
  }

  /** Payloads come by data and go by being written, and all at once only with the client or when a
      connection that is down is opened anew. */
  predicate PayloadsFollow(s: State, e: Event, next: State) {
    Depth(next) ==
    if BeginsAttempt(s, e) || e.Connect? || e.Disconnect? then 0
    else if TakesPayload(s, e) && !e.merges then Depth(s) + 1
    else if e.PayloadSent? then Depth(s) - 1
    else Depth(s)
  }

  predicate UpDue(s: State) {
    s.tcp.client.Some? && s.tcp.client.value.upDue
  }

  predicate FailureDue(s: State) {
    s.tcp.client.Some? && s.tcp.client.value.failureDue
  }

  predicate ReadyDue(s: State) {
    s.tcp.client.Some? && s.tcp.client.value.readyDue
  }

  /** What the client still has to report. */
  predicate ReportsFollow(s: State, e: Event, next: State) {
    && (UpDue(next) <==> (e.AttemptEnds? && e.ok)
                         || (UpDue(s) && !e.Report? && !e.ConnectionLost? && !StartsOver(s, e)))
    && (FailureDue(next) <==> e.ConnectionLost? || (e.AttemptEnds? && !e.ok)
                              || (FailureDue(s) && !e.Report? && !StartsOver(s, e)))
    && (ReadyDue(next) <==> (e.AttemptEnds? && e.ok)
                            || (ReadyDue(s) && !e.ReadyAction? && !e.Connect? && !e.Disconnect?))
  }

  /** The endpoint is given up, replaced or opened anew. */
  predicate StartsOver(s: State, e: Event) {
    e.Connect? || e.Disconnect? || Reopens(s, e)
  }

  /** The connection counts as ready as the last report said; the timer is armed by the report of a
      failure while the ChargeBridge is connected, and until it fires; and the last payload counts as
      rejected until one is taken or there is a new client. */
  predicate FlagsFollow(s: State, e: Event, next: State) {
    && (next.tcp.ready <==> if e.Report? then UpDue(s) else s.tcp.ready && !e.Connect? && !e.Disconnect?)
    && (next.tcp.timerArmed <==> (e.Report? && FailureDue(s) && s.control.cbConnected)
                                 || (s.tcp.timerArmed && !StartsOver(s, e) && !e.Timer?))
    && (next.tcp.txRejected <==> if e.Data? && s.tcp.client.Some? then !TakesPayload(s, e)
                                 else s.tcp.txRejected && !CallsForClient(s, e))
  }

  // ---------- The terminal ----------

  /** The terminal is to be paused: a payload was rejected or 64 of them wait. */
  predicate CallsForPause(s: State, e: Event) {
    && e.Data? && s.tcp.client.Some?
    && (!TakesPayload(s, e) || s.tcp.client.value.depth + (if e.merges then 0 else 1) >= 64)
  }

  /** Reading is to go on: the client is gone or ready, or has nothing left to write. */
  predicate CallsForResume(s: State, e: Event) {
    || e.Connect? || e.Disconnect? || e.ReadyAction?
    || (e.PayloadSent? && s.tcp.client.Some? && s.tcp.client.value.depth == 1)
  }

  /** The terminal counts as paused from a pause that succeeds up to the next call for a resume; it is
      in fact not read from then until a resume that succeeds or until it is opened anew. */
  predicate PauseFollows(s: State, e: Event, next: State) {
    && (next.pty.paused <==> if s.pty.paused then !CallsForResume(s, e) else CallsForPause(s, e) && e.pauses)
    && (next.pty.unread <==> if s.pty.unread then !SerialBridge.Reopens(e)
                                                  && !(s.pty.paused && CallsForResume(s, e) && e.resumes)
                             else !s.pty.paused && CallsForPause(s, e) && e.pauses)
  }

  lemma ConnectionStep(s: State, e: Event)
    requires Valid(s) && Enabled(s, e)
    ensures var next := Step(s, e);
            ClientFollows(s, e, next) && ConnectionFollows(s, e, next) && PayloadsFollow(s, e, next)
  {
  }

  lemma ReportsStep(s: State, e: Event)
    requires Valid(s) && Enabled(s, e)
    ensures ReportsFollow(s, e, Step(s, e))
  {
  }

  lemma FlagsStep(s: State, e: Event)
    requires Valid(s) && Enabled(s, e)
    ensures FlagsFollow(s, e, Step(s, e))
  {
  }

  lemma PauseStep(s: State, e: Event)
    requires Valid(s) && Enabled(s, e)
    ensures PauseFollows(s, e, Step(s, e))
  {
  }

  /** A run starts with no client, no timer, and nothing rejected, paused or available. */
  lemma StartFollows(states: seq<State>, events: seq<Event>)
    requires IsRun(states, events)
    ensures var s := states[0];
            && s.tcp.client.None? && !s.tcp.ready && !s.tcp.timerArmed && !s.tcp.txRejected
            && !s.pty.ready && !s.pty.paused && !s.pty.unread && !s.ready
            && !s.control.endpointRequested && !s.control.cbConnected && !s.control.registered
  {
  }

  /** In every run, every event changes each part of the state exactly as said above. */
  lemma EveryEventFollows(states: seq<State>, events: seq<Event>, k: nat)
    requires IsRun(states, events) && k < |events|
    ensures var s, e, next := states[k], events[k], states[k + 1];
            && ClientFollows(s, e, next) && ConnectionFollows(s, e, next) && PayloadsFollow(s, e, next)
            && ReportsFollow(s, e, next) && FlagsFollow(s, e, next) && PauseFollows(s, e, next)
  {
    RunIsValid(states, events, k);
    assert states[k + 1] == Step(states[k], events[k]);
    ConnectionStep(states[k], events[k]);
    ReportsStep(states[k], events[k]);
    FlagsStep(states[k], events[k]);
    PauseStep(states[k], events[k]);
  }
}
