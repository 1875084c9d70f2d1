/** The carrier of the tap device as a function of what the ChargeBridge reported, whichever handler the
    reports came through.
 */
module PlcHistory {
  import opened PlcCarrier
  import opened Wrappers

  // ---------- What was last reported ----------

  function LastConnected(events: seq<Event>): bool {
    if events == [] then false
    else
      var e := events[|events| - 1];
      if e.CbStatus? then e.connected else LastConnected(events[..|events| - 1])
  }

  /** Of the PHY and of PLCA. A bridge that does not drive the carrier keeps only the reports of a board
      that it does not expect. */
  function LastLink(config: Config, events: seq<Event>): (bool, bool) {
    if events == [] then (false, false)
    else
      var e := events[|events| - 1];
      if e.LinkReport? && (config.mode == Firmware || LastTechnology(events) == Spe)
      then (e.status.phyOperational, e.status.plcaEngaged)
      else LastLink(config, events[..|events| - 1])
  }

  /** The last technology that was known. */
  function LastTechnology(events: seq<Event>): Technology {
    if events == [] then Unknown
    else
      var e := events[|events| - 1];
      if e.LinkReport? && !e.status.technology.Unknown? then e.status.technology
      else LastTechnology(events[..|events| - 1])
  }

  /** The last CE state since the ChargeBridge was last lost, if there is one. */
  function LastCeState(events: seq<Event>): CeState {
    if events == [] then NotApplicable
    else
      var e := events[|events| - 1];
      if e.CeReport? then e.ce
      else if e.CbStatus? && !e.connected then NotApplicable
      else LastCeState(events[..|events| - 1])
  }

  /** A vehicle is mated in all states but A, E and those that say nothing. */
  const UNMATED: set<CeState> := {NotApplicable, A, E, Invalid}

  predicate Remembers(config: Config, i: Inputs, events: seq<Event>) {
    && i.connected == LastConnected(events)
    && (i.phyOperational, i.plcaEngaged) == LastLink(config, events)
    && i.technology == LastTechnology(events)
    && (i.ceMated <==> LastCeState(events) !in UNMATED)
  }

  /** What an event changes in the inputs of the decision. */
  function NextInputs(config: Config, i: Inputs, e: Event): Inputs {
    match e
    case CbStatus(connected, _) => CbInputs(i, connected)
    case CeReport(ce, _) => i.(ceMated := Mated(ce))
    case LinkReport(status, _) => LinkInputs(config, i, status)
    case _ => i
  }

  lemma StepInputs(config: Config, s: State, e: Event)
    ensures Step(config, s, e).inputs == NextInputs(config, s.inputs, e)
  {
  }

  lemma {:induction false} LinkRemembers(config: Config, i: Inputs, events: seq<Event>, e: Event)
    requires Remembers(config, i, events) && e.LinkReport?
    ensures Remembers(config, NextInputs(config, i, e), events + [e])
  {
    assert (events + [e])[..|events|] == events;
  }

  lemma {:induction false} OthersRemember(config: Config, i: Inputs, events: seq<Event>, e: Event)
    requires Remembers(config, i, events) && !e.LinkReport?
    ensures Remembers(config, NextInputs(config, i, e), events + [e])
  {
    assert (events + [e])[..|events|] == events;
  }

  lemma {:induction false} StepRemembers(config: Config, s: State, events: seq<Event>, e: Event)
    requires Remembers(config, s.inputs, events)
    ensures Remembers(config, Step(config, s, e).inputs, events + [e])
  {
    StepInputs(config, s, e);
    if e.LinkReport? {
      LinkRemembers(config, s.inputs, events, e);
    } else {
      OthersRemember(config, s.inputs, events, e);
    }
  }

  /** In every state of every run: what the decision is based on is what was last reported. */
  lemma {:induction false} RunRemembers(config: Config, open: bool, answer: Answer, states: seq<State>, events: seq<Event>, k: nat)
    requires IsRun(config, open, answer, states, events) && k < |states|
    ensures Remembers(config, states[k].inputs, events[..k])
  {
    if k > 0 {
      RunRemembers(config, open, answer, states, events, k - 1);
      assert events[..k] == events[..k - 1] + [events[k - 1]];
      assert states[k - 1 + 1] == Step(config, states[k - 1], events[k - 1]);
      StepRemembers(config, states[k - 1], events[..k - 1], events[k - 1]);
    }
  }

  /** The carrier that the reports ask for: a PLC board has it in any case, another one if the
      ChargeBridge is connected, its PHY operational, PLCA engaged and, if gated, a vehicle mated. */
  predicate CarrierAskedFor(config: Config, events: seq<Event>) {
    || LastTechnology(events).Plc?
    || (LastConnected(events) && LastLink(config, events) == (true, true)
        && (config.gate == Ungated || LastCeState(events) !in UNMATED))
  }

  // ---------- Results ----------

  /** In every state of every run in firmware mode on a kernel with the request: an open device that
      the bridge was told of, and on which the last request was done, has its carrier on exactly if the
      reports ask for it. */
  lemma NoStaleCarrier(config: Config, open: bool, answer: Answer, states: seq<State>, events: seq<Event>, k: nat)
    requires IsRun(config, open, answer, states, events) && k < |states| && config.mode.Firmware?
    requires !answer.Unsupported? && forall i :: 0 <= i < |events| ==> Supported(events[i])
    requires var s := states[k]; !s.upDue && s.device.Some? && s.device.value.open && s.device.value.obeyed
    ensures states[k].device.value.carrier <==> CarrierAskedFor(config, events[..k])
  {
    CarrierAgrees(config, open, answer, states, events, k);
    RunIsValid(config, open, answer, states, events, k);
    RunRemembers(config, open, answer, states, events, k);
    assert Wanted(config, states[k]).carrier == CarrierAskedFor(config, events[..k]);
  }

  /** Without firmware mode the carrier is never touched, on any kernel. */
  lemma {:induction false} UntouchedStaysOn(config: Config, open: bool, answer: Answer, states: seq<State>, events: seq<Event>, k: nat)
    requires IsRun(config, open, answer, states, events) && k < |states| && config.mode.Untouched?
    ensures states[k].device.Some? ==> states[k].device.value.carrier && states[k].device.value.obeyed
  {
    if k > 0 {
      UntouchedStaysOn(config, open, answer, states, events, k - 1);
      assert states[k - 1 + 1] == Step(config, states[k - 1], events[k - 1]);
    }
  }

  /** A bridge is refused exactly on a kernel without the request, if it is to drive the carrier and may
      not fall back. Otherwise its device is off exactly if the request to open it so was made and
      done, and is believed off exactly if it was made and the kernel has it. */
  lemma ConstructedIff(config: Config, open: bool, answer: Answer)
    ensures Constructed(config, open, answer).None? <==>
            config.mode == Firmware && answer == Unsupported && config.fallback == Fail
    ensures Constructed(config, open, answer).Some? ==>
            var s := Constructed(config, open, answer).value;
            && s.device.Some? && s.device.value.open == open == s.upDue
            && (s.device.value.carrier <==> !(config.mode == Firmware && answer == Done))
            && (s.device.value.obeyed <==> config.mode == Untouched || answer == Done)
            && (s.belief.applied <==> !(config.mode == Firmware && answer != Unsupported))
            && (s.belief.unsupported <==> config.mode == Firmware && answer == Unsupported)
  {
  }

  // ---------- Requests ----------

  /** The report changes whether a vehicle counts as mated, or is about something else. */
  predicate IsNews(events: seq<Event>, e: Event) {
    e.CeReport? ==> (e.ce in UNMATED) != (LastCeState(events) in UNMATED)
  }

  /** What the bridge believes of the carrier when it looks: after an up-edge, what the opening of a
      device leaves behind. */
  predicate BelievedOn(s: State, e: Event) {
    if e.Up? then s.belief.unsupported else s.belief.applied
  }

  /** The kernel is asked for the carrier, for news if the belief differs from what is asked for. */
  predicate IsRequest(config: Config, s: State, events: seq<Event>, e: Event) {
    && !e.Lost? && !e.Recreated? && IsNews(events, e)
    && s.device.Some? && !s.belief.unsupported
    && CarrierAskedFor(config, events + [e]) != BelievedOn(s, e)
  }

  /** The device after an event: only a request that is done changes its carrier. */
  predicate DeviceFollows(config: Config, s: State, events: seq<Event>, e: Event, next: State) {
    next.device ==
    match e
    case Lost => None
    case Recreated(open, answer) => Some(Device(open, answer != Done, answer == Done))
    case _ =>
      if !IsRequest(config, s, events, e) then s.device
      else if e.answer == Done then Some(Device(s.device.value.open, CarrierAskedFor(config, events + [e]), true))
      else Some(Device(s.device.value.open, s.device.value.carrier, false))
  }

  /** The belief after an event, which a refusal does not change. */
  predicate BeliefFollows(config: Config, s: State, events: seq<Event>, e: Event, next: State) {
    if e.Lost? || e.Recreated? then next.belief == s.belief
    else if !IsRequest(config, s, events, e) || e.answer == Refused then
      next.belief == Belief(BelievedOn(s, e), s.belief.unsupported)
    else if e.answer == Done then next.belief == Belief(CarrierAskedFor(config, events + [e]), false)
    else next.belief == Belief(true, true)
  }

  lemma {:induction false} AskedIsWanted(config: Config, i: Inputs, events: seq<Event>)
    requires Remembers(config, i, events) && config.mode.Firmware?
    ensures DecideCarrier(config, i, false).carrier == CarrierAskedFor(config, events)
  {
  }

  lemma {:induction false} DeviceStep(config: Config, s: State, events: seq<Event>, e: Event)
    requires Remembers(config, s.inputs, events) && config.mode.Firmware? && Possible(s, e)
    ensures DeviceFollows(config, s, events, e, Step(config, s, e))
  {
    StepRemembers(config, s, events, e);
    AskedIsWanted(config, Step(config, s, e).inputs, events + [e]);
  }

  lemma {:induction false} BeliefStep(config: Config, s: State, events: seq<Event>, e: Event)
    requires Remembers(config, s.inputs, events) && config.mode.Firmware? && Possible(s, e)
    ensures BeliefFollows(config, s, events, e, Step(config, s, e))
  {
    StepRemembers(config, s, events, e);
    AskedIsWanted(config, Step(config, s, e).inputs, events + [e]);
  }

  /** In every run in firmware mode, on any kernel, every event changes device and belief exactly as
      said above, and an up-edge is due exactly since a device was opened. */
  lemma {:induction false} EveryEventFollows(config: Config, open: bool, answer: Answer, states: seq<State>, events: seq<Event>, k: nat)
    requires IsRun(config, open, answer, states, events) && k < |events| && config.mode.Firmware?
    ensures DeviceFollows(config, states[k], events[..k], events[k], states[k + 1])
    ensures BeliefFollows(config, states[k], events[..k], events[k], states[k + 1])
    ensures states[k + 1].upDue <==>
            if events[k].Recreated? then events[k].open else states[k].upDue && !events[k].Up? && !events[k].Lost?
  {
    RunRemembers(config, open, answer, states, events, k);
    assert states[k + 1] == Step(config, states[k], events[k]);
    DeviceStep(config, states[k], events[..k], events[k]);
    BeliefStep(config, states[k], events[..k], events[k]);
  }
}
