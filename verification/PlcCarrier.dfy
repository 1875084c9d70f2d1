/** The carrier of the PLC bridge's tap device. The bridge keeps what it last pushed to the kernel, so
    that no request is issued twice; the device can be re-created under it at any time.
 */
module PlcCarrier {
  import opened Wrappers

  // ---------- Decision ----------

  datatype Mode = Untouched | Firmware
  datatype Fallback = Fail | Warn
  datatype Gate = Ungated | CeMated
  datatype Technology = Unknown | Plc | Spe

  datatype Config = Config(mode: Mode, fallback: Fallback, gate: Gate)

  datatype Inputs = Inputs(connected: bool, phyOperational: bool, plcaEngaged: bool, technology: Technology, ceMated: bool)

  datatype Decision = Decision(apply: bool, carrier: bool, technologyMismatch: bool, plcFailOpen: bool, refuseBridge: bool)

  function Mismatch(config: Config, technology: Technology): bool {
    !technology.Unknown? && (config.mode.Firmware? == technology.Plc?)
  }

  function DecideCarrier(config: Config, i: Inputs, unsupported: bool): Decision {
    var mismatch := Mismatch(config, i.technology);
    if config.mode.Untouched? then Decision(false, true, mismatch, false, false)
    else if unsupported then Decision(false, true, mismatch, false, config.fallback.Fail?)
    else if i.technology.Plc? then Decision(true, true, mismatch, true, false)
    else Decision(true, i.connected && i.phyOperational && i.plcaEngaged && (config.gate.Ungated? || i.ceMated),
                  mismatch, false, false)
  }

  datatype CeState = NotApplicable | A | B0 | B0Aux | B | BAux | C | CAux | E | Ec | EcAux | Invalid

  predicate Mated(ce: CeState) {
    ce.B0? || ce.B0Aux? || ce.B? || ce.BAux? || ce.C? || ce.CAux? || ce.Ec? || ce.EcAux?
  }

  // ---------- State ----------

  /** How the kernel answers a carrier request: it is done, it is not implemented, it fails. */
  datatype Answer = Done | Unsupported | Refused

  /** The device behind the tap client: whether it is open, its carrier, and whether the last carrier
      request, that of its opening included, was done. */
  datatype Device = Device(open: bool, carrier: bool, obeyed: bool)

  /** What the bridge believes: the carrier it last pushed, and that the kernel cannot set it. */
  datatype Belief = Belief(applied: bool, unsupported: bool)

  /** `upDue`: the device was created and the bridge has not been told yet. */
  datatype State = State(inputs: Inputs, belief: Belief, device: Option<Device>, upDue: bool)

  datatype LinkStatus = LinkStatus(phyOperational: bool, plcaEngaged: bool, technology: Technology)

  function Wanted(config: Config, s: State): Decision {
    DecideCarrier(config, s.inputs, s.belief.unsupported)
  }

  /** Opening in firmware mode requests the carrier to be off before the device comes up. */
  function Opened(config: Config, open: bool, answer: Answer): Device {
    Device(open, config.mode.Untouched? || !answer.Done?, config.mode.Untouched? || answer.Done?)
  }

  function Request(d: Device, carrier: bool, answer: Answer): Device {
    if answer.Done? then Device(d.open, carrier, true) else d.(obeyed := false)
  }

  function Believed(b: Belief, carrier: bool, answer: Answer): Belief {
    match answer
    case Done => b.(applied := carrier)
    case Unsupported => Belief(true, true)
    case Refused => b
  }

  /** A request is issued unless none is wanted, the believed carrier is the wanted one, or the
      client is between two devices. */
  predicate Issues(config: Config, s: State) {
    var d := Wanted(config, s);
    d.apply && d.carrier != s.belief.applied && s.device.Some?
  }

  function Apply(config: Config, s: State, answer: Answer): State {
    if !Issues(config, s) then s
    else
      var carrier := Wanted(config, s).carrier;
      State(s.inputs, Believed(s.belief, carrier, answer), Some(Request(s.device.value, carrier, answer)), s.upDue)
  }

  // ---------- Handlers ----------

  const NO_INPUTS: Inputs := Inputs(false, false, false, Unknown, false)

  /** The bridge right after its construction, or nothing if the policy refuses it. */
  function Constructed(config: Config, open: bool, answer: Answer): Option<State> {
    var missing := config.mode.Firmware? && answer.Unsupported?;
    var belief := Belief(config.mode.Untouched? || missing, missing);
    if DecideCarrier(config, NO_INPUTS, missing).refuseBridge then None
    else Some(State(NO_INPUTS, belief, Some(Opened(config, open, answer)), open))
  }

  function CbInputs(i: Inputs, connected: bool): Inputs {
    i.(connected := connected, ceMated := i.ceMated && connected)
  }

  function SetCbConnectionStatus(config: Config, s: State, connected: bool, answer: Answer): State {
    Apply(config, s.(inputs := CbInputs(s.inputs, connected)), answer)
  }

  function SetCeState(config: Config, s: State, ce: CeState, answer: Answer): State {
    if Mated(ce) == s.inputs.ceMated then s
    else Apply(config, s.(inputs := s.inputs.(ceMated := Mated(ce))), answer)
  }

  /** The technology is latched. Unless the carrier is driven, or the technology does not go with the
      mode, the flags are not recorded. */
  function LinkInputs(config: Config, i: Inputs, status: LinkStatus): Inputs {
    var technology := if status.technology.Unknown? then i.technology else status.technology;
    if config.mode.Untouched? && !Mismatch(config, technology) then i.(technology := technology)
    else Inputs(i.connected, status.phyOperational, status.plcaEngaged, technology, i.ceMated)
  }

  function SetLinkStatus(config: Config, s: State, status: LinkStatus, answer: Answer): State {
    Apply(config, s.(inputs := LinkInputs(config, s.inputs, status)), answer)
  }

  /** The up-edge of the tap: the belief is reset to what opening established. */
  function TapUp(config: Config, s: State, answer: Answer): State {
    Apply(config, s.(belief := Belief(config.mode.Untouched? || s.belief.unsupported, s.belief.unsupported), upDue := false), answer)
  }

  // ---------- Events ----------

  datatype Event =
    | CbStatus(connected: bool, answer: Answer)
    | CeReport(ce: CeState, answer: Answer)
    | LinkReport(status: LinkStatus, answer: Answer)
    | Up(answer: Answer)
    | Recreated(open: bool, answer: Answer)
    | Lost

  /** The kernel does what it is asked only for an open device, and the bridge is told of an open one. */
  predicate Possible(s: State, e: Event) {
    match e
    case Lost => true
    case Recreated(_, _) => true
    case Up(answer) => s.upDue && s.device.Some?
    case _ => s.device.Some? && !s.device.value.open ==> !e.answer.Done?
  }

  function Step(config: Config, s: State, e: Event): State {
    match e
    case CbStatus(connected, answer) => SetCbConnectionStatus(config, s, connected, answer)
    case CeReport(ce, answer) => SetCeState(config, s, ce, answer)
    case LinkReport(status, answer) => SetLinkStatus(config, s, status, answer)
    case Up(answer) => TapUp(config, s, answer)
    case Recreated(open, answer) => State(s.inputs, s.belief, Some(Opened(config, open, answer)), open)
    case Lost => State(s.inputs, s.belief, None, false)
  }

  // ---------- Invariant on a kernel that implements the request ----------

  predicate Supported(e: Event) {
    !e.Lost? ==> !e.answer.Unsupported?
  }

  /** A device whose last request was done has the carrier that is believed and wanted, once the
      bridge has been told of it; before, its carrier is on only if that is believed and wanted. */
  predicate DeviceValid(config: Config, s: State, d: Device) {
    d.open && d.obeyed ==>
      if s.upDue then d.carrier ==> s.belief.applied && Wanted(config, s).carrier
      else d.carrier == s.belief.applied == Wanted(config, s).carrier
  }

  predicate Valid(config: Config, s: State) {
    && !s.belief.unsupported
    && (config.mode.Untouched? ==> s.belief.applied && (s.device.Some? ==> s.device.value.carrier))
    && (s.upDue ==> s.device.Some? && s.device.value.open)
    && (s.device.Some? ==> DeviceValid(config, s, s.device.value))
  }

  /** A change of the inputs, followed by a request where one is due. */
  lemma ApplyIsValid(config: Config, s: State, inputs: Inputs, answer: Answer)
    requires Valid(config, s) && !answer.Unsupported?
    requires s.device.Some? && !s.device.value.open ==> !answer.Done?
    ensures Valid(config, Apply(config, s.(inputs := inputs), answer))
  {
    var next := s.(inputs := inputs);
    if s.device.Some? && Issues(config, next) {
      assert config.mode.Firmware?;
    }
  }

  lemma TapUpIsValid(config: Config, s: State, answer: Answer)
    requires Valid(config, s) && !answer.Unsupported? && s.upDue && s.device.Some?
    ensures Valid(config, TapUp(config, s, answer))
  {
  }

  lemma StepIsValid(config: Config, s: State, e: Event)
    requires Valid(config, s) && Possible(s, e) && Supported(e)
    ensures Valid(config, Step(config, s, e))
  {
    match e
    case CbStatus(connected, answer) => ApplyIsValid(config, s, CbInputs(s.inputs, connected), answer);
    case CeReport(ce, answer) => ApplyIsValid(config, s, s.inputs.(ceMated := Mated(ce)), answer);
    case LinkReport(status, answer) => ApplyIsValid(config, s, LinkInputs(config, s.inputs, status), answer);
    case Up(answer) => TapUpIsValid(config, s, answer);
    case Recreated(_, _) =>
    case Lost =>
  }

  predicate IsRun(config: Config, open: bool, answer: Answer, states: seq<State>, events: seq<Event>) {
    && |states| == |events| + 1
    && Constructed(config, open, answer) == Some(states[0])
    && forall k :: 0 <= k < |events| ==> Possible(states[k], events[k]) && states[k + 1] == Step(config, states[k], events[k])
  }

  lemma {:induction false} RunIsValid(config: Config, open: bool, answer: Answer, states: seq<State>, events: seq<Event>, k: nat)
    requires IsRun(config, open, answer, states, events) && k < |states|
    requires !answer.Unsupported? && forall i :: 0 <= i < |events| ==> Supported(events[i])
    ensures Valid(config, states[k])
  {
    if k > 0 {
      RunIsValid(config, open, answer, states, events, k - 1);
      assert states[k - 1 + 1] == Step(config, states[k - 1], events[k - 1]);
      StepIsValid(config, states[k - 1], events[k - 1]);
    }
  }

  // ---------- Results ----------

  /** In every state of every run on a kernel that implements the request: on an open device that the
      bridge has been told of, and whose last request was done, the carrier is the one the bridge
      believes and the one that is wanted. */
  lemma CarrierAgrees(config: Config, open: bool, answer: Answer, states: seq<State>, events: seq<Event>, k: nat)
    requires IsRun(config, open, answer, states, events) && k < |states|
    requires !answer.Unsupported? && forall i :: 0 <= i < |events| ==> Supported(events[i])
    requires var s := states[k]; !s.upDue && s.device.Some? && s.device.value.open && s.device.value.obeyed
    ensures var s := states[k];
            s.device.value.carrier == s.belief.applied == Wanted(config, s).carrier
  {
    RunIsValid(config, open, answer, states, events, k);
  }

  /** A board that reported PLC keeps its carrier on whatever is reported next, short of another
      technology: the empty report that stands for a reboot does not take it down. */
  lemma PlcBoardStaysUp(config: Config, s: State, status: LinkStatus, answer: Answer)
    requires Valid(config, s) && config.mode.Firmware? && s.inputs.technology.Plc? && !status.technology.Spe?
    requires !s.upDue && s.device.Some? && s.device.value.open && s.device.value.obeyed && !answer.Unsupported?
    ensures var next := SetLinkStatus(config, s, status, answer);
            next.inputs.technology.Plc? && next.device.value.carrier && next.device.value.obeyed
  {
  }

  predicate Agrees(s: State) {
    s.device.Some? && s.device.value.carrier == s.belief.applied
  }

  /** On the up-edge of a device, belief and device come to agree exactly if the carrier was off, or is
      wanted on and the request is done. */
  lemma UpEdgeAgrees(config: Config, s: State, answer: Answer)
    requires config.mode.Firmware? && !s.belief.unsupported && !answer.Unsupported?
    requires s.device.Some? && s.upDue
    ensures Agrees(TapUp(config, s, answer)) <==>
            !s.device.value.carrier || (Wanted(config, s).carrier && answer.Done?)
  {
  }

  /** The state from which an event makes its request. */
  function Before(config: Config, s: State, e: Event): State {
    match e
    case CbStatus(connected, _) => s.(inputs := CbInputs(s.inputs, connected))
    case CeReport(ce, _) => s.(inputs := s.inputs.(ceMated := Mated(ce)))
    case LinkReport(status, _) => s.(inputs := LinkInputs(config, s.inputs, status))
    case Up(_) => s.(belief := Belief(config.mode.Untouched? || s.belief.unsupported, s.belief.unsupported), upDue := false)
    case _ => s
  }

  /** The event makes a request of the kernel, which does it. A report of the CE state that changes
      nothing makes none, and neither does the loss of a device. */
  predicate RequestDone(config: Config, s: State, e: Event) {
    && !e.Lost? && !e.Recreated? && e.answer.Done?
    && (e.CeReport? ==> Mated(e.ce) != s.inputs.ceMated)
    && Issues(config, Before(config, s, e))
  }

  /** After any event belief and device agree exactly if: a new device came up as believed; the told
      device was off, or its request was done; or, for any other event, they agreed before or its
      request was done. Without a device there is nothing to agree on. */
  lemma EventAgrees(config: Config, s: State, e: Event)
    requires Possible(s, e) && Supported(e) && config.mode.Firmware? && !s.belief.unsupported
    ensures Agrees(Step(config, s, e)) <==>
            match e
            case Lost => false
            case Recreated(_, answer) => s.belief.applied == !answer.Done?
            case Up(_) => !s.device.value.carrier || RequestDone(config, s, e)
            case _ => Agrees(s) || RequestDone(config, s, e)
  {
  }

  /** Some event from `from` on and before `to` made a request that was done. */
  predicate DoneSince(config: Config, states: seq<State>, events: seq<Event>, from: nat, to: nat)
    requires from <= to <= |events| < |states|
  {
    exists j :: from <= j < to && RequestDone(config, states[j], events[j])
  }

  lemma DoneSinceStep(config: Config, states: seq<State>, events: seq<Event>, from: nat, to: nat)
    requires from <= to < |events| < |states|
    ensures DoneSince(config, states, events, from, to + 1) <==>
            DoneSince(config, states, events, from, to) || RequestDone(config, states[to], events[to])
  {
    if DoneSince(config, states, events, from, to + 1) {
      var j :| from <= j < to + 1 && RequestDone(config, states[j], events[j]);
      assert j < to ==> DoneSince(config, states, events, from, to);
    }
  }

  lemma DoneSinceFirst(config: Config, states: seq<State>, events: seq<Event>, from: nat, to: nat)
    requires from < to <= |events| < |states|
    ensures DoneSince(config, states, events, from, to) <==>
            RequestDone(config, states[from], events[from]) || DoneSince(config, states, events, from + 1, to)
  {
    if DoneSince(config, states, events, from, to) {
      var j :| from <= j < to && RequestDone(config, states[j], events[j]);
      assert j > from ==> DoneSince(config, states, events, from + 1, to);
    }
  }

  /** The next event keeps an agreement and makes one if its request is done. */
  predicate Follows(config: Config, s: State, e: Event, next: State) {
    Agrees(next) <==> Agrees(s) || RequestDone(config, s, e)
  }

  lemma {:induction false} AgreementGathers(config: Config, states: seq<State>, events: seq<Event>, from: nat, k: nat)
    requires from <= k <= |events| < |states|
    requires forall j :: from <= j < k ==> Follows(config, states[j], events[j], states[j + 1])
    ensures Agrees(states[k]) <==> Agrees(states[from]) || DoneSince(config, states, events, from, k)
  {
    if from < k {
      AgreementGathers(config, states, events, from, k - 1);
      assert Follows(config, states[k - 1], events[k - 1], states[k - 1 + 1]);
      DoneSinceStep(config, states, events, from, k - 1);
    }
  }

  lemma RunFollows(config: Config, open: bool, answer: Answer, states: seq<State>, events: seq<Event>, k: nat)
    requires IsRun(config, open, answer, states, events) && k < |events| && config.mode.Firmware?
    requires !answer.Unsupported? && forall i :: 0 <= i < |events| ==> Supported(events[i])
    requires !events[k].Up? && !events[k].Recreated? && !events[k].Lost?
    ensures Follows(config, states[k], events[k], states[k + 1])
  {
    RunStep(config, open, answer, states, events, k);
    EventAgrees(config, states[k], events[k]);
  }

  /** In every run on such a kernel, while there is neither an up-edge nor another device: belief and
      device agree exactly if they did at the beginning or some request since was done. A refusal
      never parts them. */
  lemma {:induction false} AgreementSince(config: Config, open: bool, answer: Answer, states: seq<State>, events: seq<Event>,
                                          from: nat, k: nat)
    requires IsRun(config, open, answer, states, events) && config.mode.Firmware?
    requires !answer.Unsupported? && forall i :: 0 <= i < |events| ==> Supported(events[i])
    requires from <= k <= |events|
    requires forall j :: from <= j < k ==> !events[j].Up? && !events[j].Recreated? && !events[j].Lost?
    ensures Agrees(states[k]) <==> Agrees(states[from]) || DoneSince(config, states, events, from, k)
  {
    forall j | from <= j < k
      ensures Follows(config, states[j], events[j], states[j + 1])
    {
      RunFollows(config, open, answer, states, events, j);
    }
    AgreementGathers(config, states, events, from, k);
  }

  lemma {:induction false} StaysTold(config: Config, open: bool, answer: Answer, states: seq<State>, events: seq<Event>,
                                     from: nat, k: nat)
    requires IsRun(config, open, answer, states, events) && from <= k <= |events| && !states[from].upDue
    requires forall j :: from <= j < k ==> !events[j].Recreated? && !events[j].Lost?
    ensures !states[k].upDue && forall j :: from <= j < k ==> !events[j].Up?
  {
    if from < k {
      StaysTold(config, open, answer, states, events, from, k - 1);
      assert Possible(states[k - 1], events[k - 1]) && states[k - 1 + 1] == Step(config, states[k - 1], events[k - 1]);
      NotDue(config, states[k - 1], events[k - 1]);
    }
  }

  lemma NotDue(config: Config, s: State, e: Event)
    requires Possible(s, e) && !s.upDue && !e.Recreated? && !e.Lost?
    ensures !e.Up? && !Step(config, s, e).upDue
  {
  }

  /** In every run on such a kernel, as long as the device stays: belief and device agree exactly if the
      device was off at its up-edge, or some request since, that of the up-edge included, was done. */
  lemma AgreementSinceUp(config: Config, open: bool, answer: Answer, states: seq<State>, events: seq<Event>, up: nat, k: nat)
    requires IsRun(config, open, answer, states, events) && config.mode.Firmware?
    requires !answer.Unsupported? && forall i :: 0 <= i < |events| ==> Supported(events[i])
    requires up < k <= |events| && events[up].Up?
    requires forall j :: up < j < k ==> !events[j].Recreated? && !events[j].Lost?
    ensures states[up].device.Some?
    ensures !states[k].upDue
    ensures Agrees(states[k]) <==> !states[up].device.value.carrier || DoneSince(config, states, events, up, k)
  {
    RunStep(config, open, answer, states, events, up);
    UpAgrees(config, states[up], events[up]);
    StaysTold(config, open, answer, states, events, up + 1, k);
    AgreementSince(config, open, answer, states, events, up + 1, k);
    DoneSinceFirst(config, states, events, up, k);
  }

  /** Of a re-created device, before the bridge is told of it. */
  lemma AgreementSinceCreation(config: Config, open: bool, answer: Answer, states: seq<State>, events: seq<Event>,
                               created: nat, k: nat)
    requires IsRun(config, open, answer, states, events) && config.mode.Firmware?
    requires !answer.Unsupported? && forall i :: 0 <= i < |events| ==> Supported(events[i])
    requires created < k <= |events| && events[created].Recreated?
    requires forall j :: created < j < k ==> !events[j].Up? && !events[j].Recreated? && !events[j].Lost?
    ensures Agrees(states[k]) <==> states[created].belief.applied == !events[created].answer.Done?
                                   || DoneSince(config, states, events, created + 1, k)
  {
    RunStep(config, open, answer, states, events, created);
    EventAgrees(config, states[created], events[created]);
    AgreementSince(config, open, answer, states, events, created + 1, k);
  }

  /** Of the first device, from its opening on. */
  lemma AgreementSinceOpening(config: Config, open: bool, answer: Answer, states: seq<State>, events: seq<Event>, k: nat)
    requires IsRun(config, open, answer, states, events) && config.mode.Firmware?
    requires !answer.Unsupported? && forall i :: 0 <= i < |events| ==> Supported(events[i])
    requires k <= |events|
    requires forall j :: 0 <= j < k ==> !events[j].Up? && !events[j].Recreated? && !events[j].Lost?
    ensures Agrees(states[k]) <==> answer.Done? || DoneSince(config, states, events, 0, k)
  {
    AgreementSince(config, open, answer, states, events, 0, k);
  }

  lemma RunStep(config: Config, open: bool, answer: Answer, states: seq<State>, events: seq<Event>, k: nat)
    requires IsRun(config, open, answer, states, events) && k < |events|
    requires !answer.Unsupported? && forall i :: 0 <= i < |events| ==> Supported(events[i])
    ensures Valid(config, states[k]) && Possible(states[k], events[k]) && Supported(events[k])
    ensures states[k + 1] == Step(config, states[k], events[k])
  {
    RunIsValid(config, open, answer, states, events, k);
  }

  lemma UpAgrees(config: Config, s: State, e: Event)
    requires Valid(config, s) && Possible(s, e) && Supported(e) && config.mode.Firmware? && e.Up?
    ensures s.device.Some? && !Step(config, s, e).upDue
    ensures Agrees(Step(config, s, e)) <==> !s.device.value.carrier || RequestDone(config, s, e)
  {
    EventAgrees(config, s, e);
  }

  /** A device that is re-created under a believed carrier-on is off, which the bridge does not know
      before the up-edge; the up-edge makes up for it. */
  lemma RecreationIsMadeUpFor(config: Config, s: State)
    requires config.mode.Firmware? && !s.belief.unsupported && s.belief.applied
    ensures var recreated := Step(config, s, Recreated(true, Done));
            !Agrees(recreated) && Agrees(TapUp(config, recreated, Done))
  {
  }

  const SUPERVISED: Config := Config(Firmware, Fail, Ungated)

  /** The agreement does fail: if the request to open with the carrier off is refused, the device is
      on while the bridge believes it off and wants it off, and no later request corrects that until
      the carrier is wanted on. */
  lemma RefusedOpenIsNotNoticed(connected: bool, answer: Answer)
    ensures var start := Constructed(SUPERVISED, true, Refused);
            && start.Some?
            && var s := SetCbConnectionStatus(SUPERVISED, TapUp(SUPERVISED, start.value, answer), connected, answer);
            s.device == Some(Device(true, true, false)) && !s.belief.applied && !Wanted(SUPERVISED, s).carrier
  {
  }

  // ---------- The class ----------

  class Bridge {
    const config: Config
    var connected: bool
    var phyOperational: bool
    var plcaEngaged: bool
    var technology: Technology
    var ceMated: bool
    var applied: bool
    var unsupported: bool
    var device: Option<Device>
    ghost var upDue: bool

    ghost function View(): State
      reads this
    {
      State(Inputs(connected, phyOperational, plcaEngaged, technology, ceMated), Belief(applied, unsupported), device, upDue)
    }

    function CurrentInputs(): Inputs
      reads this
    {
      Inputs(connected, phyOperational, plcaEngaged, technology, ceMated)
    }

    constructor (config: Config, open: bool, answer: Answer)
      requires Constructed(config, open, answer).Some?
      ensures this.config == config && View() == Constructed(config, open, answer).value
    {
      this.config := config;
      connected, phyOperational, plcaEngaged, technology, ceMated := false, false, false, Unknown, false;
      device, upDue := Some(Opened(config, open, answer)), open;
      applied, unsupported := config.mode.Untouched?, false;
      if config.mode.Firmware? && answer.Unsupported? {
        unsupported := true;
        applied := true;
      }
    }

    method ApplyCarrier(answer: Answer)
      modifies this`applied, this`unsupported, this`device
      ensures View() == Apply(config, old(View()), answer)
    {
      var decision := DecideCarrier(config, CurrentInputs(), unsupported);
      if !decision.apply || decision.carrier == applied {
        return;
      }
      if device.None? {
        return;
      }
      device := Some(Request(device.value, decision.carrier, answer));
      if answer.Done? {
        applied := decision.carrier;
        return;
      }
      if answer.Unsupported? {
        unsupported := true;
        applied := true;
      }
    }

    method HandleCbStatus(isConnected: bool, answer: Answer)
      modifies this
      ensures View() == SetCbConnectionStatus(config, old(View()), isConnected, answer)
    {
      connected := isConnected;
      if !isConnected {
        ceMated := false;
      }
      ApplyCarrier(answer);
    }

    method HandleCeState(ce: CeState, answer: Answer)
      modifies this
      ensures View() == SetCeState(config, old(View()), ce, answer)
    {
      var mated := Mated(ce);
      if mated == ceMated {
        return;
      }
      ceMated := mated;
      ApplyCarrier(answer);
    }

    method HandleLinkStatus(status: LinkStatus, answer: Answer)
      modifies this
      ensures View() == SetLinkStatus(config, old(View()), status, answer)
    {
      if !status.technology.Unknown? {
        technology := status.technology;
      }
      var decision := DecideCarrier(config, CurrentInputs(), unsupported);
      if config.mode.Untouched? && !decision.technologyMismatch {
        ApplyCarrier(answer);
        return;
      }
      phyOperational := status.phyOperational;
      plcaEngaged := status.plcaEngaged;
      ApplyCarrier(answer);
    }

    method HandleTapUp(answer: Answer)
      modifies this
      ensures View() == TapUp(config, old(View()), answer)
    {
      upDue := false;
      applied := config.mode.Untouched? || unsupported;
      ApplyCarrier(answer);
    }
  }
}
