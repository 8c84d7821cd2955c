/** Whole-run guarantees of the sequencer: one run is everything accepted on one TCP stream. */
module SequencerRuns {
  import opened Messages
  import opened Sequencer

  /** A stream either accepts a request, or applies a granted DC resume right after SessionSetup. */
  datatype Step = Req(request: Request) | ResumeDc

  function Apply(s: SeqState, step: Step): Option<SeqState> {
    match step
    case Req(r) =>
      var v := OnRequest(s, r);
      if v.Accepted? then Some(v.next) else None
    case ResumeDc =>
      if s.phase == InServiceDiscovery then Some(s.(dcMode := true, modeKnown := true)) else None
  }

  /** The state after a run in which every step was accepted; None once a step was refused. */
  function After(run: seq<Step>): Option<SeqState> {
    if run == [] then Some(INITIAL)
    else
      match After(run[..|run| - 1])
      case None => None
      case Some(s) => Apply(s, run[|run| - 1])
  }

  lemma AfterAppend(run: seq<Step>, step: Step)
    requires After(run).Some?
    ensures After(run + [step]) == Apply(After(run).value, step)
  {
    assert (run + [step])[..|run|] == run;
  }

  /** Every prefix of an accepted run is accepted. */
  lemma {:induction false} AfterPrefix(run: seq<Step>, i: nat)
    requires After(run).Some? && i <= |run|
    ensures After(run[..i]).Some?
  {
    if i == |run| {
      assert run[..i] == run;
    } else {
      AfterPrefix(run[..|run| - 1], i);
      assert run[..|run| - 1][..i] == run[..i];
    }
  }

  /** The state before step i, and the fact that step i was accepted from it. */
  lemma AcceptedAt(run: seq<Step>, i: nat) returns (s: SeqState)
    requires After(run).Some? && i < |run|
    ensures After(run[..i]) == Some(s) && Apply(s, run[i]).Some?
    ensures After(run[..i + 1]) == Apply(s, run[i])
  {
    hide Apply;
    AfterPrefix(run, i);
    AfterPrefix(run, i + 1);
    s := After(run[..i]).value;
    assert run[..i + 1] == run[..i] + [run[i]];
    AfterAppend(run[..i], run[i]);
  }

  // ---- what a step is ----

  predicate Is(step: Step, t: MessageType) { step.Req? && step.request.body.Type() == t }

  predicate Delivers(step: Step, progress: Progress) {
    step.Req? && step.request.body == PowerDelivery(progress)
  }

  /** PowerDelivery that ends energy: ISO Stop, or DIN with ReadyToChargeState false. */
  predicate StopsEnergy(step: Step) {
    step.Req? && step.request.body.PowerDelivery? &&
    if step.request.protocol == Din then step.request.body.progress != Start
    else step.request.body.progress == Messages.Stop
  }

  /** PowerDelivery that asks the SECC to renegotiate (ISO only). */
  predicate Renegotiates(step: Step) { Delivers(step, Renegotiate) && step.request.protocol != Din }

  predicate TransfersEnergy(step: Step) {
    Is(step, CurrentDemandReq) || Is(step, ChargingStatusReq) || Delivers(step, Start)
  }

  // ---- history of a run ----

  ghost predicate HasCableCheck(run: seq<Step>) {
    exists c :: 0 <= c < |run| && Is(run[c], CableCheckReq)
  }

  /** CableCheck, later followed by PreCharge. */
  ghost predicate Insulated(run: seq<Step>) {
    exists c, p :: 0 <= c < p < |run| && Is(run[c], CableCheckReq) && Is(run[p], PreChargeReq)
  }

  /** PowerDelivery(Start) with no renegotiation after it. */
  ghost predicate Started(run: seq<Step>) {
    exists d :: 0 <= d < |run| && StartedAt(run, d)
  }

  ghost predicate StartedAt(run: seq<Step>, d: nat)
    requires d < |run|
  {
    Delivers(run[d], Start) && forall k :: d < k < |run| ==> !Renegotiates(run[k])
  }

  /** CableCheck, PreCharge and a still-valid PowerDelivery(Start), in that order. */
  ghost predicate Energised(run: seq<Step>) {
    exists c, p, d :: 0 <= c < p < d < |run| && Is(run[c], CableCheckReq) && Is(run[p], PreChargeReq) &&
      StartedAt(run, d)
  }

  /** The history reduced to the four facts the invariant speaks of. */
  datatype Past = Past(cable: bool, insulated: bool, started: bool, energised: bool)

  ghost function PastOf(run: seq<Step>): Past {
    Past(HasCableCheck(run), Insulated(run), Started(run), Energised(run))
  }

  /** What one more step is bound to add to, or keep of, the history. */
  ghost predicate Extends(before: Past, step: Step, after: Past) {
    && (before.cable || Is(step, CableCheckReq) ==> after.cable)
    && (before.insulated || (before.cable && Is(step, PreChargeReq)) ==> after.insulated)
    && (Delivers(step, Start) || (before.started && !Renegotiates(step)) ==> after.started)
    && ((before.insulated && Delivers(step, Start)) || (before.energised && !Renegotiates(step)) ==>
          after.energised)
  }

  lemma InsulatedGrows(run: seq<Step>, step: Step)
    requires Insulated(run) || (HasCableCheck(run) && Is(step, PreChargeReq))
    ensures Insulated(run + [step])
  {
    var next := run + [step];
    if Insulated(run) {
      var c, p :| 0 <= c < p < |run| && Is(run[c], CableCheckReq) && Is(run[p], PreChargeReq);
      assert Is(next[c], CableCheckReq) && Is(next[p], PreChargeReq);
    } else {
      var c :| 0 <= c < |run| && Is(run[c], CableCheckReq);
      assert Is(next[c], CableCheckReq) && Is(next[|run|], PreChargeReq);
    }
  }

  lemma EnergisedGrows(run: seq<Step>, step: Step)
    requires (Insulated(run) && Delivers(step, Start)) || (Energised(run) && !Renegotiates(step))
    ensures Energised(run + [step])
  {
    var next := run + [step];
    if Energised(run) && !Renegotiates(step) {
      var c, p, d :| 0 <= c < p < d < |run| && Is(run[c], CableCheckReq) && Is(run[p], PreChargeReq) &&
        StartedAt(run, d);
      assert Is(next[c], CableCheckReq) && Is(next[p], PreChargeReq) && StartedAt(next, d);
    } else {
      var c, p :| 0 <= c < p < |run| && Is(run[c], CableCheckReq) && Is(run[p], PreChargeReq);
      assert Is(next[c], CableCheckReq) && Is(next[p], PreChargeReq) && StartedAt(next, |run|);
    }
  }

  lemma PastExtends(run: seq<Step>, step: Step)
    ensures Extends(PastOf(run), step, PastOf(run + [step]))
  {
    var next := run + [step];
    if HasCableCheck(run) {
      var c :| 0 <= c < |run| && Is(run[c], CableCheckReq);
      assert Is(next[c], CableCheckReq);
    }
    if Is(step, CableCheckReq) { assert Is(next[|run|], CableCheckReq); }
    if Insulated(run) || (HasCableCheck(run) && Is(step, PreChargeReq)) { InsulatedGrows(run, step); }
    if Delivers(step, Start) { assert StartedAt(next, |run|); }
    if Started(run) && !Renegotiates(step) {
      var d :| 0 <= d < |run| && StartedAt(run, d);
      assert StartedAt(next, d);
    }
    if (Insulated(run) && Delivers(step, Start)) || (Energised(run) && !Renegotiates(step)) {
      EnergisedGrows(run, step);
    }
  }

  // ---- the invariant ----

  /** What phase, protocol and mode say about the past. `unresumed`: no DC resume on this stream. */
  ghost predicate Consistent(s: SeqState, unresumed: bool, past: Past) {
    && (s.dcMode ==> s.modeKnown)
    && (s.phase.Ordinal() >= InServiceDiscovery.Ordinal() ==> s.protocol != UnknownProtocol)
    && (s.phase.Ordinal() < InChargeParameters.Ordinal() && unresumed ==> !s.modeKnown)
    && (s.phase in {InCableCheck, InPreCharge, InWelding} ==> s.dcMode)
    && (s.dcMode && unresumed ==> past.cable)
    && (s.phase == InCableCheck ==> past.cable)
    && (s.phase == InPreCharge ==> past.insulated)
    && (s.phase in {InPowerDelivery, InCharging} ==> past.started)
    && (s.phase in {InPowerDelivery, InCharging, InPowerDeliveryStop} && s.protocol == Din ==>
          s.dcMode && past.insulated)
    && (s.phase == InChargeParameters && s.dcMode && unresumed ==> past.insulated)
    && (s.phase in {InPowerDelivery, InCharging} && s.dcMode && unresumed ==>
          past.insulated && past.energised)
  }

  lemma ConsistentPowerDelivery(s: SeqState, unresumed: bool, past: Past, r: Request, after: Past)
    requires Consistent(s, unresumed, past) && Extends(past, Req(r), after)
    requires r.body.PowerDelivery? && OnRequest(s, r).Accepted?
    ensures Consistent(OnRequest(s, r).next, unresumed, after)
  {
    hide OnMessage;
    if Renegotiates(Req(r)) {
      hide OnPowerDelivery;
    } else {
      hide OnRenegotiation;
    }
  }

  lemma ConsistentMessage(s: SeqState, unresumed: bool, past: Past, r: Request, after: Past)
    requires Consistent(s, unresumed, past) && Extends(past, Req(r), after)
    requires !r.body.PowerDelivery? && OnMessage(s, r.protocol, r.body.Type()).Accepted?
    ensures Consistent(OnMessage(s, r.protocol, r.body.Type()).next, unresumed, after)
  {
    hide OnPowerDelivery;
    var t := r.body.Type();
    if s.phase != InAppProtocol {
      var phase := Successor(s.(protocol := r.protocol), t).value;
      match t
      case SessionStopReq => assert phase == InComplete;
      case _ =>
    }
  }

  lemma ConsistentStep(s: SeqState, unresumed: bool, past: Past, step: Step, after: Past)
    requires Consistent(s, unresumed, past) && Apply(s, step).Some? && Extends(past, step, after)
    ensures Consistent(Apply(s, step).value, unresumed && step.Req?, after)
  {
    hide OnMessage, OnPowerDelivery, OnRenegotiation, Extends;
    match step
    case Req(r) =>
      if r.body.PowerDelivery? {
        ConsistentPowerDelivery(s, unresumed, past, r, after);
      } else {
        ConsistentMessage(s, unresumed, past, r, after);
      }
    case ResumeDc =>
      ConsistentResume(s, unresumed, past, after);
  }

  lemma ConsistentResume(s: SeqState, unresumed: bool, past: Past, after: Past)
    requires Consistent(s, unresumed, past) && Apply(s, ResumeDc).Some? && Extends(past, ResumeDc, after)
    ensures Consistent(Apply(s, ResumeDc).value, false, after)
  {
  }

  ghost predicate Unresumed(run: seq<Step>) { ResumeDc !in run }

  /** The invariant holds after every accepted run. */
  lemma {:induction false} RunIsConsistent(run: seq<Step>)
    requires After(run).Some?
    ensures Consistent(After(run).value, Unresumed(run), PastOf(run))
  {
    hide Apply;
    if run != [] {
      var before, step := run[..|run| - 1], run[|run| - 1];
      AfterPrefix(run, |run| - 1);
      RunIsConsistent(before);
      assert run == before + [step];
      PastExtends(before, step);
      ConsistentStep(After(before).value, Unresumed(before), PastOf(before), step, PastOf(run));
    }
  }

  /** Where the energy-related requests can be accepted at all. */
  lemma EnergyStep(s: SeqState, step: Step)
    requires Apply(s, step).Some?
    ensures Is(step, CurrentDemandReq) ==> s.phase in {InPowerDelivery, InCharging} && s.dcMode
    ensures Is(step, ChargingStatusReq) ==> s.phase in {InPowerDelivery, InCharging} && !s.dcMode
    ensures Is(step, ChargingStatusReq) ==>
      s.protocol in {UnknownProtocol, step.request.protocol}
    ensures Delivers(step, Start) && step.request.protocol == Din ==>
      s.protocol in {UnknownProtocol, Din} && s.phase in {InPreCharge, InPowerDelivery, InCharging}
  {
  }

  // ---- the theorems ----

  lemma EnergisedByThen(s: SeqState, past: Past)
    requires Consistent(s, true, past) && s.phase in {InPowerDelivery, InCharging} && s.dcMode
    ensures past.energised
  {
  }

  /** Energy history: without a resume, every accepted CurrentDemand is preceded by CableCheck, then
      PreCharge, then a PowerDelivery(Start) that no renegotiation has overtaken. */
  lemma CurrentDemandNeedsPreparation(run: seq<Step>, i: nat)
    requires After(run).Some? && i < |run| && Is(run[i], CurrentDemandReq) && Unresumed(run[..i])
    ensures exists c, p, d :: 0 <= c < p < d < i && Is(run[c], CableCheckReq) &&
                              Is(run[p], PreChargeReq) && StartedAt(run[..i], d)
  {
    hide Apply, After;
    var s := AcceptedAt(run, i);
    var past := run[..i];
    RunIsConsistent(past);
    EnergyStep(s, run[i]);
    EnergisedByThen(s, PastOf(past));
    hide Consistent, PastOf;
    var c, p, d :| 0 <= c < p < d < |past| && Is(past[c], CableCheckReq) && Is(past[p], PreChargeReq) &&
      StartedAt(past, d);
    assert Is(run[c], CableCheckReq) && Is(run[p], PreChargeReq);
  }

  /** Even on a resumed stream, energy flows only after a Start newer than the latest renegotiation. */
  lemma EnergyNeedsStart(run: seq<Step>, i: nat)
    requires After(run).Some? && i < |run|
    requires Is(run[i], CurrentDemandReq) || Is(run[i], ChargingStatusReq)
    ensures exists d :: 0 <= d < i && StartedAt(run[..i], d)
  {
    hide Apply, After;
    var s := AcceptedAt(run, i);
    var past := run[..i];
    RunIsConsistent(past);
    EnergyStep(s, run[i]);
  }

  predicate Winding(p: Phase) { p in {InPowerDeliveryStop, InWelding, InComplete} }

  lemma WindingStep(s: SeqState, step: Step)
    requires Winding(s.phase) && Apply(s, step).Some?
    ensures Winding(Apply(s, step).value.phase) && !TransfersEnergy(step)
  {
  }

  lemma StopStep(s: SeqState, step: Step)
    requires StopsEnergy(step) && Apply(s, step).Some?
    ensures Winding(Apply(s, step).value.phase)
  {
  }

  lemma {:induction false} WindingPersists(run: seq<Step>, i: nat, j: nat)
    requires After(run).Some? && i <= j <= |run|
    requires After(run[..i]).Some? && Winding(After(run[..i]).value.phase)
    ensures After(run[..j]).Some? && Winding(After(run[..j]).value.phase)
    decreases j
  {
    hide Apply, After, Winding;
    if i < j {
      WindingPersists(run, i, j - 1);
      var s := AcceptedAt(run, j - 1);
      WindingStep(s, run[j - 1]);
    }
  }

  /** Once energy was stopped, nothing that transfers energy is ever accepted again on that stream,
      resumed or not. */
  lemma NoEnergyAfterStop(run: seq<Step>, i: nat, j: nat)
    requires After(run).Some? && i < j < |run| && StopsEnergy(run[i])
    ensures !TransfersEnergy(run[j])
  {
    hide Apply, After;
    var s := AcceptedAt(run, i);
    StopStep(s, run[i]);
    WindingPersists(run, i + 1, j);
    var t := AcceptedAt(run, j);
    WindingStep(t, run[j]);
  }

  /** A bound protocol and DC mode are kept, and the opening phase is left. */
  predicate KeepsMode(s: SeqState, t: SeqState) {
    (s.protocol != UnknownProtocol ==> t.protocol == s.protocol) && (s.dcMode ==> t.dcMode) &&
    t.phase != InAppProtocol
  }

  lemma ModeStep(s: SeqState, step: Step, past: Past)
    requires Consistent(s, false, past) && Apply(s, step).Some?
    requires s.phase == InAppProtocol ==> s.protocol == UnknownProtocol
    ensures KeepsMode(s, Apply(s, step).value)
  {
    hide OnMessage, OnPowerDelivery, OnRenegotiation, KeepsMode, Consistent;
    DcIsKnown(s, past);
    match step
    case Req(r) => if r.body.PowerDelivery? { ModeDelivery(s, r); } else { ModeMessage(s, r); }
    case ResumeDc => ModeResume(s);
  }

  lemma DcIsKnown(s: SeqState, past: Past)
    requires Consistent(s, false, past)
    ensures s.dcMode ==> s.modeKnown
  {
  }

  lemma ModeDelivery(s: SeqState, r: Request)
    requires (s.dcMode ==> s.modeKnown) && r.body.PowerDelivery? && OnRequest(s, r).Accepted?
    ensures KeepsMode(s, OnRequest(s, r).next)
  {
    hide OnMessage;
  }

  lemma ModeMessage(s: SeqState, r: Request)
    requires !r.body.PowerDelivery? && OnRequest(s, r).Accepted?
    requires s.phase == InAppProtocol ==> s.protocol == UnknownProtocol
    ensures KeepsMode(s, OnRequest(s, r).next)
  {
    hide OnPowerDelivery, OnRenegotiation;
  }

  lemma ModeResume(s: SeqState)
    requires s.phase == InServiceDiscovery
    ensures KeepsMode(s, s.(dcMode := true, modeKnown := true))
  {
  }

  /** Nothing accepted leaves the sequencer in its opening phase. */
  lemma OpeningPhaseIsInitial(run: seq<Step>)
    requires After(run).Some? && After(run).value.phase == InAppProtocol
    ensures run == []
  {
    hide Apply;
    if run != [] { StepLeavesOpening(After(run[..|run| - 1]).value, run[|run| - 1]); }
  }

  lemma StepLeavesOpening(s: SeqState, step: Step)
    requires Apply(s, step).Some?
    ensures Apply(s, step).value.phase != InAppProtocol
  {
  }

  /** Between two points of an accepted run a bound protocol stays, and DC mode stays set. */
  lemma {:induction false} ModeIsSticky(run: seq<Step>, i: nat, j: nat)
    requires After(run).Some? && i <= j <= |run|
    ensures After(run[..i]).Some? && After(run[..j]).Some?
    ensures var s, t := After(run[..i]).value, After(run[..j]).value;
      (s.protocol != UnknownProtocol ==> t.protocol == s.protocol) && (s.dcMode ==> t.dcMode)
    decreases j
  {
    hide Apply;
    AfterPrefix(run, i);
    AfterPrefix(run, j);
    if i < j {
      ModeIsSticky(run, i, j - 1);
      RunIsConsistent(run[..j - 1]);
      var s := AcceptedAt(run, j - 1);
      if s.phase == InAppProtocol { OpeningPhaseIsInitial(run[..j - 1]); }
      ModeStep(s, run[j - 1], PastOf(run[..j - 1]));
    }
  }

  /** DC phases imply DC mode; a DIN run is in DC mode from CableCheck until it completes. */
  lemma DcPhasesImplyDcMode(run: seq<Step>)
    requires After(run).Some?
    ensures var s := After(run).value;
      && (s.phase in {InCableCheck, InPreCharge, InWelding} ==> s.dcMode)
      && (s.protocol == Din && InCableCheck.Ordinal() <= s.phase.Ordinal() < InComplete.Ordinal() ==>
            s.dcMode)
  {
    RunIsConsistent(run);
  }

  /** DIN never reaches the AC loop, and DIN energy always follows CableCheck and then PreCharge on the
      same stream, even when the stream opened with a DC resume. */
  lemma DinIsAlwaysDc(run: seq<Step>, i: nat)
    requires After(run).Some? && i < |run| && run[i].Req? && run[i].request.protocol == Din
    ensures !Is(run[i], ChargingStatusReq)
    ensures Delivers(run[i], Start) ==>
      exists c, p :: 0 <= c < p < i && Is(run[c], CableCheckReq) && Is(run[p], PreChargeReq)
  {
    hide Apply, After;
    var s := AcceptedAt(run, i);
    var past := run[..i];
    RunIsConsistent(past);
    EnergyStep(s, run[i]);
    if Delivers(run[i], Start) {
      var c, p :| 0 <= c < p < |past| && Is(past[c], CableCheckReq) && Is(past[p], PreChargeReq);
      assert Is(run[c], CableCheckReq) && Is(run[p], PreChargeReq);
    }
  }

  /** Without the "every step accepted" hypothesis protocol stability fails, and exactly here: a single
      request moves a bound protocol iff the sequencer still awaits its first accepted message and that
      message is acceptable under another protocol. */
  lemma ProtocolMovesExactlyWhen(s: SeqState, r: Request)
    requires s.protocol != UnknownProtocol
    ensures OnRequest(s, r).next.protocol != s.protocol <==>
      s.phase == InAppProtocol && r.protocol != s.protocol &&
      ((r.body.SupportedAppProtocol? && r.protocol != UnknownProtocol) ||
       (r.body.SessionSetup? && r.protocol == Din))
  {
  }

  /** The concrete run: a refused PowerDelivery binds ISO 15118-2, then DIN SessionSetup is accepted. */
  lemma RejectedRequestCanBeOverruled()
    ensures
      var first := OnRequest(INITIAL, Request(Iso2, [], PowerDelivery(Start)));
      var second := OnRequest(first.next, Request(Din, [], SessionSetup));
      first.Rejected? && first.next.protocol == Iso2 && second.Accepted? && second.next.protocol == Din
  {
  }

  // ---- the ordinary DC session gets through ----

  /** The requests of a DC session in their order, each with the phase it leads to. */
  const STAGES: seq<(Body, Phase)> := [
    (SupportedAppProtocol([]), InSessionSetup),
    (SessionSetup, InServiceDiscovery),
    (ServiceDiscovery, InServiceSelection),
    (PaymentServiceSelection(true), InAuthorization),
    (Authorization, InAuthorization),
    (ChargeParameterDiscovery(DC_EXTENDED), InChargeParameters),
    (CableCheck, InCableCheck),
    (PreCharge, InPreCharge),
    (PowerDelivery(Start), InPowerDelivery),
    (CurrentDemand, InCharging),
    (PowerDelivery(Stop), InPowerDeliveryStop),
    (WeldingDetection, InWelding),
    (SessionStop(false), InComplete)]

  /** How often each request is sent: at least once, and SessionSetup and SessionStop once only. */
  predicate Patient(counts: seq<nat>) {
    |counts| <= |STAGES| &&
    forall k :: 0 <= k < |counts| ==> counts[k] >= 1 && (k in {1, 12} ==> counts[k] == 1)
  }

  function StageStep(p: Protocol, k: nat): Step
    requires k < |STAGES|
  {
    Req(Request(p, [], STAGES[k].0))
  }

  function StageState(p: Protocol, k: nat): SeqState
    requires k < |STAGES|
  {
    SeqState(STAGES[k].1, p, k >= 6, k >= 6)
  }

  function Session(p: Protocol, counts: seq<nat>): seq<Step>
    requires |counts| <= |STAGES|
  {
    if counts == [] then []
    else
      var k := |counts| - 1;
      Session(p, counts[..k]) + seq(counts[k], i => StageStep(p, k))
  }

  lemma StageLeadsOn(p: Protocol, k: nat)
    requires p in {Iso2, Din} && k < |STAGES|
    ensures Apply(if k == 0 then INITIAL else StageState(p, k - 1), StageStep(p, k)) == Some(StageState(p, k))
    ensures k !in {1, 12} ==> Apply(StageState(p, k), StageStep(p, k)) == Some(StageState(p, k))
  {
    hide Apply, StageStep, StageState;
    if k < 6 { OpeningStages(p, k); } else if k in {8, 10} { DeliveryStages(p, k); }
    else if k < 8 { PreparingStages(p, k); } else { EnergyStages(p, k); }
  }

  lemma OpeningStages(p: Protocol, k: nat)
    requires p in {Iso2, Din} && k < 6
    ensures Apply(if k == 0 then INITIAL else StageState(p, k - 1), StageStep(p, k)) == Some(StageState(p, k))
    ensures k != 1 ==> Apply(StageState(p, k), StageStep(p, k)) == Some(StageState(p, k))
  {
    hide OnPowerDelivery, OnRenegotiation;
    if k < 2 {} else if k < 4 {} else {}
  }

  lemma DeliveryStages(p: Protocol, k: nat)
    requires p in {Iso2, Din} && k in {8, 10}
    ensures Apply(StageState(p, k - 1), StageStep(p, k)) == Some(StageState(p, k))
    ensures Apply(StageState(p, k), StageStep(p, k)) == Some(StageState(p, k))
  {
    hide OnMessage, OnRenegotiation;
    if k == 8 {} else {}
  }

  lemma PreparingStages(p: Protocol, k: nat)
    requires p in {Iso2, Din} && k in {6, 7}
    ensures Apply(StageState(p, k - 1), StageStep(p, k)) == Some(StageState(p, k))
    ensures Apply(StageState(p, k), StageStep(p, k)) == Some(StageState(p, k))
  {
    hide OnPowerDelivery, OnRenegotiation;
    if k == 6 {} else {}
  }

  lemma EnergyStages(p: Protocol, k: nat)
    requires p in {Iso2, Din} && k in {9, 11, 12}
    ensures Apply(StageState(p, k - 1), StageStep(p, k)) == Some(StageState(p, k))
    ensures k != 12 ==> Apply(StageState(p, k), StageStep(p, k)) == Some(StageState(p, k))
  {
    hide OnPowerDelivery, OnRenegotiation;
    if k == 9 {} else if k == 11 {} else {}
  }

  lemma {:induction false} Repeats(run: seq<Step>, step: Step, n: nat, s: SeqState)
    requires n >= 1 && After(run).Some? && Apply(After(run).value, step) == Some(s)
    requires n > 1 ==> Apply(s, step) == Some(s)
    ensures After(run + seq(n, i => step)) == Some(s)
    decreases n
  {
    hide Apply;
    if n == 1 {
      AfterAppend(run, step);
      assert seq(1, i => step) == [step];
    } else {
      var fewer := seq(n - 1, i => step);
      Repeats(run, step, n - 1, s);
      AfterAppend(run + fewer, step);
      assert run + seq(n, i => step) == run + fewer + [step];
    }
  }

  /** In both protocols a session that repeats its polls any number of times is accepted to the end. */
  lemma {:induction false} DcSessionIsAccepted(p: Protocol, counts: seq<nat>)
    requires p in {Iso2, Din} && Patient(counts)
    ensures After(Session(p, counts)) ==
      Some(if counts == [] then INITIAL else StageState(p, |counts| - 1))
    decreases |counts|
  {
    hide Apply, StageStep, StageState, After;
    if counts == [] {
      EmptyRun();
    } else {
      var k := |counts| - 1;
      DcSessionIsAccepted(p, counts[..k]);
      StageLeadsOn(p, k);
      Repeats(Session(p, counts[..k]), StageStep(p, k), counts[k], StageState(p, k));
    }
  }

  lemma EmptyRun()
    ensures After([]) == Some(INITIAL)
  {
  }

  /** The requests of an AC session with a renegotiation, each with the phase it leads to. */
  const AC_STAGES: seq<(Body, Phase)> := [
    (SupportedAppProtocol([]), InSessionSetup),
    (SessionSetup, InServiceDiscovery),
    (ServiceDiscovery, InServiceSelection),
    (ServiceDetail, InServiceSelection),
    (PaymentServiceSelection(true), InAuthorization),
    (PaymentDetails, InAuthorization),
    (Authorization, InAuthorization),
    (ChargeParameterDiscovery(0), InChargeParameters),
    (PowerDelivery(Start), InPowerDelivery),
    (ChargingStatus, InCharging),
    (MeteringReceipt, InCharging),
    (PowerDelivery(Renegotiate), InChargeParameters),
    (ChargeParameterDiscovery(0), InChargeParameters),
    (PowerDelivery(Start), InPowerDelivery),
    (ChargingStatus, InCharging),
    (PowerDelivery(Stop), InPowerDeliveryStop),
    (SessionStop(false), InComplete)]

  predicate AcPatient(counts: seq<nat>) {
    |counts| <= |AC_STAGES| &&
    forall k :: 0 <= k < |counts| ==> counts[k] >= 1 && (k in {1, 11, 16} ==> counts[k] == 1)
  }

  function AcStep(k: nat): Step
    requires k < |AC_STAGES|
  {
    Req(Request(Iso2, [], AC_STAGES[k].0))
  }

  function AcState(k: nat): SeqState
    requires k < |AC_STAGES|
  {
    SeqState(AC_STAGES[k].1, Iso2, false, k >= 8)
  }

  function AcSession(counts: seq<nat>): seq<Step>
    requires |counts| <= |AC_STAGES|
  {
    if counts == [] then []
    else
      var k := |counts| - 1;
      AcSession(counts[..k]) + seq(counts[k], i => AcStep(k))
  }

  lemma AcStageLeadsOn(k: nat)
    requires k < |AC_STAGES|
    ensures Apply(if k == 0 then INITIAL else AcState(k - 1), AcStep(k)) == Some(AcState(k))
    ensures k !in {1, 11, 16} ==> Apply(AcState(k), AcStep(k)) == Some(AcState(k))
  {
    hide Apply, AcState, AcStep;
    if k < 8 { AcOpeningStages(k); } else if k in {8, 11, 13, 15} { AcDeliveryStages(k); } else { AcOtherStages(k); }
  }

  lemma AcOpeningStages(k: nat)
    requires k < 8
    ensures Apply(if k == 0 then INITIAL else AcState(k - 1), AcStep(k)) == Some(AcState(k))
    ensures k != 1 ==> Apply(AcState(k), AcStep(k)) == Some(AcState(k))
  {
    hide OnPowerDelivery, OnRenegotiation;
    if k < 2 {} else if k < 4 {} else if k < 6 {} else {}
  }

  lemma AcDeliveryStages(k: nat)
    requires k in {8, 11, 13, 15}
    ensures Apply(AcState(k - 1), AcStep(k)) == Some(AcState(k))
    ensures k != 11 ==> Apply(AcState(k), AcStep(k)) == Some(AcState(k))
  {
    hide OnMessage;
    if k == 8 {} else if k == 11 {} else if k == 13 {} else {}
  }

  lemma AcOtherStages(k: nat)
    requires k in {9, 10, 12, 14, 16}
    ensures Apply(AcState(k - 1), AcStep(k)) == Some(AcState(k))
    ensures k != 16 ==> Apply(AcState(k), AcStep(k)) == Some(AcState(k))
  {
    hide OnPowerDelivery, OnRenegotiation;
    if k == 9 {} else if k == 10 {} else if k == 12 {} else {}
  }

  /** An AC session of ISO 15118-2 with service details, payment details and a renegotiation is accepted to the end. */
  lemma {:induction false} AcSessionIsAccepted(counts: seq<nat>)
    requires AcPatient(counts)
    ensures After(AcSession(counts)) == Some(if counts == [] then INITIAL else AcState(|counts| - 1))
    decreases |counts|
  {
    hide Apply, AcStep, AcState, After;
    if counts == [] {
      EmptyRun();
    } else {
      var k := |counts| - 1;
      AcSessionIsAccepted(counts[..k]);
      AcStageLeadsOn(k);
      Repeats(AcSession(counts[..k]), AcStep(k), counts[k], AcState(k));
    }
  }

  // ---- acceptance read off the run ----

  /** The phase that an accepted request leads to. */
  function LeadsTo(r: Request): Phase {
    match r.body
    case SupportedAppProtocol(_) => InSessionSetup
    case SessionSetup => InServiceDiscovery
    case ServiceDiscovery => InServiceSelection
    case ServiceDetail => InServiceSelection
    case PaymentServiceSelection(_) => InAuthorization
    case PaymentDetails => InAuthorization
    case Authorization => InAuthorization
    case ChargeParameterDiscovery(_) => InChargeParameters
    case CableCheck => InCableCheck
    case PreCharge => InPreCharge
    case PowerDelivery(progress) =>
      if progress == Start then InPowerDelivery
      else if r.protocol == Iso2 && progress == Renegotiate then InChargeParameters
      else InPowerDeliveryStop
    case ChargingStatus => InCharging
    case CurrentDemand => InCharging
    case MeteringReceipt => InCharging
    case WeldingDetection => InWelding
    case SessionStop(_) => InComplete
  }

  /** What may follow in each phase; `dc`: in DC mode. */
  predicate MayFollowIn(phase: Phase, r: Request, dc: bool) {
    var b := r.body;
    var starts := b == PowerDelivery(Start);
    var stops := b.PowerDelivery? && !starts && (r.protocol == Din || (r.protocol == Iso2 && b.progress == Stop));
    var delivers := (starts && r.protocol in {Iso2, Din}) || stops;
    var renegotiates := b == PowerDelivery(Renegotiate) && r.protocol == Iso2;
    match phase
    case InAppProtocol => b.SupportedAppProtocol? || (b.SessionSetup? && r.protocol == Din)
    case InSessionSetup => b.SupportedAppProtocol? || b.SessionSetup?
    case InServiceDiscovery => b.ServiceDiscovery? || b.SessionStop?
    case InServiceSelection => b.ServiceDiscovery? || b.ServiceDetail? || b.PaymentServiceSelection? || b.SessionStop?
    case InAuthorization =>
      b.PaymentServiceSelection? || b.PaymentDetails? || b.Authorization? || b.ChargeParameterDiscovery? ||
      b.SessionStop?
    case InChargeParameters =>
      b.ChargeParameterDiscovery? || b.CableCheck? || (starts && r.protocol == Iso2) || b.SessionStop?
    case InCableCheck => b.CableCheck? || b.PreCharge? || b.SessionStop?
    case InPreCharge => b.PreCharge? || delivers || b.SessionStop?
    case InPowerDelivery =>
      delivers || renegotiates || (b.CurrentDemand? && dc) || (b.ChargingStatus? && !dc) ||
      (b.WeldingDetection? && dc) || b.SessionStop?
    case InCharging =>
      delivers || renegotiates || (b.CurrentDemand? && dc) || (b.ChargingStatus? && !dc) || b.MeteringReceipt? ||
      (b.WeldingDetection? && dc) || b.SessionStop?
    case InPowerDeliveryStop => stops || (b.WeldingDetection? && dc) || b.SessionStop?
    case InWelding => b.WeldingDetection? || b.SessionStop?
    case InComplete => false
  }

  /** The phase a run has led to. */
  function PhaseOf(run: seq<Step>): Phase {
    if run == [] then InAppProtocol
    else
      match run[|run| - 1]
      case Req(r) => LeadsTo(r)
      case ResumeDc => PhaseOf(run[..|run| - 1])
  }

  /** DC mode is a CableCheck or a resume in the run. */
  ghost predicate DcSoFar(run: seq<Step>) { exists k :: 0 <= k < |run| && GivesDc(run[k]) }

  predicate GivesDc(step: Step) { step == ResumeDc || Is(step, CableCheckReq) }

  /** No protocol but this one, and SupportedAppProtocol without any, in the run. */
  ghost predicate OnlySpeaks(run: seq<Step>, p: Protocol) {
    forall k :: 0 <= k < |run| && run[k].Req? ==> run[k].request.protocol in {UnknownProtocol, p}
  }

  /** A request may follow on a run: by the run's latest request, by whether it is in DC mode, and by the protocols it
      has spoken. */
  ghost predicate MayFollow(run: seq<Step>, r: Request) {
    MayFollowIn(PhaseOf(run), r, DcSoFar(run)) &&
    (run != [] ==> r.protocol != UnknownProtocol && OnlySpeaks(run, r.protocol))
  }

  lemma AcceptedLeads(s: SeqState, r: Request)
    requires OnRequest(s, r).Accepted?
    ensures OnRequest(s, r).next.phase == LeadsTo(r)
  {
    if r.body.PowerDelivery? { hide OnMessage; } else { hide OnPowerDelivery, OnRenegotiation; }
  }

  lemma AcceptedIn(s: SeqState, r: Request)
    ensures OnRequest(s, r).Accepted? <==>
      MayFollowIn(s.phase, r, s.dcMode) && (s.phase != InAppProtocol ==> Agrees(s, r.protocol))
  {
    if r.body.PowerDelivery? { hide OnMessage; } else { hide OnPowerDelivery, OnRenegotiation; }
  }

  lemma {:induction false} PhaseIsRead(run: seq<Step>)
    requires After(run).Some?
    ensures After(run).value.phase == PhaseOf(run)
  {
    hide OnRequest, LeadsTo;
    if run != [] {
      var s := AcceptedAt(run, |run| - 1);
      assert run[..|run| - 1 + 1] == run;
      PhaseIsRead(run[..|run| - 1]);
      match run[|run| - 1]
      case Req(r) => AcceptedLeads(s, r);
      case ResumeDc =>
    }
  }

  lemma AcceptedMode(s: SeqState, step: Step)
    requires Apply(s, step).Some? && (s.dcMode ==> s.modeKnown) && (s.phase == InCableCheck ==> s.dcMode)
    ensures Apply(s, step).value.dcMode <==> s.dcMode || GivesDc(step)
  {
    if step.Req? && step.request.body.PowerDelivery? { hide OnMessage; } else { hide OnPowerDelivery, OnRenegotiation; }
  }

  lemma {:induction false} ModeIsRead(run: seq<Step>)
    requires After(run).Some?
    ensures After(run).value.dcMode <==> DcSoFar(run)
  {
    hide Apply, GivesDc;
    if run != [] {
      var before := run[..|run| - 1];
      var s := AcceptedAt(run, |run| - 1);
      assert run[..|run| - 1 + 1] == run == before + [run[|run| - 1]];
      ModeIsRead(before);
      ModeOfRun(before);
      AcceptedMode(s, run[|run| - 1]);
      DcOneMore(before, run[|run| - 1]);
    }
  }

  lemma ModeOfRun(run: seq<Step>)
    requires After(run).Some?
    ensures var s := After(run).value; (s.dcMode ==> s.modeKnown) && (s.phase == InCableCheck ==> s.dcMode)
  {
    RunIsConsistent(run);
  }

  lemma DcOneMore(run: seq<Step>, step: Step)
    ensures DcSoFar(run + [step]) <==> DcSoFar(run) || GivesDc(step)
  {
    hide GivesDc;
    var all := run + [step];
    if DcSoFar(run) {
      var k :| 0 <= k < |run| && GivesDc(run[k]);
      assert GivesDc(all[k]);
    }
    if GivesDc(step) { assert GivesDc(all[|run|]); }
  }

  /** The protocol a state is bound to is the one the run has spoken. */
  ghost predicate Speaks(s: SeqState, run: seq<Step>) {
    && OnlySpeaks(run, s.protocol)
    && (s.protocol != UnknownProtocol ==>
          exists k :: 0 <= k < |run| && run[k].Req? && run[k].request.protocol == s.protocol)
  }

  lemma AcceptedSpeaks(s: SeqState, r: Request)
    requires OnRequest(s, r).Accepted?
    ensures OnRequest(s, r).next.protocol == if r.protocol != UnknownProtocol then r.protocol else s.protocol
    ensures s.phase != InAppProtocol ==> Agrees(s, r.protocol)
  {
    if r.body.PowerDelivery? { hide OnMessage; } else { hide OnPowerDelivery, OnRenegotiation; }
  }

  lemma {:induction false} ProtocolIsRead(run: seq<Step>)
    requires After(run).Some?
    ensures Speaks(After(run).value, run)
  {
    hide OnRequest;
    if run != [] {
      var before, step := run[..|run| - 1], run[|run| - 1];
      var s := AcceptedAt(run, |run| - 1);
      assert run[..|run| - 1 + 1] == run;
      ProtocolIsRead(before);
      match step
      case Req(r) =>
        AcceptedSpeaks(s, r);
        if s.phase == InAppProtocol { OpeningPhaseIsInitial(before); }
        SpeaksOn(s, before, r);
        assert run == before + [step];
      case ResumeDc =>
        assert forall k :: 0 <= k < |before| ==> run[k] == before[k];
        if s.protocol != UnknownProtocol {
          var k :| 0 <= k < |before| && before[k].Req? && before[k].request.protocol == s.protocol;
          assert run[k].Req?;
        }
    }
  }

  lemma SpeaksOn(s: SeqState, run: seq<Step>, r: Request)
    requires Speaks(s, run) && (run != [] ==> Agrees(s, r.protocol)) && (run == [] ==> s == INITIAL)
    ensures Speaks(s.(protocol := if r.protocol != UnknownProtocol then r.protocol else s.protocol), run + [Req(r)])
  {
    var all := run + [Req(r)];
    assert all[|run|] == Req(r);
    assert forall k :: 0 <= k < |run| ==> all[k] == run[k];
  }

  lemma AgreesAsSpoken(s: SeqState, run: seq<Step>, p: Protocol)
    requires Speaks(s, run)
    ensures Agrees(s, p) <==> p != UnknownProtocol && OnlySpeaks(run, p)
  {
  }

  /** A request is accepted after an accepted run exactly when it may follow on it, told from the run alone. */
  lemma NextIsAcceptedExactly(run: seq<Step>, r: Request)
    requires After(run).Some?
    ensures After(run + [Req(r)]).Some? <==> MayFollow(run, r)
  {
    hide After, OnRequest, MayFollowIn, PhaseOf, DcSoFar, Speaks, OnlySpeaks, Agrees;
    var s := After(run).value;
    AfterAppend(run, Req(r));
    AcceptedIn(s, r);
    PhaseIsRead(run);
    ModeIsRead(run);
    ProtocolIsRead(run);
    AgreesAsSpoken(s, run, r.protocol);
    if s.phase == InAppProtocol { OpeningPhaseIsInitial(run); }
    if run == [] { EmptyRun(); }
  }

  /** So the accepted runs are those in which every request may follow and a resume comes right after SessionSetup. */
  lemma {:induction false} AcceptedRunsExactly(run: seq<Step>)
    ensures After(run).Some? <==>
      forall k :: 0 <= k < |run| ==>
        if run[k].Req? then MayFollow(run[..k], run[k].request) else PhaseOf(run[..k]) == InServiceDiscovery
  {
    hide MayFollow, PhaseOf, OnRequest;
    if run != [] {
      var before, step := run[..|run| - 1], run[|run| - 1];
      AcceptedRunsExactly(before);
      assert run == before + [step];
      assert forall k :: 0 <= k < |before| ==> run[..k] == before[..k] && run[k] == before[k];
      if After(before).Some? {
        AfterAppend(before, step);
        PhaseIsRead(before);
        if step.Req? { NextIsAcceptedExactly(before, step.request); }
      }
    }
  }
}
