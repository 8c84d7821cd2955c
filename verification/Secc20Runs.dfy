/** A whole -20 DC session, with as many polls as the EV likes. */
module Secc20Runs {
  import M = Messages
  import opened Secc20Model

  /** A request, the controller's answers to it, and the state it leads to. */
  datatype Stage = Stage(request: Request20, auth: AuthStatus, cable: CableStatus, next: State)

  const STAGES: seq<Stage> := [
    Stage(SessionSetupReq, AuthPending, CableOngoing, AuthSetupState),
    Stage(AuthSetupReq, AuthPending, CableOngoing, AuthorizationState),
    Stage(AuthorizationReq(true), AuthPending, CableOngoing, AuthorizationState),
    Stage(AuthorizationReq(true), AuthGranted, CableOngoing, ServiceDiscoveryState),
    Stage(ServiceDiscoveryReq, AuthPending, CableOngoing, ServiceDetailState),
    Stage(ServiceDetailReq(DC_SERVICE_ID), AuthPending, CableOngoing, ServiceDetailState),
    Stage(ServiceSelectionReq(DC_SERVICE_ID, DC_PARAMETER_SET_ID, false), AuthPending, CableOngoing, DcCpdState),
    Stage(CpdReq(false, true), AuthPending, CableOngoing, ScheduleExchangeState),
    Stage(ScheduleExchangeReq(false, true), AuthPending, CableOngoing, CableCheckState),
    Stage(CableCheckReq, AuthPending, CableOngoing, CableCheckState),
    Stage(CableCheckReq, AuthPending, CableFinished, PreChargeState),
    Stage(PreChargeReq, AuthPending, CableOngoing, PowerDeliveryState),
    Stage(PowerDeliveryReq(M.None, ProgressStart), AuthPending, CableOngoing, ChargeLoopState),
    Stage(ChargeLoopReq(true, true, true), AuthPending, CableOngoing, ChargeLoopState),
    Stage(PowerDeliveryReq(M.None, ProgressStop), AuthPending, CableOngoing, WeldingState),
    Stage(WeldingReq(true), AuthPending, CableOngoing, SessionStopState),
    Stage(SessionStopReq(SessionTerminate, false), AuthPending, CableOngoing, Ended)]

  /** How often each request is sent: at least once, and only the polls more often. */
  predicate Patient(counts: seq<nat>) {
    |counts| <= |STAGES| &&
    forall k :: 0 <= k < |counts| ==> counts[k] >= 1 && (k !in {2, 5, 9, 11, 12, 13} ==> counts[k] == 1)
  }

  /** The frame of a stage, all clocks standing at t and the controller confirming every contactor command. */
  function StageAct(k: nat, sid: M.Sid, t: nat): Act
    requires k < |STAGES|
  {
    var s := STAGES[k];
    DoFrame(Frame(if s.request.IsDc() then 0x8004 else 0x8002, M.Some((sid, s.request))),
            Env(t, t, t, sid, s.auth, s.cable, true, true, true))
  }

  /** The session after stage k. */
  function StageSession(k: nat, sid: M.Sid, t: nat): Session
    requires k < |STAGES|
  {
    Session(STAGES[k].next, sid, true, k in {12, 13}, k >= 9, k >= 13, if k == 0 then OK_NEW_SESSION else OK,
            if k == 16 then 0 else t + SEQUENCE_TIMEOUT_MS, 0, if k == 2 then t + EIM_ONGOING_TIMEOUT_MS else 0)
  }

  function FreshSession(t: nat): Session {
    Session(SessionSetupState, M.ZERO_SID, false, false, false, false, 0, t + SEQUENCE_TIMEOUT_MS, 0, 0)
  }

  function Run(counts: seq<nat>, sid: M.Sid, t: nat): seq<Act>
    requires |counts| <= |STAGES|
  {
    if counts == [] then [DoReset(t)]
    else
      var k := |counts| - 1;
      Run(counts[..k], sid, t) + seq(counts[k], i => StageAct(k, sid, t))
  }

  function SessionBefore(k: nat, sid: M.Sid, t: nat): Session
    requires k <= |STAGES|
  {
    if k == 0 then FreshSession(t) else StageSession(k - 1, sid, t)
  }

  /** What the controller hears of stage k, the first time and again. */
  function Heard(k: nat, again: bool, t: nat): seq<Event> {
    match k
    case 0 => [EvccidReported]
    case 1 => [AuthorizationRequired]
    case 2 => [AuthorizationHandled(t), AuthPolled(AuthPending, t)]
    case 3 => [AuthorizationHandled(t), AuthPolled(AuthGranted, t)]
    case 7 => [EvLimitsReported, LimitsPolled]
    case 8 => [LimitsPolled]
    case 9 => (if again then [] else [CableCheckStarted]) + [CablePolled(CableOngoing)]
    case 10 => [CablePolled(CableFinished)]
    case 11 => [PreChargeTarget, PresentPolled]
    case 12 => if again then [] else [Contactor(true, true)]
    case 13 => (if again then [] else [ChargeLoopStarted]) +
      [ChargeTargets, DisplayParameters, PresentPolled, LimitsPolled, StopPolled, MeterPolled]
    case 14 => [ChargeLoopFinished, Contactor(false, true)]
    case 15 => [PresentPolled]
    case _ => []
  }

  /** All of stage k: the request, what comes of it, and the good answer. */
  function StageEvents(k: nat, again: bool, t: nat): seq<Event>
    requires k < |STAGES|
  {
    [Passed(STAGES[k].request)] + Heard(k, again, t) + [Composed(if k == 0 then OK_NEW_SESSION else OK)]
  }

  function Copies(e: seq<Event>, n: nat): seq<Event> { if n == 0 then [] else Copies(e, n - 1) + e }

  /** The history of a session up to here. */
  function RunEvents(counts: seq<nat>, t: nat): seq<Event>
    requires Patient(counts)
  {
    if counts == [] then [Reset]
    else
      var k := |counts| - 1;
      RunEvents(counts[..k], t) + StageEvents(k, false, t) + Copies(StageEvents(k, true, t), counts[k] - 1)
  }

  /** Stage k from where it can be reached. */
  predicate At(c: Conf, k: nat, again: bool, sid: M.Sid, t: nat)
    requires k < |STAGES|
  {
    (again ==> k in {2, 5, 9, 11, 12, 13}) &&
    c.s == if again then StageSession(k, sid, t) else SessionBefore(k, sid, t)
  }

  predicate Leads(c: Conf, k: nat, again: bool, sid: M.Sid, t: nat)
    requires k < |STAGES|
  {
    var x := Step(c, StageAct(k, sid, t));
    x.s == StageSession(k, sid, t) && x.log == c.log + StageEvents(k, again, t)
  }

  lemma StageLeadsOn(c: Conf, k: nat, again: bool, sid: M.Sid, t: nat)
    requires k < |STAGES| && At(c, k, again, sid, t)
    ensures Leads(c, k, again, sid, t)
  {
    hide Leads, At;
    if k < 3 { Opening(c, k, again, sid, t); }
    else if k < 6 { Services(c, k, again, sid, t); }
    else if k < 9 { Parameters(c, k, again, sid, t); }
    else if k < 12 { Preparation(c, k, again, sid, t); }
    else if k < 14 { Energy(c, k, again, sid, t); }
    else if k < 16 { Closing(c, k, again, sid, t); }
    else { Ending(c, again, sid, t); }
  }

  function StageRequest(k: nat): Request20
    requires k < |STAGES|
  {
    STAGES[k].request
  }

  /** What a request that is taken in time and answered well does, in terms of its handler. */
  lemma Served(c: Conf, sid: M.Sid, r: Request20, env: Env)
    requires Accepts(c.s.state, r) && !TimedOut(c.s, env) && !WrongSession(c.s, sid, r) && env.encoded
    requires !r.SessionStopReq?
    ensures var h := Handle(c.(s := c.s.(sequenceDeadline := 0)).Note(Passed(r)), r, env);
      h.s.lastCode < FAILED ==>
        HandleFrame(c, Frame(if r.IsDc() then 0x8004 else 0x8002, M.Some((sid, r))), env).conf ==
        h.(s := h.s.(sequenceDeadline := env.rearmNow + SEQUENCE_TIMEOUT_MS))
  {
    hide Handle, Accepts;
    StateTakes(c.s.state, r);
  }

  lemma StateTakes(s: State, r: Request20)
    requires Accepts(s, r)
    ensures s != Ended
  {
  }

  /** The stages up to the last are served. */
  lemma StageIsServed(c: Conf, k: nat, again: bool, sid: M.Sid, t: nat)
    requires k < 16 && At(c, k, again, sid, t)
    ensures var (r, env) := (StageRequest(k), StageAct(k, sid, t).env);
      var h := Handle(c.(s := c.s.(sequenceDeadline := 0)).Note(Passed(r)), r, env);
      h.s.lastCode < FAILED ==>
        Step(c, StageAct(k, sid, t)) == h.(s := h.s.(sequenceDeadline := t + SEQUENCE_TIMEOUT_MS))
  {
    hide Handle, HandleFrame;
    StageIsTaken(c, k, again, sid, t);
    Served(c, sid, StageRequest(k), StageAct(k, sid, t).env);
  }

  lemma StageIsTaken(c: Conf, k: nat, again: bool, sid: M.Sid, t: nat)
    requires k < 16 && At(c, k, again, sid, t)
    ensures var (r, env) := (StageRequest(k), StageAct(k, sid, t).env);
      && Accepts(c.s.state, r) && !TimedOut(c.s, env) && !WrongSession(c.s, sid, r) && env.encoded
      && !r.SessionStopReq?
  {
  }

  lemma Opening(c: Conf, k: nat, again: bool, sid: M.Sid, t: nat)
    requires k < 3 && At(c, k, again, sid, t)
    ensures Leads(c, k, again, sid, t)
  {
    hide Step;
    StageIsServed(c, k, again, sid, t);
    if k == 0 {} else if k == 1 {} else {}
  }

  lemma Services(c: Conf, k: nat, again: bool, sid: M.Sid, t: nat)
    requires 3 <= k < 6 && At(c, k, again, sid, t)
    ensures Leads(c, k, again, sid, t)
  {
    hide Step;
    StageIsServed(c, k, again, sid, t);
    if k == 3 {} else if k == 4 {} else {}
  }

  lemma Parameters(c: Conf, k: nat, again: bool, sid: M.Sid, t: nat)
    requires 6 <= k < 9 && At(c, k, again, sid, t)
    ensures Leads(c, k, again, sid, t)
  {
    hide Step;
    StageIsServed(c, k, again, sid, t);
    if k == 6 {} else if k == 7 {} else {}
  }

  lemma Preparation(c: Conf, k: nat, again: bool, sid: M.Sid, t: nat)
    requires 9 <= k < 12 && At(c, k, again, sid, t)
    ensures Leads(c, k, again, sid, t)
  {
    hide Step;
    StageIsServed(c, k, again, sid, t);
    if k == 9 {} else if k == 10 {} else {}
  }

  lemma Energy(c: Conf, k: nat, again: bool, sid: M.Sid, t: nat)
    requires 12 <= k < 14 && At(c, k, again, sid, t)
    ensures Leads(c, k, again, sid, t)
  {
    hide Step;
    if k == 12 { FirstOrFurtherStart(c, again, sid, t); } else { LoopTurn(c, again, sid, t); }
  }

  /** The contactor closes on the first Start and stays closed on the next ones. */
  lemma FirstOrFurtherStart(c: Conf, again: bool, sid: M.Sid, t: nat)
    requires At(c, 12, again, sid, t)
    ensures Leads(c, 12, again, sid, t)
  {
    hide Step;
    StageIsServed(c, 12, again, sid, t);
    hide OnChargeLoop;
  }

  lemma LoopTurn(c: Conf, again: bool, sid: M.Sid, t: nat)
    requires At(c, 13, again, sid, t)
    ensures Leads(c, 13, again, sid, t)
  {
    hide Step, Handle, Heard;
    StageIsServed(c, 13, again, sid, t);
    LoopHandles(c.(s := c.s.(sequenceDeadline := 0)).Note(Passed(StageRequest(13))), StageAct(13, sid, t).env);
    HeardAnyTime(again, t);
  }

  lemma HeardAnyTime(again: bool, t: nat)
    ensures Heard(13, again, t) == Heard(13, again, 0)
  {
  }

  lemma LoopHandles(c: Conf, env: Env)
    ensures Handle(c, StageRequest(13), env) ==
      Conf(c.s.(chargeLoopStarted := true, lastCode := OK),
           c.log + Heard(13, c.s.chargeLoopStarted, 0) + [Composed(OK)])
  {
  }

  lemma Closing(c: Conf, k: nat, again: bool, sid: M.Sid, t: nat)
    requires 14 <= k < 16 && At(c, k, again, sid, t)
    ensures Leads(c, k, again, sid, t)
  {
    hide Step;
    StageIsServed(c, k, again, sid, t);
    if k == 14 {} else {}
  }

  lemma Ending(c: Conf, again: bool, sid: M.Sid, t: nat)
    requires At(c, 16, again, sid, t)
    ensures Leads(c, 16, again, sid, t)
  {
  }

  lemma LiveAppend(acts: seq<Act>, a: Act)
    ensures Live(acts + [a]) == Step(Live(acts), a)
  {
    assert (acts + [a])[..|acts|] == acts;
  }

  lemma {:induction false} Repeats(acts: seq<Act>, k: nat, n: nat, sid: M.Sid, t: nat)
    requires k < |STAGES| && n >= 1 && (n > 1 ==> k in {2, 5, 9, 11, 12, 13})
    requires Live(acts).s == SessionBefore(k, sid, t)
    ensures var x := Live(acts + seq(n, i => StageAct(k, sid, t)));
      && x.s == StageSession(k, sid, t)
      && x.log == Live(acts).log + StageEvents(k, false, t) + Copies(StageEvents(k, true, t), n - 1)
    decreases n
  {
    hide Step, StageAct, StageSession, SessionBefore, Live, StageEvents;
    var a := StageAct(k, sid, t);
    if n == 1 {
      LiveAppend(acts, a);
      assert seq(1, i => a) == [a];
      StageLeadsOn(Live(acts), k, false, sid, t);
      assert Copies(StageEvents(k, true, t), 0) == [];
    } else {
      var fewer := seq(n - 1, i => a);
      Repeats(acts, k, n - 1, sid, t);
      LiveAppend(acts + fewer, a);
      assert acts + seq(n, i => a) == acts + fewer + [a];
      StageLeadsOn(Live(acts + fewer), k, true, sid, t);
    }
  }

  /** A DC session that repeats its polls any number of times goes through, stage by stage, to its end, and its history
      is exactly that of the stages. */
  lemma {:induction false} DcSessionGoesThrough(counts: seq<nat>, sid: M.Sid, t: nat)
    requires Patient(counts)
    ensures Live(Run(counts, sid, t)).s == SessionBefore(|counts|, sid, t)
    ensures Live(Run(counts, sid, t)).log == RunEvents(counts, t)
    decreases |counts|
  {
    hide Step, StageAct, StageSession, SessionBefore, Live, StageEvents, Patient;
    if counts == [] {
      AfterReset(t);
      FreshBefore(sid, t);
      assert Run([], sid, t) == [DoReset(t)];
    } else {
      var k := |counts| - 1;
      FewerCounts(counts);
      DcSessionGoesThrough(counts[..k], sid, t);
      Repeats(Run(counts[..k], sid, t), k, counts[k], sid, t);
      NextBefore(k, sid, t);
    }
  }

  lemma FreshBefore(sid: M.Sid, t: nat)
    ensures SessionBefore(0, sid, t) == FreshSession(t)
  {
  }

  lemma NextBefore(k: nat, sid: M.Sid, t: nat)
    requires k < |STAGES|
    ensures SessionBefore(k + 1, sid, t) == StageSession(k, sid, t)
  {
  }

  lemma FewerCounts(counts: seq<nat>)
    requires Patient(counts) && counts != []
    ensures var k := |counts| - 1;
      k < |STAGES| && Patient(counts[..k]) && counts[k] >= 1 && (counts[k] > 1 ==> k in {2, 5, 9, 11, 12, 13})
  {
  }

  lemma AfterReset(t: nat)
    ensures Live([DoReset(t)]) == Conf(FreshSession(t), [Reset])
  {
    assert [DoReset(t)][..0] == [];
  }

  /** A reply that ends the session with the contactor flag still set and adds just these events. */
  predicate EndsFlagged(c: Conf, reply: Reply, rc: M.Rc, events: seq<Event>) {
    reply.rc == rc && reply.conf.s.state == Ended && reply.conf.s.contactorClosed && reply.conf.log == c.log + events
  }

  /** The charge loop is reached with the contactor flag set; from there a request out of sequence, and a silence of
      more than 60 s, end the session with the flag still set and no open command. */
  lemma EndsWithTheFlagSet(counts: seq<nat>, sid: M.Sid, t: nat, prompt: Env, late: Env, f: Frame)
    requires Patient(counts) && |counts| in {13, 14}
    requires prompt.now <= t + SEQUENCE_TIMEOUT_MS < late.now && prompt.encoded
    requires f.payloadId == PAYLOAD_MAINSTREAM && f.decoded.Some? && f.decoded.value.1 == SessionSetupReq
    ensures var c := Live(Run(counts, sid, t));
      && c.s.state == ChargeLoopState && c.s.contactorClosed
      && EndsFlagged(c, HandleFrame(c, f, prompt), M.Done, [Composed(FAILED_SEQUENCE_ERROR)])
      && EndsFlagged(c, HandleFrame(c, f, late), M.ETIMEDOUT, [])
  {
    hide HandleFrame, Live, Run, StageSession, SessionBefore, EndsFlagged;
    DcSessionGoesThrough(counts, sid, t);
    var c := Live(Run(counts, sid, t));
    InTheLoop(|counts| - 1, sid, t);
    OutOfSequence(c, f, prompt);
    Silence(c, f, late);
  }

  lemma InTheLoop(k: nat, sid: M.Sid, t: nat)
    requires k in {12, 13}
    ensures var s := StageSession(k, sid, t);
      s.state == ChargeLoopState && s.contactorClosed && s.sequenceDeadline == t + SEQUENCE_TIMEOUT_MS
    ensures SessionBefore(k + 1, sid, t) == StageSession(k, sid, t)
  {
  }

  lemma OutOfSequence(c: Conf, f: Frame, env: Env)
    requires c.s.state == ChargeLoopState && c.s.contactorClosed && !TimedOut(c.s, env) && env.encoded
    requires f.payloadId == PAYLOAD_MAINSTREAM && f.decoded.Some? && f.decoded.value.1 == SessionSetupReq
    ensures EndsFlagged(c, HandleFrame(c, f, env), M.Done, [Composed(FAILED_SEQUENCE_ERROR)])
  {
    hide Handle;
  }

  lemma Silence(c: Conf, f: Frame, env: Env)
    requires c.s.state == ChargeLoopState && c.s.contactorClosed && TimedOut(c.s, env)
    ensures EndsFlagged(c, HandleFrame(c, f, env), M.ETIMEDOUT, [])
  {
    hide Dispatch, Wish;
  }
}
