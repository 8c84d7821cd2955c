/** Guarantees of the -20 engine over every run of resets and frames. */
module Secc20Theorems {
  import opened Messages
  import opened Secc20Model

  /** The history since the latest reset, digested. */
  datatype Digest = Digest(
    firstAuth: Option<nat>,   // when the first AuthorizationReq was handled
    granted: bool,            // then GRANTED was returned within 180 s of it
    cabled: bool,             // then the cable check returned FINISHED
    precharged: bool,         // then a PreCharge was handled
    closes: nat,              // confirmed close commands
    opens: nat,               // open commands
    cableStarts: nat,
    loopStarts: nat)

  const NOTHING := Digest(None, false, false, false, 0, 0, 0, 0)

  function Update(d: Digest, e: Event): Digest {
    match e
    case Reset => NOTHING
    case AuthorizationHandled(now) => if d.firstAuth.None? then d.(firstAuth := Some(now)) else d
    case AuthPolled(auth, now) =>
      d.(granted := d.granted || (auth == AuthGranted && d.firstAuth.Some? &&
                                  now <= d.firstAuth.value + EIM_ONGOING_TIMEOUT_MS))
    case CablePolled(cable) => d.(cabled := d.cabled || (d.granted && cable == CableFinished))
    case PreChargeTarget => d.(precharged := d.precharged || d.cabled)
    case Contactor(close, confirmed) =>
      if !close then d.(opens := d.opens + 1)
      else if confirmed then d.(closes := d.closes + 1)
      else d
    case CableCheckStarted => d.(cableStarts := d.cableStarts + 1)
    case ChargeLoopStarted => d.(loopStarts := d.loopStarts + 1)
    case _ => d
  }

  function DigestOf(log: seq<Event>): Digest {
    if log == [] then NOTHING else Update(DigestOf(log[..|log| - 1]), log[|log| - 1])
  }

  /** A close command needs the whole preparation behind it and no close before it. */
  predicate Sound(d: Digest, e: Event) {
    match e
    case Contactor(close, _) => if close then d.precharged && d.closes == 0 else d.opens < d.closes
    case CableCheckStarted => d.cableStarts == 0
    case ChargeLoopStarted => d.loopStarts == 0 && d.closes == 1
    case ChargeTargets => d.closes == 1 && d.opens == 0
    case _ => true
  }

  ghost predicate AllSound(log: seq<Event>) {
    forall i :: 0 <= i < |log| ==> Sound(DigestOf(log[..i]), log[i])
  }

  lemma NoteIsSound(c: Conf, e: Event)
    requires AllSound(c.log) && Sound(DigestOf(c.log), e)
    ensures AllSound(c.log + [e])
    ensures DigestOf(c.log + [e]) == Update(DigestOf(c.log), e)
  {
    var log := c.log + [e];
    assert log[..|c.log|] == c.log;
    forall i | 0 <= i < |log| ensures Sound(DigestOf(log[..i]), log[i]) {
      if i < |c.log| { assert log[..i] == c.log[..i]; }
    }
  }

  // ---- the invariant ----

  predicate Consistent(s: Session, d: Digest) {
    && (s.state != Ended ==> (s.contactorClosed <==> s.state == ChargeLoopState))
    && d.closes == d.opens + (if s.contactorClosed then 1 else 0)
    && d.closes <= 1
    && (s.state.Rank() < ChargeLoopState.Rank() ==> d.closes == 0)
    && (s.state in {SessionSetupState, AuthSetupState} ==> d.firstAuth.None? && s.eimDeadline == 0)
    && (s.state == AuthorizationState ==>
          s.eimDeadline == match d.firstAuth case None => 0 case Some(t) => t + EIM_ONGOING_TIMEOUT_MS)
    && (s.state != Ended && s.state.Rank() >= ServiceDiscoveryState.Rank() ==> d.granted)
    && (s.state != Ended && s.state.Rank() >= PreChargeState.Rank() ==> d.cabled)
    && (s.state != Ended && s.state.Rank() >= PowerDeliveryState.Rank() ==> d.precharged)
    && (s.state != Ended ==> (s.established <==> s.state != SessionSetupState))
    && d.cableStarts == (if s.cableCheckStarted then 1 else 0)
    && d.loopStarts == (if s.chargeLoopStarted then 1 else 0)
  }

  ghost predicate Sane(c: Conf) { AllSound(c.log) && Consistent(c.s, DigestOf(c.log)) }

  lemma AnswerIsSane(c: Conf, code: nat)
    requires Sane(c)
    ensures Sane(c.Answer(code))
  {
    hide DigestOf, AllSound;
    NoteIsSound(c, Composed(code));
  }

  lemma AuthorizationIsSane(c: Conf, eim: bool, env: Env)
    requires Sane(c) && c.s.state == AuthorizationState
    ensures Sane(OnAuthorization(c, eim, env))
  {
    hide DigestOf, AllSound;
    var now := env.handlerNow;
    var deadline := if c.s.eimDeadline == 0 then now + EIM_ONGOING_TIMEOUT_MS else c.s.eimDeadline;
    var seen := c.(s := c.s.(eimDeadline := deadline)).Note(AuthorizationHandled(now));
    NoteIsSound(c, AuthorizationHandled(now));
    NoteIsSound(seen, AuthPolled(env.auth, now));
    if !eim || now > deadline {
      AnswerIsSane(seen, if !eim then WARNING_AUTH_SELECTION_INVALID else FAILED);
    } else {
      var polled := seen.Note(AuthPolled(env.auth, now));
      match env.auth
      case AuthGranted => AnswerIsSane(polled.(s := polled.s.(eimDeadline := 0)).Enter(ServiceDiscoveryState), OK);
      case AuthRejected => AnswerIsSane(polled, WARNING_EIM_AUTH_FAILURE);
      case AuthPending => AnswerIsSane(polled, OK);
    }
  }

  /** Events that neither the digest nor its soundness looks at. */
  predicate Neutral(e: Event) {
    e.Passed? ||
    e in {EvccidReported, AuthorizationRequired, EvLimitsReported, DisplayParameters, ChargeLoopFinished,
          EvTermination, LimitsPolled, PresentPolled, StopPolled, MeterPolled}
  }

  lemma NeutralIsSane(c: Conf, e: Event)
    requires Sane(c) && Neutral(e)
    ensures Sane(c.Note(e))
  {
    hide DigestOf, AllSound;
    NoteIsSound(c, e);
  }

  lemma StartIsSane(c: Conf, env: Env)
    requires Sane(c) && c.s.state == PowerDeliveryState
    ensures var commanded := c.Note(Contactor(true, env.closeConfirmed));
      if env.closeConfirmed
      then Sane(commanded.(s := c.s.(contactorClosed := true)).Enter(ChargeLoopState).Answer(OK))
      else Sane(commanded.Answer(FAILED_CONTACTOR_ERROR))
  {
    hide DigestOf, AllSound;
    var commanded := c.Note(Contactor(true, env.closeConfirmed));
    NoteIsSound(c, Contactor(true, env.closeConfirmed));
    if env.closeConfirmed {
      AnswerIsSane(commanded.(s := c.s.(contactorClosed := true)).Enter(ChargeLoopState), OK);
    } else {
      AnswerIsSane(commanded, FAILED_CONTACTOR_ERROR);
    }
  }

  lemma StopIsSane(c: Conf, env: Env)
    requires Sane(c) && c.s.state in {PowerDeliveryState, ChargeLoopState}
    ensures var told := if c.s.state == ChargeLoopState then c.Note(ChargeLoopFinished) else c;
      var released := if c.s.contactorClosed then told.Note(Contactor(false, env.openConfirmed)) else told;
      Sane(released.(s := c.s.(contactorClosed := false)).Enter(WeldingState).Answer(OK))
  {
    hide DigestOf, AllSound;
    var told := if c.s.state == ChargeLoopState then c.Note(ChargeLoopFinished) else c;
    NeutralIsSane(c, ChargeLoopFinished);
    var released := if c.s.contactorClosed then told.Note(Contactor(false, env.openConfirmed)) else told;
    if c.s.contactorClosed { NoteIsSound(told, Contactor(false, env.openConfirmed)); }
    AnswerIsSane(released.(s := c.s.(contactorClosed := false)).Enter(WeldingState), OK);
  }

  lemma PowerDeliveryIsSane(c: Conf, tuple: Option<nat>, progress: ChargeProgress, env: Env)
    requires Sane(c) && c.s.state in {PowerDeliveryState, ChargeLoopState}
    ensures Sane(OnPowerDelivery(c, tuple, progress, env))
  {
    hide Sane;
    if progress == ProgressStart && c.s.state == PowerDeliveryState { StartIsSane(c, env); }
    if progress == ProgressStop { StopIsSane(c, env); }
    AnswerIsSane(c, FAILED_SCHEDULE_SELECTION_INVALID);
    AnswerIsSane(c, OK);
    AnswerIsSane(c, WARNING_STANDBY_NOT_ALLOWED);
    AnswerIsSane(c, FAILED_SCHEDULE_RENEGOTIATION);
  }

  lemma CableCheckIsSane(c: Conf, env: Env)
    requires Sane(c) && c.s.state == CableCheckState
    ensures Sane(OnCableCheck(c, env))
  {
    hide DigestOf, AllSound;
    var started := if c.s.cableCheckStarted then c
                   else c.(s := c.s.(cableCheckStarted := true)).Note(CableCheckStarted);
    if !c.s.cableCheckStarted { NoteIsSound(c, CableCheckStarted); }
    var polled := started.Note(CablePolled(env.cable));
    NoteIsSound(started, CablePolled(env.cable));
    match env.cable
    case CableFinished => AnswerIsSane(polled.Enter(PreChargeState), OK);
    case CableFault => AnswerIsSane(polled, FAILED);
    case CableOngoing => AnswerIsSane(polled, OK);
  }

  lemma PreChargeIsSane(c: Conf)
    requires Sane(c) && c.s.state in {PreChargeState, PowerDeliveryState}
    ensures Sane(OnPreCharge(c))
  {
    hide DigestOf, AllSound;
    NoteIsSound(c, PreChargeTarget);
    NoteIsSound(c.Note(PreChargeTarget), PresentPolled);
    AnswerIsSane(c.Note(PreChargeTarget).Note(PresentPolled).Enter(PowerDeliveryState), OK);
  }

  lemma ChargeLoopIsSane(c: Conf, only: bool, display: bool, meter: bool)
    requires Sane(c) && c.s.state == ChargeLoopState
    ensures Sane(OnChargeLoop(c, only, display, meter))
  {
    if !only {
      AnswerIsSane(c, FAILED);
    } else {
      var started := if c.s.chargeLoopStarted then c
                     else c.(s := c.s.(chargeLoopStarted := true)).Note(ChargeLoopStarted);
      LoopTargetsAreSane(c);
      hide Sane;
      var targets := started.Note(ChargeTargets);
      var shown := if display then targets.Note(DisplayParameters) else targets;
      NeutralIsSane(targets, DisplayParameters);
      NeutralIsSane(shown, PresentPolled);
      NeutralIsSane(shown.Note(PresentPolled), LimitsPolled);
      var polled := shown.Note(PresentPolled).Note(LimitsPolled).Note(StopPolled);
      NeutralIsSane(shown.Note(PresentPolled).Note(LimitsPolled), StopPolled);
      NeutralIsSane(polled, MeterPolled);
      AnswerIsSane(if meter then polled.Note(MeterPolled) else polled, OK);
    }
  }

  lemma LoopTargetsAreSane(c: Conf)
    requires Sane(c) && c.s.state == ChargeLoopState
    ensures Sane((if c.s.chargeLoopStarted then c
                  else c.(s := c.s.(chargeLoopStarted := true)).Note(ChargeLoopStarted)).Note(ChargeTargets))
  {
    hide DigestOf, AllSound;
    var started := if c.s.chargeLoopStarted then c
                   else c.(s := c.s.(chargeLoopStarted := true)).Note(ChargeLoopStarted);
    if !c.s.chargeLoopStarted { NoteIsSound(c, ChargeLoopStarted); }
    NoteIsSound(started, ChargeTargets);
  }

  lemma EarlyHandlersAreSane(c: Conf, r: Request20, env: Env)
    requires Sane(c) && Accepts(c.s.state, r)
    requires c.s.state.Rank() <= ServiceDetailState.Rank() && !r.AuthorizationReq? && !r.SessionStopReq?
    ensures Sane(Handle(c, r, env))
  {
    hide DigestOf, AllSound;
    match r
    case SessionSetupReq =>
      var entered := c.(s := c.s.(sessionId := env.newSid, established := true)).Enter(AuthSetupState);
      NeutralIsSane(entered, EvccidReported);
      AnswerIsSane(entered.Note(EvccidReported), OK_NEW_SESSION);
    case AuthSetupReq =>
      NeutralIsSane(c.Enter(AuthorizationState), AuthorizationRequired);
      AnswerIsSane(c.Enter(AuthorizationState).Note(AuthorizationRequired), OK);
    case ServiceDiscoveryReq =>
      AnswerIsSane(c.Enter(ServiceDetailState), OK);
    case ServiceDetailReq(id) =>
      AnswerIsSane(c, if id == DC_SERVICE_ID then OK else FAILED_SERVICE_ID_INVALID);
    case ServiceSelectionReq(id, params, vas) =>
      AnswerIsSane(c, OnServiceSelection(c, id, params, vas).s.lastCode);
      AnswerIsSane(c.Enter(DcCpdState), OK);
  }

  lemma CpdIsSane(c: Conf, bpt: bool, dc: bool, env: Env)
    requires Sane(c) && c.s.state == DcCpdState
    ensures Sane(Handle(c, CpdReq(bpt, dc), env))
  {
    hide DigestOf, AllSound;
    AnswerIsSane(c, FAILED_WRONG_CHARGE_PARAMETER);
    NeutralIsSane(c, EvLimitsReported);
    NeutralIsSane(c.Note(EvLimitsReported), LimitsPolled);
    AnswerIsSane(c.Note(EvLimitsReported).Note(LimitsPolled).Enter(ScheduleExchangeState), OK);
  }

  lemma ScheduleIsSane(c: Conf, dyn: bool, sched: bool, env: Env)
    requires Sane(c) && c.s.state == ScheduleExchangeState
    ensures Sane(OnScheduleExchange(c, dyn, sched, env))
  {
    hide DigestOf, AllSound;
    var seen := c.(s := c.s.(seDeadline :=
      if c.s.seDeadline == 0 then env.handlerNow + SE_ONGOING_TIMEOUT_MS else c.s.seDeadline));
    AnswerIsSane(seen, FAILED);
    NeutralIsSane(seen, LimitsPolled);
    AnswerIsSane(seen.Note(LimitsPolled).(s := seen.s.(seDeadline := 0)).Enter(CableCheckState), OK);
  }

  lemma ClosingHandlersAreSane(c: Conf, r: Request20, env: Env)
    requires Sane(c) && Accepts(c.s.state, r) && (r.SessionStopReq? || r.WeldingReq?)
    ensures Sane(Handle(c, r, env))
  {
    hide DigestOf, AllSound;
    match r
    case SessionStopReq(action, diagnostics) =>
      NeutralIsSane(c, EvTermination);
      AnswerIsSane(if diagnostics then c.Note(EvTermination) else c,
                   if action == SessionServiceRenegotiation then FAILED_NO_SERVICE_RENEGOTIATION else OK);
    case WeldingReq(finished) =>
      NeutralIsSane(c, PresentPolled);
      AnswerIsSane(if finished then c.Note(PresentPolled).Enter(SessionStopState) else c.Note(PresentPolled), OK);
  }

  lemma HandleIsSane(c: Conf, r: Request20, env: Env)
    requires Sane(c) && Accepts(c.s.state, r)
    ensures Sane(Handle(c, r, env))
  {
    hide Sane, OnAuthorization, OnScheduleExchange, OnPowerDelivery, OnCableCheck, OnPreCharge, OnChargeLoop;
    match r
    case AuthorizationReq(eim) => AuthorizationIsSane(c, eim, env);
    case PowerDeliveryReq(tuple, progress) => PowerDeliveryIsSane(c, tuple, progress, env);
    case CableCheckReq => CableCheckIsSane(c, env);
    case PreChargeReq => PreChargeIsSane(c);
    case ChargeLoopReq(only, display, meter) => ChargeLoopIsSane(c, only, display, meter);
    case SessionStopReq(_, _) => ClosingHandlersAreSane(c, r, env);
    case WeldingReq(_) => ClosingHandlersAreSane(c, r, env);
    case CpdReq(bpt, dc) => CpdIsSane(c, bpt, dc, env);
    case ScheduleExchangeReq(dyn, sched) => ScheduleIsSane(c, dyn, sched, env);
    case _ => EarlyHandlersAreSane(c, r, env);
  }

  // ---- frames and lives ----

  lemma EnterEndedIsSane(c: Conf)
    requires Sane(c)
    ensures Sane(c.Enter(Ended))
  {
    hide DigestOf, AllSound;
  }

  lemma TimerIsSane(c: Conf, deadline: nat)
    requires Sane(c)
    ensures Sane(c.(s := c.s.(sequenceDeadline := deadline)))
  {
    hide DigestOf, AllSound;
  }

  lemma FrameIsSane(c: Conf, f: Frame, env: Env)
    requires Sane(c)
    ensures Sane(HandleFrame(c, f, env).conf)
  {
    hide Sane, Handle;
    EnterEndedIsSane(c);
    TimerIsSane(c, 0);
    var ready := c.(s := c.s.(sequenceDeadline := 0));
    match Carried(f)
    case None =>
    case Some((sid, r)) =>
      AnswerIsSane(ready, FAILED_UNKNOWN_SESSION);
      AnswerIsSane(ready, FAILED_SEQUENCE_ERROR);
      NeutralIsSane(ready, Passed(r));
      if Accepts(ready.s.state, r) { HandleIsSane(ready.Note(Passed(r)), r, env); }
      EnterEndedIsSane(Dispatch(ready, sid, r, env));
      TimerIsSane(Dispatch(ready, sid, r, env), env.rearmNow + SEQUENCE_TIMEOUT_MS);
  }

  lemma ResetIsSane(c: Conf, now: nat)
    requires Sane(c)
    ensures Sane(OnReset(c, now))
  {
    hide DigestOf, AllSound;
    NoteIsSound(c, Reset);
  }

  lemma {:induction false} LifeIsSane(acts: seq<Act>)
    ensures Sane(Live(acts))
  {
    hide HandleFrame, OnReset;
    if acts != [] {
      hide Sane;
      var before := acts[..|acts| - 1];
      LifeIsSane(before);
      match acts[|acts| - 1]
      case DoReset(now) => ResetIsSane(Live(before), now);
      case DoFrame(f, env) => FrameIsSane(Live(before), f, env);
    }
  }

  // ---- contactor safety over whole runs ----

  ghost function History(acts: seq<Act>): seq<Event> { Live(acts).log }

  lemma SoundAt(acts: seq<Act>, i: nat)
    requires i < |History(acts)|
    ensures Sound(DigestOf(History(acts)[..i]), History(acts)[i])
  {
    hide Live, Sound, DigestOf, Consistent;
    LifeIsSane(acts);
  }

  lemma DigestStep(log: seq<Event>, n: nat)
    requires n < |log|
    ensures DigestOf(log[..n + 1]) == Update(DigestOf(log[..n]), log[n])
  {
    assert log[..n + 1][..n] == log[..n];
  }

  lemma DigestStart(log: seq<Event>)
    ensures DigestOf(log[..0]) == NOTHING
  {
  }

  predicate GrantedInTime(d: Digest, e: Event) {
    e.AuthPolled? && e.auth == AuthGranted && d.firstAuth.Some? &&
    e.now <= d.firstAuth.value + EIM_ONGOING_TIMEOUT_MS
  }

  /** The preparation part of the digest after one more event. */
  lemma UpdatePreparation(d: Digest, e: Event)
    requires e != Reset
    ensures Update(d, e).firstAuth ==
      if e.AuthorizationHandled? && d.firstAuth.None? then Some(e.now) else d.firstAuth
    ensures Update(d, e).granted ==> d.granted || GrantedInTime(d, e)
    ensures Update(d, e).cabled ==> d.cabled || (d.granted && e == CablePolled(CableFinished))
    ensures Update(d, e).precharged ==> d.precharged || (d.cabled && e == PreChargeTarget)
    ensures Update(d, e).closes == d.closes + (if e == Contactor(true, true) then 1 else 0)
    ensures Update(d, e).opens == d.opens + (if e.Contactor? && !e.close then 1 else 0)
  {
  }

  lemma UpdateReset(d: Digest)
    ensures Update(d, Reset) == NOTHING
  {
  }

  /** Position k belongs to the session that is current at n: no reset from k on. */
  ghost predicate InSession(log: seq<Event>, k: nat, n: nat) {
    k < n <= |log| && forall m :: k <= m < n ==> log[m] != Reset
  }

  /** The session's first AuthorizationReq. */
  ghost predicate FirstAuthorization(log: seq<Event>, a: nat, n: nat) {
    InSession(log, a, n) && log[a].AuthorizationHandled? &&
    forall k :: 0 <= k < a && InSession(log, k, n) ==> !log[k].AuthorizationHandled?
  }

  /** GRANTED within 180 s of the first AuthorizationReq. */
  ghost predicate GrantedAt(log: seq<Event>, a: nat, g: nat, n: nat) {
    FirstAuthorization(log, a, n) && a < g < n && log[g].AuthPolled? && log[g].auth == AuthGranted &&
    log[g].now <= log[a].now + 180_000
  }

  /** Then a finished cable check. */
  ghost predicate CabledAt(log: seq<Event>, a: nat, g: nat, f: nat, n: nat) {
    GrantedAt(log, a, g, n) && g < f < n && log[f] == CablePolled(CableFinished)
  }

  /** Then a PreCharge. */
  ghost predicate PreparedAt(log: seq<Event>, a: nat, g: nat, f: nat, p: nat, n: nat) {
    CabledAt(log, a, g, f, n) && f < p < n && log[p] == PreChargeTarget
  }

  lemma FirstAuthorizationGrows(log: seq<Event>, a: nat, n: nat)
    requires n < |log| && FirstAuthorization(log, a, n) && log[n] != Reset
    ensures FirstAuthorization(log, a, n + 1)
  {
    forall k | 0 <= k < a && InSession(log, k, n + 1) ensures !log[k].AuthorizationHandled? {
      assert InSession(log, k, n);
    }
  }

  lemma GrantedGrows(log: seq<Event>, a: nat, g: nat, n: nat)
    requires n < |log| && GrantedAt(log, a, g, n) && log[n] != Reset
    ensures GrantedAt(log, a, g, n + 1)
  {
    hide FirstAuthorization;
    FirstAuthorizationGrows(log, a, n);
  }

  lemma CabledGrows(log: seq<Event>, a: nat, g: nat, f: nat, n: nat)
    requires n < |log| && CabledAt(log, a, g, f, n) && log[n] != Reset
    ensures CabledAt(log, a, g, f, n + 1)
  {
    hide GrantedAt;
    GrantedGrows(log, a, g, n);
  }

  lemma {:induction false} FirstAuthMeans(log: seq<Event>, n: nat)
    requires n <= |log|
    ensures var d := DigestOf(log[..n]);
      && (d.firstAuth.None? ==> forall k :: 0 <= k < n && InSession(log, k, n) ==> !log[k].AuthorizationHandled?)
      && (d.firstAuth.Some? ==>
            exists a :: 0 <= a < n && FirstAuthorization(log, a, n) && log[a].now == d.firstAuth.value)
  {
    hide Update, DigestOf;
    if n == 0 {
      DigestStart(log);
    } else {
      FirstAuthMeans(log, n - 1);
      DigestStep(log, n - 1);
      var d, e := DigestOf(log[..n - 1]), log[n - 1];
      if e == Reset { UpdateReset(d); } else { UpdatePreparation(d, e); }
      forall k | 0 <= k < n - 1 && InSession(log, k, n) ensures InSession(log, k, n - 1) {}
      if e != Reset {
        if d.firstAuth.Some? {
          var a :| 0 <= a < n - 1 && FirstAuthorization(log, a, n - 1) && log[a].now == d.firstAuth.value;
          FirstAuthorizationGrows(log, a, n - 1);
        } else if e.AuthorizationHandled? {
          assert FirstAuthorization(log, n - 1, n);
        }
      }
    }
  }

  lemma {:induction false} GrantedMeans(log: seq<Event>, n: nat)
    requires n <= |log| && DigestOf(log[..n]).granted
    ensures exists a, g :: 0 <= a < n && 0 <= g < n && GrantedAt(log, a, g, n)
  {
    hide Update, DigestOf;
    if n == 0 {
      DigestStart(log);
    } else {
      DigestStep(log, n - 1);
      var d, e := DigestOf(log[..n - 1]), log[n - 1];
      if e == Reset { UpdateReset(d); } else { UpdatePreparation(d, e); }
      if d.granted {
        GrantedMeans(log, n - 1);
        var a, g :| 0 <= a < n - 1 && 0 <= g < n - 1 && GrantedAt(log, a, g, n - 1);
        GrantedGrows(log, a, g, n - 1);
      } else {
        FirstAuthMeans(log, n - 1);
        var a :| 0 <= a < n - 1 && FirstAuthorization(log, a, n - 1) && log[a].now == d.firstAuth.value;
        FirstAuthorizationGrows(log, a, n - 1);
        assert GrantedAt(log, a, n - 1, n);
      }
    }
  }

  lemma {:induction false} CabledMeans(log: seq<Event>, n: nat)
    requires n <= |log| && DigestOf(log[..n]).cabled
    ensures exists a, g, f :: 0 <= a < n && 0 <= g < n && 0 <= f < n && CabledAt(log, a, g, f, n)
  {
    hide Update, DigestOf, GrantedAt;
    if n == 0 {
      DigestStart(log);
    } else {
      DigestStep(log, n - 1);
      var d, e := DigestOf(log[..n - 1]), log[n - 1];
      if e == Reset { UpdateReset(d); } else { UpdatePreparation(d, e); }
      if d.cabled {
        CabledMeans(log, n - 1);
        var a, g, f :| 0 <= a < n - 1 && 0 <= g < n - 1 && 0 <= f < n - 1 && CabledAt(log, a, g, f, n - 1);
        CabledGrows(log, a, g, f, n - 1);
      } else {
        GrantedMeans(log, n - 1);
        var a, g :| 0 <= a < n - 1 && 0 <= g < n - 1 && GrantedAt(log, a, g, n - 1);
        GrantedGrows(log, a, g, n - 1);
        GrantedBefore(log, a, g, n - 1);
        assert CabledAt(log, a, g, n - 1, n);
      }
    }
  }

  lemma GrantedBefore(log: seq<Event>, a: nat, g: nat, n: nat)
    requires GrantedAt(log, a, g, n)
    ensures g < n
  {
  }

  lemma {:induction false} PrechargedMeans(log: seq<Event>, n: nat)
    requires n <= |log| && DigestOf(log[..n]).precharged
    ensures exists a, g, f, p :: 0 <= a < n && 0 <= g < n && 0 <= f < n && 0 <= p < n && PreparedAt(log, a, g, f, p, n)
  {
    hide Update, DigestOf, CabledAt;
    if n == 0 {
      DigestStart(log);
    } else {
      DigestStep(log, n - 1);
      var d, e := DigestOf(log[..n - 1]), log[n - 1];
      if e == Reset { UpdateReset(d); } else { UpdatePreparation(d, e); }
      if d.precharged {
        PrechargedMeans(log, n - 1);
        var a, g, f, p :| 0 <= a < n - 1 && 0 <= g < n - 1 && 0 <= f < n - 1 && 0 <= p < n - 1 &&
          PreparedAt(log, a, g, f, p, n - 1);
        CabledGrows(log, a, g, f, n - 1);
        assert PreparedAt(log, a, g, f, p, n);
      } else {
        CabledMeans(log, n - 1);
        var a, g, f :| 0 <= a < n - 1 && 0 <= g < n - 1 && 0 <= f < n - 1 && CabledAt(log, a, g, f, n - 1);
        CabledGrows(log, a, g, f, n - 1);
        assert PreparedAt(log, a, g, f, n - 1, n);
      }
    }
  }

  lemma {:induction false} CountsMean(log: seq<Event>, n: nat)
    requires n <= |log|
    ensures var d := DigestOf(log[..n]);
      && (d.closes > 0 <==> exists k :: 0 <= k < n && InSession(log, k, n) && log[k] == Contactor(true, true))
      && (d.opens == 0 ==> forall k :: 0 <= k < n && InSession(log, k, n) ==> !(log[k].Contactor? && !log[k].close))
  {
    hide Update, DigestOf;
    if n == 0 {
      DigestStart(log);
    } else {
      CountsMean(log, n - 1);
      DigestStep(log, n - 1);
      var d, e := DigestOf(log[..n - 1]), log[n - 1];
      if e == Reset { UpdateReset(d); } else { UpdatePreparation(d, e); }
      forall k | 0 <= k < n - 1 && e != Reset ensures InSession(log, k, n) <==> InSession(log, k, n - 1) {}
      if e != Reset {
        assert InSession(log, n - 1, n);
        if d.closes > 0 {
          var k :| 0 <= k < n - 1 && InSession(log, k, n - 1) && log[k] == Contactor(true, true);
          assert InSession(log, k, n);
        }
      }
    }
  }

  /** A close command is issued only after, in this order within the session: the first AuthorizationReq,
      GRANTED within 180 s of it, a FINISHED cable check and a PreCharge. */
  lemma CloseNeedsPreparation(acts: seq<Act>, i: nat)
    requires i < |History(acts)| && History(acts)[i].Contactor? && History(acts)[i].close
    ensures exists a, g, f, p :: 0 <= a < i && 0 <= g < i && 0 <= f < i && 0 <= p < i &&
                                 PreparedAt(History(acts), a, g, f, p, i)
  {
    hide Live;
    SoundAt(acts, i);
    PrechargedMeans(History(acts), i);
  }

  /** Between two confirmed closes there is a reset: at most one close succeeds per session. */
  lemma CloseSucceedsOnce(acts: seq<Act>, i: nat, j: nat)
    requires i < j < |History(acts)|
    requires History(acts)[i] == Contactor(true, true) && History(acts)[j] == Contactor(true, true)
    ensures exists m :: i < m < j && History(acts)[m] == Reset
  {
    hide Live;
    SoundAt(acts, j);
    CountsMean(History(acts), j);
    assert !InSession(History(acts), i, j);
  }

  /** Energy targets reach the controller only while the contactor is closed: a confirmed close lies behind
      in the session and no open command has been issued in it. */
  lemma TargetsOnlyWhileClosed(acts: seq<Act>, i: nat)
    requires i < |History(acts)| && History(acts)[i] == ChargeTargets
    ensures exists k :: 0 <= k < i && InSession(History(acts), k, i) && History(acts)[k] == Contactor(true, true)
    ensures forall k :: 0 <= k < i && InSession(History(acts), k, i) ==>
      !(History(acts)[k].Contactor? && !History(acts)[k].close)
  {
    hide Live;
    SoundAt(acts, i);
    CountsMean(History(acts), i);
  }

  /** How many close commands were confirmed, and how many open commands were issued. */
  function Closes(log: seq<Event>): nat {
    if log == [] then 0
    else Closes(log[..|log| - 1]) + if log[|log| - 1] == Contactor(true, true) then 1 else 0
  }

  function Opens(log: seq<Event>): nat {
    if log == [] then 0
    else Opens(log[..|log| - 1]) + if log[|log| - 1].Contactor? && !log[|log| - 1].close then 1 else 0
  }

  /** The session that is current at n begins at o. */
  ghost predicate SessionFrom(log: seq<Event>, o: nat, n: nat) {
    o <= n <= |log| && (o == 0 || log[o - 1] == Reset) && forall k :: o <= k < n ==> log[k] != Reset
  }

  lemma {:induction false} CommandsMean(log: seq<Event>, o: nat, n: nat)
    requires SessionFrom(log, o, n)
    ensures DigestOf(log[..n]).closes == Closes(log[o..n])
    ensures DigestOf(log[..n]).opens == Opens(log[o..n])
    decreases n
  {
    hide Update, DigestOf;
    if n == 0 {
      DigestStart(log);
    } else {
      DigestStep(log, n - 1);
      if n == o {
        UpdateReset(DigestOf(log[..n - 1]));
      } else {
        CommandsMean(log, o, n - 1);
        UpdatePreparation(DigestOf(log[..n - 1]), log[n - 1]);
        assert log[o..n][..n - o - 1] == log[o..n - 1];
      }
    }
  }

  /** Before the end the contactor flag is exactly "in the charge loop". At every time the session counts at most one
      confirmed close, and as many open commands as closes less the flag. */
  lemma ContactorFlag(acts: seq<Act>, o: nat)
    requires SessionFrom(History(acts), o, |History(acts)|)
    ensures var c := Live(acts);
      && (c.s.state != Ended ==> (c.s.contactorClosed <==> c.s.state == ChargeLoopState))
      && Closes(c.log[o..]) == Opens(c.log[o..]) + (if c.s.contactorClosed then 1 else 0)
      && Closes(c.log[o..]) <= 1
  {
    hide Live, DigestOf, AllSound;
    LifeIsSane(acts);
    CommandsSoFar(History(acts), o);
  }

  lemma CommandsSoFar(log: seq<Event>, o: nat)
    requires SessionFrom(log, o, |log|)
    ensures DigestOf(log).closes == Closes(log[o..]) && DigestOf(log).opens == Opens(log[o..])
  {
    hide DigestOf, Closes, Opens;
    CommandsMean(log, o, |log|);
    assert log[..|log|] == log && log[o..|log|] == log[o..];
  }

  /** The request is a SessionStop that the gates and the handler accept. */
  predicate AcceptedStop(c: Conf, f: Frame) {
    Carried(f).Some? &&
    var (sid, r) := Carried(f).value;
    r.SessionStopReq? && !WrongSession(c.s, sid, r) && Accepts(c.s.state, r) &&
    r.action != SessionServiceRenegotiation
  }

  /** A session that ends by an accepted SessionStop has one open command for each confirmed close. */
  lemma StopLeavesContactorOpen(acts: seq<Act>, f: Frame, env: Env, o: nat)
    requires Live(acts).s.state != Ended && AcceptedStop(Live(acts), f)
    requires HandleFrame(Live(acts), f, env).rc == Done
    requires var log := HandleFrame(Live(acts), f, env).conf.log; SessionFrom(log, o, |log|)
    ensures var c := HandleFrame(Live(acts), f, env).conf;
      c.s.state == Ended && !c.s.contactorClosed && Opens(c.log[o..]) == Closes(c.log[o..])
  {
    hide Live, DigestOf, AllSound, SessionFrom;
    LifeIsSane(acts);
    FrameIsSane(Live(acts), f, env);
    CommandsSoFar(HandleFrame(Live(acts), f, env).conf.log, o);
  }

  /** What every handler respects: it moves forward, never ends the session itself, leaves the SEQUENCE timer
      alone, and moves the contactor flag only with a good code. */
  predicate Advances(before: Session, after: Session) {
    && after.state.Rank() >= before.state.Rank()
    && after.state != Ended
    && after.sequenceDeadline == before.sequenceDeadline
    && (after.lastCode >= FAILED ==> after.contactorClosed == before.contactorClosed)
  }

  lemma LoopAdvances(c: Conf, only: bool, display: bool, meter: bool)
    requires c.s.state == ChargeLoopState
    ensures Advances(c.s, OnChargeLoop(c, only, display, meter).s)
  {
  }

  lemma DeliveryAdvances(c: Conf, tuple: Option<nat>, progress: ChargeProgress, env: Env)
    requires c.s.state in {PowerDeliveryState, ChargeLoopState}
    ensures Advances(c.s, OnPowerDelivery(c, tuple, progress, env).s)
  {
  }

  lemma PollsAdvance(c: Conf, r: Request20, env: Env)
    requires Accepts(c.s.state, r) && (r.AuthorizationReq? || r.CableCheckReq? || r.PreChargeReq?)
    ensures Advances(c.s, Handle(c, r, env).s)
  {
  }

  lemma HandleAdvances(c: Conf, r: Request20, env: Env)
    requires Accepts(c.s.state, r)
    ensures Advances(c.s, Handle(c, r, env).s)
    ensures r.SessionStopReq? ==> Handle(c, r, env).s.contactorClosed == c.s.contactorClosed
  {
    if r.AuthorizationReq? || r.CableCheckReq? || r.PreChargeReq? {
      PollsAdvance(c, r, env);
    } else {
      hide OnAuthorization, OnCableCheck, OnPreCharge, OnChargeLoop, OnPowerDelivery;
      match r
      case ChargeLoopReq(only, display, meter) => LoopAdvances(c, only, display, meter);
      case PowerDeliveryReq(tuple, progress) => DeliveryAdvances(c, tuple, progress, env);
      case _ =>
    }
  }

  /** The flag at the end of a session, exactly: the session ends with the contactor still closed iff the
      frame that ended it (a FAILED answer, or the SEQUENCE timeout) found it in the charge loop. The engine
      issues no open command there. */
  lemma EndsClosedExactlyFromChargeLoop(acts: seq<Act>, f: Frame, env: Env)
    requires Live(acts).s.state != Ended && HandleFrame(Live(acts), f, env).conf.s.state == Ended
    ensures HandleFrame(Live(acts), f, env).conf.s.contactorClosed <==> Live(acts).s.state == ChargeLoopState
  {
    hide Live, DigestOf, AllSound, Handle;
    LifeIsSane(acts);
    var c := Live(acts);
    if !TimedOut(c.s, env) {
      var ready := c.(s := c.s.(sequenceDeadline := 0));
      var (sid, r) := Carried(f).value;
      if Accepts(ready.s.state, r) { HandleAdvances(ready.Note(Passed(r)), r, env); }
    }
  }

  /** What the charge loop refuses: a foreign SessionID, any request but ChargeLoop and PowerDelivery, a control mode
      that is not scheduled alone, another schedule tuple than the one offered, a schedule renegotiation. */
  predicate LoopRefuses(s: Session, sid: seq<byte>, r: Request20) {
    WrongSession(s, sid, r) ||
    match r
    case ChargeLoopReq(only, _, _) => !only
    case PowerDeliveryReq(tuple, progress) =>
      (tuple.Some? && tuple.value != SCHEDULE_TUPLE_ID) || progress == ProgressScheduleRenegotiation
    case _ => true
  }

  /** The frame ends a session that is in the charge loop: it comes too late, or its refusal goes out. */
  predicate EndsLoop(s: Session, f: Frame, env: Env) {
    TimedOut(s, env) ||
    (env.encoded && Carried(f).Some? && LoopRefuses(s, Carried(f).value.0, Carried(f).value.1))
  }

  lemma LoopAnswers(c: Conf, sid: seq<byte>, r: Request20, env: Env)
    requires c.s.state == ChargeLoopState
    ensures Dispatch(c, sid, r, env).s.lastCode >= FAILED <==> LoopRefuses(c.s, sid, r)
    ensures Wish(c, sid, r) == Continue
  {
  }

  /** From the charge loop a session ends exactly so. */
  lemma LoopEndsExactlyWhen(c: Conf, f: Frame, env: Env)
    requires c.s.state == ChargeLoopState
    ensures HandleFrame(c, f, env).conf.s.state == Ended <==> EndsLoop(c.s, f, env)
  {
    hide Dispatch, Wish, LoopRefuses;
    if Carried(f).Some? {
      var (sid, r) := Carried(f).value;
      var ready := c.(s := c.s.(sequenceDeadline := 0));
      DispatchAdvances(ready, sid, r, env);
      LoopAnswers(ready, sid, r, env);
      RefusesAlike(c.s, sid, r);
    }
  }

  lemma RefusesAlike(s: Session, sid: seq<byte>, r: Request20)
    ensures LoopRefuses(s.(sequenceDeadline := 0), sid, r) == LoopRefuses(s, sid, r)
  {
  }

  /** The same as a condition on what a frame finds: it ends the session with the flag set exactly when it finds it in
      the charge loop and comes too late or is refused there. */
  lemma EndsClosedExactlyWhen(acts: seq<Act>, f: Frame, env: Env)
    requires Live(acts).s.state != Ended
    ensures var after := HandleFrame(Live(acts), f, env).conf.s;
      after.state == Ended && after.contactorClosed <==>
        Live(acts).s.state == ChargeLoopState && EndsLoop(Live(acts).s, f, env)
  {
    hide Live, HandleFrame, EndsLoop;
    if HandleFrame(Live(acts), f, env).conf.s.state == Ended { EndsClosedExactlyFromChargeLoop(acts, f, env); }
    if Live(acts).s.state == ChargeLoopState { LoopEndsExactlyWhen(Live(acts), f, env); }
  }

  // ---- progress and termination ----

  lemma DispatchAdvances(c: Conf, sid: seq<byte>, r: Request20, env: Env)
    requires c.s.state != Ended
    ensures var s := Dispatch(c, sid, r, env).s;
      s.state != Ended && s.state.Rank() >= c.s.state.Rank() && s.sequenceDeadline == c.s.sequenceDeadline
  {
    hide Handle;
    if Accepts(c.s.state, r) { HandleAdvances(c.Note(Passed(r)), r, env); }
  }

  /** No frame ever moves a session backwards. */
  lemma RankNeverDecreases(c: Conf, f: Frame, env: Env)
    ensures HandleFrame(c, f, env).conf.s.state.Rank() >= c.s.state.Rank()
  {
    hide State.Rank, Dispatch;
    EndedIsLast(c.s.state);
    StateAfterFrame(c, f, env);
    if c.s.state != Ended && Carried(f).Some? {
      var (sid, r) := Carried(f).value;
      DispatchAdvances(c.(s := c.s.(sequenceDeadline := 0)), sid, r, env);
    }
  }

  lemma EndedIsLast(s: State)
    ensures s.Rank() <= Ended.Rank()
  {
  }

  lemma StateAfterFrame(c: Conf, f: Frame, env: Env)
    ensures var after := HandleFrame(c, f, env).conf.s.state;
      || after in {c.s.state, Ended}
      || (c.s.state != Ended && Carried(f).Some? &&
          after == Dispatch(c.(s := c.s.(sequenceDeadline := 0)), Carried(f).value.0, Carried(f).value.1, env).s.state)
  {
    hide Dispatch, Wish;
  }

  /** An answered frame ends the session exactly when its code is FAILED or worse, or it was an accepted
      SessionStop; so a warning never does. */
  lemma EndsExactlyWhen(c: Conf, f: Frame, env: Env)
    requires c.s.state != Ended && HandleFrame(c, f, env).rc == Done
    ensures var after := HandleFrame(c, f, env).conf.s;
      after.state == Ended <==> after.lastCode >= FAILED || AcceptedStop(c, f)
    ensures HandleFrame(c, f, env).disposition == Continue <==> HandleFrame(c, f, env).conf.s.state != Ended
  {
    hide Handle;
    var (sid, r) := Carried(f).value;
    var ready := c.(s := c.s.(sequenceDeadline := 0));
    if Accepts(c.s.state, r) { HandleAdvances(ready.Note(Passed(r)), r, env); }
  }

  /** An ended session answers nothing and tells the controller nothing, however many frames arrive. */
  lemma {:induction false} EndedIsSilent(acts: seq<Act>, n: nat)
    requires n <= |acts| && Live(acts[..n]).s.state == Ended
    requires forall k :: n <= k < |acts| ==> acts[k].DoFrame?
    ensures Live(acts) == Live(acts[..n])
  {
    if n == |acts| {
      assert acts[..n] == acts;
    } else {
      var before := acts[..|acts| - 1];
      assert before[..n] == acts[..n];
      EndedIsSilent(before, n);
    }
  }

  /** A request with a foreign SessionID, or out of sequence, is answered without a single report to or
      question put to the controller, and changes nothing but the code, the timer and (once answered) the end. */
  lemma GatedRequestsAreSilent(c: Conf, f: Frame, env: Env)
    requires c.s.state != Ended && !TimedOut(c.s, env) && Carried(f).Some?
    requires var (sid, r) := Carried(f).value; WrongSession(c.s, sid, r) || !Accepts(c.s.state, r)
    ensures var (sid, r) := Carried(f).value;
      var code := if WrongSession(c.s, sid, r) then FAILED_UNKNOWN_SESSION else FAILED_SEQUENCE_ERROR;
      var reply := HandleFrame(c, f, env);
      && reply.conf.log == c.log + [Composed(code)]
      && reply.conf.s == c.s.(lastCode := code, sequenceDeadline := 0,
                              state := if env.encoded then Ended else c.s.state)
      && reply.disposition == (if env.encoded then DoneFailed else Continue)
  {
  }

  /** A frame that gets no answer: its decoder rejects it, or its response cannot be encoded. */
  predicate Unanswered(f: Frame, env: Env) { Carried(f).None? || !env.encoded }

  /** A frame that came in time leaves a running session without its SEQUENCE timer exactly when it gets no answer;
      every other one that does not end the session arms it again. */
  lemma TimerOffExactlyWhen(c: Conf, f: Frame, env: Env)
    requires c.s.state != Ended && !TimedOut(c.s, env)
    ensures var after := HandleFrame(c, f, env).conf.s;
      && (after.state != Ended && after.sequenceDeadline == 0 <==> Unanswered(f, env))
      && (after.state != Ended && !Unanswered(f, env) ==>
            after.sequenceDeadline == env.rearmNow + SEQUENCE_TIMEOUT_MS)
  {
    hide Dispatch, Wish;
    if Carried(f).Some? {
      var (sid, r) := Carried(f).value;
      DispatchAdvances(c.(s := c.s.(sequenceDeadline := 0)), sid, r, env);
    }
  }

  /** What the next frame can expect: it times out exactly if the frame before it was answered, left the session
      running, and lies more than 60 s back. */
  lemma SequenceTimer(c: Conf, f: Frame, env: Env, f2: Frame, env2: Env)
    requires c.s.state != Ended && !TimedOut(c.s, env)
    ensures var next := HandleFrame(HandleFrame(c, f, env).conf, f2, env2);
      next.rc == ETIMEDOUT <==>
        !Unanswered(f, env) && HandleFrame(c, f, env).conf.s.state != Ended &&
        env2.now > env.rearmNow + 60_000
  {
    TimerOffExactlyWhen(c, f, env);
    TimeoutExactlyWhen(HandleFrame(c, f, env).conf, f2, env2);
  }

  lemma TimeoutExactlyWhen(c: Conf, f: Frame, env: Env)
    ensures HandleFrame(c, f, env).rc == ETIMEDOUT <==> c.s.state != Ended && TimedOut(c.s, env)
  {
    hide Dispatch, Wish;
  }

  /** Once off, the timer stays off over any number of unanswered frames, however long they take. */
  lemma {:induction false} TimerStaysOff(acts: seq<Act>, n: nat)
    requires n <= |acts| && Live(acts[..n]).s.state != Ended && Live(acts[..n]).s.sequenceDeadline == 0
    requires forall k :: n <= k < |acts| ==> acts[k].DoFrame? && Unanswered(acts[k].frame, acts[k].env)
    ensures Live(acts).s.state != Ended && Live(acts).s.sequenceDeadline == 0
    ensures forall f, env {:trigger HandleFrame(Live(acts), f, env)} :: HandleFrame(Live(acts), f, env).rc != ETIMEDOUT
  {
    hide HandleFrame, Unanswered;
    if n == |acts| {
      assert acts[..n] == acts;
    } else {
      var last := |acts| - 1;
      var before := acts[..last];
      assert before[..n] == acts[..n];
      TimerStaysOff(before, n);
      TimerOffExactlyWhen(Live(before), acts[last].frame, acts[last].env);
    }
    forall f, env ensures HandleFrame(Live(acts), f, env).rc != ETIMEDOUT {
      TimeoutExactlyWhen(Live(acts), f, env);
    }
  }

  /** The shortest case: after a reset one undecodable frame, and the EV may be silent for any time. */
  lemma UndecodableFrameStopsTheTimer(t: nat, env: Env, later: Env, f: Frame)
    requires env.now <= t + SEQUENCE_TIMEOUT_MS
    ensures var c := Live([DoReset(t), DoFrame(Frame(PAYLOAD_MAINSTREAM, None), env)]);
      c.s.state == SessionSetupState && HandleFrame(c, f, later).rc != ETIMEDOUT
  {
    var acts := [DoReset(t), DoFrame(Frame(PAYLOAD_MAINSTREAM, None), env)];
    assert acts[..1] == [DoReset(t)] && [DoReset(t)][..0] == [];
    assert Live([DoReset(t)]) == Step(Live([]), DoReset(t));
    TimeoutExactlyWhen(Live(acts), f, later);
  }
}
