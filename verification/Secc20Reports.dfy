/** What every request of a -20 session comes to: its answer, the next state, and what the controller is told and
    asked in between. */
module Secc20Reports {
  import opened Messages
  import opened Secc20Model
  import opened Secc20Theorems

  // ---- which requests are taken, refused, warned about ----

  /** The states that take a request. */
  function TakenIn(r: Request20): set<State> {
    match r
    case SessionSetupReq => {SessionSetupState}
    case AuthSetupReq => {AuthSetupState}
    case AuthorizationReq(_) => {AuthorizationState}
    case ServiceDiscoveryReq => {ServiceDiscoveryState}
    case ServiceDetailReq(_) => {ServiceDetailState}
    case ServiceSelectionReq(_, _, _) => {ServiceDetailState}
    case CpdReq(_, _) => {DcCpdState}
    case ScheduleExchangeReq(_, _) => {ScheduleExchangeState}
    case CableCheckReq => {CableCheckState}
    case PreChargeReq => {PreChargeState, PowerDeliveryState}
    case PowerDeliveryReq(_, _) => {PowerDeliveryState, ChargeLoopState}
    case ChargeLoopReq(_, _, _) => {ChargeLoopState}
    case WeldingReq(_) => {WeldingState}
    case SessionStopReq(_, _) =>
      {AuthSetupState, AuthorizationState, ServiceDiscoveryState, ServiceDetailState, DcCpdState,
       ScheduleExchangeState, CableCheckState, PreChargeState, PowerDeliveryState, WeldingState, SessionStopState}
    case _ => {}
  }

  lemma AcceptsExactly(s: State, r: Request20)
    ensures Accepts(s, r) <==> s in TakenIn(r)
  {
    match r
    case SessionStopReq(_, _) =>
    case _ =>
  }

  /** The guards under which a request that passed the gates is answered with a FAILED code. */
  predicate Refuses(s: Session, r: Request20, env: Env) {
    match r
    case AuthorizationReq(eim) => eim && s.eimDeadline != 0 && env.handlerNow > s.eimDeadline
    case ServiceDetailReq(id) => id != 2
    case ServiceSelectionReq(id, params, valueAdded) => id != 2 || params != 0 || valueAdded
    case ScheduleExchangeReq(dynamicMode, scheduledMode) =>
      dynamicMode || !scheduledMode || (s.seDeadline != 0 && env.handlerNow > s.seDeadline)
    case PowerDeliveryReq(tuple, progress) =>
      || (tuple.Some? && tuple.value != 1)
      || progress == ProgressScheduleRenegotiation
      || (progress == ProgressStart && s.state == PowerDeliveryState && !env.closeConfirmed)
    case SessionStopReq(action, _) => action == SessionServiceRenegotiation
    case CpdReq(bpt, dc) => bpt || !dc
    case CableCheckReq => env.cable == CableFault
    case ChargeLoopReq(onlyScheduled, _, _) => !onlyScheduled
    case _ => false
  }

  /** The guards under which it is answered with a warning. */
  predicate Warns(s: Session, r: Request20, env: Env) {
    match r
    case AuthorizationReq(eim) => !eim || (!Refuses(s, r, env) && env.auth == AuthRejected)
    case PowerDeliveryReq(tuple, progress) => !Refuses(s, r, env) && progress == ProgressStandby
    case _ => false
  }

  /** Where a request leads that is neither refused nor warned about. */
  function LeadsTo(s: State, r: Request20, env: Env): State {
    match r
    case SessionSetupReq => AuthSetupState
    case AuthSetupReq => AuthorizationState
    case AuthorizationReq(_) => if env.auth == AuthGranted then ServiceDiscoveryState else AuthorizationState
    case ServiceDiscoveryReq => ServiceDetailState
    case ServiceDetailReq(_) => ServiceDetailState
    case ServiceSelectionReq(_, _, _) => DcCpdState
    case CpdReq(_, _) => ScheduleExchangeState
    case ScheduleExchangeReq(_, _) => CableCheckState
    case CableCheckReq => if env.cable == CableFinished then PreChargeState else CableCheckState
    case PreChargeReq => PowerDeliveryState
    case PowerDeliveryReq(_, progress) => if progress == ProgressStart then ChargeLoopState else WeldingState
    case ChargeLoopReq(_, _, _) => ChargeLoopState
    case WeldingReq(finished) => if finished then SessionStopState else WeldingState
    case _ => s
  }

  /** Every request that passes the gates is refused, warned about or served, exactly by these guards. Refusals and
      warnings leave the session where it is, with the contactor as it is; served ones lead on. */
  ghost predicate Settles(s: Session, r: Request20, env: Env, t: Session) {
    && (t.lastCode >= FAILED <==> Refuses(s, r, env))
    && (t.lastCode in {WARNING_AUTH_SELECTION_INVALID, WARNING_EIM_AUTH_FAILURE, WARNING_STANDBY_NOT_ALLOWED} <==>
          Warns(s, r, env))
    && (t.lastCode == OK_NEW_SESSION <==> r.SessionSetupReq?)
    && (t.lastCode == OK <==> !Refuses(s, r, env) && !Warns(s, r, env) && !r.SessionSetupReq?)
    && (Refuses(s, r, env) || Warns(s, r, env) ==> t.state == s.state && t.contactorClosed == s.contactorClosed)
    && (!Refuses(s, r, env) && !Warns(s, r, env) ==> t.state == LeadsTo(s.state, r, env))
    && t.sessionId == (if r.SessionSetupReq? then env.newSid else s.sessionId)
  }

  lemma SettledExactly(c: Conf, r: Request20, env: Env)
    requires Accepts(c.s.state, r)
    ensures Settles(c.s, r, env, Handle(c, r, env).s)
  {
    if r.PowerDeliveryReq? {
      DeliverySettles(c, r, env);
    } else if r.AuthorizationReq? || r.ScheduleExchangeReq? {
      TimedSettle(c, r, env);
    } else if r.CableCheckReq? || r.PreChargeReq? || r.ChargeLoopReq? {
      PollsSettle(c, r, env);
    } else {
      OthersSettle(c, r, env);
    }
  }

  lemma DeliverySettles(c: Conf, r: Request20, env: Env)
    requires Accepts(c.s.state, r) && r.PowerDeliveryReq?
    ensures Settles(c.s, r, env, Handle(c, r, env).s)
  {
  }

  lemma TimedSettle(c: Conf, r: Request20, env: Env)
    requires Accepts(c.s.state, r) && (r.AuthorizationReq? || r.ScheduleExchangeReq?)
    ensures Settles(c.s, r, env, Handle(c, r, env).s)
  {
  }

  lemma PollsSettle(c: Conf, r: Request20, env: Env)
    requires Accepts(c.s.state, r) && (r.CableCheckReq? || r.PreChargeReq? || r.ChargeLoopReq?)
    ensures Settles(c.s, r, env, Handle(c, r, env).s)
  {
    if r.CableCheckReq? {} else {}
  }

  lemma OthersSettle(c: Conf, r: Request20, env: Env)
    requires Accepts(c.s.state, r) && !r.PowerDeliveryReq? && !r.AuthorizationReq? && !r.ScheduleExchangeReq?
    requires !r.CableCheckReq? && !r.PreChargeReq? && !r.ChargeLoopReq?
    ensures Settles(c.s, r, env, Handle(c, r, env).s)
  {
  }

  /** What a frame comes to, told before it is handled. */
  datatype Fate = Dropped | TooLate | Undecodable | Foreign | OutOfSequence | Refused | Stopping | GoesOn

  function FateOf(s: Session, f: Frame, env: Env): Fate {
    if s.state == Ended then Dropped
    else if s.sequenceDeadline != 0 && env.now > s.sequenceDeadline then TooLate
    else if Carried(f).None? then Undecodable
    else
      var (sid, r) := Carried(f).value;
      if !r.SessionSetupReq? && s.established && sid != s.sessionId then Foreign
      else if s.state !in TakenIn(r) then OutOfSequence
      else if Refuses(s, r, env) then Refused
      else if r.SessionStopReq? then Stopping
      else GoesOn
  }

  /** How a frame leaves the session, exactly: a timeout ends it unanswered; a refusal of any kind and a SessionStop
      end it once the answer could be encoded; nothing else ends it, and an ended session answers nothing. */
  lemma FrameDecided(c: Conf, f: Frame, env: Env)
    ensures var x := HandleFrame(c, f, env);
      match FateOf(c.s, f, env)
      case Dropped => x == Reply(c, EPROTO, Continue)
      case TooLate => x == Reply(c.Enter(Ended), ETIMEDOUT, Continue)
      case Undecodable => x == Reply(c.(s := c.s.(sequenceDeadline := 0)), EBADMSG, Continue)
      case GoesOn =>
        && x.rc == (if env.encoded then Done else EBADMSG) && x.disposition == Continue
        && x.conf.s.state != Ended && x.conf.s.lastCode < FAILED
      case Stopping =>
        && x.rc == (if env.encoded then Done else EBADMSG) && x.conf.s.lastCode == OK
        && x.disposition == (if Carried(f).value.1.action == SessionPause then DonePaused else DoneStopped)
        && x.conf.s.state == (if env.encoded then Ended else c.s.state)
      case _ =>
        && x.rc == (if env.encoded then Done else EBADMSG) && x.conf.s.lastCode >= FAILED
        && x.disposition == (if env.encoded then DoneFailed else Continue)
        && x.conf.s.state == (if env.encoded then Ended else c.s.state)
  {
    hide Handle, Accepts, TakenIn, Refuses;
    if Carried(f).Some? {
      var (sid, r) := Carried(f).value;
      var ready := c.(s := c.s.(sequenceDeadline := 0));
      AcceptsExactly(c.s.state, r);
      TimerIsNoGuard(c.s, r, env);
      if Accepts(c.s.state, r) {
        SettledExactly(ready.Note(Passed(r)), r, env);
        HandleAdvances(ready.Note(Passed(r)), r, env);
        StopsSettle(ready.s, r, env);
      }
    }
  }

  lemma TimerIsNoGuard(s: Session, r: Request20, env: Env)
    ensures Refuses(s.(sequenceDeadline := 0), r, env) == Refuses(s, r, env)
  {
  }

  lemma StopsSettle(s: Session, r: Request20, env: Env)
    ensures r.SessionStopReq? ==> !Warns(s, r, env) && LeadsTo(s.state, r, env) == s.state
    ensures r.SessionStopReq? ==> (Refuses(s, r, env) <==> r.action == SessionServiceRenegotiation)
  {
  }

  // ---- what the controller hears of a request ----

  /** What lies behind a request in its session: the time of the first AuthorizationReq, whether cable check and charge
      loop were started, and whether the contactor is closed. */
  datatype Past = Past(firstAuth: Option<nat>, cabled: bool, looped: bool, closed: bool)

  /** The code a request is answered with and everything between it and the answer. */
  ghost predicate Due(r: Request20, code: nat, told: seq<Event>, past: Past) {
    match r
    case SessionSetupReq => code == OK_NEW_SESSION && told == [EvccidReported]
    case AuthSetupReq => code == OK && told == [AuthorizationRequired]
    case AuthorizationReq(eim) =>
      && 1 <= |told| <= 2 && told[0].AuthorizationHandled?
      && (|told| == 2 <==> eim && (past.firstAuth.Some? ==> told[0].now <= past.firstAuth.value + 180_000))
      && (|told| == 2 ==> told[1].AuthPolled? && told[1].now == told[0].now)
      && code == (if !eim then WARNING_AUTH_SELECTION_INVALID
                  else if |told| == 1 then FAILED
                  else if told[1].auth == AuthRejected then WARNING_EIM_AUTH_FAILURE else OK)
    case ServiceDiscoveryReq => code == OK && told == []
    case ServiceDetailReq(id) => code == (if id == 2 then OK else FAILED_SERVICE_ID_INVALID) && told == []
    case ServiceSelectionReq(id, params, valueAdded) =>
      && code == (if id != 2 then FAILED_NO_SERVICE_SELECTED
                  else if params != 0 || valueAdded then FAILED_SERVICE_SELECTION_INVALID else OK)
      && told == []
    case CpdReq(bpt, dc) =>
      if dc && !bpt then code == OK && told == [EvLimitsReported, LimitsPolled]
      else code == FAILED_WRONG_CHARGE_PARAMETER && told == []
    case ScheduleExchangeReq(dynamicMode, scheduledMode) =>
      (code == OK && !dynamicMode && scheduledMode && told == [LimitsPolled]) || (code == FAILED && told == [])
    case CableCheckReq =>
      && told != [] && told[|told| - 1].CablePolled?
      && told[..|told| - 1] == (if past.cabled then [] else [CableCheckStarted])
      && code == (if told[|told| - 1].cable == CableFault then FAILED else OK)
    case PreChargeReq => code == OK && told == [PreChargeTarget, PresentPolled]
    case PowerDeliveryReq(tuple, progress) => DeliveryDue(tuple, progress, code, told, past.closed)
    case ChargeLoopReq(onlyScheduled, display, meter) =>
      if !onlyScheduled then code == FAILED && told == []
      else code == OK && told == LoopReports(past.looped, display, meter)
    case WeldingReq(_) => code == OK && told == [PresentPolled]
    case SessionStopReq(action, diagnostics) =>
      && code == (if action == SessionServiceRenegotiation then FAILED_NO_SERVICE_RENEGOTIATION else OK)
      && told == (if diagnostics then [EvTermination] else [])
    case _ => false
  }

  /** One turn of the charge loop: the targets each time, its start the first time, display and meter as asked for. */
  function LoopReports(looped: bool, display: bool, meter: bool): seq<Event> {
    (if looped then [] else [ChargeLoopStarted]) + [ChargeTargets]
    + (if display then [DisplayParameters] else []) + [PresentPolled, LimitsPolled, StopPolled]
    + (if meter then [MeterPolled] else [])
  }

  /** PowerDelivery: Start closes the contactor unless it is closed; Stop reports the end of a running loop and opens
      it. */
  ghost predicate DeliveryDue(tuple: Option<nat>, progress: ChargeProgress, code: nat, told: seq<Event>, closed: bool) {
    if tuple.Some? && tuple.value != 1 then code == FAILED_SCHEDULE_SELECTION_INVALID && told == []
    else
      match progress
      case ProgressStart =>
        if closed then code == OK && told == []
        else (code == OK && told == [Contactor(true, true)]) ||
             (code == FAILED_CONTACTOR_ERROR && told == [Contactor(true, false)])
      case ProgressStop =>
        && code == OK
        && if closed then |told| == 2 && told[0] == ChargeLoopFinished && told[1].Contactor? && !told[1].close
           else told == []
      case ProgressStandby => code == WARNING_STANDBY_NOT_ALLOWED && told == []
      case ProgressScheduleRenegotiation => code == FAILED_SCHEDULE_RENEGOTIATION && told == []
  }

  /** Events that only come about while a request is handled. */
  predicate Within(e: Event) { !e.Passed? && !e.Composed? && e != Reset }

  /** A request was handled: after what it found, the log has what is due and then the code. */
  ghost predicate Handled(c: Conf, r: Request20, x: Conf, past: Past) {
    var (n, m) := (|c.log|, |x.log| - 1);
    && n <= m && x.log[..n] == c.log && x.log[m] == Composed(x.s.lastCode)
    && (forall k :: n <= k < m ==> Within(x.log[k]))
    && Due(r, x.s.lastCode, x.log[n..m], past)
  }

  lemma AsDue(c: Conf, r: Request20, x: Conf, told: seq<Event>, past: Past)
    requires x.log == c.log + told + [Composed(x.s.lastCode)] && forall e :: e in told ==> Within(e)
    requires Due(r, x.s.lastCode, told, past)
    ensures Handled(c, r, x, past)
  {
    hide Due, Within;
    var (n, m) := (|c.log|, |x.log| - 1);
    assert x.log[n..m] == told && x.log[..n] == c.log;
    forall k | n <= k < m ensures Within(x.log[k]) { assert x.log[k] == told[k - n]; }
  }

  /** The session remembers what lies behind. */
  predicate Remembers(s: Session, past: Past) {
    && s.cableCheckStarted == past.cabled && s.chargeLoopStarted == past.looped && s.contactorClosed == past.closed
    && (s.contactorClosed <==> s.state == ChargeLoopState)
    && (s.state == AuthorizationState ==>
          s.eimDeadline == match past.firstAuth case None => 0 case Some(t) => t + 180_000)
  }

  lemma HandledAsDue(c: Conf, r: Request20, env: Env, past: Past)
    requires Accepts(c.s.state, r) && Remembers(c.s, past)
    ensures Handled(c, r, Handle(c, r, env), past)
  {
    hide Handled;
    match r
    case PowerDeliveryReq(_, _) => DeliveryAsDue(c, r, env, past);
    case ChargeLoopReq(_, _, _) => LoopAsDue(c, r, env, past);
    case CableCheckReq => CableAsDue(c, env, past);
    case AuthorizationReq(_) => AuthorizationAsDue(c, r, env, past);
    case _ => OthersAsDue(c, r, env, past);
  }

  lemma DeliveryAsDue(c: Conf, r: Request20, env: Env, past: Past)
    requires Accepts(c.s.state, r) && Remembers(c.s, past) && r.PowerDeliveryReq?
    ensures Handled(c, r, Handle(c, r, env), past)
  {
    hide Handled;
    var told :=
      if r.selectedTuple.Some? && r.selectedTuple.value != 1 then []
      else match r.progress
        case ProgressStart => if past.closed then [] else [Contactor(true, env.closeConfirmed)]
        case ProgressStop => if past.closed then [ChargeLoopFinished, Contactor(false, env.openConfirmed)] else []
        case _ => [];
    AsDue(c, r, Handle(c, r, env), told, past);
  }

  lemma LoopAsDue(c: Conf, r: Request20, env: Env, past: Past)
    requires r.ChargeLoopReq? && Remembers(c.s, past)
    ensures Handled(c, r, Handle(c, r, env), past)
  {
    hide Handled, LoopReports;
    if r.onlyScheduled {
      LoopLog(c, r.display, r.meter);
      LoopWithin(past.looped, r.display, r.meter);
      hide OnChargeLoop, Within;
      AsDue(c, r, Handle(c, r, env), LoopReports(past.looped, r.display, r.meter), past);
    } else {
      AsDue(c, r, Handle(c, r, env), [], past);
    }
  }

  lemma LoopLog(c: Conf, display: bool, meter: bool)
    ensures var x := OnChargeLoop(c, true, display, meter);
      x.s.lastCode == OK && x.log == c.log + LoopReports(c.s.chargeLoopStarted, display, meter) + [Composed(OK)]
  {
  }

  lemma LoopWithin(looped: bool, display: bool, meter: bool)
    ensures forall e :: e in LoopReports(looped, display, meter) ==> Within(e)
  {
  }

  lemma CableAsDue(c: Conf, env: Env, past: Past)
    requires Remembers(c.s, past)
    ensures Handled(c, Request20.CableCheckReq, Handle(c, Request20.CableCheckReq, env), past)
  {
    hide Handled;
    var x := Handle(c, Request20.CableCheckReq, env);
    if past.cabled {
      AsDue(c, Request20.CableCheckReq, x, [CablePolled(env.cable)], past);
    } else {
      AsDue(c, Request20.CableCheckReq, x, [CableCheckStarted, CablePolled(env.cable)], past);
    }
  }

  lemma AuthorizationAsDue(c: Conf, r: Request20, env: Env, past: Past)
    requires Accepts(c.s.state, r) && r.AuthorizationReq? && Remembers(c.s, past)
    ensures Handled(c, r, Handle(c, r, env), past)
  {
    hide Handled;
    var handled := AuthorizationHandled(env.handlerNow);
    if r.eim && !Refuses(c.s, r, env) {
      AsDue(c, r, Handle(c, r, env), [handled, AuthPolled(env.auth, env.handlerNow)], past);
    } else {
      AsDue(c, r, Handle(c, r, env), [handled], past);
    }
  }

  lemma OthersAsDue(c: Conf, r: Request20, env: Env, past: Past)
    requires Accepts(c.s.state, r) && !r.PowerDeliveryReq? && !r.ChargeLoopReq? && !r.CableCheckReq?
    requires !r.AuthorizationReq?
    ensures Handled(c, r, Handle(c, r, env), past)
  {
    hide Handled;
    var told := match r
      case SessionSetupReq => [EvccidReported]
      case AuthSetupReq => [AuthorizationRequired]
      case CpdReq(bpt, dc) => if dc && !bpt then [EvLimitsReported, LimitsPolled] else []
      case ScheduleExchangeReq(_, _) => if Refuses(c.s, r, env) then [] else [LimitsPolled]
      case PreChargeReq => [PreChargeTarget, PresentPolled]
      case WeldingReq(_) => [PresentPolled]
      case SessionStopReq(_, diagnostics) => if diagnostics then [EvTermination] else []
      case _ => [];
    AsDue(c, r, Handle(c, r, env), told, past);
  }

  // ---- whole histories ----

  /** What lies behind position n, read off the history. */
  ghost predicate Behind(log: seq<Event>, n: nat, past: Past)
    requires n <= |log|
  {
    && (past.firstAuth.None? ==> forall k :: 0 <= k < n && InSession(log, k, n) ==> !log[k].AuthorizationHandled?)
    && (past.firstAuth.Some? ==>
          exists a :: 0 <= a < n && FirstAuthorization(log, a, n) && log[a].now == past.firstAuth.value)
    && (past.cabled <==> exists k :: 0 <= k < n && InSession(log, k, n) && log[k] == CableCheckStarted)
    && (past.looped <==> exists k :: 0 <= k < n && InSession(log, k, n) && log[k] == ChargeLoopStarted)
    && (past.closed <==>
          && (exists k :: 0 <= k < n && InSession(log, k, n) && log[k] == Contactor(true, true))
          && (forall k :: 0 <= k < n && InSession(log, k, n) ==> !(log[k].Contactor? && !log[k].close)))
  }

  lemma {:induction false} StartsMean(log: seq<Event>, n: nat)
    requires n <= |log|
    ensures var d := DigestOf(log[..n]);
      && (d.cableStarts > 0 <==> exists k :: 0 <= k < n && InSession(log, k, n) && log[k] == CableCheckStarted)
      && (d.loopStarts > 0 <==> exists k :: 0 <= k < n && InSession(log, k, n) && log[k] == ChargeLoopStarted)
      && (d.opens > 0 ==> exists k :: 0 <= k < n && InSession(log, k, n) && log[k].Contactor? && !log[k].close)
  {
    hide Update, DigestOf;
    if n == 0 {
      DigestStart(log);
    } else {
      StartsMean(log, n - 1);
      DigestStep(log, n - 1);
      var d, e := DigestOf(log[..n - 1]), log[n - 1];
      if e == Reset {
        UpdateReset(d);
      } else {
        UpdatePreparation(d, e);
        UpdateStarts(d, e);
        SessionGrows(log, n - 1);
        assert InSession(log, n - 1, n);
      }
    }
  }

  lemma UpdateStarts(d: Digest, e: Event)
    requires e != Reset
    ensures Update(d, e).cableStarts == d.cableStarts + (if e == CableCheckStarted then 1 else 0)
    ensures Update(d, e).loopStarts == d.loopStarts + (if e == ChargeLoopStarted then 1 else 0)
  {
  }

  lemma SessionGrows(log: seq<Event>, n: nat)
    requires n < |log| && log[n] != Reset
    ensures forall k: nat :: k < n ==> (InSession(log, k, n + 1) <==> InSession(log, k, n))
  {
  }

  /** A running session remembers what lies behind it. */
  lemma MemoryIsTrue(c: Conf) returns (past: Past)
    requires Sane(c) && c.s.state != Ended
    ensures Remembers(c.s, past) && Behind(c.log, |c.log|, past)
  {
    hide DigestOf, AllSound, InSession, FirstAuthorization;
    assert c.log[..|c.log|] == c.log;
    var d := DigestOf(c.log);
    past := Past(d.firstAuth, d.cableStarts > 0, d.loopStarts > 0, c.s.contactorClosed);
    FirstAuthMeans(c.log, |c.log|);
    CountsMean(c.log, |c.log|);
    StartsMean(c.log, |c.log|);
  }

  /** The request passed on at h is answered at n with what is due in between. */
  ghost predicate AnsweredAsDue(log: seq<Event>, h: nat, n: nat) {
    && h < n < |log| && log[h].Passed? && log[n].Composed?
    && (forall k :: h < k < n ==> Within(log[k]))
    && exists past :: Behind(log, h, past) && Due(log[h].request, log[n].code, log[h + 1..n], past)
  }

  /** Every request passed on is answered with what is due, and nothing comes about outside of that. */
  ghost predicate Accounted(log: seq<Event>) {
    && (forall h: nat :: h < |log| && log[h].Passed? ==> exists n: nat :: AnsweredAsDue(log, h, n))
    && (forall k: nat :: k < |log| && Within(log[k]) ==>
          exists h: nat, n: nat :: AnsweredAsDue(log, h, n) && h < k < n)
  }

  lemma AnswerStays(log: seq<Event>, more: seq<Event>, h: nat, n: nat)
    requires AnsweredAsDue(log, h, n)
    ensures AnsweredAsDue(log + more, h, n)
  {
    hide Due, Behind;
    var past :| Behind(log, h, past) && Due(log[h].request, log[n].code, log[h + 1..n], past);
    assert (log + more)[h + 1..n] == log[h + 1..n];
    BehindStays(log, more, h, past);
  }

  lemma BehindStays(log: seq<Event>, more: seq<Event>, n: nat, past: Past)
    requires n <= |log| && Behind(log, n, past)
    ensures Behind(log + more, n, past)
  {
    hide InSession;
    forall k: nat | k < n ensures InSession(log + more, k, n) <==> InSession(log, k, n) {
      SessionStays(log, more, k, n);
    }
    if past.firstAuth.Some? {
      var a :| 0 <= a < n && FirstAuthorization(log, a, n) && log[a].now == past.firstAuth.value;
      FirstIsAuthorization(log, a, n);
      FirstStays(log, more, a, n);
    }
  }

  lemma FirstStays(log: seq<Event>, more: seq<Event>, a: nat, n: nat)
    requires n <= |log| && FirstAuthorization(log, a, n)
    ensures FirstAuthorization(log + more, a, n)
  {
    FirstIsAuthorization(log, a, n);
    hide InSession;
    forall k: nat | k < n ensures InSession(log + more, k, n) <==> InSession(log, k, n) {
      SessionStays(log, more, k, n);
    }
  }

  lemma SessionStays(log: seq<Event>, more: seq<Event>, k: nat, n: nat)
    requires k < n <= |log|
    ensures InSession(log + more, k, n) <==> InSession(log, k, n)
  {
    assert forall m :: k <= m < n ==> (log + more)[m] == log[m];
    if InSession(log, k, n) { assert InSession(log + more, k, n); }
    if InSession(log + more, k, n) {
      forall m | k <= m < n ensures log[m] != Reset { assert (log + more)[m] != Reset; }
    }
  }

  lemma FirstIsAuthorization(log: seq<Event>, a: nat, n: nat)
    requires FirstAuthorization(log, a, n)
    ensures a < n <= |log| && log[a].AuthorizationHandled?
  {
  }

  /** Neither a request nor anything it brings about. */
  lemma MoreIsAccounted(log: seq<Event>, e: Event)
    requires Accounted(log) && !e.Passed? && !Within(e)
    ensures Accounted(log + [e])
  {
    hide AnsweredAsDue;
    forall h: nat | h < |log| && log[h].Passed? ensures exists n: nat :: AnsweredAsDue(log + [e], h, n) {
      var n: nat :| AnsweredAsDue(log, h, n);
      AnswerStays(log, [e], h, n);
    }
    forall k: nat | k < |log| && Within(log[k])
      ensures exists h: nat, n: nat :: AnsweredAsDue(log + [e], h, n) && h < k < n
    {
      var h: nat, n: nat :| AnsweredAsDue(log, h, n) && h < k < n;
      AnswerStays(log, [e], h, n);
    }
  }

  lemma RequestIsAccounted(c: Conf, r: Request20, x: Conf, past: Past)
    requires Accounted(c.log) && Behind(c.log, |c.log|, past) && Handled(c.Note(Passed(r)), r, x, past)
    ensures Accounted(x.log)
  {
    hide AnsweredAsDue, Due, Behind, Within;
    var (h, n) := (|c.log|, |x.log| - 1);
    var more := x.log[h..];
    assert x.log == c.log + more;
    NewAnswer(c, r, x, past);
    forall g: nat | g < |x.log| && x.log[g].Passed? ensures exists m: nat :: AnsweredAsDue(x.log, g, m) {
      if g < h {
        var m: nat :| AnsweredAsDue(c.log, g, m);
        AnswerStays(c.log, more, g, m);
      } else if g > h {
        PassedIsNotWithin(x.log[g]);
      }
    }
    forall k: nat | k < |x.log| && Within(x.log[k])
      ensures exists g: nat, m: nat :: AnsweredAsDue(x.log, g, m) && g < k < m
    {
      if k < h {
        var g: nat, m: nat :| AnsweredAsDue(c.log, g, m) && g < k < m;
        AnswerStays(c.log, more, g, m);
      } else {
        PassedIsNotWithin(x.log[k]);
      }
    }
  }

  lemma PassedIsNotWithin(e: Event)
    ensures Within(e) <==> !e.Passed? && !e.Composed? && e != Reset
  {
  }

  lemma NewAnswer(c: Conf, r: Request20, x: Conf, past: Past)
    requires Behind(c.log, |c.log|, past) && Handled(c.Note(Passed(r)), r, x, past)
    ensures |c.log| < |x.log| - 1 && x.log[..|c.log|] == c.log && x.log[|c.log|] == Passed(r)
    ensures AnsweredAsDue(x.log, |c.log|, |x.log| - 1)
  {
    hide Due, Behind, Within;
    var h := |c.log|;
    assert x.log[..h + 1] == c.log + [Passed(r)];
    assert x.log[..h] == x.log[..h + 1][..h] && x.log[h] == x.log[..h + 1][h];
    assert x.log == c.log + x.log[h..];
    BehindStays(c.log, x.log[h..], h, past);
  }

  lemma FrameIsAccounted(c: Conf, f: Frame, env: Env)
    requires Sane(c) && Accounted(c.log)
    ensures Accounted(HandleFrame(c, f, env).conf.log)
  {
    hide Sane, Handle, Accounted, Behind, Handled, Remembers;
    if c.s.state != Ended && !TimedOut(c.s, env) && Carried(f).Some? {
      var (sid, r) := Carried(f).value;
      var ready := c.(s := c.s.(sequenceDeadline := 0));
      MoreIsAccounted(c.log, Composed(FAILED_UNKNOWN_SESSION));
      MoreIsAccounted(c.log, Composed(FAILED_SEQUENCE_ERROR));
      if Accepts(c.s.state, r) {
        TimerIsSane(c, 0);
        var past := MemoryIsTrue(ready);
        RemembersOn(ready, r, past);
        HandledAsDue(ready.Note(Passed(r)), r, env, past);
        RequestIsAccounted(ready, r, Handle(ready.Note(Passed(r)), r, env), past);
      }
    }
  }

  lemma RemembersOn(c: Conf, r: Request20, past: Past)
    ensures Remembers(c.Note(Passed(r)).s, past) == Remembers(c.s, past)
  {
  }

  /** In every run, from the first frame to the last: each request that passes the gates is answered, the controller
      hears and is asked exactly what is due on it before the answer, and nothing else at any other time. */
  lemma {:induction false} EverythingIsReported(acts: seq<Act>)
    ensures Accounted(History(acts))
  {
    hide HandleFrame, Accounted;
    if acts == [] {
      NothingToAccount();
    } else {
      var before := acts[..|acts| - 1];
      EverythingIsReported(before);
      match acts[|acts| - 1]
      case DoReset(now) => MoreIsAccounted(History(before), Reset);
      case DoFrame(f, env) =>
        LifeIsSane(before);
        FrameIsAccounted(Live(before), f, env);
    }
  }

  lemma NothingToAccount()
    ensures Accounted([])
  {
  }
}
