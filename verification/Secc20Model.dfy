/** The ISO 15118-20 DC session engine as a function on values (src/secc_iso20.c). The class in Secc20.dfy
    is proved to compute it. */
module Secc20Model {
  import opened Messages

  datatype State =
    | SessionSetupState
    | AuthSetupState
    | AuthorizationState
    | ServiceDiscoveryState
    | ServiceDetailState
    | DcCpdState
    | ScheduleExchangeState
    | CableCheckState
    | PreChargeState
    | PowerDeliveryState
    | ChargeLoopState
    | WeldingState
    | SessionStopState
    | Ended
  {
    /** Position in the session; the enumeration value of the source. */
    function Rank(): nat {
      match this
      case SessionSetupState => 0
      case AuthSetupState => 1
      case AuthorizationState => 2
      case ServiceDiscoveryState => 3
      case ServiceDetailState => 4
      case DcCpdState => 5
      case ScheduleExchangeState => 6
      case CableCheckState => 7
      case PreChargeState => 8
      case PowerDeliveryState => 9
      case ChargeLoopState => 10
      case WeldingState => 11
      case SessionStopState => 12
      case Ended => 13
    }
  }

  datatype ChargeProgress = ProgressStart | ProgressStop | ProgressStandby | ProgressScheduleRenegotiation
  datatype ChargingSession = SessionTerminate | SessionPause | SessionServiceRenegotiation

  /** Decoded requests of both schemas, reduced to what the handlers branch on. */
  datatype Request20 =
    | SessionSetupReq
    | AuthSetupReq
    | AuthorizationReq(eim: bool)
    | ServiceDiscoveryReq
    | ServiceDetailReq(serviceId: nat)
    | ServiceSelectionReq(serviceId: nat, parameterSetId: nat, valueAdded: bool)
    | ScheduleExchangeReq(dynamicMode: bool, scheduledMode: bool)
    | PowerDeliveryReq(selectedTuple: Option<nat>, progress: ChargeProgress)
    | MeteringConfirmationReq
    | SessionStopReq(action: ChargingSession, diagnostics: bool)
    | CertInstallReq
    | VehicleCheckInReq
    | VehicleCheckOutReq
    | CpdReq(bpt: bool, dc: bool)
    | CableCheckReq
    | PreChargeReq
    | ChargeLoopReq(onlyScheduled: bool, display: bool, meter: bool)
    | WeldingReq(finished: bool)
  {
    predicate IsDc() { CpdReq? || CableCheckReq? || PreChargeReq? || ChargeLoopReq? || WeldingReq? }
  }

  datatype AuthStatus = AuthPending | AuthGranted | AuthRejected
  datatype CableStatus = CableOngoing | CableFinished | CableFault

  /** The requests that pass the gates, everything the engine tells or asks its controller, and the codes it answers. */
  datatype Event =
    | Reset
    | Passed(request: Request20)
    | EvccidReported
    | AuthorizationRequired
    | AuthorizationHandled(now: nat)
    | EvLimitsReported
    | CableCheckStarted
    | PreChargeTarget
    | ChargeLoopStarted
    | ChargeTargets
    | DisplayParameters
    | ChargeLoopFinished
    | EvTermination
    | AuthPolled(auth: AuthStatus, now: nat)
    | LimitsPolled
    | CablePolled(cable: CableStatus)
    | PresentPolled
    | Contactor(close: bool, confirmed: bool)
    | StopPolled
    | MeterPolled
    | Composed(code: nat)

  // Response codes (values shared by the two -20 schemas).
  const OK: nat := 0
  const OK_NEW_SESSION: nat := 2
  const WARNING_AUTH_SELECTION_INVALID: nat := 5
  const WARNING_EIM_AUTH_FAILURE: nat := 11
  const WARNING_STANDBY_NOT_ALLOWED: nat := 19
  const FAILED: nat := 21
  const FAILED_CONTACTOR_ERROR: nat := 23
  const FAILED_NO_SERVICE_SELECTED: nat := 27
  const FAILED_NO_SERVICE_RENEGOTIATION: nat := 28
  const FAILED_SCHEDULE_RENEGOTIATION: nat := 32
  const FAILED_SCHEDULE_SELECTION_INVALID: nat := 33
  const FAILED_SEQUENCE_ERROR: nat := 34
  const FAILED_SERVICE_ID_INVALID: nat := 35
  const FAILED_SERVICE_SELECTION_INVALID: nat := 36
  const FAILED_UNKNOWN_SESSION: nat := 38
  const FAILED_WRONG_CHARGE_PARAMETER: nat := 39

  const SEQUENCE_TIMEOUT_MS: nat := 60000
  const SE_ONGOING_TIMEOUT_MS: nat := 55000
  const EIM_ONGOING_TIMEOUT_MS: nat := 180000
  const DC_SERVICE_ID: nat := 2
  const DC_PARAMETER_SET_ID: nat := 0
  const SCHEDULE_TUPLE_ID: nat := 1
  const PAYLOAD_MAINSTREAM: nat := 0x8002
  const PAYLOAD_DC: nat := 0x8004

  /** Deadlines are monotonic milliseconds; zero means unarmed. */
  datatype Session = Session(
    state: State,
    sessionId: Sid,
    established: bool,
    contactorClosed: bool,
    cableCheckStarted: bool,
    chargeLoopStarted: bool,
    lastCode: nat,
    sequenceDeadline: nat,
    seDeadline: nat,
    eimDeadline: nat)

  /** One frame: its payload id and what that id's decoder makes of it. */
  datatype Frame = Frame(payloadId: nat, decoded: Option<(seq<byte>, Request20)>)

  /** What the environment contributes: three clock readings (on entry, in the handler, when re-arming), the
      fresh SessionID (generator, or clock-derived when the generator fails), the controller's decisions,
      and whether the response could be encoded. */
  datatype Env = Env(
    now: nat,
    handlerNow: nat,
    rearmNow: nat,
    newSid: Sid,
    auth: AuthStatus,
    cable: CableStatus,
    closeConfirmed: bool,
    openConfirmed: bool,
    encoded: bool)

  datatype Disposition = Continue | DoneStopped | DonePaused | DoneFailed

  datatype Conf = Conf(s: Session, log: seq<Event>)
  {
    function Note(e: Event): Conf { this.(log := log + [e]) }
    function Enter(state: State): Conf { this.(s := s.(state := state)) }
    /** Builds a response: the code is recorded before encoding. */
    function Answer(code: nat): Conf { this.(s := s.(lastCode := code), log := log + [Composed(code)]) }
  }

  /** s20_state_accepts. */
  predicate Accepts(state: State, r: Request20) {
    match state
    case SessionSetupState => r.SessionSetupReq?
    case AuthSetupState => r.AuthSetupReq? || r.SessionStopReq?
    case AuthorizationState => r.AuthorizationReq? || r.SessionStopReq?
    case ServiceDiscoveryState => r.ServiceDiscoveryReq? || r.SessionStopReq?
    case ServiceDetailState => r.ServiceDetailReq? || r.ServiceSelectionReq? || r.SessionStopReq?
    case DcCpdState => r.CpdReq? || r.SessionStopReq?
    case ScheduleExchangeState => r.ScheduleExchangeReq? || r.SessionStopReq?
    case CableCheckState => r.CableCheckReq? || r.SessionStopReq?
    case PreChargeState => r.PreChargeReq? || r.SessionStopReq?
    case PowerDeliveryState => r.PowerDeliveryReq? || r.PreChargeReq? || r.SessionStopReq?
    case ChargeLoopState => r.ChargeLoopReq? || r.PowerDeliveryReq?
    case WeldingState => r.WeldingReq? || r.SessionStopReq?
    case SessionStopState => r.SessionStopReq?
    case Ended => false
  }

  // ---- handlers ----

  function OnAuthorization(c: Conf, eim: bool, env: Env): Conf {
    var now := env.handlerNow;
    var deadline := if c.s.eimDeadline == 0 then now + EIM_ONGOING_TIMEOUT_MS else c.s.eimDeadline;
    var seen := c.(s := c.s.(eimDeadline := deadline)).Note(AuthorizationHandled(now));
    if !eim then seen.Answer(WARNING_AUTH_SELECTION_INVALID)
    else if now > deadline then seen.Answer(FAILED)
    else
      var polled := seen.Note(AuthPolled(env.auth, now));
      match env.auth
      case AuthGranted =>
        polled.(s := polled.s.(eimDeadline := 0)).Enter(ServiceDiscoveryState).Answer(OK)
      case AuthRejected => polled.Answer(WARNING_EIM_AUTH_FAILURE)
      case AuthPending => polled.Answer(OK)
  }

  function OnServiceSelection(c: Conf, serviceId: nat, parameterSetId: nat, valueAdded: bool): Conf {
    if serviceId != DC_SERVICE_ID then c.Answer(FAILED_NO_SERVICE_SELECTED)
    else if parameterSetId != DC_PARAMETER_SET_ID || valueAdded then c.Answer(FAILED_SERVICE_SELECTION_INVALID)
    else c.Enter(DcCpdState).Answer(OK)
  }

  function OnScheduleExchange(c: Conf, dynamicMode: bool, scheduledMode: bool, env: Env): Conf {
    var now := env.handlerNow;
    var deadline := if c.s.seDeadline == 0 then now + SE_ONGOING_TIMEOUT_MS else c.s.seDeadline;
    var seen := c.(s := c.s.(seDeadline := deadline));
    if dynamicMode || !scheduledMode || now > deadline then seen.Answer(FAILED)
    else seen.Note(LimitsPolled).(s := seen.s.(seDeadline := 0)).Enter(CableCheckState).Answer(OK)
  }

  function OnPowerDelivery(c: Conf, selectedTuple: Option<nat>, progress: ChargeProgress, env: Env): Conf {
    if selectedTuple.Some? && selectedTuple.value != SCHEDULE_TUPLE_ID
    then c.Answer(FAILED_SCHEDULE_SELECTION_INVALID)
    else
      match progress
      case ProgressStart =>
        if c.s.state == ChargeLoopState then c.Answer(OK)
        else
          var commanded := c.Note(Contactor(true, env.closeConfirmed));
          if !env.closeConfirmed then commanded.Answer(FAILED_CONTACTOR_ERROR)
          else commanded.(s := c.s.(contactorClosed := true)).Enter(ChargeLoopState).Answer(OK)
      case ProgressStop =>
        var told := if c.s.state == ChargeLoopState then c.Note(ChargeLoopFinished) else c;
        var released := if c.s.contactorClosed then told.Note(Contactor(false, env.openConfirmed)) else told;
        released.(s := c.s.(contactorClosed := false)).Enter(WeldingState).Answer(OK)
      case ProgressStandby => c.Answer(WARNING_STANDBY_NOT_ALLOWED)
      case ProgressScheduleRenegotiation => c.Answer(FAILED_SCHEDULE_RENEGOTIATION)
  }

  function OnSessionStop(c: Conf, action: ChargingSession, diagnostics: bool): Conf {
    var told := if diagnostics then c.Note(EvTermination) else c;
    told.Answer(if action == SessionServiceRenegotiation then FAILED_NO_SERVICE_RENEGOTIATION else OK)
  }

  function OnCableCheck(c: Conf, env: Env): Conf {
    var started := if c.s.cableCheckStarted then c
                   else c.(s := c.s.(cableCheckStarted := true)).Note(CableCheckStarted);
    var polled := started.Note(CablePolled(env.cable));
    match env.cable
    case CableFinished => polled.Enter(PreChargeState).Answer(OK)
    case CableFault => polled.Answer(FAILED)
    case CableOngoing => polled.Answer(OK)
  }

  function OnPreCharge(c: Conf): Conf {
    var driven := c.Note(PreChargeTarget).Note(PresentPolled);
    (if c.s.state == PreChargeState then driven.Enter(PowerDeliveryState) else driven).Answer(OK)
  }

  function OnChargeLoop(c: Conf, onlyScheduled: bool, display: bool, meter: bool): Conf {
    if !onlyScheduled then c.Answer(FAILED)
    else
      var started := if c.s.chargeLoopStarted then c
                     else c.(s := c.s.(chargeLoopStarted := true)).Note(ChargeLoopStarted);
      var targets := started.Note(ChargeTargets);
      var shown := if display then targets.Note(DisplayParameters) else targets;
      var polled := shown.Note(PresentPolled).Note(LimitsPolled).Note(StopPolled);
      (if meter then polled.Note(MeterPolled) else polled).Answer(OK)
  }

  function Handle(c: Conf, r: Request20, env: Env): Conf {
    match r
    case SessionSetupReq =>
      c.(s := c.s.(sessionId := env.newSid, established := true)).Enter(AuthSetupState).Note(EvccidReported)
       .Answer(OK_NEW_SESSION)
    case AuthSetupReq => c.Enter(AuthorizationState).Note(AuthorizationRequired).Answer(OK)
    case AuthorizationReq(eim) => OnAuthorization(c, eim, env)
    case ServiceDiscoveryReq => c.Enter(ServiceDetailState).Answer(OK)
    case ServiceDetailReq(id) => c.Answer(if id == DC_SERVICE_ID then OK else FAILED_SERVICE_ID_INVALID)
    case ServiceSelectionReq(id, set_, vas) => OnServiceSelection(c, id, set_, vas)
    case ScheduleExchangeReq(dyn, sched) => OnScheduleExchange(c, dyn, sched, env)
    case PowerDeliveryReq(tuple, progress) => OnPowerDelivery(c, tuple, progress, env)
    case SessionStopReq(action, diagnostics) => OnSessionStop(c, action, diagnostics)
    case CpdReq(bpt, dc) =>
      if bpt || !dc then c.Answer(FAILED_WRONG_CHARGE_PARAMETER)
      else c.Note(EvLimitsReported).Note(LimitsPolled).Enter(ScheduleExchangeState).Answer(OK)
    case CableCheckReq => OnCableCheck(c, env)
    case PreChargeReq => OnPreCharge(c)
    case ChargeLoopReq(only, display, meter) => OnChargeLoop(c, only, display, meter)
    case WeldingReq(finished) =>
      (if finished then c.Note(PresentPolled).Enter(SessionStopState) else c.Note(PresentPolled)).Answer(OK)
    case _ => c.Answer(FAILED_SEQUENCE_ERROR)
  }

  // ---- dispatch ----

  /** The session check applies to everything but SessionSetup once a session is established. */
  predicate WrongSession(s: Session, sid: seq<byte>, r: Request20) {
    !r.SessionSetupReq? && s.established && sid != s.sessionId
  }

  function Dispatch(c: Conf, sid: seq<byte>, r: Request20, env: Env): Conf {
    if WrongSession(c.s, sid, r) then c.Answer(FAILED_UNKNOWN_SESSION)
    else if !Accepts(c.s.state, r) then c.Answer(FAILED_SEQUENCE_ERROR)
    else Handle(c.Note(Passed(r)), r, env)
  }

  /** Set by the SessionStop handler alone. */
  function Wish(c: Conf, sid: seq<byte>, r: Request20): Disposition {
    if WrongSession(c.s, sid, r) || !Accepts(c.s.state, r) || !r.SessionStopReq? then Continue
    else match r.action
      case SessionTerminate => DoneStopped
      case SessionPause => DonePaused
      case SessionServiceRenegotiation => Continue
  }

  /** The request a frame carries: each payload id has its own decoder and schema. */
  function Carried(f: Frame): Option<(seq<byte>, Request20)> {
    if f.decoded.Some? &&
       ((f.payloadId == PAYLOAD_MAINSTREAM && !f.decoded.value.1.IsDc()) ||
        (f.payloadId == PAYLOAD_DC && f.decoded.value.1.IsDc()))
    then f.decoded else None
  }

  datatype Reply = Reply(conf: Conf, rc: Rc, disposition: Disposition)

  predicate TimedOut(s: Session, env: Env) { s.sequenceDeadline != 0 && env.now > s.sequenceDeadline }

  /** jpv2g_secc20_handle_frame. */
  function HandleFrame(c: Conf, f: Frame, env: Env): Reply {
    if c.s.state == Ended then Reply(c, EPROTO, Continue)
    else if TimedOut(c.s, env) then Reply(c.Enter(Ended), ETIMEDOUT, Continue)
    else
      var ready := c.(s := c.s.(sequenceDeadline := 0));
      match Carried(f)
      case None => Reply(ready, EBADMSG, Continue)
      case Some((sid, r)) =>
        var answered := Dispatch(ready, sid, r, env);
        var wish := Wish(ready, sid, r);
        if !env.encoded then Reply(answered, EBADMSG, wish)
        else
          var disposition := if wish == Continue && answered.s.lastCode >= FAILED then DoneFailed else wish;
          if disposition != Continue then Reply(answered.Enter(Ended), Done, disposition)
          else Reply(answered.(s := answered.s.(sequenceDeadline := env.rearmNow + SEQUENCE_TIMEOUT_MS)),
                     Done, Continue)
  }

  /** jpv2g_secc20_reset, called once the SupportedAppProtocolRes that chose -20 is out. */
  function OnReset(c: Conf, now: nat): Conf {
    Conf(Session(SessionSetupState, ZERO_SID, false, false, false, false, 0, now + SEQUENCE_TIMEOUT_MS, 0, 0),
         c.log + [Reset])
  }

  /** A life: resets and frames in any order, from an initialised object. */
  datatype Act = DoReset(now: nat) | DoFrame(frame: Frame, env: Env)

  const INITIALISED := Session(SessionSetupState, ZERO_SID, false, false, false, false, 0, 0, 0, 0)

  function Step(c: Conf, a: Act): Conf {
    match a
    case DoReset(now) => OnReset(c, now)
    case DoFrame(f, env) => HandleFrame(c, f, env).conf
  }

  function Live(acts: seq<Act>): Conf {
    if acts == [] then Conf(INITIALISED, [])
    else Step(Live(acts[..|acts| - 1]), acts[|acts| - 1])
  }
}
