/** The -20 DC session object (src/secc_iso20.c), proved to compute the model. */
module Secc20 {
  import opened Messages
  import opened Secc20Model

  class Secc20 {
    var state: State
    var sessionId: Sid
    var sessionEstablished: bool
    var contactorClosed: bool
    var cableCheckStarted: bool
    var chargeLoopStarted: bool
    var lastResponseCode: nat
    var sequenceDeadlineMs: nat
    var seOngoingDeadlineMs: nat
    var eimOngoingDeadlineMs: nat
    ghost var log: seq<Event>

    ghost function View(): Conf
      reads this
    {
      Conf(Session(state, sessionId, sessionEstablished, contactorClosed, cableCheckStarted, chargeLoopStarted,
                   lastResponseCode, sequenceDeadlineMs, seOngoingDeadlineMs, eimOngoingDeadlineMs), log)
    }

    constructor ()
      ensures View() == Live([])
    {
      state, sessionId, sessionEstablished, contactorClosed := SessionSetupState, ZERO_SID, false, false;
      cableCheckStarted, chargeLoopStarted, lastResponseCode := false, false, 0;
      sequenceDeadlineMs, seOngoingDeadlineMs, eimOngoingDeadlineMs := 0, 0, 0;
      log := [];
    }

    method DoReset(now: nat)
      modifies this
      ensures View() == OnReset(old(View()), now)
    {
      state := SessionSetupState;
      sessionId := ZERO_SID;
      sessionEstablished := false;
      contactorClosed := false;
      cableCheckStarted := false;
      chargeLoopStarted := false;
      lastResponseCode := 0;
      sequenceDeadlineMs := now + SEQUENCE_TIMEOUT_MS;
      seOngoingDeadlineMs := 0;
      eimOngoingDeadlineMs := 0;
      log := log + [Event.Reset];
    }

    /** Builds and encodes a response; the code is recorded even when encoding fails. */
    method Build(code: nat, env: Env) returns (rc: Rc)
      modifies this`lastResponseCode, this`log
      ensures View() == old(View()).Answer(code)
      ensures rc == if env.encoded then Done else EBADMSG
    {
      lastResponseCode := code;
      log := log + [Composed(code)];
      rc := if env.encoded then Done else EBADMSG;
    }

    method HandleSessionSetup(env: Env) returns (rc: Rc)
      modifies this
      ensures View() == Handle(old(View()), Request20.SessionSetupReq, env)
      ensures rc == if env.encoded then Done else EBADMSG
    {
      sessionId := env.newSid;
      sessionEstablished := true;
      state := AuthSetupState;
      log := log + [EvccidReported];
      rc := Build(OK_NEW_SESSION, env);
    }

    method HandleAuthorization(eim: bool, env: Env) returns (rc: Rc)
      modifies this
      ensures View() == OnAuthorization(old(View()), eim, env)
      ensures rc == if env.encoded then Done else EBADMSG
    {
      var now := env.handlerNow;
      if eimOngoingDeadlineMs == 0 {
        eimOngoingDeadlineMs := now + EIM_ONGOING_TIMEOUT_MS;
      }
      log := log + [AuthorizationHandled(now)];
      var code := OK;
      if !eim {
        code := WARNING_AUTH_SELECTION_INVALID;
      } else if now > eimOngoingDeadlineMs {
        code := FAILED;
      } else {
        log := log + [AuthPolled(env.auth, now)];
        match env.auth {
          case AuthGranted =>
            state := ServiceDiscoveryState;
            eimOngoingDeadlineMs := 0;
          case AuthRejected =>
            code := WARNING_EIM_AUTH_FAILURE;
          case AuthPending =>
        }
      }
      rc := Build(code, env);
    }

    method HandleServiceSelection(serviceId: nat, parameterSetId: nat, valueAdded: bool, env: Env) returns (rc: Rc)
      modifies this
      ensures View() == OnServiceSelection(old(View()), serviceId, parameterSetId, valueAdded)
      ensures rc == if env.encoded then Done else EBADMSG
    {
      var code := OK;
      if serviceId != DC_SERVICE_ID {
        code := FAILED_NO_SERVICE_SELECTED;
      } else if parameterSetId != DC_PARAMETER_SET_ID || valueAdded {
        code := FAILED_SERVICE_SELECTION_INVALID;
      } else {
        state := DcCpdState;
      }
      rc := Build(code, env);
    }

    method HandleScheduleExchange(dynamicMode: bool, scheduledMode: bool, env: Env) returns (rc: Rc)
      modifies this
      ensures View() == OnScheduleExchange(old(View()), dynamicMode, scheduledMode, env)
      ensures rc == if env.encoded then Done else EBADMSG
    {
      var now := env.handlerNow;
      if seOngoingDeadlineMs == 0 {
        seOngoingDeadlineMs := now + SE_ONGOING_TIMEOUT_MS;
      }
      if dynamicMode || !scheduledMode || now > seOngoingDeadlineMs {
        rc := Build(FAILED, env);
        return rc;
      }
      log := log + [LimitsPolled];
      seOngoingDeadlineMs := 0;
      state := CableCheckState;
      rc := Build(OK, env);
    }

    method CloseContactor(env: Env) returns (closed: bool)
      modifies this
      ensures closed == env.closeConfirmed
      ensures var commanded := old(View()).Note(Contactor(true, env.closeConfirmed));
        View() == if closed then commanded.(s := commanded.s.(contactorClosed := true)).Enter(ChargeLoopState)
                  else commanded
    {
      log := log + [Contactor(true, env.closeConfirmed)];
      if !env.closeConfirmed { return false; }
      contactorClosed := true;
      state := ChargeLoopState;
      return true;
    }

    method LeaveChargeLoop(env: Env)
      modifies this
      ensures var told := if old(state) == ChargeLoopState then old(View()).Note(ChargeLoopFinished) else old(View());
        var released := if old(contactorClosed) then told.Note(Contactor(false, env.openConfirmed)) else told;
        View() == released.(s := released.s.(contactorClosed := false)).Enter(WeldingState)
    {
      if state == ChargeLoopState {
        log := log + [ChargeLoopFinished];
      }
      if contactorClosed {
        log := log + [Contactor(false, env.openConfirmed)];
        contactorClosed := false;
      }
      state := WeldingState;
    }

    method HandlePowerDelivery(selectedTuple: Option<nat>, progress: ChargeProgress, env: Env) returns (rc: Rc)
      modifies this
      ensures View() == OnPowerDelivery(old(View()), selectedTuple, progress, env)
      ensures rc == if env.encoded then Done else EBADMSG
    {
      if selectedTuple.Some? && selectedTuple.value != SCHEDULE_TUPLE_ID {
        rc := Build(FAILED_SCHEDULE_SELECTION_INVALID, env);
        return rc;
      }
      var code := OK;
      match progress {
        case ProgressStart =>
          if state != ChargeLoopState {
            var closed := CloseContactor(env);
            if !closed {
              rc := Build(FAILED_CONTACTOR_ERROR, env);
              return rc;
            }
          }
        case ProgressStop =>
          LeaveChargeLoop(env);
        case ProgressStandby =>
          code := WARNING_STANDBY_NOT_ALLOWED;
        case ProgressScheduleRenegotiation =>
          code := FAILED_SCHEDULE_RENEGOTIATION;
      }
      rc := Build(code, env);
    }

    method HandleSessionStop(action: ChargingSession, diagnostics: bool, env: Env)
      returns (rc: Rc, disposition: Disposition)
      modifies this
      ensures View() == OnSessionStop(old(View()), action, diagnostics)
      ensures rc == if env.encoded then Done else EBADMSG
      ensures disposition == match action
        case SessionTerminate => DoneStopped
        case SessionPause => DonePaused
        case SessionServiceRenegotiation => Continue
    {
      disposition := Continue;
      if diagnostics { log := log + [EvTermination]; }
      if action == SessionServiceRenegotiation {
        rc := Build(FAILED_NO_SERVICE_RENEGOTIATION, env);
        return;
      }
      disposition := if action == SessionPause then DonePaused else DoneStopped;
      rc := Build(OK, env);
    }

    method HandleCpd(bpt: bool, dc: bool, env: Env) returns (rc: Rc)
      modifies this
      ensures View() == Handle(old(View()), CpdReq(bpt, dc), env)
      ensures rc == if env.encoded then Done else EBADMSG
    {
      if bpt || !dc {
        rc := Build(FAILED_WRONG_CHARGE_PARAMETER, env);
        return rc;
      }
      log := log + [EvLimitsReported] + [LimitsPolled];
      state := ScheduleExchangeState;
      rc := Build(OK, env);
    }

    method HandleCableCheck(env: Env) returns (rc: Rc)
      modifies this
      ensures View() == OnCableCheck(old(View()), env)
      ensures rc == if env.encoded then Done else EBADMSG
    {
      if !cableCheckStarted {
        cableCheckStarted := true;
        log := log + [CableCheckStarted];
      }
      log := log + [CablePolled(env.cable)];
      match env.cable {
        case CableFinished =>
          state := PreChargeState;
        case CableFault =>
          rc := Build(FAILED, env);
          return rc;
        case CableOngoing =>
      }
      rc := Build(OK, env);
    }

    method HandlePreCharge(env: Env) returns (rc: Rc)
      modifies this
      ensures View() == OnPreCharge(old(View()))
      ensures rc == if env.encoded then Done else EBADMSG
    {
      log := log + [PreChargeTarget] + [PresentPolled];
      if state == PreChargeState {
        state := PowerDeliveryState;
      }
      rc := Build(OK, env);
    }

    method HandleChargeLoop(onlyScheduled: bool, display: bool, meter: bool, env: Env) returns (rc: Rc)
      modifies this
      ensures View() == OnChargeLoop(old(View()), onlyScheduled, display, meter)
      ensures rc == if env.encoded then Done else EBADMSG
    {
      if !onlyScheduled {
        rc := Build(FAILED, env);
        return rc;
      }
      if !chargeLoopStarted {
        chargeLoopStarted := true;
        log := log + [ChargeLoopStarted];
      }
      log := log + [ChargeTargets];
      if display { log := log + [DisplayParameters]; }
      log := log + [PresentPolled] + [LimitsPolled] + [StopPolled];
      if meter { log := log + [MeterPolled]; }
      rc := Build(OK, env);
    }

    method HandleWelding(finished: bool, env: Env) returns (rc: Rc)
      modifies this
      ensures View() == Handle(old(View()), WeldingReq(finished), env)
      ensures rc == if env.encoded then Done else EBADMSG
    {
      log := log + [PresentPolled];
      if finished { state := SessionStopState; }
      rc := Build(OK, env);
    }

    /** The switch of the CommonMessages dispatcher, behind the gates. */
    method DispatchCommon(r: Request20, env: Env) returns (rc: Rc, disposition: Disposition)
      requires !r.IsDc()
      modifies this
      ensures View() == Handle(old(View()), r, env)
      ensures rc == if env.encoded then Done else EBADMSG
      ensures disposition == if !r.SessionStopReq? then Continue else
        match r.action
        case SessionTerminate => DoneStopped
        case SessionPause => DonePaused
        case SessionServiceRenegotiation => Continue
    {
      hide OnAuthorization, OnServiceSelection, OnScheduleExchange, OnPowerDelivery, OnSessionStop;
      disposition := Continue;
      match r {
        case SessionSetupReq => rc := HandleSessionSetup(env);
        case AuthSetupReq =>
          state := AuthorizationState;
          log := log + [AuthorizationRequired];
          rc := Build(OK, env);
        case AuthorizationReq(eim) => rc := HandleAuthorization(eim, env);
        case ServiceDiscoveryReq =>
          state := ServiceDetailState;
          rc := Build(OK, env);
        case ServiceDetailReq(id) => rc := Build(if id != DC_SERVICE_ID then FAILED_SERVICE_ID_INVALID else OK, env);
        case ServiceSelectionReq(id, params, vas) => rc := HandleServiceSelection(id, params, vas, env);
        case ScheduleExchangeReq(dyn, sched) => rc := HandleScheduleExchange(dyn, sched, env);
        case PowerDeliveryReq(tuple, progress) => rc := HandlePowerDelivery(tuple, progress, env);
        case SessionStopReq(action, diagnostics) =>
          rc, disposition := HandleSessionStop(action, diagnostics, env);
        case MeteringConfirmationReq | CertInstallReq | VehicleCheckInReq | VehicleCheckOutReq =>
          rc := Build(FAILED_SEQUENCE_ERROR, env);
      }
    }

    /** The switch of the DC dispatcher, behind the gates. */
    method DispatchDc(r: Request20, env: Env) returns (rc: Rc)
      requires r.IsDc()
      modifies this
      ensures View() == Handle(old(View()), r, env)
      ensures rc == if env.encoded then Done else EBADMSG
    {
      hide OnCableCheck, OnPreCharge, OnChargeLoop;
      match r {
        case CpdReq(bpt, dc) => rc := HandleCpd(bpt, dc, env);
        case CableCheckReq => rc := HandleCableCheck(env);
        case PreChargeReq => rc := HandlePreCharge(env);
        case ChargeLoopReq(only, display, meter) => rc := HandleChargeLoop(only, display, meter, env);
        case WeldingReq(finished) => rc := HandleWelding(finished, env);
      }
    }

    /** The SessionID and sequence gates of both dispatchers. */
    method Gate(sid: seq<byte>, r: Request20, env: Env) returns (rc: Rc, disposition: Disposition)
      modifies this
      ensures View() == Dispatch(old(View()), sid, r, env)
      ensures disposition == Wish(old(View()), sid, r)
      ensures rc == if env.encoded then Done else EBADMSG
    {
      hide Handle, Accepts;
      disposition := Continue;
      if !r.SessionSetupReq? && sessionEstablished && sid != sessionId {
        rc := Build(FAILED_UNKNOWN_SESSION, env);
      } else if !Accepts(state, r) {
        rc := Build(FAILED_SEQUENCE_ERROR, env);
      } else {
        log := log + [Passed(r)];
        if r.IsDc() {
          rc := DispatchDc(r, env);
        } else {
          rc, disposition := DispatchCommon(r, env);
        }
      }
    }

    /** jpv2g_secc20_handle_frame. */
    method HandleFrame(f: Frame, env: Env) returns (rc: Rc, disposition: Disposition)
      modifies this
      ensures Reply(View(), rc, disposition) == Secc20Model.HandleFrame(old(View()), f, env)
    {
      hide Handle, Dispatch, Wish;
      disposition := Continue;
      if state == Ended { return EPROTO, Continue; }
      if sequenceDeadlineMs != 0 && env.now > sequenceDeadlineMs {
        state := Ended;
        return ETIMEDOUT, Continue;
      }
      sequenceDeadlineMs := 0;
      if f.decoded.None? { return EBADMSG, Continue; }
      var (sid, r) := f.decoded.value;
      if !((f.payloadId == PAYLOAD_MAINSTREAM && !r.IsDc()) || (f.payloadId == PAYLOAD_DC && r.IsDc())) {
        return EBADMSG, Continue;
      }
      rc, disposition := Gate(sid, r, env);
      if rc != Done { return rc, disposition; }
      if disposition == Continue && lastResponseCode >= FAILED { disposition := DoneFailed; }
      if disposition != Continue {
        state := Ended;
      } else {
        sequenceDeadlineMs := env.rearmNow + SEQUENCE_TIMEOUT_MS;
      }
    }
  }
}
