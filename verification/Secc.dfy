/** The -2/DIN charger object and its stream loop (src/secc.c), proved to compute the model. */
module Secc {
  import opened Messages
  import opened Sequencer
  import opened SeccModel
  import AppSelection

  class Secc {
    const cfg: Config
    var sessionId: Sid
    var lastSessionId: Sid
    var lastSessionEndMs: int
    var lastSessionWasDc: bool
    var resumeDcPending: bool
    var dinAdvertisedType: nat
    var dinAdvertisedValid: bool
    var terminateAfterResponse: bool
    ghost var log: seq<Event>

    /** The fields as the model's charger. */
    ghost function State(): Charger
      reads this
    {
      Charger(sessionId, lastSessionId, lastSessionEndMs, lastSessionWasDc, resumeDcPending,
              if dinAdvertisedValid then Some(dinAdvertisedType) else None, terminateAfterResponse)
    }

    ghost function View(stream: Stream): Conf
      reads this
    {
      Conf(State(), stream, log)
    }

    constructor (cfg: Config)
      ensures State() == POWER_UP && log == [] && this.cfg == cfg
    {
      this.cfg := cfg;
      sessionId, lastSessionId, lastSessionEndMs := ZERO_SID, ZERO_SID, 0;
      lastSessionWasDc, resumeDcPending := false, false;
      dinAdvertisedType, dinAdvertisedValid := 0, false;
      terminateAfterResponse := false;
      log := [];
    }

    method RetireSession(ghost stream: Stream)
      modifies this
      ensures View(stream) == Retire(old(View(stream)))
    {
      sessionId := ZERO_SID;
      dinAdvertisedValid := false;
      dinAdvertisedType := 0;
      log := log + [Retired];
    }

    // ---- session resolution ----

    method GenerateSessionId(env: Env, ghost stream: Stream)
      modifies this`sessionId, this`log
      ensures View(stream) == Mint(old(View(stream)), env)
    {
      if env.minted.Some? {
        sessionId := env.minted.value;
        log := log + [Minted(env.minted.value)];
      }
    }

    method PausedSessionResumable(sid: seq<byte>, now: int) returns (yes: bool)
      ensures yes <==> Resumable(State(), sid, now)
    {
      if lastSessionId == ZERO_SID { return false; }
      if lastSessionId != sid { return false; }
      var ageMs := now - lastSessionEndMs;
      return ageMs >= 0 && ageMs <= PAUSE_RESUME_WINDOW_MS;
    }

    method ResolveSession(r: Request, env: Env, ghost stream: Stream) returns (joined: bool)
      modifies this
      ensures View(stream) == Resolve(old(View(stream)), r, env)
      ensures joined <==> r.body.SessionSetup? && Resumable(old(State()), r.sid, env.now)
    {
      joined := false;
      var hasSid := |r.sid| == 8;
      var sidZero := r.sid == ZERO_SID;
      if r.body.SessionSetup? {
        if hasSid && !sidZero {
          joined := PausedSessionResumable(r.sid, env.now);
        }
        if joined {
          sessionId := r.sid;
          resumeDcPending := lastSessionWasDc;
          lastSessionId := ZERO_SID;
          lastSessionEndMs := 0;
          lastSessionWasDc := false;
        } else {
          resumeDcPending := false;
          GenerateSessionId(env, stream);
        }
        log := log + [Settled(r.sid, sessionId, joined, env.now)];
      } else if sessionId == ZERO_SID {
        if hasSid && !sidZero {
          sessionId := r.sid;
          log := log + [Adopted(r.sid)];
        } else {
          GenerateSessionId(env, stream);
        }
      }
    }

    // ---- the built-in handler ----

    method ResolveDinEtm() returns (offer: Option<nat>)
      ensures offer == DinOffer(cfg)
    {
      if DC_EXTENDED in cfg.energyModes { return Some(DC_EXTENDED); }
      if DC_CORE in cfg.energyModes { return Some(DC_CORE); }
      return None;
    }

    /** jpv2g_secc_default_handle: settle the session, then answer by message type. */
    method DefaultHandle(r: Request, env: Env, ghost stream: Stream)
      returns (rc: Rc, answer: Response)
      modifies this
      ensures rc == HandlerRc(r, env)
      ensures var resolved := Resolve(old(View(stream)), r, env);
        && View(stream) == Effects(cfg, resolved, r, env)
        && answer == Response(r.body.Type(), resolved.charger.sessionId,
             Answer(cfg, resolved.charger, r, env, r.body.SessionSetup? && Resumable(old(State()), r.sid, env.now)))
    {
      hide Resolve, Resumable, Effects, Answer, HandlerRc;
      var joined := ResolveSession(r, env, stream);
      var sid := sessionId;
      var code;
      rc, code := HandleByType(r, env, joined, stream);
      answer := Response(r.body.Type(), sid, code);
    }

    method DiscoverServices(r: Request, env: Env, ghost stream: Stream) returns (code: Code)
      requires r.body.ServiceDiscovery?
      modifies this
      ensures View(stream) == Effects(cfg, old(View(stream)), r, env)
      ensures code == Answer(cfg, old(State()), r, env, false)
    {
      if r.protocol != Din { return OK; }
      var advertised := ResolveDinEtm();
      dinAdvertisedValid := false;
      dinAdvertisedType := 0;
      if env.encodeRc == Done && advertised.Some? {
        dinAdvertisedType := advertised.value;
        dinAdvertisedValid := true;
        log := log + [Advertised(advertised.value)];
      } else {
        log := log + [Withdrawn];
      }
      return if advertised.Some? then OK else Failed;
    }

    method DiscoverParameters(r: Request, env: Env, ghost stream: Stream) returns (code: Code)
      requires r.body.ChargeParameterDiscovery?
      ensures View(stream) == Effects(cfg, View(stream), r, env)
      ensures code == Answer(cfg, State(), r, env, false)
    {
      var mode := r.body.energyType;
      if r.protocol != Din {
        return if IsoModeSupported(cfg, mode) then OK else FailedWrongEnergyTransfer;
      }
      code := FailedWrongEnergyTransfer;
      if dinAdvertisedValid && mode in {DC_CORE, DC_EXTENDED} && mode == dinAdvertisedType { code := OK; }
    }

    method StopSession(r: Request, env: Env, ghost stream: Stream)
      requires r.body.SessionStop?
      modifies this
      ensures View(stream) == Effects(cfg, old(View(stream)), r, env)
    {
      var evPaused := r.protocol != Din && r.body.pause;
      if evPaused && sessionId != ZERO_SID {
        lastSessionId := sessionId;
        lastSessionEndMs := env.now;
        log := log + [Paused(sessionId, env.now, stream.sequence.modeKnown && stream.sequence.dcMode)];
      } else {
        log := log + [Stopped];
      }
      sessionId := ZERO_SID;
      dinAdvertisedValid := false;
      dinAdvertisedType := 0;
    }

    /** The switch over message types: response code and lasting effects. */
    method HandleByType(r: Request, env: Env, joined: bool, ghost stream: Stream) returns (rc: Rc, code: Code)
      modifies this
      ensures rc == HandlerRc(r, env)
      ensures View(stream) == Effects(cfg, old(View(stream)), r, env)
      ensures code == Answer(cfg, old(State()), r, env, joined)
    {
      hide AppSelection.Correct;
      code := OK;
      rc := env.encodeRc;
      match r.body {
        case SupportedAppProtocol(offers) =>
          var selection := AppSelection.SelectAppProtocol(offers, cfg.protocolMask);
          AppSelection.SelectionIsUnique(offers, cfg.protocolMask, selection,
                                         AppSelection.Negotiate(offers, cfg.protocolMask));
          code := Sapp(selection.code);
        case SessionSetup =>
          dinAdvertisedValid := false;
          dinAdvertisedType := 0;
          code := if joined then OkOldSessionJoined else OkNewSession;
        case ServiceDiscovery =>
          code := DiscoverServices(r, env, stream);
        case PaymentServiceSelection(external) =>
          if !external {
            code := FailedPaymentSelectionInvalid;
            terminateAfterResponse := true;
          }
        case PaymentDetails | Authorization =>
          log := log + [Consulted(env.authorized)];
          code := if env.authorized then OK else Failed;
        case ChargeParameterDiscovery(mode) =>
          code := DiscoverParameters(r, env, stream);
        case CableCheck =>
          code := Failed;
        case ChargingStatus =>
          if r.protocol == Din { rc := EPROTO; }
        case SessionStop(pause) =>
          StopSession(r, env, stream);
        case _ =>
      }
    }

    // ---- the gates ----

    method ValidateRequestSession(r: Request) returns (rc: Rc)
      ensures rc == ValidateSession(State(), r)
    {
      if r.body.SupportedAppProtocol? { return Done; }
      if r.protocol != Iso2 && r.protocol != Din { return EINVAL; }
      if r.body.SessionSetup? { return if |r.sid| <= 8 then Done else EINVAL; }
      if |r.sid| != 8 || sessionId == ZERO_SID || r.sid != sessionId { return EACCES; }
      return Done;
    }

    method SendMinFailed(r: Request, code: Code, env: Env)
      modifies this`log
      ensures log == match Told(State(), r, code, env.refusal)
                     case None => old(log)
                     case Some(e) => old(log) + [e]
    {
      if r.protocol != Iso2 && r.protocol != Din { return; }
      if r.body.SupportedAppProtocol? || (r.protocol == Din && r.body.ChargingStatus?) { return; }
      if !env.refusal.encoded { return; }
      if env.refusal.headerRc != Done { return; }
      log := log + [if env.refusal.payloadRc == Done then Sent(Response(r.body.Type(), sessionId, code))
                    else HeaderAlone];
    }

    // ---- one iteration of the stream loop ----

    method DecodeFrame(protocol: Protocol, rx: Received) returns (r: Option<Request>)
      requires rx.Exi?
      ensures r == Decode(cfg, protocol, rx)
    {
      if rx.app.Some? {
        var s := AppSelection.SelectAppProtocol(rx.app.value, cfg.protocolMask);
        AppSelection.SelectionIsUnique(rx.app.value, cfg.protocolMask, s,
                                       AppSelection.Negotiate(rx.app.value, cfg.protocolMask));
        var detected := if s.protocol != UnknownProtocol then s.protocol else protocol;
        return Some(Request(detected, [], SupportedAppProtocol(rx.app.value)));
      }
      if protocol != Din && rx.iso.Some? && !rx.iso.value.body.SupportedAppProtocol? {
        return Some(Request(Iso2, rx.iso.value.sid, rx.iso.value.body));
      }
      if rx.din.Some? && !rx.din.value.body.SupportedAppProtocol? {
        return Some(Request(Din, rx.din.value.sid, rx.din.value.body));
      }
      return None;
    }

    /** Sequence gate and session gate; a refusal is answered before the stream ends. */
    method Gate(sequence: Sequence, r: Request, env: Env, ghost stream: Stream) returns (exit: Option<Rc>)
      requires stream.sequence == sequence.State() && stream.exit.None?
      modifies this`log, sequence
      ensures View(stream.(sequence := sequence.State(), exit := exit)) == Admit(old(View(stream)), r, env)
    {
      var rc := sequence.AcceptRequest(r);
      if rc != Done {
        SendMinFailed(r, FailedSequenceError, env);
        return Some(rc);
      }
      log := log + [Admitted(r)];
      rc := ValidateRequestSession(r);
      if rc != Done {
        SendMinFailed(r, FailedUnknownSession, env);
        return Some(rc);
      }
      log := log + [Handed(r)];
      return None;
    }

    /** Handler, encoder, sender and the steps after a successful send. */
    method Dispatch(sequence: Sequence, r: Request, env: Env, handledAny: bool, sawSessionStop: bool,
                    ghost stream: Stream)
      returns (handledAny': bool, sawSessionStop': bool, exit: Option<Rc>)
      requires stream.sequence == sequence.State() && stream.exit.None?
      requires stream.handledAny == handledAny && stream.sawSessionStop == sawSessionStop && !sawSessionStop
      modifies this, sequence
      ensures View(stream.(sequence := sequence.State(), handledAny := handledAny',
                           sawSessionStop := sawSessionStop', exit := exit))
              == Serve(cfg, old(View(stream)), r, env)
      ensures exit.None? ==> !sawSessionStop'
    {
      hide Resolve, Resumable, Effects, Answer, HandlerRc, AfterSend;
      handledAny', sawSessionStop', exit := handledAny, sawSessionStop, None;
      var rc, answer := DefaultHandle(r, env, stream);
      if rc != Done { return handledAny', sawSessionStop', Some(rc); }
      if env.emptyOutput { return handledAny', sawSessionStop', Some(EIO); }
      if env.sendRc != Done { return handledAny', sawSessionStop', Some(env.sendRc); }
      log := log + [Sent(answer)];
      if terminateAfterResponse {
        terminateAfterResponse := false;
        return handledAny', sawSessionStop', Some(ESHUTDOWN);
      }
      sawSessionStop' := Conclude(sequence, r, stream);
      handledAny' := true;
      if sawSessionStop' { exit := Some(Done); }
    }

    /** The steps after a successful send. */
    method Conclude(sequence: Sequence, r: Request, ghost stream: Stream) returns (stopped: bool)
      requires stream.sequence == sequence.State() && stream.exit.None? && !stream.sawSessionStop
      modifies this, sequence
      ensures stopped == r.body.SessionStop?
      ensures View(stream.(sequence := sequence.State(), handledAny := true, sawSessionStop := stopped,
                           exit := if stopped then Some(Done) else None))
              == AfterSend(old(View(stream)), r)
    {
      if r.body.SessionStop? {
        if lastSessionId != ZERO_SID {
          lastSessionWasDc := sequence.modeKnown && sequence.dcMode;
        }
      }
      if r.body.SessionSetup? {
        if resumeDcPending {
          sequence.dcMode := true;
          sequence.modeKnown := true;
          resumeDcPending := false;
        }
        log := log + [SequenceMode(sequence.dcMode)];
      }
      stopped := r.body.SessionStop?;
    }

    // ---- the stream loop ----

    /** jpv2g_secc_handle_stream_obs: serves one TCP stream to its end. */
    method HandleStream(script: seq<Received>) returns (rc: Rc, handledAny: bool, sawSessionStop: bool)
      modifies this
      ensures var c := Connect(cfg, old(View(NEW_STREAM)), script);
        && State() == c.charger && log == c.log
        && c.stream.exit == Some(rc) && c.stream.handledAny == handledAny
        && c.stream.sawSessionStop == sawSessionStop
    {
      hide ReceiveAll, Admit, Serve, Decode;
      var protocol := UnknownProtocol;
      handledAny, sawSessionStop := false, false;
      var undecodable := 0;
      var sequence := new Sequence();
      terminateAfterResponse := false;
      log := log + [Opened];
      ghost var whole := Connect(cfg, old(View(NEW_STREAM)), script);
      var i := 0;
      while true
        invariant 0 <= i <= |script|
        invariant fresh(sequence) && !sawSessionStop
        invariant Receive(cfg, ReceiveAll(cfg,
            View(Stream(protocol, handledAny, sawSessionStop, undecodable, sequence.State(), None)), script[i..]),
            RecvFailed(ETIMEDOUT)) == whole
        decreases |script| - i
      {
        ghost var before := View(Stream(protocol, handledAny, sawSessionStop, undecodable, sequence.State(), None));
        var rx := if i < |script| then script[i] else RecvFailed(ETIMEDOUT);
        NextTurn(cfg, before, script, i);
        i := if i < |script| then i + 1 else i;
        if rx.RecvFailed? {
          if rx.rc == ETIMEDOUT { return if handledAny then Done else ETIMEDOUT, handledAny, sawSessionStop; }
          if rx.rc == EAGAIN { return Done, handledAny, sawSessionStop; }
          return rx.rc, handledAny, sawSessionStop;
        }
        if rx.ForeignPayload? { return EBADMSG, handledAny, sawSessionStop; }
        var r := DecodeFrame(protocol, rx);
        if r.None? {
          if handledAny && undecodable < MAX_UNDECODABLE {
            undecodable := undecodable + 1;
            log := log + [Ignored];
            continue;
          }
          return EBADMSG, handledAny, sawSessionStop;
        }
        protocol := r.value.protocol;
        undecodable := 0;
        ghost var ready := Stream(protocol, handledAny, sawSessionStop, undecodable, sequence.State(), None);
        var refused := Gate(sequence, r.value, rx.env, ready);
        if refused.Some? { return refused.value, handledAny, sawSessionStop; }
        var exit;
        handledAny, sawSessionStop, exit := Dispatch(sequence, r.value, rx.env, handledAny, sawSessionStop,
          ready.(sequence := sequence.State()));
        if exit.Some? { return exit.value, handledAny, sawSessionStop; }
      }
    }
  }

  /** The rest of a stream, one turn later; once left, a stream stays left. */
  lemma NextTurn(cfg: Config, c: Conf, script: seq<Received>, i: nat)
    requires i <= |script| && c.stream.exit.None?
    ensures var rx := if i < |script| then script[i] else RecvFailed(ETIMEDOUT);
      var next := Receive(cfg, c, rx);
      var end := Receive(cfg, ReceiveAll(cfg, c, script[i..]), RecvFailed(ETIMEDOUT));
      && (next.stream.exit.Some? ==> end == next)
      && (i < |script| ==> end == Receive(cfg, ReceiveAll(cfg, next, script[i + 1..]), RecvFailed(ETIMEDOUT)))
  {
    if i < |script| {
      assert script[i..][1..] == script[i + 1..];
      var next := Receive(cfg, c, script[i]);
      if next.stream.exit.Some? { LeftStaysLeft(cfg, next, script[i + 1..]); }
    }
  }

  lemma {:induction false} LeftStaysLeft(cfg: Config, c: Conf, script: seq<Received>)
    requires c.stream.exit.Some?
    ensures ReceiveAll(cfg, c, script) == c
    decreases |script|
  {
    if script != [] { LeftStaysLeft(cfg, c, script[1..]); }
  }
}
