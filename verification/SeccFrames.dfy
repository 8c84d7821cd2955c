/** What one frame does to a stream of the -2/DIN engine: which request it gives, when the stream ends on it and with
    which code, and how many undecodable frames in a row it survives. */
module SeccFrames {
  import opened Messages
  import opened Sequencer
  import opened SeccModel
  import AppSelection

  // ---- from frames to requests ----

  /** Which decoder a stream may ask, in this order, delivers a message. */
  predicate IsoDelivers(protocol: Protocol, rx: Received)
    requires rx.Exi?
  {
    rx.app.None? && protocol != Din && rx.iso.Some? && !rx.iso.value.body.SupportedAppProtocol?
  }

  predicate DinDelivers(protocol: Protocol, rx: Received)
    requires rx.Exi?
  {
    rx.app.None? && !IsoDelivers(protocol, rx) && rx.din.Some? && !rx.din.value.body.SupportedAppProtocol?
  }

  predicate NobodyDelivers(protocol: Protocol, rx: Received) {
    rx.Exi? && rx.app.None? && !IsoDelivers(protocol, rx) && !DinDelivers(protocol, rx)
  }

  /** How a stream ends on a request that the sequencer accepts; None if it goes on. */
  function EndOf(live: Sid, r: Request, env: Env): Option<Rc> {
    if !r.body.SupportedAppProtocol? && r.protocol !in {Iso2, Din} then Some(EINVAL)
    else if r.body.SessionSetup? && |r.sid| > 8 then Some(EINVAL)
    else if !r.body.SupportedAppProtocol? && !r.body.SessionSetup? && (live == ZERO_SID || r.sid != live)
    then Some(EACCES)
    else if r.protocol == Din && r.body.ChargingStatus? then Some(EPROTO)
    else if env.encodeRc != Done then Some(env.encodeRc)
    else if env.emptyOutput then Some(EIO)
    else if env.sendRc != Done then Some(env.sendRc)
    else if r.body == PaymentServiceSelection(false) then Some(ESHUTDOWN)
    else if r.body.SessionStop? then Some(Done)
    else None
  }

  /** The locals of the stream after a request. */
  ghost predicate StreamAfter(c: Conf, r: Request, env: Env, t: Stream) {
    var v := OnRequest(c.stream.sequence, r);
    var end := if v.Rejected? then Some(EPROTO) else EndOf(c.charger.sessionId, r, env);
    && t.exit == end
    && t.protocol == r.protocol && t.undecodable == 0
    && t.handledAny == (c.stream.handledAny || end in {None, Some(Done)})
    && t.sawSessionStop == (c.stream.sawSessionStop || (r.body.SessionStop? && end == Some(Done)))
    && (t.sequence == v.next || (r.body.SessionSetup? && t.sequence == v.next.(dcMode := true, modeKnown := true)))
  }

  /** What a refused request is told: nothing where no minimal response exists or goes out. */
  ghost predicate IsTold(r: Request, live: Sid, code: Code, o: RefusalOutcome, told: seq<Event>) {
    told ==
      if r.protocol !in {Iso2, Din} || r.body.SupportedAppProtocol? || (r.protocol == Din && r.body.ChargingStatus?) ||
         !o.encoded || o.headerRc != Done then []
      else if o.payloadRc != Done then [HeaderAlone]
      else [Sent(Response(r.body.Type(), live, code))]
  }

  /** The session gate lets it through. */
  predicate InSession(live: Sid, r: Request) {
    r.body.SupportedAppProtocol? ||
    (r.protocol in {Iso2, Din} &&
     if r.body.SessionSetup? then |r.sid| <= 8 else live != ZERO_SID && r.sid == live)
  }

  /** The frame's request, as delivered, is put to the sequencer and noted as admitted exactly when accepted, and
      handed on exactly when it also belongs to the live session; who is refused is told so. */
  ghost predicate Put(c: Conf, r: Request, env: Env, x: Conf) {
    var (n, live) := (|c.log|, c.charger.sessionId);
    && n <= |x.log| && x.log[..n] == c.log
    && (if OnRequest(c.stream.sequence, r).Rejected? then
          IsTold(r, live, FailedSequenceError, env.refusal, x.log[n..])
        else
          && n < |x.log| && x.log[n] == Admitted(r)
          && if InSession(live, r) then n + 1 < |x.log| && x.log[n + 1] == Handed(r)
             else IsTold(r, live, FailedUnknownSession, env.refusal, x.log[n + 1..]))
    && StreamAfter(c, r, env, x.stream)
  }

  /** An EXI frame gives a request exactly when a decoder the stream may ask delivers a message, and then the one it
      delivers: SupportedAppProtocol first, ISO 15118-2 unless the stream speaks DIN, DIN whatever it speaks. */
  lemma FrameGivesRequest(cfg: Config, c: Conf, rx: Received)
    requires c.stream.exit.None? && !c.charger.terminateAfterResponse && rx.Exi?
    ensures var x := Receive(cfg, c, rx);
      var p := c.stream.protocol;
      if rx.app.Some? then
        exists s {:trigger AppSelection.Correct(rx.app.value, cfg.protocolMask, s)} ::
          AppSelection.Correct(rx.app.value, cfg.protocolMask, s) &&
          Put(c, Request(if s.protocol != UnknownProtocol then s.protocol else p, [],
                         SupportedAppProtocol(rx.app.value)), rx.env, x)
      else if IsoDelivers(p, rx) then Put(c, Request(Iso2, rx.iso.value.sid, rx.iso.value.body), rx.env, x)
      else if DinDelivers(p, rx) then Put(c, Request(Din, rx.din.value.sid, rx.din.value.body), rx.env, x)
      else if c.stream.handledAny && c.stream.undecodable < 6 then
        x == c.(stream := c.stream.(undecodable := c.stream.undecodable + 1)).Note(Ignored)
      else x == c.Leave(EBADMSG)
  {
    hide Admit, Serve, OnRequest, AppSelection.Correct, Put;
    if rx.app.Some? {
      var s := AppSelection.Negotiate(rx.app.value, cfg.protocolMask);
      var p := if s.protocol != UnknownProtocol then s.protocol else c.stream.protocol;
      assert AppSelection.Correct(rx.app.value, cfg.protocolMask, s);
      RequestIsPut(cfg, c, Request(p, [], SupportedAppProtocol(rx.app.value)), rx.env);
    } else if rx.iso.Some? {
      RequestIsPut(cfg, c, Request(Iso2, rx.iso.value.sid, rx.iso.value.body), rx.env);
    }
    if rx.din.Some? { RequestIsPut(cfg, c, Request(Din, rx.din.value.sid, rx.din.value.body), rx.env); }
  }

  lemma RequestIsPut(cfg: Config, c: Conf, r: Request, env: Env)
    requires c.stream.exit.None? && !c.charger.terminateAfterResponse
    ensures var a := Admit(c.(stream := c.stream.(protocol := r.protocol, undecodable := 0)), r, env);
      Put(c, r, env, if a.stream.exit.Some? then a else Serve(cfg, a, r, env))
  {
    hide OnRequest, Serve;
    var ready := c.(stream := c.stream.(protocol := r.protocol, undecodable := 0));
    var a := Admit(ready, r, env);
    AdmissionTells(ready, r, env);
    AdmissionEnds(ready, r, env);
    hide Admit, IsTold;
    if a.stream.exit.None? {
      ServeGoesOn(cfg, a, r, env);
      ServeEnds(cfg, a, r, env);
      FrontStays(a.log, Serve(cfg, a, r, env).log, |c.log|);
    }
  }

  lemma FrontStays(a: seq<Event>, x: seq<Event>, n: nat)
    requires n + 2 == |a| <= |x| && x[..|a|] == a
    ensures x[..n] == a[..n] && x[n] == a[n] && x[n + 1] == a[n + 1]
  {
    assert x[..n] == x[..|a|][..n] && x[n] == x[..|a|][n] && x[n + 1] == x[..|a|][n + 1];
  }

  /** Whom the gates let through, and how the others end. */
  lemma AdmissionEnds(c: Conf, r: Request, env: Env)
    requires c.stream.exit.None?
    ensures var (a, live) := (Admit(c, r, env), c.charger.sessionId);
      var v := OnRequest(c.stream.sequence, r);
      && a.stream == c.stream.(sequence := v.next, exit := a.stream.exit) && a.charger == c.charger
      && (a.stream.exit.None? <==> v.Accepted? && InSession(live, r))
      && (v.Rejected? ==> a.stream.exit == Some(EPROTO))
      && (v.Accepted? && !InSession(live, r) ==>
            a.stream.exit == EndOf(live, r, env) && a.stream.exit in {Some(EINVAL), Some(EACCES)})
      && (InSession(live, r) ==> ValidateSession(c.charger, r) == Done)
  {
    hide OnRequest, Told;
  }

  lemma AdmissionTells(c: Conf, r: Request, env: Env)
    ensures var (a, n, live) := (Admit(c, r, env), |c.log|, c.charger.sessionId);
      var v := OnRequest(c.stream.sequence, r);
      && n <= |a.log| && a.log[..n] == c.log
      && (if v.Rejected? then IsTold(r, live, FailedSequenceError, env.refusal, a.log[n..])
          else
            && n < |a.log| && a.log[n] == Admitted(r)
            && if InSession(live, r) then a.log == c.log + [Admitted(r), Handed(r)]
               else IsTold(r, live, FailedUnknownSession, env.refusal, a.log[n + 1..]))
  {
    hide OnRequest;
  }

  lemma ServeGoesOn(cfg: Config, c: Conf, r: Request, env: Env)
    requires c.stream.exit.None?
    ensures var x := Serve(cfg, c, r, env); |c.log| <= |x.log| && x.log[..|c.log|] == c.log
  {
    hide Answer, Resumable, Resolve, Effects, Finish;
    ResolveGoesOn(c, r, env);
    var resolved := Resolve(c, r, env);
    EffectsGoOn(cfg, resolved, r, env);
    var joined := r.body.SessionSetup? && Resumable(c.charger, r.sid, env.now);
    FinishGoesOn(Effects(cfg, resolved, r, env), r, env,
                 Response(r.body.Type(), resolved.charger.sessionId, Answer(cfg, resolved.charger, r, env, joined)));
  }

  lemma ResolveGoesOn(c: Conf, r: Request, env: Env)
    ensures var x := Resolve(c, r, env);
      c.log <= x.log && x.stream == c.stream && x.charger.terminateAfterResponse == c.charger.terminateAfterResponse
  {
    hide Resumable;
  }

  lemma EffectsGoOn(cfg: Config, c: Conf, r: Request, env: Env)
    ensures var x := Effects(cfg, c, r, env);
      && c.log <= x.log && x.stream == c.stream
      && x.charger.terminateAfterResponse ==
         (c.charger.terminateAfterResponse || r.body == PaymentServiceSelection(false))
  {
    hide DinOffer;
  }

  lemma FinishGoesOn(c: Conf, r: Request, env: Env, a: Response)
    ensures c.log <= Finish(c, r, env, a).log
  {
    hide HandlerRc;
  }

  /** The stream once an admitted request was served. */
  lemma ServeEnds(cfg: Config, c: Conf, r: Request, env: Env)
    requires c.stream.exit.None? && !c.charger.terminateAfterResponse && ValidateSession(c.charger, r) == Done
    ensures var (s, t) := (c.stream, Serve(cfg, c, r, env).stream);
      var end := EndOf(c.charger.sessionId, r, env);
      && t.exit == end && t.protocol == s.protocol && t.undecodable == s.undecodable
      && t.handledAny == (s.handledAny || end in {None, Some(Done)})
      && t.sawSessionStop == (s.sawSessionStop || (r.body.SessionStop? && end == Some(Done)))
      && (t.sequence == s.sequence ||
          (r.body.SessionSetup? && t.sequence == s.sequence.(dcMode := true, modeKnown := true)))
  {
    hide Answer, Resumable, Resolve, Effects;
    ResolveGoesOn(c, r, env);
    EffectsGoOn(cfg, Resolve(c, r, env), r, env);
  }

  /** Every other turn of the receive call ends the stream. */
  lemma OtherTurnsEnd(cfg: Config, c: Conf, rx: Received)
    requires c.stream.exit.None? && !rx.Exi?
    ensures Receive(cfg, c, rx) == c.Leave(
      if rx.ForeignPayload? then EBADMSG
      else if rx.rc == EAGAIN || (rx.rc == ETIMEDOUT && c.stream.handledAny) then Done
      else rx.rc)
  {
  }

  // ---- undecodable frames in a row ----

  function Ignoreds(n: nat): seq<Event> { seq(n, i => Ignored) }

  lemma {:induction false} UndecodableInARow(cfg: Config, c: Conf, script: seq<Received>)
    requires c.stream.exit.None? && c.stream.handledAny && !c.charger.terminateAfterResponse
    requires c.stream.undecodable <= 6
    requires forall rx :: rx in script ==> NobodyDelivers(c.stream.protocol, rx)
    ensures var (x, n) := (ReceiveAll(cfg, c, script), c.stream.undecodable + |script|);
      && x.charger == c.charger
      && (n <= 6 ==>
            x.stream == c.stream.(undecodable := n) && x.log == c.log + Ignoreds(|script|))
      && (n > 6 ==>
            x.stream.exit == Some(EBADMSG) && x.log == c.log + Ignoreds(6 - c.stream.undecodable))
    decreases |script|
  {
    hide Receive;
    if script == [] {
      assert c.log + Ignoreds(0) == c.log;
    } else {
      assert script[0] in script;
      FrameGivesRequest(cfg, c, script[0]);
      var d := Receive(cfg, c, script[0]);
      if c.stream.undecodable < 6 {
        UndecodableInARow(cfg, d, script[1..]);
        assert [Ignored] + Ignoreds(|script| - 1) == Ignoreds(|script|);
        assert [Ignored] + Ignoreds(6 - d.stream.undecodable) == Ignoreds(6 - c.stream.undecodable);
        assert d.log == c.log + [Ignored];
      } else {
        LeftIsLeft(cfg, d, script[1..]);
        assert c.log + Ignoreds(0) == c.log;
      }
    }
  }

  lemma {:induction false} LeftIsLeft(cfg: Config, c: Conf, script: seq<Received>)
    requires c.stream.exit.Some?
    ensures ReceiveAll(cfg, c, script) == c
    decreases |script|
  {
    if script != [] { LeftIsLeft(cfg, c, script[1..]); }
  }

  /** After every request that leaves the stream running, six undecodable frames in a row are tolerated, and the
      seventh ends the stream. */
  lemma SixAreTolerated(cfg: Config, c: Conf, rx: Received, script: seq<Received>)
    requires c.stream.exit.None? && !c.charger.terminateAfterResponse
    requires rx.Exi? && !NobodyDelivers(c.stream.protocol, rx)
    requires var d := Receive(cfg, c, rx);
      d.stream.exit.None? && forall u :: u in script ==> NobodyDelivers(d.stream.protocol, u)
    ensures var (d, x) := (Receive(cfg, c, rx), ReceiveAll(cfg, Receive(cfg, c, rx), script));
      && (|script| <= 6 ==> x.stream == d.stream.(undecodable := |script|) && x.log == d.log + Ignoreds(|script|))
      && (|script| > 6 ==> x.stream.exit == Some(EBADMSG) && x.log == d.log + Ignoreds(6))
  {
    hide Receive, ReceiveAll, OnRequest, AppSelection.Correct;
    FrameGivesRequest(cfg, c, rx);
    var d := Receive(cfg, c, rx);
    StillNotTerminating(cfg, c, rx);
    UndecodableInARow(cfg, d, script);
  }

  lemma StillNotTerminating(cfg: Config, c: Conf, rx: Received)
    requires c.stream.exit.None? && !c.charger.terminateAfterResponse
    ensures Receive(cfg, c, rx).stream.exit.None? ==> !Receive(cfg, c, rx).charger.terminateAfterResponse
  {
    hide Decode, OnRequest, Answer, Resolve, Effects, HandlerRc;
  }
}
