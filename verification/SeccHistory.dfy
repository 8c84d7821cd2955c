/** Guarantees of the -2/DIN engine over a charger's whole life: every history it can produce. */
module SeccHistory {
  import opened Messages
  import opened Sequencer
  import opened SeccModel
  import AppSelection
  import Runs = SequencerRuns

  // ---- what a history amounts to ----

  /** The history digested. The fields marked (stream) are about the events since the latest Opened. */
  datatype Digest = Digest(
    steps: seq<Runs.Step>,          // (stream) everything the sequencer accepted, and a DC resume
    setups: nat,                    // (stream) how often the SessionID was settled
    settled: Option<Sid>,           // (stream) to what
    joined: bool,                   // (stream) and whether by redeeming a pause
    serving: Option<Request>,       // (stream) the request handed to the handler and not answered yet
    handled: nat,                   // (stream) responses after which the stream went on, or ended by SessionStop
    ignored: nat,                   // (stream) undecodable frames tolerated
    finished: bool,                 // (stream) the last thing the stream may send is out
    stopAnswered: bool,             // (stream) a SessionStopRes(OK) is out
    minted: set<Sid>,               // every SessionID the generator supplied
    pause: Option<(Sid, int)>,      // the latest pause, unless it was redeemed
    unanswered: Option<bool>,       // DC-ness of a pause whose SessionStopRes is not out yet
    remembered: Option<bool>,       // DC-ness of a pause answered last of all SessionStops
    granted: Option<bool>,          // DC-ness the next SequenceMode has to show
    contract: Option<nat>,          // DIN energy type offered in this session
    cable: bool)                    // a CableCheck was accepted, ever

  const NOTHING := Digest([], 0, None, false, None, 0, 0, false, false, {}, None, None, None, None, None, false)

  /** Codes after which a stream carries no further response. */
  predicate Terminal(code: Code) {
    code in {FailedSequenceError, FailedUnknownSession, FailedPaymentSelectionInvalid}
  }

  predicate IsStopRes(r: Response) { r.kind == SessionStopReq && r.code == OK }

  function Update(d: Digest, e: Event): Digest {
    match e
    case Opened =>
      d.(steps := [], setups := 0, settled := None, joined := false, serving := None, handled := 0, ignored := 0,
         finished := false, stopAnswered := false)
    case Retired => d.(contract := None)
    case Minted(sid) => d.(minted := d.minted + {sid})
    case Admitted(r) => d.(steps := d.steps + [Runs.Req(r)], cable := d.cable || r.body.CableCheck?)
    case Handed(r) => d.(serving := Some(r))
    case Settled(_, sid, joined, _) =>
      var e := d.(setups := d.setups + 1, settled := Some(sid), joined := joined, contract := None);
      if joined then e.(pause := None, granted := d.remembered, remembered := None)
      else e.(granted := Some(false))
    case Paused(sid, now, dc) =>
      d.(pause := Some((sid, now)), unanswered := Some(dc), remembered := None, contract := None)
    case Stopped => d.(unanswered := None, contract := None)
    case Advertised(t) => d.(contract := Some(t))
    case Withdrawn => d.(contract := None)
    case Sent(r) =>
      var e := d.(serving := None, finished := d.finished || Terminal(r.code),
                  handled := if Terminal(r.code) then d.handled else d.handled + 1);
      if IsStopRes(r) then e.(stopAnswered := true, remembered := d.unanswered, unanswered := None) else e
    case SequenceMode(dc) =>
      d.(granted := None, steps := if dc then d.steps + [Runs.ResumeDc] else d.steps)
    case HeaderAlone => d.(finished := true)
    case Ignored => d.(ignored := d.ignored + 1)
    case _ => d
  }

  function DigestOf(log: seq<Event>): Digest {
    if log == [] then NOTHING else Update(DigestOf(log[..|log| - 1]), log[|log| - 1])
  }

  /** Codes of the responses the gates send without asking the handler. */
  predicate Refusal(code: Code) { code in {FailedSequenceError, FailedUnknownSession} }

  /** A response that fits the request being served: its kind and SessionID, whether a SessionSetup joined, and for
      DIN whether the energy type asked for is the one on offer. */
  predicate Answers(d: Digest, a: Response) {
    d.serving.Some? &&
    var q := d.serving.value;
    && a.kind == q.body.Type()
    && (!q.body.SupportedAppProtocol? ==> d.settled == Some(a.sid))
    && (if q.body.SessionSetup? then a.code == (if d.joined then OkOldSessionJoined else OkNewSession)
        else a.code !in {OkNewSession, OkOldSessionJoined})
    && (q.body.ChargeParameterDiscovery? && q.protocol == Din ==>
          (a.code == OK <==>
             q.body.energyType in {DC_CORE, DC_EXTENDED} && d.contract == Some(q.body.energyType)))
  }

  predicate WithinWindow(paused: int, now: int) { 0 <= now - paused <= 3_600_000 }

  /** What may happen after a history with digest d. */
  ghost predicate Sound(d: Digest, e: Event) {
    match e
    case Adopted(_) => false
    case Admitted(r) => !d.finished && Runs.After(d.steps + [Runs.Req(r)]).Some?
    case Handed(r) =>
      r.body.SupportedAppProtocol? || r.body.SessionSetup? || (d.setups == 1 && d.settled == Some(r.sid))
    case Settled(presented, sid, joined, now) =>
      && d.setups == 0
      && (sid == ZERO_SID || sid in d.minted)
      && (joined <==> d.pause.Some? && d.pause.value.0 == presented && WithinWindow(d.pause.value.1, now))
      && (joined ==> sid == presented)
      && d.serving.Some? && d.serving.value.body.SessionSetup? && d.serving.value.sid == presented
    case Paused(sid, _, dc) =>
      d.settled == Some(sid) && sid in d.minted && Runs.After(d.steps).Some? &&
      dc == Runs.After(d.steps).value.dcMode
    case Sent(a) => !d.finished && if Refusal(a.code) then d.serving.None? else Answers(d, a)
    case SequenceMode(dc) => (dc ==> d.cable) && (d.granted.Some? ==> dc == d.granted.value)
    case HeaderAlone => !d.finished && d.serving.None?
    case Ignored => !d.finished && d.ignored < MAX_UNDECODABLE * d.handled
    case _ => true
  }

  ghost predicate AllSound(log: seq<Event>) {
    forall i :: 0 <= i < |log| ==> Sound(DigestOf(log[..i]), log[i])
  }

  lemma NoteIsSound(c: Conf, e: Event)
    requires AllSound(c.log) && Sound(DigestOf(c.log), e)
    ensures AllSound(c.Note(e).log)
    ensures DigestOf(c.Note(e).log) == Update(DigestOf(c.log), e)
  {
    var log := c.log + [e];
    assert log[..|c.log|] == c.log;
    forall i | 0 <= i < |log| ensures Sound(DigestOf(log[..i]), log[i]) {
      if i < |c.log| { assert log[..i] == c.log[..i]; }
    }
  }

  // ---- the invariant ----

  /** The charger's memory is what the history says. */
  ghost predicate Faithful(c: Charger, d: Digest) {
    && (c.sessionId == ZERO_SID || c.sessionId in d.minted)
    && (c.lastSessionId == ZERO_SID || c.lastSessionId in d.minted)
    && d.pause == (if c.lastSessionId == ZERO_SID then None else Some((c.lastSessionId, c.lastSessionEndMs)))
    && d.contract == c.dinContract
    && (c.lastSessionWasDc || c.resumeDcPending ==> d.cable)
    && (d.remembered.Some? ==> c.lastSessionId != ZERO_SID && c.lastSessionWasDc == d.remembered.value)
    && (d.granted.Some? ==> c.resumeDcPending == d.granted.value)
  }

  /** A stream between two frames. `settling`: its SessionSetup was admitted but not yet answered. */
  ghost predicate Running(c: Charger, s: Stream, d: Digest, settling: bool) {
    && Runs.After(d.steps) == Some(s.sequence)
    && (s.sequence.dcMode ==> d.cable)
    && d.setups <= 1
    && (d.setups == 0 <==> s.sequence.phase in {InAppProtocol, InSessionSetup} || settling)
    && (d.setups == 0 ==> Runs.Unresumed(d.steps))
    && (settling ==> s.sequence.phase == InServiceDiscovery)
    && (d.setups == 1 ==> d.settled == Some(c.sessionId))
    && !d.finished && !d.stopAnswered && !s.sawSessionStop && !c.terminateAfterResponse
    && (s.handledAny <==> d.handled > 0)
    && d.ignored <= MAX_UNDECODABLE * d.handled
  }

  /** The tolerance spent since the latest handled request. */
  ghost predicate Tallied(s: Stream, d: Digest) {
    s.undecodable <= MAX_UNDECODABLE &&
    (d.handled > 0 ==> d.ignored <= MAX_UNDECODABLE * (d.handled - 1) + s.undecodable)
  }

  /** A stream that was left: classified as stopped by the EV exactly when its SessionStopRes went out. */
  ghost predicate Left(s: Stream, d: Digest) {
    && d.ignored <= MAX_UNDECODABLE * d.handled
    && s.exit.Some?
    && s.sawSessionStop == d.stopAnswered
    && (d.stopAnswered ==> s.exit == Some(Done))
  }

  ghost predicate Sane(c: Conf) {
    var d := DigestOf(c.log);
    && AllSound(c.log)
    && Faithful(c.charger, d)
    && (if c.stream.exit.None?
        then Running(c.charger, c.stream, d, false) && Tallied(c.stream, d) && d.serving.None?
        else Left(c.stream, d))
  }

  /** Faithful, sound and still running: the state between the handler's steps. */
  ghost predicate Midway(c: Conf, settling: bool) {
    AllSound(c.log) && Faithful(c.charger, DigestOf(c.log)) && c.stream.exit.None? &&
    Running(c.charger, c.stream, DigestOf(c.log), settling) && c.stream.undecodable == 0
  }

  /** Between the gates and the handler. */
  ghost predicate Pending(c: Conf, r: Request) {
    var d := DigestOf(c.log);
    && AllSound(c.log)
    && Faithful(c.charger, d)
    && c.stream.exit.None? && Running(c.charger, c.stream, d, r.body.SessionSetup?)
    && c.stream.undecodable == 0
    && ValidateSession(c.charger, r) == Done
    && d.serving == Some(r)
    && (r.body.SessionSetup? ==> d.setups == 0)
    && (r.body.SupportedAppProtocol? ==> r.sid == [])
    && (!r.body.SessionSetup? ==> (d.setups == 0 <==> r.body.SupportedAppProtocol?))
  }

  // ---- the gates keep it ----

  /** What an acceptance says about the phase before and after. */
  lemma AcceptedPhases(s: SeqState, r: Request)
    requires OnRequest(s, r).Accepted?
    ensures var opening := {InAppProtocol, InSessionSetup};
      var t := OnRequest(s, r).next;
      && (r.body.SessionSetup? ==> s.phase in opening && t.phase == InServiceDiscovery)
      && (r.body.SupportedAppProtocol? ==> s.phase in opening && t.phase in opening)
      && (!r.body.SessionSetup? && !r.body.SupportedAppProtocol? ==>
            s.phase !in opening && t.phase !in opening)
      && (t.dcMode ==> s.dcMode || r.body.CableCheck?)
  {
  }

  lemma RefuseIsSane(c: Conf, r: Request, code: Code, env: Env, rc: Rc)
    requires AllSound(c.log) && Faithful(c.charger, DigestOf(c.log))
    requires var d := DigestOf(c.log);
      !d.finished && !d.stopAnswered && !c.stream.sawSessionStop && d.ignored <= MAX_UNDECODABLE * d.handled
    requires Refusal(code) && DigestOf(c.log).serving.None?
    ensures Sane(Refuse(c, r, code, env, rc))
  {
    hide DigestOf, AllSound, Sound, Update, Told, Faithful, Sane;
    match Told(c.charger, r, code, env.refusal)
    case None => LeavingIsSane(c, rc);
    case Some(e) =>
      ToldIsLast(c.charger, r, code, env.refusal);
      ToldIsSound(c.charger, DigestOf(c.log), e);
      NoteIsSound(c, e);
      LeavingIsSane(c.Note(e), rc);
  }

  lemma LeavingIsSane(c: Conf, rc: Rc)
    requires AllSound(c.log) && Faithful(c.charger, DigestOf(c.log))
    requires var d := DigestOf(c.log);
      !d.stopAnswered && !c.stream.sawSessionStop && d.ignored <= MAX_UNDECODABLE * d.handled
    ensures Sane(c.Leave(rc))
  {
    hide DigestOf, AllSound, Faithful;
  }

  lemma ToldIsLast(c: Charger, r: Request, code: Code, o: RefusalOutcome)
    requires Refusal(code) && Told(c, r, code, o).Some?
    ensures var e := Told(c, r, code, o).value; e == HeaderAlone || (e.Sent? && Refusal(e.response.code))
  {
  }

  /** An answer to a refused request is nothing but the last thing the stream sends. */
  lemma ToldIsSound(c: Charger, d: Digest, e: Event)
    requires !d.finished && d.serving.None? && (e == HeaderAlone || (e.Sent? && Refusal(e.response.code)))
    ensures Sound(d, e) && Update(d, e) == d.(finished := true)
    ensures Faithful(c, Update(d, e)) == Faithful(c, d)
  {
  }

  lemma AdmitIsSane(c: Conf, r: Request, env: Env)
    requires Midway(c, false) && DigestOf(c.log).serving.None?
    requires r.body.SupportedAppProtocol? ==> r.sid == []
    ensures var a := Admit(c, r, env);
      if a.stream.exit.None? then Pending(a, r) else Sane(a)
  {
    hide DigestOf, AllSound, OnRequest, Runs.After;
    var d := DigestOf(c.log);
    var v := OnRequest(c.stream.sequence, r);
    var gated := c.(stream := c.stream.(sequence := v.next));
    if v.Rejected? {
      RefuseIsSane(gated, r, FailedSequenceError, env, EPROTO);
    } else {
      AcceptedPhases(c.stream.sequence, r);
      Runs.AfterAppend(d.steps, Runs.Req(r));
      NoteIsSound(gated, Admitted(r));
      var admitted := gated.Note(Admitted(r));
      var rc := ValidateSession(c.charger, r);
      if rc == Done {
        NoteIsSound(admitted, Handed(r));
      } else {
        RefuseIsSane(admitted, r, FailedUnknownSession, env, rc);
      }
    }
  }

  // ---- the handler keeps it ----

  lemma MintIsSane(c: Conf, env: Env)
    requires Midway(c, c.stream.sequence.phase == InServiceDiscovery) && DigestOf(c.log).setups == 0
    ensures Midway(Mint(c, env), c.stream.sequence.phase == InServiceDiscovery)
    ensures var d, e := DigestOf(c.log), DigestOf(Mint(c, env).log);
      e == d.(minted := e.minted) && d.minted <= e.minted
  {
    hide DigestOf, AllSound, Runs.After;
    if env.minted.Some? {
      NoteIsSound(c.(charger := c.charger.(sessionId := env.minted.value)), Minted(env.minted.value));
    }
  }

  lemma SetupIsSane(cfg: Config, c: Conf, r: Request, env: Env)
    requires Pending(c, r) && r.body.SessionSetup?
    ensures var e := Effects(cfg, ResolveSetup(c, r, env), r, env);
      var d := DigestOf(e.log);
      && Midway(e, false)
      && d.setups == 1 && Runs.Unresumed(d.steps) && e.stream.sequence.phase == InServiceDiscovery
      && d.serving == Some(r) && d.joined == Resumable(c.charger, r.sid, env.now)
  {
    hide Midway, Pending, Resumable, DigestOf, Runs.Unresumed;
    if Resumable(c.charger, r.sid, env.now) { JoinIsSane(c, r, env); } else { NewSessionIsSane(c, r, env); }
  }

  /** A SessionSetup that has been settled. */
  ghost predicate SettledSetup(e: Conf, r: Request, joined: bool) {
    var d := DigestOf(e.log);
    && Midway(e.(charger := e.charger.(dinContract := None)), false)
    && d.setups == 1 && Runs.Unresumed(d.steps) && e.stream.sequence.phase == InServiceDiscovery
    && d.serving == Some(r) && d.joined == joined
  }

  lemma JoinIsSane(c: Conf, r: Request, env: Env)
    requires Pending(c, r) && r.body.SessionSetup? && Resumable(c.charger, r.sid, env.now)
    ensures SettledSetup(ResolveSetup(c, r, env), r, true)
  {
    hide DigestOf, AllSound, Runs.After, Runs.Unresumed, Update, Sound;
    JoinSettles(DigestOf(c.log), r, env.now);
    NoteIsSound(c, Settled(r.sid, r.sid, true, env.now));
  }

  lemma NewSessionIsSane(c: Conf, r: Request, env: Env)
    requires Pending(c, r) && r.body.SessionSetup? && !Resumable(c.charger, r.sid, env.now)
    ensures SettledSetup(ResolveSetup(c, r, env), r, false)
  {
    hide DigestOf, AllSound, Runs.After, Runs.Unresumed, Update, Sound;
    var n := c.(charger := c.charger.(resumeDcPending := false));
    var m := Mint(n, env);
    MintIsSane(c, env);
    NothingToJoin(c.charger, DigestOf(c.log), r, env.now);
    hide Resumable, WithinWindow;
    NewSessionSettles(DigestOf(m.log), r, m.charger.sessionId, env.now);
    NoteIsSound(m, Settled(r.sid, m.charger.sessionId, false, env.now));
  }

  lemma NothingToJoin(c: Charger, d: Digest, r: Request, now: int)
    requires Faithful(c, d) && !Resumable(c, r.sid, now)
    ensures !(d.pause.Some? && d.pause.value.0 == r.sid && WithinWindow(d.pause.value.1, now))
  {
  }

  /** What settling the SessionID adds to the digest. */
  lemma JoinSettles(d: Digest, r: Request, now: int)
    requires d.setups == 0 && d.serving == Some(r) && r.body.SessionSetup? && |r.sid| == 8
    requires r.sid in d.minted
    requires d.pause.Some? && d.pause.value.0 == r.sid && WithinWindow(d.pause.value.1, now)
    ensures var e := Settled(r.sid, r.sid, true, now);
      && Sound(d, e)
      && Update(d, e) == d.(setups := 1, settled := Some(r.sid), joined := true, contract := None, pause := None,
                            granted := d.remembered, remembered := None)
  {
  }

  lemma NewSessionSettles(d: Digest, r: Request, sid: Sid, now: int)
    requires d.setups == 0 && d.serving == Some(r) && r.body.SessionSetup?
    requires sid == ZERO_SID || sid in d.minted
    requires !(d.pause.Some? && d.pause.value.0 == r.sid && WithinWindow(d.pause.value.1, now))
    ensures var e := Settled(r.sid, sid, false, now);
      && Sound(d, e)
      && Update(d, e) == d.(setups := 1, settled := Some(sid), joined := false, contract := None,
                            granted := Some(false))
  {
  }

  /** Handler effects of everything but SessionSetup and SessionStop; only a refused payment option
      asks for send-then-terminate. */
  lemma OtherIsSane(cfg: Config, c: Conf, r: Request, env: Env)
    requires Pending(c, r) && !r.body.SessionSetup? && !r.body.SessionStop?
    requires DigestOf(c.log).setups == 0 <==> r.body.SupportedAppProtocol?
    ensures var e := Effects(cfg, ResolveOther(c, r, env), r, env);
      && Midway(e.(charger := e.charger.(terminateAfterResponse := false)), false)
      && (e.charger.terminateAfterResponse <==> r.body == PaymentServiceSelection(false))
      && DigestOf(e.log).serving == Some(r) && DigestOf(e.log).setups == DigestOf(c.log).setups
  {
    hide DigestOf, AllSound, Runs.After, Runs.Unresumed, DinOffer;
    if r.body.SupportedAppProtocol? {
      if c.charger.sessionId == ZERO_SID { MintIsSane(c, env); }
    } else if r.body.ServiceDiscovery? {
      DiscoveryIsSane(cfg, c, r, env);
    } else if r.body.PaymentDetails? || r.body.Authorization? {
      ConsultationIsSane(cfg, c, r, env);
    }
  }

  lemma ConsultationIsSane(cfg: Config, c: Conf, r: Request, env: Env)
    requires Pending(c, r) && (r.body.PaymentDetails? || r.body.Authorization?)
    ensures Midway(Effects(cfg, c, r, env), false)
    ensures Effects(cfg, c, r, env).charger == c.charger
    ensures DigestOf(Effects(cfg, c, r, env).log) == DigestOf(c.log)
  {
    hide DigestOf, AllSound, Runs.After, Runs.Unresumed, DinOffer;
    NoteIsSound(c, Consulted(env.authorized));
  }

  lemma DiscoveryIsSane(cfg: Config, c: Conf, r: Request, env: Env)
    requires Pending(c, r) && r.body.ServiceDiscovery?
    ensures Midway(Effects(cfg, c, r, env), false)
    ensures DigestOf(Effects(cfg, c, r, env).log).serving == Some(r)
    ensures DigestOf(Effects(cfg, c, r, env).log).setups == DigestOf(c.log).setups
  {
    hide DigestOf, AllSound, Runs.After, Runs.Unresumed, DinOffer;
    if r.protocol == Din {
      var offer := if env.encodeRc == Done then DinOffer(cfg) else None;
      NoteIsSound(c.(charger := c.charger.(dinContract := offer)),
                  if offer.Some? then Advertised(offer.value) else Withdrawn);
    }
  }

  // ---- sending keeps it ----

  /** Giving up before anything was sent. */
  lemma AbandonIsSane(c: Conf, rc: Rc)
    requires Midway(c.(charger := c.charger.(terminateAfterResponse := false)), false)
    ensures Sane(c.Leave(rc))
  {
    hide DigestOf, AllSound, Runs.After, Runs.Unresumed;
  }

  lemma OrdinaryRequest(c: Conf, r: Request)
    requires !r.body.SessionSetup? && !r.body.SessionStop?
    ensures r.body.Type() != SessionStopReq
    ensures AfterSend(c, r) == c.(stream := c.stream.(handledAny := true))
  {
  }

  lemma LastResponse(c: Conf, answer: Response)
    requires Midway(c.(charger := c.charger.(terminateAfterResponse := false)), false)
    requires answer.kind != SessionStopReq && Terminal(answer.code) && !Refusal(answer.code)
    requires Answers(DigestOf(c.log), answer)
    ensures Sane(c.Note(Sent(answer)).(charger := c.charger.(terminateAfterResponse := false)).Leave(ESHUTDOWN))
  {
    hide DigestOf, AllSound, Runs.After, Runs.Unresumed, Update, Sound, Terminal, Answers;
    LastSent(DigestOf(c.log), answer);
    NoteIsSound(c, Sent(answer));
  }

  lemma OrdinaryResponse(c: Conf, answer: Response)
    requires Midway(c, false)
    requires answer.kind != SessionStopReq && !Terminal(answer.code) && Answers(DigestOf(c.log), answer)
    ensures Sane(c.Note(Sent(answer)).(stream := c.stream.(handledAny := true)))
  {
    hide DigestOf, AllSound, Runs.After, Runs.Unresumed, Update, Sound, Terminal, Answers;
    OrdinarySent(DigestOf(c.log), answer);
    NoteIsSound(c, Sent(answer));
  }

  lemma FinishOther(c: Conf, r: Request, env: Env, answer: Response)
    requires Midway(c.(charger := c.charger.(terminateAfterResponse := false)), false)
    requires !r.body.SessionSetup? && !r.body.SessionStop? && answer.kind == r.body.Type()
    requires c.charger.terminateAfterResponse <==> Terminal(answer.code)
    requires Answers(DigestOf(c.log), answer) && !Refusal(answer.code)
    ensures Sane(Finish(c, r, env, answer))
  {
    hide Midway, Sane, HandlerRc, AfterSend, Terminal, Answers;
    AbandonIsSane(c, HandlerRc(r, env));
    AbandonIsSane(c, EIO);
    AbandonIsSane(c, env.sendRc);
    OrdinaryRequest(c.Note(Sent(answer)), r);
    if c.charger.terminateAfterResponse {
      LastResponse(c, answer);
    } else {
      assert c.(charger := c.charger.(terminateAfterResponse := false)) == c;
      OrdinaryResponse(c, answer);
    }
  }

  /** What a response other than SessionStopRes(OK) adds to the digest. */
  lemma OrdinarySent(d: Digest, r: Response)
    requires !d.finished && r.kind != SessionStopReq && !Terminal(r.code) && Answers(d, r)
    ensures Sound(d, Sent(r)) && Update(d, Sent(r)) == d.(serving := None, handled := d.handled + 1)
  {
  }

  lemma LastSent(d: Digest, r: Response)
    requires !d.finished && r.kind != SessionStopReq && Terminal(r.code) && !Refusal(r.code) && Answers(d, r)
    ensures Sound(d, Sent(r)) && Update(d, Sent(r)) == d.(serving := None, finished := true)
  {
  }

  /** What the sequencer's mode after SessionSetup adds. */
  lemma ModeUpdates(d: Digest, dc: bool)
    requires (dc ==> d.cable) && (d.granted.Some? ==> dc == d.granted.value)
    ensures Sound(d, SequenceMode(dc))
    ensures Update(d, SequenceMode(dc)) ==
      d.(granted := None, steps := if dc then d.steps + [Runs.ResumeDc] else d.steps)
  {
  }

  /** Before any resume, and before charge parameters, no mode is known. */
  lemma UnresumedIsNotDc(steps: seq<Runs.Step>)
    requires Runs.After(steps).Some? && Runs.Unresumed(steps)
    requires Runs.After(steps).value.phase == InServiceDiscovery
    ensures !Runs.After(steps).value.dcMode
  {
    Runs.RunIsConsistent(steps);
  }

  lemma ResumeApplies(steps: seq<Runs.Step>)
    requires Runs.After(steps).Some? && Runs.After(steps).value.phase == InServiceDiscovery
    ensures Runs.After(steps + [Runs.ResumeDc]) ==
      Some(Runs.After(steps).value.(dcMode := true, modeKnown := true))
  {
    Runs.AfterAppend(steps, Runs.ResumeDc);
  }

  lemma SetupResponse(c: Conf, r: Request, answer: Response)
    requires Midway(c, false) && DigestOf(c.log).setups == 1
    requires Runs.Unresumed(DigestOf(c.log).steps) && c.stream.sequence.phase == InServiceDiscovery
    requires r.body.SessionSetup? && answer.kind == SessionSetupReq && !Terminal(answer.code)
    requires Answers(DigestOf(c.log), answer)
    ensures Sane(AfterSend(c.Note(Sent(answer)), r))
  {
    hide DigestOf, AllSound, Runs.After, Runs.Unresumed, Update, Sound, Answers;
    OrdinarySent(DigestOf(c.log), answer);
    NoteIsSound(c, Sent(answer));
    var sent := c.Note(Sent(answer));
    var d := DigestOf(sent.log);
    ModeUpdates(d, sent.charger.resumeDcPending);
    UnresumedIsNotDc(d.steps);
    ResumeApplies(d.steps);
    NoteIsSound(sent, SequenceMode(sent.charger.resumeDcPending));
  }

  lemma FinishSetup(c: Conf, r: Request, env: Env, answer: Response)
    requires Midway(c, false) && DigestOf(c.log).setups == 1
    requires Runs.Unresumed(DigestOf(c.log).steps) && c.stream.sequence.phase == InServiceDiscovery
    requires r.body.SessionSetup? && answer.kind == SessionSetupReq && !Terminal(answer.code)
    requires Answers(DigestOf(c.log), answer)
    ensures Sane(Finish(c, r, env, answer))
  {
    hide Sane, HandlerRc, AfterSend, DigestOf, Runs.After, Runs.Unresumed, Answers;
    assert !c.charger.terminateAfterResponse;
    assert c.(charger := c.charger.(terminateAfterResponse := false)) == c;
    AbandonIsSane(c, HandlerRc(r, env));
    AbandonIsSane(c, EIO);
    AbandonIsSane(c, env.sendRc);
    SetupResponse(c, r, answer);
  }

  /** A session just stopped: everything still runs, except that no SessionID is live any more. */
  ghost predicate Stopping(c: Conf) {
    var d := DigestOf(c.log);
    && AllSound(c.log) && Faithful(c.charger, d) && c.stream.exit.None? && d.setups == 1
    && (d.unanswered.Some? ==> c.charger.lastSessionId != ZERO_SID)
    && (d.unanswered.Some? ==> d.unanswered.value == (c.stream.sequence.modeKnown && c.stream.sequence.dcMode))
    && d.settled.Some? && Running(c.charger.(sessionId := d.settled.value), c.stream, d, false)
  }

  lemma StopIsSane(cfg: Config, c: Conf, r: Request, env: Env)
    requires Pending(c, r) && r.body.SessionStop? && DigestOf(c.log).setups == 1
    ensures Stopping(Effects(cfg, c, r, env))
    ensures var d := DigestOf(Effects(cfg, c, r, env).log);
      d.serving == Some(r) && d.settled == Some(c.charger.sessionId)
  {
    hide DigestOf, AllSound, Runs.After, Runs.Unresumed;
    var d := DigestOf(c.log);
    DcIsKnown(d.steps);
    if r.protocol != Din && r.body.pause {
      NoteIsSound(c, Paused(c.charger.sessionId, env.now, c.stream.sequence.modeKnown && c.stream.sequence.dcMode));
    } else {
      NoteIsSound(c, Stopped);
    }
  }

  lemma DcIsKnown(steps: seq<Runs.Step>)
    requires Runs.After(steps).Some?
    ensures Runs.After(steps).value.dcMode ==> Runs.After(steps).value.modeKnown
  {
    Runs.RunIsConsistent(steps);
  }

  lemma AbandonStopIsSane(c: Conf, rc: Rc)
    requires Stopping(c)
    ensures Sane(c.Leave(rc))
  {
    hide DigestOf, AllSound, Runs.After, Runs.Unresumed;
  }

  /** What SessionStopRes(OK) adds to the digest. */
  lemma StopSent(d: Digest, r: Response)
    requires !d.finished && IsStopRes(r) && Answers(d, r)
    ensures Sound(d, Sent(r))
    ensures Update(d, Sent(r)) ==
      d.(serving := None, handled := d.handled + 1, stopAnswered := true, remembered := d.unanswered,
         unanswered := None)
  {
  }

  lemma StopResponse(c: Conf, r: Request, answer: Response)
    requires Stopping(c) && r.body.SessionStop? && IsStopRes(answer) && Answers(DigestOf(c.log), answer)
    ensures Sane(AfterSend(c.Note(Sent(answer)), r))
  {
    hide DigestOf, AllSound, Runs.After, Runs.Unresumed, Update, Sound, IsStopRes, Answers;
    StopSent(DigestOf(c.log), answer);
    NoteIsSound(c, Sent(answer));
  }

  lemma FinishStop(c: Conf, r: Request, env: Env, answer: Response)
    requires Stopping(c)
    requires r.body.SessionStop? && answer.kind == SessionStopReq && answer.code == OK
    requires Answers(DigestOf(c.log), answer)
    ensures Sane(Finish(c, r, env, answer))
  {
    assert !c.charger.terminateAfterResponse;
    hide Sane, HandlerRc, AfterSend, Stopping, Answers;
    AbandonStopIsSane(c, HandlerRc(r, env));
    AbandonStopIsSane(c, EIO);
    AbandonStopIsSane(c, env.sendRc);
    StopResponse(c, r, answer);
  }

  // ---- the loop keeps it ----

  lemma LeaveIsSane(c: Conf, rc: Rc)
    requires Sane(c) && c.stream.exit.None?
    ensures Sane(c.Leave(rc))
  {
    hide DigestOf, AllSound, Runs.After, Runs.Unresumed;
  }

  lemma IgnoreIsSane(c: Conf)
    requires Sane(c) && c.stream.exit.None? && c.stream.handledAny && c.stream.undecodable < MAX_UNDECODABLE
    ensures Sane(c.(stream := c.stream.(undecodable := c.stream.undecodable + 1)).Note(Ignored))
  {
    hide DigestOf, AllSound, Runs.After, Runs.Unresumed;
    NoteIsSound(c, Ignored);
  }

  lemma SetupIsAnswered(cfg: Config, c: Conf, r: Request, env: Env)
    requires Pending(c, r) && r.body.SessionSetup?
    ensures var resolved := ResolveSetup(c, r, env);
      var joined := Resumable(c.charger, r.sid, env.now);
      Answers(DigestOf(Effects(cfg, resolved, r, env).log),
              Response(r.body.Type(), resolved.charger.sessionId, Answer(cfg, resolved.charger, r, env, joined)))
  {
    hide DigestOf, AllSound, Pending, Resumable, Runs.After, Runs.Unresumed;
    SetupIsSane(cfg, c, r, env);
    hide ResolveSetup;
  }

  lemma StopIsAnswered(d: Digest, r: Request, answer: Response)
    requires r.body.SessionStop? && d.serving == Some(r) && d.settled == Some(answer.sid)
    requires answer.kind == SessionStopReq && answer.code == OK
    ensures Answers(d, answer)
  {
  }

  lemma OtherIsAnswered(cfg: Config, c: Conf, r: Request, env: Env)
    requires Pending(c, r) && !r.body.SessionSetup? && !r.body.SessionStop?
    ensures var resolved := ResolveOther(c, r, env);
      var answer := Response(r.body.Type(), resolved.charger.sessionId, Answer(cfg, resolved.charger, r, env, false));
      !Refusal(answer.code) && Answers(DigestOf(Effects(cfg, resolved, r, env).log), answer)
  {
    hide DigestOf, AllSound, Runs.After, Runs.Unresumed, IsoModeSupported, AppSelection.Negotiate, DinOffer;
    OtherIsSane(cfg, c, r, env);
    var resolved := ResolveOther(c, r, env);
    var e := Effects(cfg, resolved, r, env);
    if !r.body.SupportedAppProtocol? {
      assert resolved == c && e.charger.sessionId == c.charger.sessionId;
    }
    hide Pending, ResolveOther;
    OtherAnswer(cfg, resolved.charger, r, env);
    hide Answer;
  }

  /** The codes of the handler, as far as they matter here. */
  lemma OtherAnswer(cfg: Config, s: Charger, r: Request, env: Env)
    requires !r.body.SessionSetup?
    ensures Answer(cfg, s, r, env, false) !in
            {OkNewSession, OkOldSessionJoined, FailedSequenceError, FailedUnknownSession}
    ensures r.body.ChargeParameterDiscovery? && r.protocol == Din ==>
      (Answer(cfg, s, r, env, false) == OK <==> DinModeAgreed(s, r.body.energyType))
  {
    hide IsoModeSupported, AppSelection.Negotiate, DinOffer;
  }

  lemma ServeIsSane(cfg: Config, c: Conf, r: Request, env: Env)
    requires Pending(c, r)
    ensures Sane(Serve(cfg, c, r, env))
  {
    hide DigestOf, AllSound, Runs.After, Runs.Unresumed, Midway, Finish, Sane, Stopping, Faithful, Answers;
    var resolved := Resolve(c, r, env);
    var joined := r.body.SessionSetup? && Resumable(c.charger, r.sid, env.now);
    var answer := Response(r.body.Type(), resolved.charger.sessionId,
                           Answer(cfg, resolved.charger, r, env, joined));
    var done := Effects(cfg, resolved, r, env);
    if r.body.SessionSetup? {
      SetupIsSane(cfg, c, r, env);
      SetupIsAnswered(cfg, c, r, env);
      FinishSetup(done, r, env, answer);
    } else if r.body.SessionStop? {
      StopIsSane(cfg, c, r, env);
      StopIsAnswered(DigestOf(done.log), r, answer);
      FinishStop(done, r, env, answer);
    } else {
      OtherIsSane(cfg, c, r, env);
      OtherIsAnswered(cfg, c, r, env);
      FinishOther(done, r, env, answer);
    }
  }

  lemma ReceiveIsSane(cfg: Config, c: Conf, rx: Received)
    requires Sane(c)
    ensures Sane(Receive(cfg, c, rx))
  {
    hide DigestOf, AllSound, Admit, Serve, AppSelection.Negotiate;
    if c.stream.exit.None? {
      match rx
      case RecvFailed(rc) =>
        LeaveIsSane(c, rc);
        LeaveIsSane(c, Done);
      case ForeignPayload =>
        LeaveIsSane(c, EBADMSG);
      case Exi(_, _, _, env) =>
        match Decode(cfg, c.stream.protocol, rx)
        case None =>
          if c.stream.handledAny && c.stream.undecodable < MAX_UNDECODABLE { IgnoreIsSane(c); }
          LeaveIsSane(c, EBADMSG);
        case Some(r) =>
          var ready := c.(stream := c.stream.(protocol := r.protocol, undecodable := 0));
          AdmitIsSane(ready, r, env);
          if Admit(ready, r, env).stream.exit.None? {
            ServeIsSane(cfg, Admit(ready, r, env), r, env);
          }
    }
  }

  lemma {:induction false} ReceiveAllIsSane(cfg: Config, c: Conf, script: seq<Received>)
    requires Sane(c)
    ensures Sane(ReceiveAll(cfg, c, script))
    decreases |script|
  {
    hide Sane, Receive;
    if script != [] {
      ReceiveIsSane(cfg, c, script[0]);
      ReceiveAllIsSane(cfg, Receive(cfg, c, script[0]), script[1..]);
    }
  }

  lemma OpenIsSane(c: Conf)
    requires Sane(c)
    ensures Sane(Open(c))
  {
    hide DigestOf, AllSound;
    NoteIsSound(Conf(c.charger.(terminateAfterResponse := false), NEW_STREAM, c.log), Opened);
  }

  lemma RetireIsSane(c: Conf)
    requires Sane(c) && c.stream.exit.Some?
    ensures Sane(Retire(c))
  {
    hide DigestOf, AllSound;
    NoteIsSound(c.(charger := c.charger.(sessionId := ZERO_SID, dinContract := None)), Retired);
  }

  /** Every history of every charger is sound, and the charger's memory agrees with it. */
  lemma {:induction false} LifeIsSane(cfg: Config, acts: seq<Act>)
    ensures Sane(Live(cfg, acts)) && Live(cfg, acts).stream.exit.Some?
  {
    hide Sane, Receive, ReceiveAll, Open, Retire;
    if acts == [] {
      PowerUpIsSane();
    } else {
      var before := acts[..|acts| - 1];
      LifeIsSane(cfg, before);
      var c := Live(cfg, before);
      match acts[|acts| - 1]
      case Connection(script) =>
        OpenIsSane(c);
        ReceiveAllIsSane(cfg, Open(c), script);
        ReceiveIsSane(cfg, ReceiveAll(cfg, Open(c), script), RecvFailed(ETIMEDOUT));
        TimeoutLeaves(cfg, ReceiveAll(cfg, Open(c), script));
      case Retirement =>
        RetireIsSane(c);
        RetireStaysLeft(c);
    }
  }

  lemma PowerUpIsSane()
    ensures Sane(Conf(POWER_UP, NEW_STREAM.(exit := Some(Done)), []))
  {
  }

  lemma TimeoutLeaves(cfg: Config, c: Conf)
    ensures Receive(cfg, c, RecvFailed(ETIMEDOUT)).stream.exit.Some?
  {
  }

  lemma RetireStaysLeft(c: Conf)
    ensures Retire(c).stream == c.stream
  {
  }
}
