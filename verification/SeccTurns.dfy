/** What every request of the -2/DIN engine comes to once it is handed on: what it changes, and what it is answered. */
module SeccTurns {
  import opened Messages
  import opened Sequencer
  import opened SeccModel
  import AppSelection
  import Theorems = SeccTheorems

  // ---- the SessionID that is live ----

  function SidAfter(sid: Sid, e: Event): Sid {
    match e
    case Minted(s) => s
    case Adopted(s) => s
    case Settled(_, s, _, _) => s
    case Paused(_, _, _) => ZERO_SID
    case Stopped => ZERO_SID
    case Retired => ZERO_SID
    case _ => sid
  }

  /** What was last generated, adopted or settled, unless a SessionStop or a retirement came after it. */
  function LiveSid(log: seq<Event>): Sid {
    if log == [] then ZERO_SID else SidAfter(LiveSid(log[..|log| - 1]), log[|log| - 1])
  }

  lemma LiveSidNotes(log: seq<Event>, e: Event)
    ensures LiveSid(log + [e]) == SidAfter(LiveSid(log), e)
  {
    assert (log + [e])[..|log|] == log;
  }

  // ---- what is due on a request ----

  /** Events that only come about while a request is handled. */
  predicate Inner(e: Event) {
    e.Minted? || e.Adopted? || e.Settled? || e.Consulted? || e.Paused? || e.Stopped? || e.Advertised? || e.Withdrawn?
  }

  /** DIN offers the best DC type that is configured. */
  predicate BestDinType(cfg: Config, t: nat) { t in cfg.energyModes && (t == 3 || (t == 2 && 3 !in cfg.energyModes)) }

  /** What handling a request changes. `live` is the SessionID it found. */
  ghost predicate Due(cfg: Config, r: Request, told: seq<Event>, live: Sid) {
    match r.body
    case SupportedAppProtocol(_) => told == [] || (live == ZERO_SID && |told| == 1 && told[0].Minted?)
    case SessionSetup =>
      if |told| == 1 then
        told[0].Settled? && told[0].presented == r.sid && told[0].sid == (if told[0].joined then r.sid else live)
      else
        |told| == 2 && told[0].Minted? && told[1].Settled? && told[1].presented == r.sid && !told[1].joined &&
        told[1].sid == told[0].sid
    case ServiceDiscovery =>
      if r.protocol != Din then told == []
      else told == [Withdrawn] || (|told| == 1 && told[0].Advertised? && BestDinType(cfg, told[0].energyType))
    case PaymentDetails => |told| == 1 && told[0].Consulted?
    case Authorization => |told| == 1 && told[0].Consulted?
    case SessionStop(pause) =>
      && |told| == 1
      && if r.protocol != Din && pause then told[0].Paused? && told[0].sid == r.sid else told[0] == Stopped
    case _ => told == []
  }

  /** The code it is answered with. */
  ghost predicate CodeDue(cfg: Config, r: Request, told: seq<Event>, code: Code) {
    match r.body
    case SupportedAppProtocol(offers) =>
      exists s {:trigger AppSelection.Correct(offers, cfg.protocolMask, s)} ::
        AppSelection.Correct(offers, cfg.protocolMask, s) && code == Sapp(s.code)
    case SessionSetup =>
      told != [] && var e := told[|told| - 1];
      e.Settled? && code == (if e.joined then OkOldSessionJoined else OkNewSession)
    case ServiceDiscovery =>
      if r.protocol == Din && cfg.energyModes !! {2, 3} then code == Failed && told == [Withdrawn]
      else code == OK && (r.protocol == Din ==> |told| == 1 && told[0].Advertised?)
    case PaymentServiceSelection(external) => code == (if external then OK else FailedPaymentSelectionInvalid)
    case PaymentDetails => |told| == 1 && told[0].Consulted? && code == (if told[0].authorized then OK else Failed)
    case Authorization => |told| == 1 && told[0].Consulted? && code == (if told[0].authorized then OK else Failed)
    case ChargeParameterDiscovery(mode) =>
      if r.protocol == Din then code in {OK, FailedWrongEnergyTransfer}
      else
        code == (if 2 <= mode <= 5 && (mode in cfg.energyModes || (mode == 2 && cfg.energyModes !! {2, 3, 4, 5}))
                 then OK else FailedWrongEnergyTransfer)
    case CableCheck => code == Failed
    case ChargingStatus => code == OK && r.protocol != Din
    case _ => code == OK
  }

  /** A response that is due: it names the request's kind, carries the SessionID that is live by then (that of the
      session for SessionStop) and has the due code. */
  ghost predicate AnswerDue(cfg: Config, r: Request, told: seq<Event>, live: Sid, a: Response) {
    && a.kind == r.body.Type()
    && a.sid == (if r.body.SessionStop? then r.sid else live)
    && CodeDue(cfg, r, told, a.code)
  }

  // ---- serving one request ----

  /** What handling changes, spelled out. */
  ghost function ToldOf(cfg: Config, c: Conf, r: Request, env: Env): seq<Event> {
    match r.body
    case SupportedAppProtocol(_) =>
      if c.charger.sessionId == ZERO_SID && env.minted.Some? then [Minted(env.minted.value)] else []
    case SessionSetup =>
      if Resumable(c.charger, r.sid, env.now) then [Settled(r.sid, r.sid, true, env.now)]
      else if env.minted.Some? then [Minted(env.minted.value), Settled(r.sid, env.minted.value, false, env.now)]
      else [Settled(r.sid, c.charger.sessionId, false, env.now)]
    case ServiceDiscovery =>
      if r.protocol != Din then []
      else if env.encodeRc == Done && DinOffer(cfg).Some? then [Advertised(DinOffer(cfg).value)] else [Withdrawn]
    case PaymentDetails => [Consulted(env.authorized)]
    case Authorization => [Consulted(env.authorized)]
    case SessionStop(pause) =>
      if r.protocol != Din && pause
      then [Paused(c.charger.sessionId, env.now, c.stream.sequence.modeKnown && c.stream.sequence.dcMode)]
      else [Stopped]
    case _ => []
  }

  /** A request that the gates have let through. */
  ghost predicate Ready(c: Conf, r: Request) {
    && ValidateSession(c.charger, r) == Done && c.stream.exit.None? && !c.charger.terminateAfterResponse
    && (r.body.SupportedAppProtocol? ==> r.sid == []) && c.charger.sessionId == LiveSid(c.log)
  }

  lemma ToldIsDue(cfg: Config, c: Conf, r: Request, env: Env)
    requires Ready(c, r)
    ensures Due(cfg, r, ToldOf(cfg, c, r, env), LiveSid(c.log))
    ensures forall e :: e in ToldOf(cfg, c, r, env) ==> Inner(e)
    ensures !r.body.SupportedAppProtocol? && !r.body.SessionSetup? ==> r.sid == LiveSid(c.log) != ZERO_SID
  {
    hide LiveSid;
  }

  lemma HandlingTells(cfg: Config, c: Conf, r: Request, env: Env)
    requires Ready(c, r)
    ensures var d := Effects(cfg, Resolve(c, r, env), r, env);
      && d.log == c.log + ToldOf(cfg, c, r, env) && d.stream == c.stream && d.stream.exit.None?
      && (r.body.SessionSetup? ==> !d.charger.terminateAfterResponse)
      && d.charger.sessionId == (if r.body.SessionStop? then ZERO_SID else Resolve(c, r, env).charger.sessionId)
  {
    hide LiveSid, DinOffer, Resumable;
    match r.body
    case SupportedAppProtocol(_) =>
    case SessionSetup =>
    case SessionStop(_) =>
    case _ =>
  }

  lemma AnswerIsDue(cfg: Config, c: Conf, r: Request, env: Env)
    requires Ready(c, r) && HandlerRc(r, env) == Done
    ensures var s := Resolve(c, r, env).charger;
      var joined := r.body.SessionSetup? && Resumable(c.charger, r.sid, env.now);
      CodeDue(cfg, r, ToldOf(cfg, c, r, env), Answer(cfg, s, r, env, joined))
  {
    hide LiveSid, Resumable;
    match r.body
    case SupportedAppProtocol(offers) =>
      assert AppSelection.Correct(offers, cfg.protocolMask, AppSelection.Negotiate(offers, cfg.protocolMask));
    case ChargeParameterDiscovery(_) =>
    case _ =>
  }

  lemma ToldLeavesSid(cfg: Config, c: Conf, r: Request, env: Env)
    requires Ready(c, r)
    ensures LiveSid(c.log + ToldOf(cfg, c, r, env)) ==
      (if r.body.SessionStop? then ZERO_SID else Resolve(c, r, env).charger.sessionId)
    ensures r.body.SessionStop? ==> Resolve(c, r, env).charger.sessionId == r.sid
  {
    hide LiveSid, Resumable, DinOffer;
    var told := ToldOf(cfg, c, r, env);
    if |told| == 0 {
      assert c.log + told == c.log;
    } else if |told| == 1 {
      LiveSidNotes(c.log, told[0]);
      assert told == [told[0]];
    } else {
      LiveSidNotes(c.log, told[0]);
      LiveSidNotes(c.log + [told[0]], told[1]);
      assert c.log + told == c.log + [told[0]] + [told[1]];
    }
  }

  /** A request was served: the log goes on with what is due, then either with the answer, and after a SessionSetup
      with the sequencer's mode, or with nothing, the stream being left. */
  ghost predicate Served(cfg: Config, c: Conf, r: Request, x: Conf) {
    exists told :: ServedBy(cfg, c, r, x, told)
  }

  ghost predicate ServedBy(cfg: Config, c: Conf, r: Request, x: Conf, told: seq<Event>) {
    var silent := c.log + told;
    && (forall e :: e in told ==> Inner(e))
    && Due(cfg, r, told, LiveSid(c.log))
    && (!r.body.SupportedAppProtocol? && !r.body.SessionSetup? ==> r.sid == LiveSid(c.log) != ZERO_SID)
    && x.charger.sessionId == LiveSid(silent)
    && (x.stream.exit.None? ==> !x.charger.terminateAfterResponse)
    && if |x.log| == |silent| then x.log == silent && x.stream.exit.Some?
       else
         && |x.log| > |silent| && x.log[..|silent|] == silent && x.log[|silent|].Sent?
         && AnswerDue(cfg, r, told, LiveSid(silent), x.log[|silent|].response)
         && (if r.body.SessionSetup? then |x.log| == |silent| + 2 && x.log[|silent| + 1].SequenceMode?
             else |x.log| == |silent| + 1)
  }

  lemma ServesAsDue(cfg: Config, c: Conf, r: Request, env: Env)
    requires Ready(c, r)
    ensures Served(cfg, c, r, Serve(cfg, c, r, env))
  {
    hide Ready, Resolve, Effects, Answer, Resumable, HandlerRc, Due, CodeDue, ToldOf, LiveSid, Inner, AfterSend;
    var told := ToldOf(cfg, c, r, env);
    var s := Resolve(c, r, env).charger;
    var joined := r.body.SessionSetup? && Resumable(c.charger, r.sid, env.now);
    var a := Response(r.body.Type(), s.sessionId, Answer(cfg, s, r, env, joined));
    var done := Effects(cfg, Resolve(c, r, env), r, env);
    ToldIsDue(cfg, c, r, env);
    HandlingTells(cfg, c, r, env);
    ToldLeavesSid(cfg, c, r, env);
    if HandlerRc(r, env) == Done { AnswerIsDue(cfg, c, r, env); }
    Finishes(done, r, env, a);
    assert ServedBy(cfg, c, r, Finish(done, r, env, a), told);
  }

  /** The end of a turn: nothing sent and the stream left, or the answer sent. */
  lemma Finishes(c: Conf, r: Request, env: Env, a: Response)
    requires c.stream.exit.None? && (r.body.SessionSetup? ==> !c.charger.terminateAfterResponse)
    ensures var x := Finish(c, r, env, a);
      && x.charger.sessionId == c.charger.sessionId
      && (x.stream.exit.None? ==> !x.charger.terminateAfterResponse)
      && if |x.log| == |c.log| then x.log == c.log && x.stream.exit.Some?
         else
           && HandlerRc(r, env) == Done
           && |x.log| > |c.log| && x.log[..|c.log|] == c.log && x.log[|c.log|] == Sent(a)
           && (if r.body.SessionSetup? then |x.log| == |c.log| + 2 && x.log[|c.log| + 1].SequenceMode?
               else |x.log| == |c.log| + 1)
  {
    hide HandlerRc;
  }

  // ---- whole histories ----

  predicate Refusal(code: Code) { code in {FailedSequenceError, FailedUnknownSession} }

  /** The request handed on at h comes to what is due and is answered at n; or it is not answered, and the stream
      ends at n. */
  ghost predicate Turn(cfg: Config, log: seq<Event>, h: nat, n: nat) {
    && h < n <= |log| && log[h].Handed?
    && (forall k :: h < k < n ==> Inner(log[k]))
    && var (r, told) := (log[h].request, log[h + 1..n]);
       && Due(cfg, r, told, LiveSid(log[..h]))
       && (!r.body.SupportedAppProtocol? && !r.body.SessionSetup? ==> r.sid == LiveSid(log[..h]) != ZERO_SID)
       && (n == |log| || log[n] in {Opened, Retired} ||
           (log[n].Sent? && AnswerDue(cfg, r, told, LiveSid(log[..n]), log[n].response)))
  }

  /** Every request handed on comes to its turn, and nothing that a turn brings about comes about otherwise.
      `closed`: no turn is open at the end. */
  ghost predicate Accounted(cfg: Config, log: seq<Event>, closed: bool) {
    && (forall h: nat :: h < |log| && log[h].Handed? ==>
          exists n: nat :: Turn(cfg, log, h, n) && (closed ==> n < |log|))
    && (forall k: nat :: k < |log| && Inner(log[k]) ==>
          exists h: nat, n: nat :: Turn(cfg, log, h, n) && h < k < n && (closed ==> n < |log|))
    && (forall n: nat :: n < |log| && log[n].Sent? && !Refusal(log[n].response.code) ==>
          exists h: nat :: Turn(cfg, log, h, n))
  }

  lemma TurnStays(cfg: Config, log: seq<Event>, more: seq<Event>, h: nat, n: nat)
    requires Turn(cfg, log, h, n) && (n < |log| || more == [] || more[0] in {Opened, Retired})
    ensures Turn(cfg, log + more, h, n)
  {
    hide Due, AnswerDue, LiveSid, Inner;
    var all := log + more;
    assert all[h + 1..n] == log[h + 1..n] && all[..h] == log[..h] && all[..n] == log[..n];
    assert forall k :: h < k < n ==> all[k] == log[k];
  }

  lemma TurnsStay(cfg: Config, log: seq<Event>, more: seq<Event>, closed: bool)
    requires Accounted(cfg, log, closed) && (closed || more == [] || more[0] in {Opened, Retired})
    ensures var all := log + more;
      && (forall h: nat :: h < |log| && log[h].Handed? ==>
            exists n: nat :: Turn(cfg, all, h, n) && n <= |log| && (closed ==> n < |log|))
      && (forall k: nat :: k < |log| && Inner(log[k]) ==>
            exists h: nat, n: nat :: Turn(cfg, all, h, n) && h < k < n <= |log| && (closed ==> n < |log|))
      && (forall n: nat :: n < |log| && log[n].Sent? && !Refusal(log[n].response.code) ==>
            exists h: nat :: Turn(cfg, all, h, n))
  {
    hide Turn, Inner, Refusal;
    var all := log + more;
    forall h: nat | h < |log| && log[h].Handed?
      ensures exists n: nat :: Turn(cfg, all, h, n) && n <= |log| && (closed ==> n < |log|)
    {
      var n: nat :| Turn(cfg, log, h, n) && (closed ==> n < |log|);
      TurnInside(cfg, log, h, n);
      TurnStays(cfg, log, more, h, n);
    }
    forall k: nat | k < |log| && Inner(log[k])
      ensures exists h: nat, n: nat :: Turn(cfg, all, h, n) && h < k < n <= |log| && (closed ==> n < |log|)
    {
      var h: nat, n: nat :| Turn(cfg, log, h, n) && h < k < n && (closed ==> n < |log|);
      TurnInside(cfg, log, h, n);
      TurnStays(cfg, log, more, h, n);
    }
    forall n: nat | n < |log| && log[n].Sent? && !Refusal(log[n].response.code)
      ensures exists h: nat :: Turn(cfg, all, h, n)
    {
      var h: nat :| Turn(cfg, log, h, n);
      TurnStays(cfg, log, more, h, n);
    }
  }

  lemma TurnInside(cfg: Config, log: seq<Event>, h: nat, n: nat)
    requires Turn(cfg, log, h, n)
    ensures h < n <= |log| && log[h].Handed?
  {
  }

  /** Events between the turns. */
  predicate Between(e: Event) { !e.Handed? && !Inner(e) && (e.Sent? ==> Refusal(e.response.code)) }

  lemma MoreIsAccounted(cfg: Config, log: seq<Event>, e: Event, closed: bool)
    requires Accounted(cfg, log, closed) && Between(e) && (closed || e in {Opened, Retired})
    ensures Accounted(cfg, log + [e], true)
  {
    hide Turn, Inner, Refusal;
    TurnsStay(cfg, log, [e], closed);
  }

  lemma ServingIsAccounted(cfg: Config, c: Conf, r: Request, x: Conf)
    requires Accounted(cfg, c.log, true) && Served(cfg, c.Note(Handed(r)), r, x)
    ensures Accounted(cfg, x.log, x.stream.exit.None?)
  {
    hide Accounted, ServedBy;
    var told :| ServedBy(cfg, c.Note(Handed(r)), r, x, told);
    NewTurn(cfg, c, r, x, told);
    TurnAdds(cfg, c.log, r, x.log, told, x.stream.exit.None?);
  }

  lemma NewTurn(cfg: Config, c: Conf, r: Request, x: Conf, told: seq<Event>)
    requires ServedBy(cfg, c.Note(Handed(r)), r, x, told)
    ensures var (h, n) := (|c.log|, |c.log| + 1 + |told|);
      && n <= |x.log| <= n + 2 && x.log[..n] == c.log + [Handed(r)] + told && Turn(cfg, x.log, h, n)
      && (forall e :: e in told ==> Inner(e))
      && (x.stream.exit.None? ==> n < |x.log|)
      && (|x.log| == n + 2 ==> x.log[n + 1].SequenceMode?)
      && (n < |x.log| ==> x.log[n].Sent?)
  {
    hide Due, AnswerDue, LiveSid, Inner;
    var (h, n) := (|c.log|, |c.log| + 1 + |told|);
    LiveSidNotes(c.log, Handed(r));
    assert x.log[..n] == c.log + [Handed(r)] + told;
    assert x.log[..h] == x.log[..n][..h] == c.log && x.log[h + 1..n] == x.log[..n][h + 1..] == told;
    assert x.log[h] == x.log[..n][h];
    forall k | h < k < n ensures Inner(x.log[k]) { assert x.log[k] == told[k - h - 1]; }
  }

  /** One turn more. */
  lemma TurnAdds(cfg: Config, log: seq<Event>, r: Request, all: seq<Event>, told: seq<Event>, closed: bool)
    requires Accounted(cfg, log, true)
    requires var (h, n) := (|log|, |log| + 1 + |told|);
      && n <= |all| <= n + 2 && all[..n] == log + [Handed(r)] + told && Turn(cfg, all, h, n)
      && (forall e :: e in told ==> Inner(e))
      && (closed ==> n < |all|)
      && (|all| == n + 2 ==> all[n + 1].SequenceMode?)
      && (n < |all| ==> all[n].Sent?)
    ensures Accounted(cfg, all, closed)
  {
    hide Turn, Refusal;
    var (h, n) := (|log|, |log| + 1 + |told|);
    var more := all[h..];
    assert all[..h] == all[..n][..h] == log;
    assert all == log + more;
    TurnsStay(cfg, log, more, true);
    assert all[h] == all[..n][h];
    assert forall k :: 0 <= k < h ==> all[k] == log[k];
    forall g: nat | g < |all| && all[g].Handed?
      ensures exists m: nat :: Turn(cfg, all, g, m) && (closed ==> m < |all|)
    {
      if g < h {
        var m: nat :| Turn(cfg, all, g, m) && m <= |log|;
      } else if g > h {
        TurnTail(log, r, all, told, g);
      }
    }
    forall k: nat | k < |all| && Inner(all[k])
      ensures exists g: nat, m: nat :: Turn(cfg, all, g, m) && g < k < m && (closed ==> m < |all|)
    {
      if k < h {
        var g: nat, m: nat :| Turn(cfg, all, g, m) && g < k < m <= |log|;
      } else if k > h {
        TurnTail(log, r, all, told, k);
      }
    }
    forall m: nat | m < |all| && all[m].Sent? && !Refusal(all[m].response.code)
      ensures exists g: nat :: Turn(cfg, all, g, m)
    {
      if m < h {
        var g: nat :| Turn(cfg, all, g, m);
      } else if m > h {
        TurnTail(log, r, all, told, m);
      }
    }
  }

  lemma TurnTail(log: seq<Event>, r: Request, all: seq<Event>, told: seq<Event>, k: nat)
    requires var (h, n) := (|log|, |log| + 1 + |told|);
      && n <= |all| <= n + 2 && all[..n] == log + [Handed(r)] + told && (forall e :: e in told ==> Inner(e))
      && (|all| == n + 2 ==> all[n + 1].SequenceMode?)
      && (n < |all| ==> all[n].Sent?)
      && h < k < |all|
    ensures var n := |log| + 1 + |told|;
      && !all[k].Handed? && (Inner(all[k]) <==> k < n) && (all[k].Sent? <==> k == n)
  {
    var n := |log| + 1 + |told|;
    if k < n {
      assert all[k] == all[..n][k] == told[k - |log| - 1];
      assert all[k] in told;
    }
  }

  // ---- the loop ----

  ghost predicate Good(cfg: Config, c: Conf) {
    && Accounted(cfg, c.log, c.stream.exit.None?)
    && c.charger.sessionId == LiveSid(c.log)
    && (c.stream.exit.None? ==> !c.charger.terminateAfterResponse)
  }

  lemma LeavingIsGood(cfg: Config, c: Conf, rc: Rc)
    requires Good(cfg, c) && c.stream.exit.None?
    ensures Good(cfg, c.Leave(rc))
  {
    hide Turn, LiveSid;
  }

  lemma NoteIsGood(cfg: Config, c: Conf, e: Event)
    requires Good(cfg, c) && c.stream.exit.None? && Between(e)
    requires SidAfter(c.charger.sessionId, e) == c.charger.sessionId
    ensures Good(cfg, c.Note(e))
  {
    hide Accounted, LiveSid, Between;
    MoreIsAccounted(cfg, c.log, e, true);
    LiveSidNotes(c.log, e);
  }

  lemma RefusingIsGood(cfg: Config, c: Conf, r: Request, code: Code, env: Env, rc: Rc)
    requires Good(cfg, c) && c.stream.exit.None? && Refusal(code)
    ensures Good(cfg, Refuse(c, r, code, env, rc)) && Refuse(c, r, code, env, rc).stream.exit.Some?
  {
    hide Good;
    LeavingIsGood(cfg, c, rc);
    match Told(c.charger, r, code, env.refusal)
    case None =>
    case Some(e) =>
      NoteIsGood(cfg, c, e);
      LeavingIsGood(cfg, c.Note(e), rc);
  }

  lemma AdmittingIsGood(cfg: Config, c: Conf, r: Request, env: Env) returns (b: Conf)
    requires Good(cfg, c) && c.stream.exit.None? && (r.body.SupportedAppProtocol? ==> r.sid == [])
    ensures var a := Admit(c, r, env);
      if a.stream.exit.Some? then Good(cfg, a)
      else Good(cfg, b) && b.stream.exit.None? && a == b.Note(Handed(r)) && Ready(a, r)
  {
    hide Accounted, LiveSid, OnRequest, Refuse;
    var v := OnRequest(c.stream.sequence, r);
    var gated := c.(stream := c.stream.(sequence := v.next));
    var admitted := gated.Note(Admitted(r));
    b := admitted;
    var rc := ValidateSession(c.charger, r);
    if v.Rejected? {
      RefusingIsGood(cfg, gated, r, FailedSequenceError, env, EPROTO);
    } else {
      NoteIsGood(cfg, gated, Admitted(r));
      if rc != Done {
        RefusingIsGood(cfg, admitted, r, FailedUnknownSession, env, rc);
      } else {
        LiveSidNotes(admitted.log, Handed(r));
        assert Ready(admitted.Note(Handed(r)), r);
      }
    }
  }

  lemma ServingIsGood(cfg: Config, b: Conf, r: Request, env: Env)
    requires Good(cfg, b) && b.stream.exit.None? && Ready(b.Note(Handed(r)), r)
    ensures Good(cfg, Serve(cfg, b.Note(Handed(r)), r, env))
  {
    hide Accounted, Serve, Ready, ServedBy;
    var c := b.Note(Handed(r));
    var x := Serve(cfg, c, r, env);
    ServesAsDue(cfg, c, r, env);
    ServingIsAccounted(cfg, b, r, x);
    var told :| ServedBy(cfg, c, r, x, told);
    SidsAgree(cfg, c, r, x, told);
  }

  lemma SidsAgree(cfg: Config, c: Conf, r: Request, x: Conf, told: seq<Event>)
    requires ServedBy(cfg, c, r, x, told)
    ensures x.charger.sessionId == LiveSid(x.log) && (x.stream.exit.None? ==> !x.charger.terminateAfterResponse)
  {
    hide Due, AnswerDue, LiveSid, Inner;
    var silent := c.log + told;
    var n := |silent|;
    if |x.log| > n {
      LiveSidNotes(silent, x.log[n]);
      assert silent + [x.log[n]] == x.log[..n + 1];
      if |x.log| == n + 2 {
        LiveSidNotes(x.log[..n + 1], x.log[n + 1]);
        assert x.log[..n + 1] + [x.log[n + 1]] == x.log;
      } else {
        assert x.log[..n + 1] == x.log;
      }
    }
  }

  lemma ReceivingIsGood(cfg: Config, c: Conf, rx: Received)
    requires Good(cfg, c)
    ensures Good(cfg, Receive(cfg, c, rx))
  {
    hide Good, Admit, Serve, AppSelection.Negotiate, Ready;
    if c.stream.exit.None? {
      match rx
      case RecvFailed(rc) =>
        LeavingIsGood(cfg, c, rc);
        LeavingIsGood(cfg, c, Done);
      case ForeignPayload => LeavingIsGood(cfg, c, EBADMSG);
      case Exi(_, _, _, env) =>
        match Decode(cfg, c.stream.protocol, rx)
        case None =>
          LeavingIsGood(cfg, c, EBADMSG);
          var d := c.(stream := c.stream.(undecodable := c.stream.undecodable + 1));
          StreamDoesNotMatter(cfg, c, d);
          NoteIsGood(cfg, d, Ignored);
        case Some(r) =>
          var ready := c.(stream := c.stream.(protocol := r.protocol, undecodable := 0));
          StreamDoesNotMatter(cfg, c, ready);
          var b := AdmittingIsGood(cfg, ready, r, env);
          if Admit(ready, r, env).stream.exit.None? { ServingIsGood(cfg, b, r, env); }
    }
  }

  lemma StreamDoesNotMatter(cfg: Config, c: Conf, d: Conf)
    requires Good(cfg, c) && d.charger == c.charger && d.log == c.log && d.stream.exit == c.stream.exit
    ensures Good(cfg, d)
  {
  }

  lemma {:induction false} AllReceivedIsGood(cfg: Config, c: Conf, script: seq<Received>)
    requires Good(cfg, c)
    ensures Good(cfg, ReceiveAll(cfg, c, script))
    decreases |script|
  {
    hide Good, Receive;
    if script != [] {
      ReceivingIsGood(cfg, c, script[0]);
      AllReceivedIsGood(cfg, Receive(cfg, c, script[0]), script[1..]);
    }
  }

  lemma OpeningIsGood(cfg: Config, c: Conf)
    requires Good(cfg, c) && c.stream.exit.Some?
    ensures Good(cfg, Open(c)) && Open(c).stream.exit.None?
  {
    hide Accounted, LiveSid;
    MoreIsAccounted(cfg, c.log, Opened, false);
    LiveSidNotes(c.log, Opened);
  }

  lemma RetiringIsGood(cfg: Config, c: Conf)
    requires Good(cfg, c) && c.stream.exit.Some?
    ensures Good(cfg, Retire(c)) && Retire(c).stream.exit.Some?
  {
    hide Accounted, LiveSid;
    MoreIsAccounted(cfg, c.log, Retired, false);
    LiveSidNotes(c.log, Retired);
    ClosedOrNot(cfg, c.log + [Retired]);
  }

  lemma ClosedOrNot(cfg: Config, log: seq<Event>)
    requires Accounted(cfg, log, true)
    ensures Accounted(cfg, log, false)
  {
    hide Turn, Inner;
  }

  /** In every life each request that is handed on comes to exactly what is due, is answered as is due if at all, and
      nothing of the kind comes about otherwise; and the live SessionID is the one the history names. */
  lemma {:induction false} EveryTurnIsDue(cfg: Config, acts: seq<Act>)
    ensures Accounted(cfg, Live(cfg, acts).log, false)
    ensures Live(cfg, acts).charger.sessionId == LiveSid(Live(cfg, acts).log)
    ensures Live(cfg, acts).stream.exit.Some?
  {
    hide Accounted, Receive, ReceiveAll, Open, Retire, LiveSid;
    if acts == [] {
      PowerUpIsGood(cfg);
    } else {
      var c := Live(cfg, acts[..|acts| - 1]);
      EveryTurnIsDue(cfg, acts[..|acts| - 1]);
      match acts[|acts| - 1]
      case Retirement => RetiringIsGood(cfg, c);
      case Connection(script) =>
        OpeningIsGood(cfg, c);
        AllReceivedIsGood(cfg, Open(c), script);
        ReceivingIsGood(cfg, ReceiveAll(cfg, Open(c), script), RecvFailed(ETIMEDOUT));
        SilenceEnds(cfg, ReceiveAll(cfg, Open(c), script));
    }
  }

  lemma PowerUpIsGood(cfg: Config)
    ensures Accounted(cfg, [], false) && LiveSid([]) == ZERO_SID
  {
  }

  lemma SilenceEnds(cfg: Config, c: Conf)
    ensures Receive(cfg, c, RecvFailed(ETIMEDOUT)).stream.exit.Some?
  {
  }

  // ---- consequences ----

  /** PaymentDetails and Authorization are answered OK exactly when the backend has just said yes, and Failed exactly
      when it has said no. */
  lemma AuthorizationFollowsBackend(cfg: Config, acts: seq<Act>, i: nat)
    requires var log := Live(cfg, acts).log;
      && i < |log| && log[i].Sent? && !Refusal(log[i].response.code)
      && log[i].response.kind in {MessageType.PaymentDetailsReq, MessageType.AuthorizationReq}
    ensures var log := Live(cfg, acts).log;
      i > 0 && log[i - 1].Consulted? && log[i].response.code == (if log[i - 1].authorized then OK else Failed)
  {
    hide Live, LiveSid;
    EveryTurnIsDue(cfg, acts);
    var log := Live(cfg, acts).log;
    var h: nat :| Turn(cfg, log, h, i);
    var told := log[h + 1..i];
    assert |told| == 1 && told[0] == log[i - 1];
  }

  predicate PauseRequest(e: Event) { e.Handed? && e.request.protocol != Din && e.request.body == SessionStop(true) }

  predicate StopRequest(e: Event) { e.Handed? && e.request.body.SessionStop? && !PauseRequest(e) }

  /** A session is retained exactly when an ISO SessionStop has just asked for a pause, under the SessionID of that
      request, and ended for good exactly when any other SessionStop was handed on. */
  lemma StopsAsAsked(cfg: Config, acts: seq<Act>, k: nat)
    requires k < |Live(cfg, acts).log|
    ensures var log := Live(cfg, acts).log;
      && (PauseRequest(log[k]) ==> k + 1 < |log| && log[k + 1].Paused? && log[k + 1].sid == log[k].request.sid)
      && (StopRequest(log[k]) ==> k + 1 < |log| && log[k + 1] == Stopped)
      && (log[k].Paused? ==> k > 0 && PauseRequest(log[k - 1]))
      && (log[k] == Stopped ==> k > 0 && StopRequest(log[k - 1]))
  {
    hide Live, LiveSid, Accounted;
    EveryTurnIsDue(cfg, acts);
    StopsInTurn(cfg, Live(cfg, acts).log, k);
  }

  lemma StopsInTurn(cfg: Config, log: seq<Event>, k: nat)
    requires Accounted(cfg, log, false) && k < |log|
    ensures PauseRequest(log[k]) ==> k + 1 < |log| && log[k + 1].Paused? && log[k + 1].sid == log[k].request.sid
    ensures StopRequest(log[k]) ==> k + 1 < |log| && log[k + 1] == Stopped
    ensures log[k].Paused? ==> k > 0 && PauseRequest(log[k - 1])
    ensures log[k] == Stopped ==> k > 0 && StopRequest(log[k - 1])
  {
    hide Accounted, PauseRequest, StopRequest;
    StopIsHeeded(cfg, log, k);
    if log[k].Paused? || log[k] == Stopped { StopWasAsked(cfg, log, k); }
    WhoAsks(log[k]);
  }

  lemma WhoAsks(e: Event)
    ensures PauseRequest(e) || StopRequest(e) <==> e.Handed? && e.request.body.SessionStop?
    ensures PauseRequest(e) ==> !StopRequest(e)
  {
  }

  lemma StopIsHeeded(cfg: Config, log: seq<Event>, k: nat)
    requires Accounted(cfg, log, false) && k < |log|
    ensures PauseRequest(log[k]) ==> k + 1 < |log| && log[k + 1].Paused? && log[k + 1].sid == log[k].request.sid
    ensures StopRequest(log[k]) ==> k + 1 < |log| && log[k + 1] == Stopped
  {
    hide LiveSid, AnswerDue, Due, Inner;
    if log[k].Handed? && log[k].request.body.SessionStop? {
      var n: nat :| Turn(cfg, log, k, n);
      StopDue(cfg, log[k].request, log[k + 1..n], LiveSid(log[..k]));
      assert log[k + 1..n][0] == log[k + 1];
    }
  }

  lemma StopDue(cfg: Config, r: Request, told: seq<Event>, live: Sid)
    requires Due(cfg, r, told, live) && r.body.SessionStop?
    ensures |told| == 1
    ensures PauseRequest(Handed(r)) ==> told[0].Paused? && told[0].sid == r.sid
    ensures StopRequest(Handed(r)) ==> told[0] == Stopped
  {
  }

  lemma StopWasAsked(cfg: Config, log: seq<Event>, k: nat)
    requires Accounted(cfg, log, false) && k < |log| && (log[k].Paused? || log[k] == Stopped)
    ensures k > 0 && (if log[k].Paused? then PauseRequest(log[k - 1]) else StopRequest(log[k - 1]))
  {
    hide Turn, PauseRequest, StopRequest, Inner;
    assert Inner(log[k]) by { StopsAreInner(log[k]); }
    var h: nat, n: nat :| Turn(cfg, log, h, n) && h < k < n;
    TurnTells(cfg, log, h, n, k);
    hide Due, Accounted;
    var (r, told) := (log[h].request, log[h + 1..n]);
    WhoStops(cfg, r, told, LiveSid(log[..h]), k - h - 1);
    StopDue(cfg, r, told, LiveSid(log[..h]));
    WhoAsks(log[h]);
  }

  lemma StopsAreInner(e: Event)
    ensures e.Paused? || e == Stopped ==> Inner(e)
  {
  }

  lemma TurnTells(cfg: Config, log: seq<Event>, h: nat, n: nat, k: nat)
    requires Turn(cfg, log, h, n) && h < k < n
    ensures h < n <= |log| && log[h].Handed? && log[h + 1..n][k - h - 1] == log[k]
    ensures Due(cfg, log[h].request, log[h + 1..n], LiveSid(log[..h]))
  {
    hide Due, LiveSid, AnswerDue;
  }

  lemma WhoStops(cfg: Config, r: Request, told: seq<Event>, live: Sid, j: nat)
    requires Due(cfg, r, told, live) && j < |told| && (told[j].Paused? || told[j] == Stopped)
    ensures r.body.SessionStop?
  {
  }

  function PauseRequests(log: seq<Event>): nat { Theorems.Count(log, (e: Event) => PauseRequest(e)) }

  lemma {:induction false} AsManyPauses(log: seq<Event>, n: nat)
    requires n <= |log|
    requires forall k: nat :: k < |log| && PauseRequest(log[k]) ==> k + 1 < |log| && log[k + 1].Paused?
    requires forall k: nat :: k < |log| && log[k].Paused? ==> k > 0 && PauseRequest(log[k - 1])
    ensures PauseRequests(log[..n]) ==
      Theorems.Pauses(log[..n]) + if n > 0 && PauseRequest(log[n - 1]) then 1 else 0
  {
    hide PauseRequest;
    if n > 0 {
      AsManyPauses(log, n - 1);
      assert log[..n][..n - 1] == log[..n - 1];
      if log[n - 1].Paused? { PausedIsNoRequest(log[n - 1]); }
      if n > 1 && PauseRequest(log[n - 2]) { assert log[n - 2 + 1].Paused?; }
    }
  }

  lemma PausedIsNoRequest(e: Event)
    ensures e.Paused? ==> !PauseRequest(e)
  {
  }

  /** The ledger in terms of requests: EVs let join plus the pause still retained never exceed the requests for a pause
      that were handed on. */
  lemma PauseRequestLedger(cfg: Config, acts: seq<Act>)
    ensures var c := Live(cfg, acts);
      Theorems.Grants(c.log) + (if c.charger.lastSessionId != ZERO_SID then 1 else 0) <= PauseRequests(c.log)
  {
    hide Live, PauseRequest, Theorems.Grants, Theorems.Pauses, PauseRequests;
    var log := Live(cfg, acts).log;
    Theorems.PauseLedger(cfg, acts);
    forall k: nat | k < |log| && PauseRequest(log[k]) ensures k + 1 < |log| && log[k + 1].Paused? {
      StopsAsAsked(cfg, acts, k);
    }
    forall k: nat | k < |log| && log[k].Paused? ensures k > 0 && PauseRequest(log[k - 1]) {
      StopsAsAsked(cfg, acts, k);
    }
    AsManyPauses(log, |log|);
    assert log[..|log|] == log;
  }
}
