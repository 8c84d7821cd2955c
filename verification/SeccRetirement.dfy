/** What retiring a session between streams changes for the sessions after it: nothing they can notice, as long as
    the random generator works. */
module SeccRetirement {
  import opened Messages
  import opened Sequencer
  import opened SeccModel
  import AppSelection

  /** The life without its retirements. */
  function Unretired(acts: seq<Act>): seq<Act> {
    if acts == [] then []
    else
      var rest := Unretired(acts[..|acts| - 1]);
      if acts[|acts| - 1] == Retirement then rest else rest + [acts[|acts| - 1]]
  }

  /** Every SessionSetup among the frames finds the generator working. */
  predicate Generates(rx: Received) {
    rx.Exi? &&
    ((rx.iso.Some? && rx.iso.value.body.SessionSetup?) || (rx.din.Some? && rx.din.value.body.SessionSetup?)) ==>
      rx.env.minted.Some?
  }

  predicate AllGenerate(acts: seq<Act>) {
    forall k :: 0 <= k < |acts| && acts[k].Connection? ==> forall rx :: rx in acts[k].script ==> Generates(rx)
  }

  /** How the SessionSetups of a history were settled: what the EV presented, whether it joined, and when. */
  function Settlements(log: seq<Event>): seq<(seq<byte>, bool, int)> {
    if log == [] then []
    else
      var e := log[|log| - 1];
      Settlements(log[..|log| - 1]) + if e.Settled? then [(e.presented, e.joined, e.now)] else []
  }

  lemma SettlementsNote(c: Conf, e: Event)
    ensures Settlements(c.Note(e).log) ==
      Settlements(c.log) + if e.Settled? then [(e.presented, e.joined, e.now)] else []
  {
    assert c.Note(e).log[..|c.log|] == c.log;
  }

  predicate Opening(s: SeqState) { s.phase in {InAppProtocol, InSessionSetup} }

  /** Equal but for the history and, while no SessionID is settled on the stream, for what the next SessionSetup
      replaces anyway. */
  ghost predicate Alike(a: Conf, b: Conf) {
    && a.stream == b.stream
    && a.charger == b.charger.(sessionId := a.charger.sessionId, dinContract := a.charger.dinContract)
    && (a.stream.exit.None? && !Opening(a.stream.sequence) ==> a.charger == b.charger)
    && Settlements(a.log) == Settlements(b.log)
  }

  /** Equal but for the history. */
  ghost predicate Same(a: Conf, b: Conf) {
    a.stream == b.stream && a.charger == b.charger && Settlements(a.log) == Settlements(b.log)
  }

  lemma RefusedAlike(a: Conf, b: Conf, r: Request, code: Code, env: Env, rc: Rc)
    requires a.stream == b.stream && Settlements(a.log) == Settlements(b.log)
    requires a.charger == b.charger.(sessionId := a.charger.sessionId, dinContract := a.charger.dinContract)
    ensures Alike(Refuse(a, r, code, env, rc), Refuse(b, r, code, env, rc))
  {
    hide Settlements;
    NoteBoth(a, b, HeaderAlone);
    SettlementsNote(a, Sent(Response(r.body.Type(), a.charger.sessionId, code)));
    SettlementsNote(b, Sent(Response(r.body.Type(), b.charger.sessionId, code)));
  }

  /** What may pass the sequencer where. */
  lemma AdmittedWhere(s: SeqState, r: Request)
    requires OnRequest(s, r).Accepted?
    ensures Opening(s) <==> r.body.SessionSetup? || r.body.SupportedAppProtocol?
    ensures r.body.SupportedAppProtocol? ==> Opening(OnRequest(s, r).next)
    ensures !r.body.SupportedAppProtocol? ==> !Opening(OnRequest(s, r).next)
  {
  }

  /** What the gates let through of two like streams is like; only SessionSetup and SupportedAppProtocol can come
      before a SessionID is settled. */
  ghost predicate AlikeFor(a: Conf, b: Conf, r: Request) {
    && a.stream == b.stream && Settlements(a.log) == Settlements(b.log)
    && a.charger == b.charger.(sessionId := a.charger.sessionId, dinContract := a.charger.dinContract)
    && (r.body.SupportedAppProtocol? <==> Opening(a.stream.sequence))
    && (!r.body.SupportedAppProtocol? && !r.body.SessionSetup? ==> a.charger == b.charger)
  }

  lemma AdmittedAlike(a: Conf, b: Conf, r: Request, env: Env)
    requires Alike(a, b) && a.stream.exit.None?
    ensures var (x, y) := (Admit(a, r, env), Admit(b, r, env));
      if x.stream.exit.Some? then Alike(x, y) else y.stream.exit.None? && AlikeFor(x, y, r)
  {
    hide OnRequest, Settlements, Opening;
    var v := OnRequest(a.stream.sequence, r);
    var (ga, gb) := (a.(stream := a.stream.(sequence := v.next)), b.(stream := b.stream.(sequence := v.next)));
    if v.Rejected? {
      RefusedAlike(ga, gb, r, FailedSequenceError, env, EPROTO);
    } else {
      AdmittedWhere(a.stream.sequence, r);
      SettlementsNote(ga, Admitted(r));
      SettlementsNote(gb, Admitted(r));
      var (na, nb) := (ga.Note(Admitted(r)), gb.Note(Admitted(r)));
      var rc := ValidateSession(a.charger, r);
      if rc == Done {
        SettlementsNote(na, Handed(r));
        SettlementsNote(nb, Handed(r));
      } else {
        RefusedAlike(na, nb, r, FailedUnknownSession, env, rc);
      }
    }
  }

  /** SessionSetup makes two like streams the same. */
  lemma SetupMakesSame(cfg: Config, a: Conf, b: Conf, r: Request, env: Env)
    requires AlikeFor(a, b, r) && r.body.SessionSetup? && env.minted.Some?
    ensures Same(Effects(cfg, ResolveSetup(a, r, env), r, env), Effects(cfg, ResolveSetup(b, r, env), r, env))
  {
    hide Settlements, Resumable;
    var (x, y) := (ResolveSetup(a, r, env), ResolveSetup(b, r, env));
    assert Resumable(a.charger, r.sid, env.now) == Resumable(b.charger, r.sid, env.now) by { SameMemory(a, b, r, env); }
    if Resumable(a.charger, r.sid, env.now) {
      NoteBoth(a, b, Settled(r.sid, r.sid, true, env.now));
    } else {
      var minted := Minted(env.minted.value);
      NoteBoth(a, b, minted);
      NoteBoth(a.Note(minted), b.Note(minted), Settled(r.sid, env.minted.value, false, env.now));
    }
    assert x.charger == y.charger.(dinContract := x.charger.dinContract);
  }

  lemma SameMemory(a: Conf, b: Conf, r: Request, env: Env)
    requires AlikeFor(a, b, r)
    ensures Resumable(a.charger, r.sid, env.now) == Resumable(b.charger, r.sid, env.now)
  {
  }

  lemma AppProtocolAlike(cfg: Config, a: Conf, b: Conf, r: Request, env: Env)
    requires AlikeFor(a, b, r) && r.body.SupportedAppProtocol?
    ensures AlikeFor(Effects(cfg, ResolveOther(a, r, env), r, env), Effects(cfg, ResolveOther(b, r, env), r, env), r)
  {
    hide Settlements;
    if env.minted.Some? {
      SettlementsNote(a, Minted(env.minted.value));
      SettlementsNote(b, Minted(env.minted.value));
    }
    if |r.sid| == 8 {
      SettlementsNote(a, Adopted(r.sid));
      SettlementsNote(b, Adopted(r.sid));
    }
  }

  lemma OthersStaySame(cfg: Config, a: Conf, b: Conf, r: Request, env: Env)
    requires Same(a, b) && !r.body.SessionSetup?
    ensures Same(Effects(cfg, ResolveOther(a, r, env), r, env), Effects(cfg, ResolveOther(b, r, env), r, env))
  {
    hide Settlements, DinOffer;
    var (x, y) := (ResolveOther(a, r, env), ResolveOther(b, r, env));
    ResolvedSame(a, b, r, env);
    if r.body.ServiceDiscovery? {
      var offer := if env.encodeRc == Done then DinOffer(cfg) else None;
      NoteBoth(x, y, if offer.Some? then Advertised(offer.value) else Withdrawn);
    } else if r.body.PaymentDetails? || r.body.Authorization? {
      NoteBoth(x, y, Consulted(env.authorized));
    } else if r.body.SessionStop? {
      NoteBoth(x, y, Paused(x.charger.sessionId, env.now, x.stream.sequence.modeKnown && x.stream.sequence.dcMode));
      NoteBoth(x, y, Stopped);
    }
  }

  lemma ResolvedSame(a: Conf, b: Conf, r: Request, env: Env)
    requires Same(a, b)
    ensures Same(ResolveOther(a, r, env), ResolveOther(b, r, env))
  {
    hide Settlements;
    if a.charger.sessionId == ZERO_SID {
      if |r.sid| == 8 && r.sid != ZERO_SID {
        NoteBoth(a, b, Adopted(r.sid));
      } else if env.minted.Some? {
        NoteBoth(a, b, Minted(env.minted.value));
      }
    }
  }

  /** The same event on both histories, whatever the chargers. */
  lemma NoteBoth(a: Conf, b: Conf, e: Event)
    requires Settlements(a.log) == Settlements(b.log)
    ensures Settlements(a.log + [e]) == Settlements(b.log + [e])
  {
    hide Settlements;
    SettlementsNote(a, e);
    SettlementsNote(b, e);
  }

  lemma FinishedSame(a: Conf, b: Conf, r: Request, env: Env, x: Response, y: Response)
    requires Same(a, b)
    ensures Same(Finish(a, r, env, x), Finish(b, r, env, y))
  {
    hide Settlements, HandlerRc;
    SettlementsNote(a, Sent(x));
    SettlementsNote(b, Sent(y));
    var sq := if a.charger.resumeDcPending then a.stream.sequence.(dcMode := true, modeKnown := true)
              else a.stream.sequence;
    NoteBoth(a.Note(Sent(x)), b.Note(Sent(y)), SequenceMode(sq.dcMode));
  }

  lemma FinishedAlike(a: Conf, b: Conf, r: Request, env: Env, x: Response, y: Response)
    requires AlikeFor(a, b, r) && r.body.SupportedAppProtocol? && a.stream.exit.None?
    ensures Alike(Finish(a, r, env, x), Finish(b, r, env, y))
  {
    hide Settlements, HandlerRc;
    SettlementsNote(a, Sent(x));
    SettlementsNote(b, Sent(y));
  }

  lemma ServedAlike(cfg: Config, a: Conf, b: Conf, r: Request, env: Env)
    requires AlikeFor(a, b, r) && a.stream.exit.None? && (r.body.SessionSetup? ==> env.minted.Some?)
    ensures Alike(Serve(cfg, a, r, env), Serve(cfg, b, r, env))
  {
    hide Settlements, Answer, Effects, ResolveSetup, ResolveOther, Finish, Resumable;
    var (ra, rb) := (Resolve(a, r, env), Resolve(b, r, env));
    var joined := r.body.SessionSetup? && Resumable(a.charger, r.sid, env.now);
    var joined' := r.body.SessionSetup? && Resumable(b.charger, r.sid, env.now);
    var x := Response(r.body.Type(), ra.charger.sessionId, Answer(cfg, ra.charger, r, env, joined));
    var y := Response(r.body.Type(), rb.charger.sessionId, Answer(cfg, rb.charger, r, env, joined'));
    var (ea, eb) := (Effects(cfg, ra, r, env), Effects(cfg, rb, r, env));
    if r.body.SupportedAppProtocol? {
      AppProtocolAlike(cfg, a, b, r, env);
      StillRunning(cfg, a, r, env);
      FinishedAlike(ea, eb, r, env, x, y);
    } else {
      if r.body.SessionSetup? {
        SetupMakesSame(cfg, a, b, r, env);
      } else {
        OthersStaySame(cfg, a, b, r, env);
      }
      FinishedSame(ea, eb, r, env, x, y);
    }
  }

  lemma StillRunning(cfg: Config, a: Conf, r: Request, env: Env)
    ensures Effects(cfg, ResolveOther(a, r, env), r, env).stream == a.stream
  {
  }

  lemma ReceivedAlike(cfg: Config, a: Conf, b: Conf, rx: Received)
    requires Alike(a, b) && Generates(rx)
    ensures Alike(Receive(cfg, a, rx), Receive(cfg, b, rx))
  {
    hide Settlements, Admit, Serve, AppSelection.Negotiate;
    if a.stream.exit.None? && rx.Exi? {
      match Decode(cfg, a.stream.protocol, rx)
      case None => NoteBoth(a, b, Ignored);
      case Some(r) =>
        var (x, y) := (a.(stream := a.stream.(protocol := r.protocol, undecodable := 0)),
                       b.(stream := b.stream.(protocol := r.protocol, undecodable := 0)));
        AdmittedAlike(x, y, r, rx.env);
        if Admit(x, r, rx.env).stream.exit.None? {
          ServedAlike(cfg, Admit(x, r, rx.env), Admit(y, r, rx.env), r, rx.env);
        }
    }
  }

  lemma {:induction false} AllReceivedAlike(cfg: Config, a: Conf, b: Conf, script: seq<Received>)
    requires Alike(a, b) && forall rx :: rx in script ==> Generates(rx)
    ensures Alike(ReceiveAll(cfg, a, script), ReceiveAll(cfg, b, script))
    decreases |script|
  {
    hide Alike, Receive, Generates;
    if script != [] {
      ReceivedAlike(cfg, a, b, script[0]);
      AllReceivedAlike(cfg, Receive(cfg, a, script[0]), Receive(cfg, b, script[0]), script[1..]);
    }
  }

  lemma OpenedAlike(a: Conf, b: Conf)
    requires Alike(a, b)
    ensures Alike(Open(a), Open(b))
  {
    hide Settlements;
    NoteBoth(a, b, Opened);
  }

  lemma RetiredAlike(a: Conf, b: Conf)
    requires Alike(a, b) && a.stream.exit.Some?
    ensures Alike(Retire(a), b)
  {
    hide Settlements;
    SettlementsNote(a, Retired);
  }

  lemma LeftAfterwards(cfg: Config, c: Conf, script: seq<Received>)
    ensures Connect(cfg, c, script).stream.exit.Some?
  {
    hide ReceiveAll, Open;
  }

  lemma {:induction false} LivesAlike(cfg: Config, acts: seq<Act>)
    requires AllGenerate(acts)
    ensures Alike(Live(cfg, acts), Live(cfg, Unretired(acts))) && Live(cfg, acts).stream.exit.Some?
    decreases |acts|
  {
    hide Alike, Receive, ReceiveAll, Open, Retire, Generates;
    if acts == [] {
      BornAlike(cfg);
    } else {
      var before := acts[..|acts| - 1];
      LivesAlike(cfg, before);
      var (a, b) := (Live(cfg, before), Live(cfg, Unretired(before)));
      match acts[|acts| - 1]
      case Retirement =>
        RetiredAlike(a, b);
        RetireStays(a);
      case Connection(script) =>
        OpenedAlike(a, b);
        AllReceivedAlike(cfg, Open(a), Open(b), script);
        TimeoutGenerates();
        ReceivedAlike(cfg, ReceiveAll(cfg, Open(a), script), ReceiveAll(cfg, Open(b), script), RecvFailed(ETIMEDOUT));
        LeftAfterwards(cfg, a, script);
        assert (Unretired(before) + [acts[|acts| - 1]])[..|Unretired(before)|] == Unretired(before);
    }
  }

  lemma TimeoutGenerates()
    ensures Generates(RecvFailed(ETIMEDOUT))
  {
  }

  lemma RetireStays(c: Conf)
    ensures Retire(c).stream == c.stream
  {
  }

  lemma BornAlike(cfg: Config)
    ensures Alike(Live(cfg, []), Live(cfg, [])) && Live(cfg, []).stream.exit.Some?
  {
  }

  /** Over a whole life, retiring sessions between streams changes neither any decision to let an EV join its paused
      session nor the pause that is retained at the end. */
  lemma RetirementKeepsThePause(cfg: Config, acts: seq<Act>)
    requires AllGenerate(acts)
    ensures var (c, d) := (Live(cfg, acts), Live(cfg, Unretired(acts)));
      && Settlements(c.log) == Settlements(d.log)
      && c.charger.lastSessionId == d.charger.lastSessionId
      && c.charger.lastSessionEndMs == d.charger.lastSessionEndMs
      && c.charger.lastSessionWasDc == d.charger.lastSessionWasDc
  {
    hide Live, Settlements;
    LivesAlike(cfg, acts);
  }

  /** Where a working generator is needed: the SessionID a SessionSetup settles is the same with and without a
      retirement before it exactly when it joins, or the generator works, or no session was live. */
  lemma RetirementShowsExactlyWhen(c: Conf, r: Request, env: Env)
    ensures ResolveSetup(c, r, env).charger.sessionId == ResolveSetup(Retire(c), r, env).charger.sessionId <==>
      Resumable(c.charger, r.sid, env.now) || env.minted.Some? || c.charger.sessionId == ZERO_SID
  {
  }

  // ---- the shortest lives in which it shows ----

  /** A DIN SessionSetup that presents no SessionID, handled and answered; the generator gives `minted`. */
  function DinSetup(minted: Option<FreshSid>, now: int): Received {
    Exi(None, None, Some(Message([], SessionSetup)),
        Env(now, minted, true, Done, false, Done, RefusalOutcome(true, Done, Done)))
  }

  lemma DinSetupSettles(cfg: Config, c: Conf, minted: Option<FreshSid>, now: int)
    requires c.charger.lastSessionId == ZERO_SID
    ensures var after := Connect(cfg, c, [DinSetup(minted, now)]).charger;
      after.lastSessionId == ZERO_SID &&
      after.sessionId == match minted case None => c.charger.sessionId case Some(sid) => sid
  {
    hide Receive;
    var rx := DinSetup(minted, now);
    var (o, s) := (Open(c), Receive(cfg, Open(c), rx));
    assert [rx][1..] == [];
    assert ReceiveAll(cfg, o, [rx]) == ReceiveAll(cfg, s, []) == s;
    OpeningSetup(cfg, o, minted, now);
    SilenceKeepsCharger(cfg, s);
  }

  lemma OpeningSetup(cfg: Config, c: Conf, minted: Option<FreshSid>, now: int)
    requires c.stream == NEW_STREAM && c.charger.lastSessionId == ZERO_SID && !c.charger.terminateAfterResponse
    ensures var after := Receive(cfg, c, DinSetup(minted, now)).charger;
      after.lastSessionId == ZERO_SID &&
      after.sessionId == match minted case None => c.charger.sessionId case Some(sid) => sid
  {
    hide Answer, AppSelection.Negotiate;
  }

  lemma SilenceKeepsCharger(cfg: Config, c: Conf)
    ensures Receive(cfg, c, RecvFailed(ETIMEDOUT)).charger == c.charger
  {
  }

  /** A retirement that shows: one EV sets up a session and falls silent; on the next stream the generator fails. The
      SessionID that is live then is zero with a retirement in between, and the first EV's without. */
  lemma RetirementShows(cfg: Config, sid: FreshSid, t: int, u: int)
    ensures var (first, second) := (Connection([DinSetup(Some(sid), t)]), Connection([DinSetup(None, u)]));
      && Live(cfg, [first, second]).charger.sessionId == sid
      && Live(cfg, [first, Retirement, second]).charger.sessionId == ZERO_SID
  {
    hide Connect;
    var (first, second) := (Connection([DinSetup(Some(sid), t)]), Connection([DinSetup(None, u)]));
    assert [first][..0] == [] && [first, second][..1] == [first];
    assert [first, Retirement][..1] == [first] && [first, Retirement, second][..2] == [first, Retirement];
    var c := Live(cfg, [first]);
    DinSetupSettles(cfg, Live(cfg, []), Some(sid), t);
    DinSetupSettles(cfg, c, None, u);
    DinSetupSettles(cfg, Retire(c), None, u);
  }
}
