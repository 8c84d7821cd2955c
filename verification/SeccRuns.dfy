/** Ordinary sessions of one charger: served to the end in both protocols, or paused at any point and resumed on the
    next stream. */
module SeccRuns {
  import opened Messages
  import opened Sequencer
  import opened SeccModel
  import AppSelection
  import Runs = SequencerRuns
  import Theorems = SeccTheorems

  /** All goes well at time t; the generator would give this SessionID. */
  function Smooth(sid: FreshSid, t: int): Env {
    Env(t, Some(sid), true, Done, false, Done, RefusalOutcome(true, Done, Done))
  }

  /** What the parties agree on: the offers that negotiate the protocol and the session's SessionID. `stray` is what the
      decoder of the other protocol makes of the frames, once the stream speaks this one. */
  datatype Terms = Terms(cfg: Config, protocol: Protocol, offers: seq<Offer>, sid: FreshSid, stray: Option<Message>)

  ghost predicate Negotiates(x: Terms) {
    AppSelection.Negotiate(x.offers, x.cfg.protocolMask).protocol == x.protocol
  }

  predicate Usual(x: Terms) { x.protocol in {Iso2, Din} }

  /** What a DIN charger offers: DC_extended if configured, else DC_core if configured. */
  function Offered(cfg: Config): Option<nat> {
    if 3 in cfg.energyModes then Some(3) else if 2 in cfg.energyModes then Some(2) else None
  }

  /** A frame that carries a message in the protocol of the session. */
  function FrameOf(x: Terms, sid: seq<byte>, body: Body, stray: Option<Message>, env: Env): Received {
    if x.protocol == Din then Exi(None, stray, Some(Message(sid, body)), env)
    else Exi(None, Some(Message(sid, body)), stray, env)
  }

  /** The request of a stage, as the loop sees it. */
  function StageRequest(x: Terms, k: nat): Request
    requires k < |Runs.STAGES|
  {
    Request(x.protocol, if k < 2 then [] else x.sid,
            if k == 0 then SupportedAppProtocol(x.offers) else Runs.STAGES[k].0)
  }

  /** Its frame; `greeted`: the stream began with SupportedAppProtocol. */
  function StageFrame(x: Terms, k: nat, greeted: bool, t: int): Received
    requires k < |Runs.STAGES|
  {
    var r := StageRequest(x, k);
    if k == 0 then Exi(Some(x.offers), None, None, Smooth(x.sid, t))
    else FrameOf(x, r.sid, r.body, if k > 1 || greeted then x.stray else None, Smooth(x.sid, t))
  }

  /** What handling a stage changes, the first time and again. */
  function StageTold(x: Terms, k: nat, again: bool, t: int): seq<Event> {
    match k
    case 0 => if again then [] else [Minted(x.sid)]
    case 1 => [Minted(x.sid), Settled([], x.sid, false, t)]
    case 2 =>
      if x.protocol != Din then []
      else if Offered(x.cfg).Some? then [Advertised(Offered(x.cfg).value)] else [Withdrawn]
    case 4 => [Consulted(true)]
    case 12 => [Stopped]
    case _ => []
  }

  /** The code it is answered with. The EV asks for DC_extended; the built-in handler has no cable check to offer. */
  ghost function StageCode(x: Terms, k: nat): Code {
    match k
    case 0 => Sapp(AppSelection.Negotiate(x.offers, x.cfg.protocolMask).code)
    case 1 => OkNewSession
    case 2 => if x.protocol == Din && Offered(x.cfg).None? then Failed else OK
    case 5 => if 3 in x.cfg.energyModes then OK else FailedWrongEnergyTransfer
    case 6 => Failed
    case _ => OK
  }

  /** All of a stage: admitted, handed on, handled and answered. */
  ghost function StageEvents(x: Terms, k: nat, again: bool, t: int): seq<Event>
    requires k < |Runs.STAGES|
  {
    var r := StageRequest(x, k);
    [Admitted(r), Handed(r)] + StageTold(x, k, again, t) + [Sent(Response(r.body.Type(), x.sid, StageCode(x, k)))]
    + (if k == 1 then [SequenceMode(false)] else [])
  }

  /** How often each request is sent: the polls any number of times, SessionSetup and SessionStop once. A DIN session
      may begin without SupportedAppProtocol. */
  predicate Course(x: Terms, counts: seq<nat>) {
    && |counts| <= |Runs.STAGES|
    && forall k :: 0 <= k < |counts| ==>
         (counts[k] >= 1 || (k == 0 && x.protocol == Din)) && (k in {1, 12} ==> counts[k] == 1)
  }

  predicate Greeted(counts: seq<nat>) { |counts| > 0 && counts[0] > 0 }

  function Script(x: Terms, counts: seq<nat>, greeted: bool, t: int): seq<Received>
    requires |counts| <= |Runs.STAGES|
  {
    if counts == [] then []
    else
      var k := |counts| - 1;
      Script(x, counts[..k], greeted, t) + seq(counts[k], i => StageFrame(x, k, greeted, t))
  }

  ghost function Copies(e: seq<Event>, n: nat): seq<Event> { if n == 0 then [] else Copies(e, n - 1) + e }

  ghost function Rounds(x: Terms, k: nat, n: nat, t: int): seq<Event>
    requires k < |Runs.STAGES|
  {
    if n == 0 then [] else StageEvents(x, k, false, t) + Copies(StageEvents(x, k, true, t), n - 1)
  }

  /** The history of a session so far. */
  ghost function SessionEvents(x: Terms, counts: seq<nat>, t: int): seq<Event>
    requires |counts| <= |Runs.STAGES|
  {
    if counts == [] then []
    else
      var k := |counts| - 1;
      SessionEvents(x, counts[..k], t) + Rounds(x, k, counts[k], t)
  }

  /** Charger and stream once k stages are through, SupportedAppProtocol being left out or not. */
  function ChargerAt(x: Terms, k: nat): Charger {
    if k == 13 then POWER_UP
    else POWER_UP.(sessionId := x.sid, dinContract := if x.protocol == Din && k >= 3 then Offered(x.cfg) else None)
  }

  function StreamAt(x: Terms, k: nat): Stream
    requires 0 < k <= |Runs.STAGES|
  {
    Stream(x.protocol, true, k == 13, 0, Runs.StageState(x.protocol, k - 1), if k == 13 then Some(Done) else None)
  }

  predicate Before(c: Conf, x: Terms, k: nat, greeted: bool)
    requires k <= |Runs.STAGES|
  {
    if k == 0 || (k == 1 && !greeted) then c.charger == POWER_UP && c.stream == NEW_STREAM
    else c.charger == ChargerAt(x, k) && c.stream == StreamAt(x, k)
  }

  // ---- single frames ----

  /** The sequencer looks at protocol and type only. */
  lemma SameVerdict(s: SeqState, r: Request, q: Request)
    requires r.protocol == q.protocol
    requires r.body == q.body || (r.body.SupportedAppProtocol? && q.body.SupportedAppProtocol?)
    ensures OnRequest(s, r) == OnRequest(s, q)
  {
  }

  /** The state in which stage k is taken. */
  predicate Takes(x: Terms, s: SeqState, k: nat)
    requires k < |Runs.STAGES|
  {
    var p := x.protocol;
    if k == 0 then s in {INITIAL, Runs.StageState(p, 0)}
    else
      || s == Runs.StageState(p, k - 1) || (k !in {1, 12} && s == Runs.StageState(p, k))
      || (k == 1 && p == Din && s == INITIAL)
  }

  lemma StageIsAccepted(x: Terms, s: SeqState, k: nat, r: Request)
    requires x.protocol in {Iso2, Din} && k < |Runs.STAGES| && Takes(x, s, k)
    requires r.protocol == x.protocol && r.body == StageRequest(x, k).body
    ensures OnRequest(s, r) == Accepted(Runs.StageState(x.protocol, k))
  {
    hide OnRequest, Runs.StageState;
    if k == 1 && s == INITIAL && x.protocol == Din {
      OpensDirectly(r);
    } else {
      Runs.StageLeadsOn(x.protocol, k);
      StepOfStage(x, k);
      SameVerdict(s, r, Runs.StageStep(x.protocol, k).request);
    }
  }

  lemma StepOfStage(x: Terms, k: nat)
    requires k < |Runs.STAGES|
    ensures Runs.StageStep(x.protocol, k).Req?
    ensures var (q, r) := (Runs.StageStep(x.protocol, k).request, StageRequest(x, k));
      q.protocol == r.protocol &&
      (r.body == q.body || (r.body.SupportedAppProtocol? && q.body.SupportedAppProtocol?))
  {
  }

  lemma OpensDirectly(r: Request)
    requires r.protocol == Din && r.body.SessionSetup?
    ensures OnRequest(INITIAL, r) == Accepted(Runs.StageState(Din, 1))
  {
  }

  /** The frame of a stage gives its request. */
  lemma StageIsDecoded(x: Terms, k: nat, greeted: bool, t: int, p: Protocol)
    requires x.protocol in {Iso2, Din} && k < |Runs.STAGES| && (k == 0 ==> Negotiates(x))
    requires p == x.protocol || (p == UnknownProtocol && (k == 0 || (k == 1 && !greeted)))
    ensures Decode(x.cfg, p, StageFrame(x, k, greeted, t)) == Some(StageRequest(x, k))
  {
  }

  /** The gates let a stage through. */
  lemma StageIsAdmitted(x: Terms, c: Conf, k: nat, env: Env)
    requires x.protocol in {Iso2, Din} && k < |Runs.STAGES| && Takes(x, c.stream.sequence, k)
    requires k > 1 ==> c.charger.sessionId == x.sid
    ensures var r := StageRequest(x, k);
      Admit(c, r, env) == Conf(c.charger, c.stream.(sequence := Runs.StageState(x.protocol, k)),
                               c.log + [Admitted(r), Handed(r)])
  {
    hide OnRequest, Runs.StageState;
    StageIsAccepted(x, c.stream.sequence, k, StageRequest(x, k));
    StageBody(x, k);
  }

  lemma StageBody(x: Terms, k: nat)
    requires k < |Runs.STAGES|
    ensures var b := StageRequest(x, k).body;
      (b.SupportedAppProtocol? <==> k == 0) && (b.SessionSetup? <==> k == 1) && (b.SessionStop? <==> k == 12)
  {
  }

  /** The charger a stage finds. */
  predicate Finds(x: Terms, s: Charger, k: nat, again: bool) {
    s == ChargerAt(x, if again then k + 1 else k) || (k <= 1 && !again && s == POWER_UP)
  }

  ghost predicate Serves(x: Terms, c: Conf, k: nat, again: bool, t: int)
    requires k < |Runs.STAGES|
  {
    var r := StageRequest(x, k);
    var d := Serve(x.cfg, c, r, Smooth(x.sid, t));
    && d.charger == ChargerAt(x, k + 1) && d.stream == StreamAt(x, k + 1)
    && c.log + StageEvents(x, k, again, t)[2..] == d.log
  }

  /** An admitted stage meets the charger it finds. */
  ghost predicate InStage(x: Terms, c: Conf, k: nat, again: bool)
    requires k < |Runs.STAGES|
  {
    && Usual(x) && (again ==> k !in {1, 12}) && Finds(x, c.charger, k, again)
    && c.stream.protocol == x.protocol && c.stream.undecodable == 0 && !c.stream.sawSessionStop
    && c.stream.exit.None? && c.stream.sequence == Runs.StageState(x.protocol, k)
    && (k == 0 ==> c.charger.sessionId == (if again then x.sid else ZERO_SID))
  }

  lemma GreetingIsServed(x: Terms, c: Conf, again: bool, t: int)
    requires InStage(x, c, 0, again)
    ensures Serves(x, c, 0, again, t)
  {
    hide Runs.StageState, Serve, StageCode;
    GreetingServe(x, c, x.sid, t);
    CodeOfGreeting(x);
  }

  lemma CodeOfGreeting(x: Terms)
    ensures AppResponse(x, x.sid).code == StageCode(x, 0)
  {
  }

  ghost function AppResponse(x: Terms, sid: Sid): Response {
    Response(SuppAppProtocolReq, sid, Sapp(AppSelection.Negotiate(x.offers, x.cfg.protocolMask).code))
  }

  /** SupportedAppProtocol makes sure that a session is live. */
  lemma GreetingServe(x: Terms, c: Conf, sid: FreshSid, t: int)
    requires !c.charger.terminateAfterResponse
    ensures var live := if c.charger.sessionId == ZERO_SID then sid else c.charger.sessionId;
      Serve(x.cfg, c, StageRequest(x, 0), Smooth(sid, t)) ==
      Conf(c.charger.(sessionId := live), c.stream.(handledAny := true),
           c.log + (if c.charger.sessionId == ZERO_SID then [Minted(sid)] else []) + [Sent(AppResponse(x, live))])
  {
  }

  lemma SetupIsServed(x: Terms, c: Conf, t: int)
    requires InStage(x, c, 1, false)
    ensures Serves(x, c, 1, false, t)
  {
    hide Runs.StageState, Serve;
    NotDcYet(x.protocol);
    NewSessionServe(x.cfg, c, StageRequest(x, 1), Smooth(x.sid, t));
  }

  /** A SessionSetup that finds no pause. */
  lemma NewSessionServe(cfg: Config, c: Conf, r: Request, env: Env)
    requires r.body.SessionSetup? && c.charger.lastSessionId == ZERO_SID && !c.charger.terminateAfterResponse
    requires env.minted.Some? && env.encodeRc == Done && !env.emptyOutput && env.sendRc == Done
    ensures var sid := env.minted.value;
      Serve(cfg, c, r, env) ==
      Conf(c.charger.(sessionId := sid, dinContract := None, resumeDcPending := false), c.stream.(handledAny := true),
           c.log + [Minted(sid), Settled(r.sid, sid, false, env.now),
                    Sent(Response(SessionSetupReq, sid, OkNewSession)), SequenceMode(c.stream.sequence.dcMode)])
  {
  }

  lemma NotDcYet(p: Protocol)
    ensures !Runs.StageState(p, 1).dcMode
  {
  }

  lemma DiscoveryIsServed(x: Terms, c: Conf, again: bool, t: int)
    requires InStage(x, c, 2, again)
    ensures Serves(x, c, 2, again, t)
  {
    hide Runs.StageState;
  }

  lemma PlainIsServed(x: Terms, c: Conf, k: nat, again: bool, t: int)
    requires 3 <= k < 12 && InStage(x, c, k, again)
    ensures Serves(x, c, k, again, t)
  {
    hide Runs.StageState, StageRequest, Serve;
    StageIsPlain(x, k, c.charger, again, t);
    PlainServe(x.cfg, c, StageRequest(x, k), Smooth(x.sid, t));
  }

  /** Requests that change nothing but what the backend is asked for. */
  predicate Plain(b: Body) {
    !b.SupportedAppProtocol? && !b.SessionSetup? && !b.ServiceDiscovery? && !b.SessionStop? &&
    b != PaymentServiceSelection(false) && !b.ChargingStatus?
  }

  lemma PlainServe(cfg: Config, c: Conf, r: Request, env: Env)
    requires Plain(r.body) && c.charger.sessionId != ZERO_SID && !c.charger.terminateAfterResponse
    requires env.encodeRc == Done && !env.emptyOutput && env.sendRc == Done
    ensures Serve(cfg, c, r, env) ==
      Conf(c.charger, c.stream.(handledAny := true),
           c.log + (if r.body.Authorization? || r.body.PaymentDetails? then [Consulted(env.authorized)] else [])
                 + [Sent(Response(r.body.Type(), c.charger.sessionId, Answer(cfg, c.charger, r, env, false)))])
  {
    hide Answer;
  }

  lemma StageIsPlain(x: Terms, k: nat, s: Charger, again: bool, t: int)
    requires 3 <= k < 12 && Usual(x) && Finds(x, s, k, again)
    ensures var r := StageRequest(x, k);
      && Plain(r.body) && Answer(x.cfg, s, r, Smooth(x.sid, t), false) == StageCode(x, k)
      && (r.body.Authorization? || r.body.PaymentDetails? <==> k == 4)
      && StageTold(x, k, again, t) == (if k == 4 then [Consulted(true)] else [])
      && s == ChargerAt(x, k + 1) && s.sessionId == x.sid && !s.terminateAfterResponse
  {
    if k < 6 { if k == 3 {} else if k == 4 {} else {} }
    else if k < 9 { if k == 6 {} else if k == 7 {} else {} }
    else { if k == 9 {} else if k == 10 {} else {} }
  }

  lemma StopIsServed(x: Terms, c: Conf, t: int)
    requires InStage(x, c, 12, false)
    ensures Serves(x, c, 12, false, t)
  {
    hide Runs.StageState;
  }

  lemma StageIsServed(x: Terms, c: Conf, k: nat, again: bool, t: int)
    requires k < |Runs.STAGES| && InStage(x, c, k, again)
    ensures Serves(x, c, k, again, t)
  {
    hide Serves, InStage;
    if k == 0 { GreetingIsServed(x, c, again, t); }
    else if k == 1 { OnceOnly(x, c, k, again); SetupIsServed(x, c, t); }
    else if k == 2 { DiscoveryIsServed(x, c, again, t); }
    else if k < 12 { PlainIsServed(x, c, k, again, t); }
    else { OnceOnly(x, c, k, again); StopIsServed(x, c, t); }
  }

  lemma OnceOnly(x: Terms, c: Conf, k: nat, again: bool)
    requires k in {1, 12} && InStage(x, c, k, again)
    ensures !again
  {
  }

  /** One stage of a session. */
  lemma StageTurn(x: Terms, c: Conf, k: nat, again: bool, greeted: bool, t: int)
    requires Usual(x) && k < |Runs.STAGES| && (k == 0 ==> greeted && Negotiates(x)) && (again ==> k !in {1, 12})
    requires (!greeted ==> x.protocol == Din) && Before(c, x, if again then k + 1 else k, greeted)
    ensures var d := Receive(x.cfg, c, StageFrame(x, k, greeted, t));
      Before(d, x, k + 1, true) && d.log == c.log + StageEvents(x, k, again, t)
  {
    StageStarts(x, c, k, again, greeted);
    var (r, env) := (StageRequest(x, k), Smooth(x.sid, t));
    StageIsDecoded(x, k, greeted, t, c.stream.protocol);
    hide OnRequest, Runs.StageState, Admit, Serve, ChargerAt, StageCode, StreamAt, Decode, Negotiates, Before, Takes;
    hide StageTold, StageRequest, Finds, Usual, Receive, StageEvents;
    FrameHasEnv(x, k, greeted, t);
    DecodedTurn(x.cfg, c, StageFrame(x, k, greeted, t), r);
    hide StageFrame;
    var ready := c.(stream := c.stream.(protocol := x.protocol, undecodable := 0));
    StageIsAdmitted(x, ready, k, env);
    var a := Admit(ready, r, env);
    StageIsServed(x, a, k, again, t);
    BothParts(x, c.log, k, again, t);
    Reached(x, k, Serve(x.cfg, a, r, env));
  }

  lemma FrameHasEnv(x: Terms, k: nat, greeted: bool, t: int)
    requires k < |Runs.STAGES|
    ensures var rx := StageFrame(x, k, greeted, t); rx.Exi? && rx.env == Smooth(x.sid, t)
    ensures StageRequest(x, k).protocol == x.protocol
  {
  }

  lemma DecodedTurn(cfg: Config, c: Conf, rx: Received, r: Request)
    requires c.stream.exit.None? && rx.Exi? && Decode(cfg, c.stream.protocol, rx) == Some(r)
    ensures var a := Admit(c.(stream := c.stream.(protocol := r.protocol, undecodable := 0)), r, rx.env);
      Receive(cfg, c, rx) == if a.stream.exit.Some? then a else Serve(cfg, a, r, rx.env)
  {
    hide Admit, Serve, Decode;
  }

  lemma BothParts(x: Terms, log: seq<Event>, k: nat, again: bool, t: int)
    requires k < |Runs.STAGES|
    ensures |StageEvents(x, k, again, t)| >= 2
    ensures var r := StageRequest(x, k);
      log + [Admitted(r), Handed(r)] + StageEvents(x, k, again, t)[2..] == log + StageEvents(x, k, again, t)
  {
    hide StageTold, StageCode, StageRequest;
  }

  lemma Reached(x: Terms, k: nat, d: Conf)
    requires k < |Runs.STAGES| && d.charger == ChargerAt(x, k + 1) && d.stream == StreamAt(x, k + 1)
    ensures Before(d, x, k + 1, true)
  {
  }

  lemma StageStarts(x: Terms, c: Conf, k: nat, again: bool, greeted: bool)
    requires Usual(x) && k < |Runs.STAGES| && (k == 0 ==> greeted) && (again ==> k !in {1, 12})
    requires (!greeted ==> x.protocol == Din) && Before(c, x, if again then k + 1 else k, greeted)
    ensures c.stream.exit.None? && Finds(x, c.charger, k, again) && !c.stream.sawSessionStop
    ensures k > 1 ==> c.charger.sessionId == x.sid
    ensures k == 0 ==> c.charger.sessionId == if again then x.sid else ZERO_SID
    ensures Takes(x, c.stream.sequence, k)
    ensures c.stream.protocol == x.protocol ||
            (c.stream.protocol == UnknownProtocol && (k == 0 || (k == 1 && !greeted)))
  {
  }

  // ---- whole streams ----

  lemma {:induction false} ReceiveAllSplits(cfg: Config, c: Conf, a: seq<Received>, b: seq<Received>)
    ensures ReceiveAll(cfg, c, a + b) == ReceiveAll(cfg, ReceiveAll(cfg, c, a), b)
    decreases |a|
  {
    hide Receive;
    if a == [] {
      assert a + b == b;
    } else {
      assert (a + b)[1..] == a[1..] + b;
      ReceiveAllSplits(cfg, Receive(cfg, c, a[0]), a[1..], b);
    }
  }

  lemma ReceiveOne(cfg: Config, c: Conf, rx: Received)
    ensures ReceiveAll(cfg, c, [rx]) == Receive(cfg, c, rx)
  {
    hide Receive;
    assert [rx][1..] == [];
    assert ReceiveAll(cfg, Receive(cfg, c, rx), []) == Receive(cfg, c, rx);
  }

  lemma {:induction false} Repeats(x: Terms, c: Conf, k: nat, n: nat, greeted: bool, t: int)
    requires Usual(x) && k < |Runs.STAGES| && n >= 1 && (k in {1, 12} ==> n == 1) && Before(c, x, k, greeted)
    requires (k == 0 ==> greeted && Negotiates(x)) && (!greeted ==> x.protocol == Din)
    ensures var d := ReceiveAll(x.cfg, c, seq(n, i => StageFrame(x, k, greeted, t)));
      Before(d, x, k + 1, true) && d.log == c.log + Rounds(x, k, n, t)
    decreases n
  {
    hide Receive, ReceiveAll, StageFrame, StageEvents, Before, Negotiates;
    var rx := StageFrame(x, k, greeted, t);
    if n == 1 {
      assert seq(1, i => rx) == [rx];
      ReceiveOne(x.cfg, c, rx);
      StageTurn(x, c, k, false, greeted, t);
      assert Copies(StageEvents(x, k, true, t), 0) == [];
    } else {
      var fewer := seq(n - 1, i => rx);
      assert seq(n, i => rx) == fewer + [rx];
      Repeats(x, c, k, n - 1, greeted, t);
      ReceiveAllSplits(x.cfg, c, fewer, [rx]);
      var d := ReceiveAll(x.cfg, c, fewer);
      ReceiveOne(x.cfg, d, rx);
      Either(d, x, k + 1, greeted);
      StageTurn(x, d, k, true, greeted, t);
    }
  }

  lemma Either(c: Conf, x: Terms, k: nat, greeted: bool)
    requires k <= |Runs.STAGES|
    ensures k > 1 || greeted ==> Before(c, x, k, greeted) == Before(c, x, k, true)
    ensures !greeted && k == 1 ==> Before(c, x, k, greeted) == Before(c, x, 0, greeted)
  {
  }

  /** A session goes on as far as the EV likes, and its history is that of its stages. */
  lemma {:induction false} SessionGoesOn(x: Terms, c: Conf, counts: seq<nat>, greeted: bool, t: int)
    requires Usual(x) && Course(x, counts) && (greeted ==> Negotiates(x)) && Before(c, x, 0, greeted)
    requires counts != [] ==> greeted == Greeted(counts)
    ensures var d := ReceiveAll(x.cfg, c, Script(x, counts, greeted, t));
      Before(d, x, |counts|, greeted) && d.log == c.log + SessionEvents(x, counts, t)
    decreases |counts|
  {
    hide Receive, ReceiveAll, Before, Negotiates, Rounds, Usual;
    if counts == [] {
      ReceiveNothing(x.cfg, c);
    } else {
      var k := |counts| - 1;
      SessionGoesOn(x, c, counts[..k], greeted, t);
      var before, polls := Script(x, counts[..k], greeted, t), seq(counts[k], i => StageFrame(x, k, greeted, t));
      ReceiveAllSplits(x.cfg, c, before, polls);
      var d := ReceiveAll(x.cfg, c, before);
      if counts[k] == 0 {
        assert polls == [];
        ReceiveNothing(x.cfg, d);
        NoRounds(x, k, t);
      } else {
        WithoutGreeting(x, counts);
        Repeats(x, d, k, counts[k], greeted, t);
      }
      assert SessionEvents(x, counts, t) == SessionEvents(x, counts[..k], t) + Rounds(x, k, counts[k], t);
      Either(d, x, k, greeted);
      Either(ReceiveAll(x.cfg, c, Script(x, counts, greeted, t)), x, k + 1, greeted);
    }
  }

  lemma NoRounds(x: Terms, k: nat, t: int)
    requires k < |Runs.STAGES|
    ensures Rounds(x, k, 0, t) == []
  {
  }

  lemma WithoutGreeting(x: Terms, counts: seq<nat>)
    requires Usual(x) && Course(x, counts) && counts != []
    ensures !Greeted(counts) ==> x.protocol == Din
    ensures x.protocol in {Iso2, Din}
  {
  }

  lemma ReceiveNothing(cfg: Config, c: Conf)
    ensures ReceiveAll(cfg, c, []) == c
  {
  }

  lemma SilenceAddsNothing(cfg: Config, c: Conf)
    ensures var d := Receive(cfg, c, RecvFailed(ETIMEDOUT)); d.charger == c.charger && d.log == c.log
    ensures c.stream.exit.Some? ==> Receive(cfg, c, RecvFailed(ETIMEDOUT)) == c
  {
  }

  /** In both protocols a session with any number of polls is served, request by request, on a charger just powered
      up: each is admitted, handed on and answered. Once the SessionStop is through, the stream has ended well, and the
      charger is as it was. DIN needs no SupportedAppProtocol. */
  lemma SessionIsServed(x: Terms, counts: seq<nat>, t: int)
    requires Usual(x) && Course(x, counts) && counts != [] && (Greeted(counts) ==> Negotiates(x))
    ensures var d := Live(x.cfg, [Connection(Script(x, counts, Greeted(counts), t))]);
      && d.log == [Opened] + SessionEvents(x, counts, t)
      && (|counts| == |Runs.STAGES| ==>
            d.charger == POWER_UP && d.stream.exit == Some(Done) && d.stream.sawSessionStop)
  {
    hide Receive, ReceiveAll, Before, Negotiates, SessionEvents, Script;
    var script := Script(x, counts, Greeted(counts), t);
    assert [Connection(script)][..0] == [];
    var c := Open(Live(x.cfg, []));
    Fresh(x, Greeted(counts));
    SessionGoesOn(x, c, counts, Greeted(counts), t);
    var d := ReceiveAll(x.cfg, c, script);
    SilenceAddsNothing(x.cfg, d);
    if |counts| == |Runs.STAGES| { AtTheEnd(x, d, Greeted(counts)); }
  }

  lemma Fresh(x: Terms, greeted: bool)
    ensures var c := Open(Live(x.cfg, [])); Before(c, x, 0, greeted) && c.log == [Opened]
  {
  }

  lemma AtTheEnd(x: Terms, d: Conf, greeted: bool)
    requires Before(d, x, |Runs.STAGES|, greeted)
    ensures d.charger == POWER_UP && d.stream.exit == Some(Done) && d.stream.sawSessionStop
  {
  }

  // ---- pause and resume ----

  ghost predicate IsoAgreed(x: Terms) { x.protocol == Iso2 && Negotiates(x) }

  /** In DC mode from the cable check on. */
  predicate DcAfter(k: nat) { k >= 7 }

  /** The charger that retains the paused session. */
  function PausedCharger(x: Terms, k: nat, t: int): Charger {
    Charger(ZERO_SID, x.sid, t, DcAfter(k), false, None, false)
  }

  function StopRequest(x: Terms): Request { Request(Iso2, x.sid, SessionStop(true)) }

  function StopFrame(x: Terms, t: int): Received { FrameOf(x, x.sid, SessionStop(true), x.stray, Smooth(x.sid, t)) }

  lemma PauseTurn(x: Terms, c: Conf, k: nat, t: int)
    requires x.protocol == Iso2 && 2 <= k <= 12 && Before(c, x, k, true)
    ensures var d := Receive(x.cfg, c, StopFrame(x, t));
      && d.charger == PausedCharger(x, k, t) && d.stream.exit == Some(Done)
      && d.log == c.log + [Admitted(StopRequest(x)), Handed(StopRequest(x)), Paused(x.sid, t, DcAfter(k)),
                           Sent(Response(SessionStopReq, x.sid, OK))]
  {
    hide OnRequest, Runs.StageState, Serve;
    StopIsAccepted(k, StopRequest(x));
    DecodedTurn(x.cfg, c, StopFrame(x, t), StopRequest(x));
    var a := Admit(c.(stream := c.stream.(protocol := Iso2, undecodable := 0)), StopRequest(x), Smooth(x.sid, t));
    PauseServe(x.cfg, a, StopRequest(x), Smooth(x.sid, t));
  }

  lemma PauseServe(cfg: Config, c: Conf, r: Request, env: Env)
    requires r.protocol == Iso2 && r.body == SessionStop(true) && c.charger.sessionId != ZERO_SID
    requires !c.charger.terminateAfterResponse && env.encodeRc == Done && !env.emptyOutput && env.sendRc == Done
    ensures var (d, s) := (Serve(cfg, c, r, env), c.charger);
      var dc := c.stream.sequence.modeKnown && c.stream.sequence.dcMode;
      && d.charger == s.(sessionId := ZERO_SID, dinContract := None, lastSessionId := s.sessionId,
                         lastSessionEndMs := env.now, lastSessionWasDc := dc)
      && d.stream.exit == Some(Done)
      && d.log == c.log + [Paused(s.sessionId, env.now, dc), Sent(Response(SessionStopReq, s.sessionId, OK))]
  {
  }

  lemma StopIsAccepted(k: nat, r: Request)
    requires 2 <= k <= 12 && r.protocol == Iso2 && r.body.SessionStop?
    ensures var (s, v) := (Runs.StageState(Iso2, k - 1), OnRequest(Runs.StageState(Iso2, k - 1), r));
      v == Accepted(s.(phase := InComplete)) && s.dcMode == s.modeKnown == DcAfter(k)
  {
  }

  function SetupRequest(x: Terms): Request { Request(Iso2, x.sid, SessionSetup) }

  /** The events of the resuming stream, from its opening on. */
  ghost function Resumption(x: Terms, other: FreshSid, u: int, dc: bool): seq<Event> {
    [Opened, Admitted(StageRequest(x, 0)), Handed(StageRequest(x, 0)), Minted(other), Sent(AppResponse(x, other)),
     Admitted(SetupRequest(x)), Handed(SetupRequest(x)), Settled(x.sid, x.sid, true, u),
     Sent(Response(SessionSetupReq, x.sid, OkOldSessionJoined)), SequenceMode(dc)]
  }

  /** Its two frames; the generator would give another SessionID. */
  function ResumeScript(x: Terms, other: FreshSid, u: int): seq<Received> {
    [Exi(Some(x.offers), None, None, Smooth(other, u)), FrameOf(x, x.sid, SessionSetup, x.stray, Smooth(other, u))]
  }

  lemma SetupIsAdmitted(x: Terms, c: Conf, env: Env)
    requires x.protocol == Iso2 && c.stream.exit.None? && c.stream.sequence == Runs.StageState(Iso2, 0)
    ensures Admit(c, SetupRequest(x), env) ==
      Conf(c.charger, c.stream.(sequence := Runs.StageState(Iso2, 1)),
           c.log + [Admitted(SetupRequest(x)), Handed(SetupRequest(x))])
  {
    hide OnRequest, Runs.StageState;
    StageIsAccepted(x, c.stream.sequence, 1, SetupRequest(x));
  }

  lemma JoinIsServed(x: Terms, c: Conf, k: nat, other: FreshSid, t: int, u: int)
    requires c.charger == PausedCharger(x, k, t).(sessionId := other) && 0 <= u - t <= PAUSE_RESUME_WINDOW_MS
    requires c.stream.exit.None? && c.stream.sequence == Runs.StageState(Iso2, 1)
    ensures var d := Serve(x.cfg, c, SetupRequest(x), Smooth(other, u));
      && d.charger.sessionId == x.sid && d.stream.exit.None?
      && d.log == c.log + [Settled(x.sid, x.sid, true, u), Sent(Response(SessionSetupReq, x.sid, OkOldSessionJoined)),
                           SequenceMode(DcAfter(k))]
  {
  }

  lemma JoinTurn(x: Terms, c: Conf, k: nat, other: FreshSid, t: int, u: int)
    requires x.protocol == Iso2 && 0 <= u - t <= PAUSE_RESUME_WINDOW_MS
    requires c.charger == PausedCharger(x, k, t).(sessionId := other)
    requires c.stream.exit.None? && c.stream.protocol == Iso2 && c.stream.sequence == Runs.StageState(Iso2, 0)
    ensures var d := Receive(x.cfg, c, ResumeScript(x, other, u)[1]);
      && d.charger.sessionId == x.sid && d.stream.exit.None?
      && d.log == c.log + Resumption(x, other, u, DcAfter(k))[5..]
  {
    hide Admit, Serve, Runs.StageState, StageRequest, AppResponse, DcAfter, PausedCharger;
    var ready := c.(stream := c.stream.(undecodable := 0));
    DecodedTurn(x.cfg, c, ResumeScript(x, other, u)[1], SetupRequest(x));
    SetupIsAdmitted(x, ready, Smooth(other, u));
    JoinIsServed(x, Admit(ready, SetupRequest(x), Smooth(other, u)), k, other, t, u);
  }

  lemma RegreetTurn(x: Terms, c: Conf, other: FreshSid, u: int)
    requires IsoAgreed(x) && c.stream == NEW_STREAM && c.charger.sessionId == ZERO_SID
    requires !c.charger.terminateAfterResponse
    ensures var r := StageRequest(x, 0);
      Receive(x.cfg, c, ResumeScript(x, other, u)[0]) ==
      Conf(c.charger.(sessionId := other),
           c.stream.(protocol := Iso2, sequence := Runs.StageState(Iso2, 0), handledAny := true),
           c.log + [Admitted(r), Handed(r), Minted(other), Sent(AppResponse(x, other))])
  {
    hide Admit, Serve, Runs.StageState, AppResponse;
    var r := StageRequest(x, 0);
    DecodedTurn(x.cfg, c, ResumeScript(x, other, u)[0], r);
    var ready := c.(stream := c.stream.(protocol := Iso2, undecodable := 0));
    StageIsAdmitted(x, ready, 0, Smooth(other, u));
    GreetingServe(x, Admit(ready, r, Smooth(other, u)), other, u);
  }

  lemma ResumingStream(x: Terms, c: Conf, k: nat, other: FreshSid, t: int, u: int)
    requires IsoAgreed(x) && c.charger == PausedCharger(x, k, t) && 0 <= u - t <= PAUSE_RESUME_WINDOW_MS
    ensures var d := Connect(x.cfg, c, ResumeScript(x, other, u));
      d.charger.sessionId == x.sid && d.log == c.log + Resumption(x, other, u, DcAfter(k))
  {
    hide Receive, ReceiveAll, OnRequest, Runs.StageState, Negotiates, ResumeScript, StageRequest, AppResponse;
    var script := ResumeScript(x, other, u);
    var o := Open(c);
    RegreetTurn(x, o, other, u);
    TwoFrames(x, other, u);
    var a := Receive(x.cfg, o, script[0]);
    JoinTurn(x, a, k, other, t, u);
    var d := Receive(x.cfg, a, script[1]);
    ReceiveAllSplits(x.cfg, o, [script[0]], [script[1]]);
    ReceiveOne(x.cfg, o, script[0]);
    ReceiveOne(x.cfg, a, script[1]);
    SilenceAddsNothing(x.cfg, d);
  }

  lemma TwoFrames(x: Terms, other: FreshSid, u: int)
    ensures var script := ResumeScript(x, other, u); |script| == 2 && script == [script[0]] + [script[1]]
  {
  }

  lemma LiveAppend(cfg: Config, acts: seq<Act>, a: Act)
    ensures Live(cfg, acts + [a]) == match a
      case Connection(script) => Connect(cfg, Live(cfg, acts), script)
      case Retirement => Retire(Live(cfg, acts))
  {
    hide Connect, Retire;
    assert (acts + [a])[..|acts|] == acts;
  }

  /** Retirements leave a charger without a live session as it is. */
  lemma {:induction false} Retirements(x: Terms, acts: seq<Act>, k: nat, n: nat, t: int)
    requires Live(x.cfg, acts).charger == PausedCharger(x, k, t)
    ensures var d := Live(x.cfg, acts + seq(n, i => Retirement));
      d.charger == PausedCharger(x, k, t) && d.log == Live(x.cfg, acts).log + seq(n, i => Retired)
    decreases n
  {
    hide Live;
    if n == 0 {
      assert acts + seq(0, i => Retirement) == acts;
    } else {
      var fewer := acts + seq(n - 1, i => Retirement);
      assert acts + seq(n, i => Retirement) == fewer + [Retirement];
      Retirements(x, acts, k, n - 1, t);
      LiveAppend(x.cfg, fewer, Retirement);
      assert seq(n - 1, i => Retired) + [Retired] == seq(n, i => Retired);
    }
  }

  function PausedStream(x: Terms, counts: seq<nat>, t: int): seq<Received>
    requires |counts| <= 12
  {
    Script(x, counts, true, t) + [StopFrame(x, t)]
  }

  lemma PausingStream(x: Terms, counts: seq<nat>, t: int)
    requires IsoAgreed(x) && Course(x, counts) && 2 <= |counts| <= 12
    ensures var d := Live(x.cfg, [Connection(PausedStream(x, counts, t))]);
      && d.charger == PausedCharger(x, |counts|, t) && |d.log| >= 2
      && d.log[|d.log| - 2..] == [Paused(x.sid, t, DcAfter(|counts|)), Sent(Response(SessionStopReq, x.sid, OK))]
  {
    hide Receive, ReceiveAll, OnRequest, Runs.StageState, Negotiates, Script, Before, SessionEvents, StopFrame, DcAfter;
    var (script, stop) := (Script(x, counts, true, t), StopFrame(x, t));
    var c := Open(Live(x.cfg, []));
    Fresh(x, true);
    SessionGoesOn(x, c, counts, true, t);
    var p := ReceiveAll(x.cfg, c, script);
    PauseTurn(x, p, |counts|, t);
    ReceiveAllSplits(x.cfg, c, script, [stop]);
    ReceiveOne(x.cfg, p, stop);
    SilenceAddsNothing(x.cfg, Receive(x.cfg, p, stop));
    assert [Connection(PausedStream(x, counts, t))][..0] == [];
  }

  /** A session paused after stage |counts| - 1, any number of retirements, and the stream that resumes it. */
  function PausedLife(x: Terms, counts: seq<nat>, n: nat, other: FreshSid, t: int, u: int): seq<Act>
    requires |counts| <= 12
  {
    [Connection(PausedStream(x, counts, t))] + seq(n, i => Retirement) + [Connection(ResumeScript(x, other, u))]
  }

  lemma NothingOfPausesBetween(x: Terms, other: FreshSid, u: int, dc: bool, m: nat)
    requires m < 7
    ensures var e := Resumption(x, other, u, dc)[m];
      !e.Paused? && !Theorems.AnswersStop(e) && !Theorems.Joins(e)
  {
  }

  /** The positions of a history that ends like this. */
  lemma ResumesAtTheEnd(x: Terms, log: seq<Event>, n: nat, other: FreshSid, t: int, u: int, dc: bool)
    requires |log| >= 2 && log[|log| - 2..] == [Paused(x.sid, t, dc), Sent(Response(SessionStopReq, x.sid, OK))]
    ensures var i := |log| - 2;
      var all := log + seq(n, i => Retired) + Resumption(x, other, u, dc);
      Theorems.Resumes(all, i, i + n + 9, i + n + 11) && all[i + n + 11] == SequenceMode(dc)
  {
    var (i, tail) := (|log| - 2, Resumption(x, other, u, dc));
    var all := log + seq(n, i => Retired) + tail;
    assert all[i] == log[|log| - 2..][0] && all[i + 1] == log[|log| - 2..][1];
    assert tail[7].Settled? && tail[7].joined && tail[8].Sent? && tail[9] == SequenceMode(dc) && |tail| == 10;
    hide Resumption;
    forall m | i + 1 < m < i + n + 9
      ensures !all[m].Paused? && !Theorems.AnswersStop(all[m]) && !Theorems.Joins(all[m])
    {
      if m < |log| + n {
        assert all[m] == Retired;
      } else {
        NothingOfPausesBetween(x, other, u, dc, m - |log| - n);
      }
    }
  }

  /** A session of ISO 15118-2 can be paused after any of its stages from SessionSetup on and with any number of polls,
      and it is resumed on the next stream whatever retirements lie between: in DC mode exactly when it had come to the
      cable check. */
  lemma PausedSessionResumes(x: Terms, counts: seq<nat>, n: nat, other: FreshSid, t: int, u: int)
    requires IsoAgreed(x) && Course(x, counts) && 2 <= |counts| <= 12
    requires 0 <= u - t <= PAUSE_RESUME_WINDOW_MS
    ensures var c := Live(x.cfg, PausedLife(x, counts, n, other, t, u));
      && c.charger.sessionId == x.sid
      && exists i: nat, j: nat, k: nat :: Theorems.Resumes(c.log, i, j, k) && (c.log[k].dc <==> |counts| >= 7)
  {
    hide Live, Connect, Resumption, IsoAgreed, PausedStream, Theorems.Resumes;
    var first := [Connection(PausedStream(x, counts, t))];
    var between := first + seq(n, i => Retirement);
    PausingStream(x, counts, t);
    Retirements(x, first, |counts|, n, t);
    LiveAppend(x.cfg, between, Connection(ResumeScript(x, other, u)));
    ResumingStream(x, Live(x.cfg, between), |counts|, other, t, u);
    ResumesAtTheEnd(x, Live(x.cfg, first).log, n, other, t, u, DcAfter(|counts|));
  }

  /** Such terms exist: one offer of the standard's namespace to a charger that has the protocol enabled. */
  lemma IsoIsNegotiated(modes: set<nat>, sid: FreshSid, stray: Option<Message>)
    ensures IsoAgreed(Terms(Config(modes, 2), Iso2, [Offer(AppSelection.ISO2_NAMESPACE, 2, 0, 1, 1)], sid, stray))
  {
    hide AppSelection.Named;
    AppSelection.IsoNamespace();
    AppSelection.SingleOffer(Offer(AppSelection.ISO2_NAMESPACE, 2, 0, 1, 1), 2);
  }

  lemma DinIsNegotiated(modes: set<nat>, sid: FreshSid, stray: Option<Message>)
    ensures Negotiates(Terms(Config(modes, 1), Din, [Offer(AppSelection.DIN_NAMESPACE, 2, 0, 1, 1)], sid, stray))
  {
    hide AppSelection.Named;
    AppSelection.DinNamespace();
    AppSelection.SingleOffer(Offer(AppSelection.DIN_NAMESPACE, 2, 0, 1, 1), 1);
  }
}
