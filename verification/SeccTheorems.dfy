/** The whole-life guarantees of the -2/DIN engine, stated on positions of its history. */
module SeccTheorems {
  import opened Messages
  import opened Sequencer
  import opened SeccModel
  import opened SeccHistory
  import Runs = SequencerRuns

  /** The history of a life. */
  ghost function History(cfg: Config, acts: seq<Act>): seq<Event> { Live(cfg, acts).log }

  lemma HistoryIsSound(cfg: Config, acts: seq<Act>)
    ensures AllSound(History(cfg, acts))
  {
    hide AllSound, Faithful, Running, Left, Live;
    LifeIsSane(cfg, acts);
  }

  lemma SoundAt(cfg: Config, acts: seq<Act>, i: nat)
    requires i < |History(cfg, acts)|
    ensures Sound(DigestOf(History(cfg, acts)[..i]), History(cfg, acts)[i])
  {
    hide Live, Sound;
    HistoryIsSound(cfg, acts);
  }

  /** No stream begins between positions i and j: both lie on the same stream. */
  ghost predicate SameStream(log: seq<Event>, i: nat, j: nat) {
    i <= j <= |log| && forall k :: i < k < j ==> log[k] != Opened
  }

  lemma DigestStep(log: seq<Event>, n: nat)
    requires n < |log|
    ensures DigestOf(log[..n + 1]) == Update(DigestOf(log[..n]), log[n])
  {
    assert log[..n + 1][..n] == log[..n];
  }

  lemma DigestStart(log: seq<Event>)
    ensures DigestOf(log[..0]) == NOTHING
  {
  }

  /** The digest, one part at a time. */
  lemma UpdateSession(d: Digest, e: Event)
    ensures Update(d, e).minted == if e.Minted? then d.minted + {e.sid} else d.minted
    ensures Update(d, e).setups == if e == Opened then 0 else d.setups + (if e.Settled? then 1 else 0)
    ensures Update(d, e).settled == if e == Opened then None else if e.Settled? then Some(e.sid) else d.settled
    ensures Update(d, e).joined == if e == Opened then false else if e.Settled? then e.joined else d.joined
  {
  }

  lemma UpdateServing(d: Digest, e: Event)
    ensures Update(d, e).serving ==
      if e == Opened || e.Sent? then None else if e.Handed? then Some(e.request) else d.serving
  {
  }

  lemma UpdateTallies(d: Digest, e: Event)
    ensures Update(d, e).ignored == if e == Opened then 0 else d.ignored + (if e == Ignored then 1 else 0)
    ensures Update(d, e).handled == if e == Opened then 0 else d.handled + (if Handles(e) then 1 else 0)
  {
  }

  lemma UpdateSteps(d: Digest, e: Event)
    ensures Update(d, e).steps ==
      if e == Opened then []
      else if e.Admitted? then d.steps + [Runs.Req(e.request)]
      else if e == SequenceMode(true) then d.steps + [Runs.ResumeDc]
      else d.steps
  {
  }

  lemma UpdatePause(d: Digest, e: Event)
    ensures Update(d, e).pause ==
      if e.Paused? then Some((e.sid, e.now)) else if Joins(e) then None else d.pause
    ensures e.Paused? ==> Update(d, e).unanswered == Some(e.dc)
    ensures AnswersStop(e) ==> Update(d, e).remembered == d.unanswered
    ensures !e.Paused? && !AnswersStop(e) && !Joins(e) ==> Update(d, e).remembered == d.remembered
    ensures e.Settled? ==> Update(d, e).granted == if e.joined then d.remembered else Some(false)
    ensures !e.Settled? && !e.SequenceMode? ==> Update(d, e).granted == d.granted
  {
  }

  lemma UpdateContract(d: Digest, e: Event)
    ensures Update(d, e).contract ==
      if e.Advertised? then Some(e.energyType) else if EndsContract(e) then None else d.contract
  {
  }

  lemma UpdateStream(d: Digest, e: Event)
    ensures Update(d, e).cable <==> d.cable || (e.Admitted? && e.request.body.CableCheck?)
    ensures Update(d, e).stopAnswered <==> AnswersStop(e) || (e != Opened && d.stopAnswered)
    ensures e != Opened ==> d.steps <= Update(d, e).steps
    ensures e.Admitted? ==> Update(d, e).steps == d.steps + [Runs.Req(e.request)]
    ensures e != Opened ==> (d.finished ==> Update(d, e).finished)
    ensures IsLast(e) ==> Update(d, e).finished
  {
  }

  // ---- SessionID provenance ----

  lemma {:induction false} MintedMeans(log: seq<Event>, n: nat, sid: Sid)
    requires n <= |log|
    ensures sid in DigestOf(log[..n]).minted <==> exists j :: 0 <= j < n && log[j] == Minted(sid)
  {
    hide Update, DigestOf;
    if n == 0 {
      DigestStart(log);
    } else {
      MintedMeans(log, n - 1, sid);
      DigestStep(log, n - 1);
      UpdateSession(DigestOf(log[..n - 1]), log[n - 1]);
    }
  }

  ghost predicate OwnSid(log: seq<Event>, sid: Sid) {
    sid == ZERO_SID || exists j :: 0 <= j < |log| && log[j] == Minted(sid)
  }

  /** The live and the retained SessionID are zero or came from the SECC's own generator, and the arm that
      would adopt an identifier chosen by the EV is never taken. */
  lemma SessionIdsAreMinted(cfg: Config, acts: seq<Act>)
    ensures OwnSid(History(cfg, acts), Live(cfg, acts).charger.sessionId)
    ensures OwnSid(History(cfg, acts), Live(cfg, acts).charger.lastSessionId)
    ensures forall i :: 0 <= i < |History(cfg, acts)| ==> !History(cfg, acts)[i].Adopted?
  {
    hide Live, AllSound, Running, Left;
    var c := Live(cfg, acts);
    LifeIsSane(cfg, acts);
    assert c.log[..|c.log|] == c.log;
    MintedMeans(c.log, |c.log|, c.charger.sessionId);
    MintedMeans(c.log, |c.log|, c.charger.lastSessionId);
    forall i | 0 <= i < |c.log| ensures !c.log[i].Adopted? { SoundAt(cfg, acts, i); }
  }

  /** j is the one and only SessionSetup settled so far on the stream that position n belongs to. */
  ghost predicate OnlySetup(log: seq<Event>, j: nat, n: nat) {
    && j < n && SameStream(log, j, n) && log[j].Settled?
    && forall k :: 0 <= k < n && k != j && log[k].Settled? ==> exists m :: k < m < n && log[m] == Opened
  }

  lemma {:induction false} SetupsMean(log: seq<Event>, n: nat)
    requires n <= |log|
    ensures DigestOf(log[..n]).setups == 0 ==>
      forall k :: 0 <= k < n && log[k].Settled? ==> exists m :: k < m < n && log[m] == Opened
    ensures DigestOf(log[..n]).setups == 1 ==>
      exists j :: 0 <= j < n && OnlySetup(log, j, n) && DigestOf(log[..n]).settled == Some(log[j].sid) &&
                  DigestOf(log[..n]).joined == log[j].joined
  {
    hide Update, DigestOf;
    if n == 0 {
      DigestStart(log);
    } else {
      SetupsMean(log, n - 1);
      DigestStep(log, n - 1);
      UpdateSession(DigestOf(log[..n - 1]), log[n - 1]);
      var d, e := DigestOf(log[..n - 1]), log[n - 1];
      if e == Opened {
        forall k | 0 <= k < n && log[k].Settled? ensures exists m :: k < m < n && log[m] == Opened {
          assert log[n - 1] == Opened;
        }
      } else if d.setups == 1 && !e.Settled? {
        var j :| 0 <= j < n - 1 && OnlySetup(log, j, n - 1) && d.settled == Some(log[j].sid) &&
          d.joined == log[j].joined;
        assert OnlySetup(log, j, n);
      } else if d.setups == 0 && e.Settled? {
        assert OnlySetup(log, n - 1, n);
      }
    }
  }

  /** Every request handed to the handler after SessionSetup carries the SID settled by that stream's single
      SessionSetup. */
  lemma RequestsCarryTheSettledSid(cfg: Config, acts: seq<Act>, i: nat)
    requires i < |History(cfg, acts)| && History(cfg, acts)[i].Handed?
    requires var r := History(cfg, acts)[i].request; !r.body.SupportedAppProtocol? && !r.body.SessionSetup?
    ensures var log := History(cfg, acts);
      exists j :: 0 <= j < i && OnlySetup(log, j, i) && log[j].sid == log[i].request.sid
  {
    hide Live;
    SoundAt(cfg, acts, i);
    SetupsMean(History(cfg, acts), i);
  }

  // ---- responses and their requests ----

  /** Position h holds the request that is being served at n. */
  ghost predicate Serving(log: seq<Event>, h: nat, n: nat) {
    && h < n && SameStream(log, h, n) && log[h].Handed?
    && forall k :: h < k < n ==> !log[k].Handed? && !log[k].Sent?
  }

  lemma {:induction false} ServingMeans(log: seq<Event>, n: nat)
    requires n <= |log| && DigestOf(log[..n]).serving.Some?
    ensures exists h :: 0 <= h < n && Serving(log, h, n) && DigestOf(log[..n]).serving == Some(log[h].request)
  {
    hide Update, DigestOf;
    if n == 0 {
      DigestStart(log);
    } else {
      DigestStep(log, n - 1);
      UpdateServing(DigestOf(log[..n - 1]), log[n - 1]);
      if log[n - 1].Handed? {
        assert Serving(log, n - 1, n);
      } else {
        ServingMeans(log, n - 1);
        var h :| 0 <= h < n - 1 && Serving(log, h, n - 1) &&
          DigestOf(log[..n - 1]).serving == Some(log[h].request);
        assert Serving(log, h, n);
      }
    }
  }

  /** Every response but the two refusals of the gates answers the request handed on last, by kind, and carries the
      SessionID its stream has settled. */
  lemma ResponseFitsRequest(cfg: Config, acts: seq<Act>, i: nat)
    requires i < |History(cfg, acts)| && History(cfg, acts)[i].Sent? && !Refusal(History(cfg, acts)[i].response.code)
    ensures var log := History(cfg, acts);
      exists h :: 0 <= h < i && Serving(log, h, i) && log[h].request.body.Type() == log[i].response.kind &&
        DigestOf(log[..i]).serving == Some(log[h].request)
    ensures Answers(DigestOf(History(cfg, acts)[..i]), History(cfg, acts)[i].response)
  {
    hide Live, DigestOf;
    SoundAt(cfg, acts, i);
    ServingMeans(History(cfg, acts), i);
  }

  // ---- pause and resume ----

  predicate Joins(e: Event) { e.Settled? && e.joined }

  /** Position j holds the latest pause before n, and nobody has redeemed it. */
  ghost predicate OpenPause(log: seq<Event>, j: nat, n: nat) {
    j < n <= |log| && log[j].Paused? && forall k :: j < k < n ==> !log[k].Paused? && !Joins(log[k])
  }

  lemma OpenPauseStep(log: seq<Event>, j: nat, n: nat)
    requires j < n < |log|
    ensures OpenPause(log, j, n + 1) <==> OpenPause(log, j, n) && !log[n].Paused? && !Joins(log[n])
  {
  }

  lemma {:induction false} OpenPauseIsRemembered(log: seq<Event>, j: nat, n: nat)
    requires j < n <= |log| && OpenPause(log, j, n)
    ensures DigestOf(log[..n]).pause == Some((log[j].sid, log[j].now))
  {
    hide Update, DigestOf;
    DigestStep(log, n - 1);
    UpdatePause(DigestOf(log[..n - 1]), log[n - 1]);
    if j < n - 1 {
      OpenPauseStep(log, j, n - 1);
      OpenPauseIsRemembered(log, j, n - 1);
    }
  }

  lemma {:induction false} PauseMeans(log: seq<Event>, n: nat)
    requires n <= |log| && DigestOf(log[..n]).pause.Some?
    ensures exists j :: 0 <= j < n && OpenPause(log, j, n) &&
                        DigestOf(log[..n]).pause == Some((log[j].sid, log[j].now))
  {
    hide Update, DigestOf;
    if n == 0 {
      DigestStart(log);
    } else {
      DigestStep(log, n - 1);
      UpdatePause(DigestOf(log[..n - 1]), log[n - 1]);
      if log[n - 1].Paused? {
        assert OpenPause(log, n - 1, n);
      } else {
        PauseMeans(log, n - 1);
        var j :| 0 <= j < n - 1 && OpenPause(log, j, n - 1) &&
          DigestOf(log[..n - 1]).pause == Some((log[j].sid, log[j].now));
        OpenPauseStep(log, j, n - 1);
      }
    }
  }

  /** OK_OldSessionJoined is granted exactly when the EV presents the SID of the latest pause, nobody has
      redeemed that pause yet, and it is at most 60 minutes old. */
  lemma JoinExactlyTheOpenPause(cfg: Config, acts: seq<Act>, i: nat)
    requires i < |History(cfg, acts)| && History(cfg, acts)[i].Settled?
    ensures var log := History(cfg, acts);
      log[i].joined <==> exists j :: 0 <= j < i && OpenPause(log, j, i) &&
                           log[j].sid == log[i].presented && WithinWindow(log[j].now, log[i].now)
  {
    hide Live;
    var log := History(cfg, acts);
    SoundAt(cfg, acts, i);
    if log[i].joined {
      PauseMeans(log, i);
    } else {
      forall j | 0 <= j < i && OpenPause(log, j, i)
        ensures log[j].sid != log[i].presented || !WithinWindow(log[j].now, log[i].now)
      {
        OpenPauseIsRemembered(log, j, i);
      }
    }
  }

  /** What the EV is told: a SessionSetup that is answered at all is answered OK_OldSessionJoined exactly when the
      SID it presented is that of an open pause at most 60 minutes old, and OK_NewSessionEstablished otherwise; no
      other request is ever answered so. */
  lemma JoinedResponseExactly(cfg: Config, acts: seq<Act>, i: nat)
    requires i < |History(cfg, acts)| && History(cfg, acts)[i].Sent?
    requires var a := History(cfg, acts)[i].response;
      a.code in {OkNewSession, OkOldSessionJoined} || (a.kind == SessionSetupReq && !Refusal(a.code))
    ensures var log := History(cfg, acts);
      exists j :: 0 <= j < i && OnlySetup(log, j, i) && AnswersSetup(log, j, i)
  {
    hide Live, DigestOf, SameStream;
    var log := History(cfg, acts);
    ResponseFitsRequest(cfg, acts, i);
    SettledBeforeAnswer(cfg, acts, i);
    SetupsMean(log, i);
    var j :| 0 <= j < i && OnlySetup(log, j, i) && DigestOf(log[..i]).settled == Some(log[j].sid) &&
      DigestOf(log[..i]).joined == log[j].joined;
    JoinExactlyTheOpenPause(cfg, acts, j);
    SoundAt(cfg, acts, j);
    ServingMeans(log, j);
  }

  /** The response at i says how the settlement at j, made for the request then being served, went. */
  ghost predicate AnswersSetup(log: seq<Event>, j: nat, i: nat)
    requires j < i < |log| && log[j].Settled? && log[i].Sent?
  {
    && log[i].response.kind == SessionSetupReq && log[i].response.sid == log[j].sid
    && (exists h :: 0 <= h < j && Serving(log, h, j) && log[h].request.body.SessionSetup? &&
                    log[h].request.sid == log[j].presented)
    && log[i].response.code ==
       if exists p :: 0 <= p < j && OpenPause(log, p, j) && log[p].sid == log[j].presented &&
                      WithinWindow(log[p].now, log[j].now)
       then OkOldSessionJoined else OkNewSession
  }

  /** Whoever is answered with a settled SessionID has had it settled on this very stream. */
  lemma SettledBeforeAnswer(cfg: Config, acts: seq<Act>, i: nat)
    requires i < |History(cfg, acts)| && DigestOf(History(cfg, acts)[..i]).settled.Some?
    ensures DigestOf(History(cfg, acts)[..i]).setups == 1
  {
    hide Live;
    HistoryIsSound(cfg, acts);
    OneSetup(History(cfg, acts), i);
  }

  lemma {:induction false} OneSetup(log: seq<Event>, n: nat)
    requires AllSound(log) && n <= |log|
    ensures DigestOf(log[..n]).setups <= 1
    ensures DigestOf(log[..n]).settled.Some? <==> DigestOf(log[..n]).setups == 1
  {
    hide Update, DigestOf;
    if n == 0 {
      DigestStart(log);
    } else {
      OneSetup(log, n - 1);
      DigestStep(log, n - 1);
      UpdateSession(DigestOf(log[..n - 1]), log[n - 1]);
      assert Sound(DigestOf(log[..n - 1]), log[n - 1]);
    }
  }

  function Count(log: seq<Event>, p: Event -> bool): nat {
    if log == [] then 0
    else Count(log[..|log| - 1], p) + if p(log[|log| - 1]) then 1 else 0
  }

  function Grants(log: seq<Event>): nat { Count(log, (e: Event) => Joins(e)) }
  function Pauses(log: seq<Event>): nat { Count(log, (e: Event) => e.Paused?) }

  function Held(d: Digest): nat { if d.pause.Some? then 1 else 0 }

  lemma LedgerStep(d: Digest, e: Event)
    requires Sound(d, e)
    ensures (if Joins(e) then 1 else 0) + Held(Update(d, e)) <= (if e.Paused? then 1 else 0) + Held(d)
  {
    hide Update, Runs.After;
    UpdatePause(d, e);
  }

  lemma {:induction false} LedgerBalances(log: seq<Event>, n: nat)
    requires AllSound(log) && n <= |log|
    ensures Grants(log[..n]) + Held(DigestOf(log[..n])) <= Pauses(log[..n])
  {
    hide Update, DigestOf, Sound, Held;
    if n == 0 {
      DigestStart(log);
      NothingHeld();
    } else {
      LedgerBalances(log, n - 1);
      DigestStep(log, n - 1);
      LedgerStep(DigestOf(log[..n - 1]), log[n - 1]);
      assert log[..n][..n - 1] == log[..n - 1];
    }
  }

  lemma NothingHeld()
    ensures Held(NOTHING) == 0
  {
  }

  /** Resume grants plus the pause still retained never exceed the pauses handled. */
  lemma PauseLedger(cfg: Config, acts: seq<Act>)
    ensures var c := Live(cfg, acts);
      Grants(c.log) + (if c.charger.lastSessionId != ZERO_SID then 1 else 0) <= Pauses(c.log)
  {
    hide Live, Running, Left;
    var log := History(cfg, acts);
    LifeIsSane(cfg, acts);
    LedgerBalances(log, |log|);
    assert log[..|log|] == log;
  }

  // ---- DC mode across streams ----

  lemma {:induction false} CableMeans(log: seq<Event>, n: nat)
    requires n <= |log|
    ensures DigestOf(log[..n]).cable <==>
      exists j :: 0 <= j < n && log[j].Admitted? && log[j].request.body.CableCheck?
  {
    hide Update, DigestOf;
    if n == 0 {
      DigestStart(log);
    } else {
      CableMeans(log, n - 1);
      DigestStep(log, n - 1);
      UpdateStream(DigestOf(log[..n - 1]), log[n - 1]);
    }
  }

  /** At every point of every stream, a sequencer in DC mode owes it to a CableCheck accepted on this or on
      an earlier stream. */
  lemma DcModeNeedsCableCheck(cfg: Config, acts: seq<Act>, script: seq<Received>)
    requires var c := ReceiveAll(cfg, Open(Live(cfg, acts)), script);
      c.stream.exit.None? && c.stream.sequence.dcMode
    ensures var log := ReceiveAll(cfg, Open(Live(cfg, acts)), script).log;
      exists j :: 0 <= j < |log| && log[j].Admitted? && log[j].request.body.CableCheck?
  {
    hide Live, ReceiveAll, Open, AllSound, Faithful;
    LifeIsSane(cfg, acts);
    OpenIsSane(Live(cfg, acts));
    ReceiveAllIsSane(cfg, Open(Live(cfg, acts)), script);
    var log := ReceiveAll(cfg, Open(Live(cfg, acts)), script).log;
    assert log[..|log|] == log;
    CableMeans(log, |log|);
  }

  predicate AnswersStop(e: Event) { e.Sent? && IsStopRes(e.response) }

  lemma {:induction false} RememberedHolds(log: seq<Event>, i: nat, n: nat)
    requires i + 1 < n <= |log| && log[i].Paused? && AnswersStop(log[i + 1])
    requires forall k :: i + 1 < k < n ==> !log[k].Paused? && !AnswersStop(log[k]) && !Joins(log[k])
    ensures DigestOf(log[..n]).remembered == Some(log[i].dc)
  {
    hide Update, DigestOf;
    DigestStep(log, n - 1);
    UpdatePause(DigestOf(log[..n - 1]), log[n - 1]);
    if n == i + 2 {
      DigestStep(log, i);
      UpdatePause(DigestOf(log[..i]), log[i]);
    } else {
      RememberedHolds(log, i, n - 1);
    }
  }

  lemma {:induction false} GrantedHolds(log: seq<Event>, j: nat, n: nat)
    requires j < n <= |log| && log[j].Settled?
    requires forall k :: j < k < n ==> !log[k].Settled? && !log[k].SequenceMode?
    ensures DigestOf(log[..n]).granted ==
      if log[j].joined then DigestOf(log[..j]).remembered else Some(false)
  {
    hide Update, DigestOf;
    DigestStep(log, n - 1);
    UpdatePause(DigestOf(log[..n - 1]), log[n - 1]);
    if n > j + 1 { GrantedHolds(log, j, n - 1); }
  }

  /** At i a pause whose SessionStopRes went out, at j a SessionSetup that joins with no other SessionStop answered in
      between, at k the mode of the sequencer that follows. */
  ghost predicate Resumes(log: seq<Event>, i: nat, j: nat, k: nat) {
    && i + 1 < j < k < |log|
    && log[i].Paused? && AnswersStop(log[i + 1])
    && (forall m :: i + 1 < m < j ==> !log[m].Paused? && !AnswersStop(log[m]) && !Joins(log[m]))
    && Joins(log[j])
    && (forall m :: j < m < k ==> !log[m].Settled? && !log[m].SequenceMode?)
    && log[k].SequenceMode?
  }

  /** A resumed sequencer starts in DC mode exactly when the paused one was. */
  lemma ResumeRestoresDcMode(cfg: Config, acts: seq<Act>, i: nat, j: nat, k: nat)
    requires Resumes(History(cfg, acts), i, j, k)
    ensures History(cfg, acts)[k].dc == History(cfg, acts)[i].dc
  {
    hide Live, Update;
    var log := History(cfg, acts);
    RememberedHolds(log, i, j);
    GrantedHolds(log, j, k);
    SoundAt(cfg, acts, k);
  }

  /** A SessionSetup answered as a new session never starts its sequencer in DC mode. */
  lemma NewSessionStartsWithoutDcMode(cfg: Config, acts: seq<Act>, j: nat, k: nat)
    requires var log := History(cfg, acts);
      && j < k < |log| && log[j].Settled? && !log[j].joined
      && (forall m :: j < m < k ==> !log[m].Settled? && !log[m].SequenceMode?)
      && log[k].SequenceMode?
    ensures !History(cfg, acts)[k].dc
  {
    hide Live, Update;
    GrantedHolds(History(cfg, acts), j, k);
    SoundAt(cfg, acts, k);
  }

  // ---- DIN energy-type contract ----

  predicate EndsContract(e: Event) {
    e.Advertised? || e.Withdrawn? || e.Settled? || e.Paused? || e.Stopped? || e.Retired?
  }

  /** Position j holds the DIN ServiceDiscovery offer still in force at n. */
  ghost predicate OfferInForce(log: seq<Event>, j: nat, n: nat) {
    j < n <= |log| && log[j].Advertised? && forall k :: j < k < n ==> !EndsContract(log[k])
  }

  lemma {:induction false} ContractMeans(log: seq<Event>, n: nat, t: nat)
    requires n <= |log|
    ensures DigestOf(log[..n]).contract == Some(t) <==>
      exists j :: 0 <= j < n && OfferInForce(log, j, n) && log[j].energyType == t
  {
    hide Update, DigestOf, EndsContract;
    if n == 0 {
      DigestStart(log);
    } else {
      ContractMeans(log, n - 1, t);
      DigestStep(log, n - 1);
      UpdateContract(DigestOf(log[..n - 1]), log[n - 1]);
      var e := log[n - 1];
      if e.Advertised? {
        assert OfferInForce(log, n - 1, n);
        forall j | 0 <= j < n - 1 ensures !OfferInForce(log, j, n) { OffersEnd(log, j, n); }
      } else {
        forall j | 0 <= j < n - 1
          ensures OfferInForce(log, j, n) <==> OfferInForce(log, j, n - 1) && !EndsContract(e)
        {
          OfferStep(log, j, n - 1);
        }
      }
    }
  }

  lemma OfferStep(log: seq<Event>, j: nat, n: nat)
    requires j < n < |log|
    ensures OfferInForce(log, j, n + 1) <==> OfferInForce(log, j, n) && !EndsContract(log[n])
  {
    hide EndsContract;
  }

  lemma OffersEnd(log: seq<Event>, j: nat, n: nat)
    requires j < n - 1 < |log| && log[n - 1].Advertised?
    ensures !OfferInForce(log, j, n)
  {
    assert EndsContract(log[n - 1]);
  }

  /** A DIN ChargeParameterDiscovery is answered OK exactly when it asks for the DC type offered by the latest
      successful ServiceDiscovery, with no SessionSetup, SessionStop or retirement since. */
  lemma DinContractIsHonoured(cfg: Config, acts: seq<Act>, i: nat, h: nat)
    requires var log := History(cfg, acts);
      && h < i < |log| && log[i].Sent? && !Refusal(log[i].response.code) && Serving(log, h, i)
      && log[h].request.protocol == Din && log[h].request.body.ChargeParameterDiscovery?
    ensures var log := History(cfg, acts);
      var asked := log[h].request.body.energyType;
      && log[i].response.kind == ChargeParameterDiscoveryReq
      && (log[i].response.code == OK <==>
            asked in {DC_CORE, DC_EXTENDED} &&
            exists j :: 0 <= j < i && OfferInForce(log, j, i) && log[j].energyType == asked)
  {
    hide Live, DigestOf, SameStream, OfferInForce;
    var log := History(cfg, acts);
    ResponseFitsRequest(cfg, acts, i);
    ServingIsOne(log, i, h);
    ContractMeans(log, i, log[h].request.body.energyType);
  }

  lemma ServingIsOne(log: seq<Event>, n: nat, h: nat)
    requires n <= |log| && Serving(log, h, n)
    requires exists g :: 0 <= g < n && Serving(log, g, n) && DigestOf(log[..n]).serving == Some(log[g].request)
    ensures DigestOf(log[..n]).serving == Some(log[h].request)
  {
    hide DigestOf, SameStream;
    var g :| 0 <= g < n && Serving(log, g, n) && DigestOf(log[..n]).serving == Some(log[g].request);
  }

  // ---- stream accounting ----

  /** What a stream sends last: a response with a terminal code, or the header of a refusal without its payload. */
  predicate IsLast(e: Event) { e == HeaderAlone || (e.Sent? && Terminal(e.response.code)) }

  lemma {:induction false} FinishedHolds(log: seq<Event>, i: nat, n: nat)
    requires i < n && SameStream(log, i, n) && IsLast(log[i])
    ensures DigestOf(log[..n]).finished
  {
    hide Update, DigestOf;
    DigestStep(log, n - 1);
    UpdateStream(DigestOf(log[..n - 1]), log[n - 1]);
    if n > i + 1 { FinishedHolds(log, i, n - 1); }
  }

  /** FAILED_SequenceError, FAILED_UnknownSession, FAILED_PaymentSelectionInvalid and a header sent without its payload
      end their stream: nothing is accepted, tolerated or sent on it afterwards. */
  lemma TerminalResponseIsLast(cfg: Config, acts: seq<Act>, i: nat, j: nat)
    requires var log := History(cfg, acts);
      i < j < |log| && SameStream(log, i, j) && IsLast(log[i])
    ensures var e := History(cfg, acts)[j]; !e.Sent? && !e.HeaderAlone? && !e.Admitted? && !e.Ignored?
  {
    hide Live, Update;
    FinishedHolds(History(cfg, acts), i, j);
    SoundAt(cfg, acts, j);
  }

  lemma ToleranceStep(d: Digest, e: Event)
    requires Sound(d, e) && d.ignored <= MAX_UNDECODABLE * d.handled
    ensures Update(d, e).ignored <= MAX_UNDECODABLE * Update(d, e).handled
  {
    hide Runs.After;
  }

  lemma {:induction false} ToleranceHolds(log: seq<Event>, n: nat)
    requires AllSound(log) && n <= |log|
    ensures DigestOf(log[..n]).ignored <= MAX_UNDECODABLE * DigestOf(log[..n]).handled
  {
    hide Sound, Update;
    if n > 0 {
      ToleranceHolds(log, n - 1);
      DigestStep(log, n - 1);
      ToleranceStep(DigestOf(log[..n - 1]), log[n - 1]);
    }
  }

  predicate Handles(e: Event) { e.Sent? && !Terminal(e.response.code) }

  function Tolerated(log: seq<Event>): nat { Count(log, (e: Event) => e == Ignored) }
  function Answered(log: seq<Event>): nat { Count(log, (e: Event) => Handles(e)) }

  /** The stream that position n belongs to begins at o. */
  ghost predicate StreamFrom(log: seq<Event>, o: nat, n: nat) {
    o <= n <= |log| && (o == 0 || (o < n && log[o] == Opened)) && forall k :: o < k < n ==> log[k] != Opened
  }

  lemma {:induction false} TalliesMean(log: seq<Event>, o: nat, n: nat)
    requires StreamFrom(log, o, n)
    ensures DigestOf(log[..n]).ignored == Tolerated(log[o..n])
    ensures DigestOf(log[..n]).handled == Answered(log[o..n])
    decreases n
  {
    hide Update, DigestOf, Handles;
    if n == 0 {
      DigestStart(log);
    } else {
      DigestStep(log, n - 1);
      UpdateTallies(DigestOf(log[..n - 1]), log[n - 1]);
      assert log[o..n][..n - o - 1] == log[o..n - 1];
      if o < n - 1 || o == 0 {
        if o < n - 1 || n == 1 {
          TalliesMean(log, o, n - 1);
        }
      }
      if log[n - 1] == Opened { OpeningHandlesNothing(); }
      CountNothing();
    }
  }

  lemma CountNothing()
    ensures Tolerated([]) == 0 && Answered([]) == 0
  {
  }

  lemma OpeningHandlesNothing()
    ensures !Handles(Opened)
  {
  }

  /** On every stream, at every point of the history, at most six undecodable frames were tolerated per
      handled request. */
  lemma ToleranceIsBounded(cfg: Config, acts: seq<Act>, o: nat, n: nat)
    requires StreamFrom(History(cfg, acts), o, n)
    ensures Tolerated(History(cfg, acts)[o..n]) <= 6 * Answered(History(cfg, acts)[o..n])
  {
    hide Live, AllSound, Tolerated, Answered, DigestOf;
    HistoryIsSound(cfg, acts);
    ToleranceHolds(History(cfg, acts), n);
    TalliesMean(History(cfg, acts), o, n);
  }

  lemma OpeningAnswersNothing()
    ensures !AnswersStop(Opened)
  {
  }

  lemma {:induction false} StopAnsweredMeans(log: seq<Event>, n: nat)
    requires n <= |log|
    ensures DigestOf(log[..n]).stopAnswered <==>
      exists j :: 0 <= j < n && SameStream(log, j, n) && AnswersStop(log[j])
  {
    hide Update, DigestOf, AnswersStop;
    if n == 0 {
      DigestStart(log);
    } else {
      StopAnsweredMeans(log, n - 1);
      DigestStep(log, n - 1);
      UpdateStream(DigestOf(log[..n - 1]), log[n - 1]);
      if log[n - 1] == Opened { OpeningAnswersNothing(); }
      if AnswersStop(log[n - 1]) {
        assert SameStream(log, n - 1, n);
      } else if log[n - 1] != Opened && DigestOf(log[..n - 1]).stopAnswered {
        var j :| 0 <= j < n - 1 && SameStream(log, j, n - 1) && AnswersStop(log[j]);
        assert SameStream(log, j, n);
      }
    }
  }

  /** A served connection is classified EvSessionStop exactly when it sent a SessionStopRes(OK), and its
      tolerated frames stay within the bound. */
  lemma ConnectionIsClassified(cfg: Config, acts: seq<Act>, script: seq<Received>)
    ensures var c := Connect(cfg, Live(cfg, acts), script);
      var s := c.stream;
      && s.exit.Some?
      && (Classify(s.exit.value, s.handledAny, s.sawSessionStop) == EvSessionStop <==>
            exists j :: 0 <= j < |c.log| && SameStream(c.log, j, |c.log|) && AnswersStop(c.log[j]))
      && (forall o :: 0 <= o <= |c.log| && StreamFrom(c.log, o, |c.log|) ==>
            Tolerated(c.log[o..]) <= 6 * Answered(c.log[o..]))
  {
    hide Live, ReceiveAll, Receive, Open, AllSound, Faithful, Running, AnswersStop, DigestOf;
    var c := Connect(cfg, Live(cfg, acts), script);
    LifeIsSane(cfg, acts);
    OpenIsSane(Live(cfg, acts));
    ReceiveAllIsSane(cfg, Open(Live(cfg, acts)), script);
    ReceiveIsSane(cfg, ReceiveAll(cfg, Open(Live(cfg, acts)), script), RecvFailed(ETIMEDOUT));
    TimeoutLeaves(cfg, ReceiveAll(cfg, Open(Live(cfg, acts)), script));
    StopAnsweredMeans(c.log, |c.log|);
    assert c.log[..|c.log|] == c.log;
    forall o: nat | StreamFrom(c.log, o, |c.log|)
      ensures Tolerated(c.log[o..]) <= MAX_UNDECODABLE * Answered(c.log[o..])
    {
      TalliesMean(c.log, o, |c.log|);
      assert c.log[o..|c.log|] == c.log[o..];
    }
  }

  // ---- energy on a stream ----

  lemma {:induction false} AdmittedIsAStep(log: seq<Event>, i: nat, n: nat)
    requires i < n && SameStream(log, i, n) && log[i].Admitted?
    ensures Runs.Req(log[i].request) in DigestOf(log[..n]).steps
  {
    hide Update, DigestOf;
    DigestStep(log, n - 1);
    var d := DigestOf(log[..n - 1]);
    UpdateStream(d, log[n - 1]);
    if n > i + 1 { AdmittedIsAStep(log, i, n - 1); }
  }

  /** The positions of everything the sequencer accepted on the stream that n belongs to. */
  function Where(log: seq<Event>, n: nat): seq<nat>
    requires n <= |log|
  {
    if n == 0 || log[n - 1] == Opened then []
    else if log[n - 1].Admitted? || log[n - 1] == SequenceMode(true) then Where(log, n - 1) + [n - 1]
    else Where(log, n - 1)
  }

  /** The k-th accepted step is the event at position m of this stream. */
  ghost predicate Placed(log: seq<Event>, n: nat, steps: seq<Runs.Step>, k: nat, m: nat)
    requires k < |steps|
  {
    && m < n && SameStream(log, m, n)
    && (steps[k].Req? ==> log[m] == Admitted(steps[k].request))
    && (steps[k].ResumeDc? ==> log[m] == SequenceMode(true))
  }

  predicate Increasing(w: seq<nat>) { forall k, l :: 0 <= k < l < |w| ==> w[k] < w[l] }

  lemma {:induction false} WhereMeans(log: seq<Event>, n: nat)
    requires n <= |log|
    ensures var (w, steps) := (Where(log, n), DigestOf(log[..n]).steps);
      && |w| == |steps|
      && (forall k :: 0 <= k < |w| ==> Placed(log, n, steps, k, w[k]))
      && Increasing(w)
      && (forall m :: 0 <= m < n && SameStream(log, m, n) && log[m].Admitted? ==> m in w)
  {
    hide Update, DigestOf;
    if n == 0 {
      DigestStart(log);
    } else {
      WhereMeans(log, n - 1);
      DigestStep(log, n - 1);
      var d, e := DigestOf(log[..n - 1]), log[n - 1];
      UpdateSteps(d, e);
      if e != Opened {
        var w := Where(log, n - 1);
        forall k | 0 <= k < |d.steps| ensures Placed(log, n, d.steps, k, w[k]) {
          assert Placed(log, n - 1, d.steps, k, w[k]);
        }
        forall m | 0 <= m < n - 1 && SameStream(log, m, n) ensures SameStream(log, m, n - 1) {}
      }
    }
  }

  predicate Admits(e: Event, t: MessageType) { e.Admitted? && e.request.body.Type() == t }

  /** PowerDelivery(Start) accepted at d, and no renegotiation accepted from there to n. */
  ghost predicate StartInForce(log: seq<Event>, d: nat, n: nat) {
    && d < n <= |log| && log[d].Admitted? && log[d].request.body == PowerDelivery(Start)
    && forall k :: d < k < n && log[k].Admitted? ==> !Runs.Renegotiates(Runs.Req(log[k].request))
  }

  lemma StartHolds(log: seq<Event>, n: nat, d: nat)
    requires n <= |log| && d < |DigestOf(log[..n]).steps| && Runs.StartedAt(DigestOf(log[..n]).steps, d)
    requires d < |Where(log, n)|
    ensures StartInForce(log, Where(log, n)[d], n)
  {
    hide DigestOf, Where, Runs.Renegotiates;
    WhereMeans(log, n);
    var (w, steps) := (Where(log, n), DigestOf(log[..n]).steps);
    assert Placed(log, n, steps, d, w[d]);
    forall m | w[d] < m < n && log[m].Admitted? ensures !Runs.Renegotiates(Runs.Req(log[m].request)) {
      assert SameStream(log, m, n);
      var k :| 0 <= k < |w| && w[k] == m;
      assert Placed(log, n, steps, k, m);
      assert k > d;
    }
  }

  /** Without a DC resume on its stream, an accepted CurrentDemand follows CableCheck, then PreCharge, then a
      PowerDelivery(Start) that no renegotiation has overtaken, all accepted on that stream. */
  lemma CurrentDemandIsPrepared(cfg: Config, acts: seq<Act>, i: nat)
    requires var log := History(cfg, acts);
      && i < |log| && Admits(log[i], CurrentDemandReq)
      && forall k :: 0 <= k < i && SameStream(log, k, i) ==> log[k] != SequenceMode(true)
    ensures var log := History(cfg, acts);
      exists c, p, d :: 0 <= c < p < d < i && SameStream(log, c, i) &&
        Admits(log[c], CableCheckReq) && Admits(log[p], PreChargeReq) && StartInForce(log, d, i)
  {
    hide Live, Update, DigestOf, Where, Runs.After, SameStream;
    var log := History(cfg, acts);
    SoundAt(cfg, acts, i);
    WhereMeans(log, i);
    var (w, steps) := (Where(log, i), DigestOf(log[..i]).steps);
    forall k | 0 <= k < |steps| ensures steps[k] != Runs.ResumeDc {
      assert Placed(log, i, steps, k, w[k]);
    }
    var run := steps + [Runs.Req(log[i].request)];
    assert run[..|steps|] == steps;
    Runs.CurrentDemandNeedsPreparation(run, |steps|);
    var c, p, d :| 0 <= c < p < d < |steps| && Runs.Is(run[c], CableCheckReq) && Runs.Is(run[p], PreChargeReq) &&
      Runs.StartedAt(run[..|steps|], d);
    assert Placed(log, i, steps, c, w[c]) && Placed(log, i, steps, p, w[p]);
    StartHolds(log, i, d);
    assert w[c] < w[p] < w[d];
  }

  /** Once PowerDelivery(Stop) was accepted on a stream, that stream never accepts CurrentDemand,
      ChargingStatus or PowerDelivery(Start) again, resumed or not. */
  lemma StoppedStaysStopped(cfg: Config, acts: seq<Act>, i: nat, j: nat)
    requires var log := History(cfg, acts);
      && i < j < |log| && SameStream(log, i, j) && log[i].Admitted? && log[j].Admitted?
      && Runs.StopsEnergy(Runs.Req(log[i].request))
    ensures !Runs.TransfersEnergy(Runs.Req(History(cfg, acts)[j].request))
  {
    hide Live, Update, DigestOf, Runs.After, Runs.StopsEnergy, Runs.TransfersEnergy;
    var log := History(cfg, acts);
    SoundAt(cfg, acts, j);
    AdmittedIsAStep(log, i, j);
    var steps := DigestOf(log[..j]).steps;
    var run := steps + [Runs.Req(log[j].request)];
    var k :| 0 <= k < |steps| && steps[k] == Runs.Req(log[i].request);
    assert run[k] == steps[k];
    Runs.NoEnergyAfterStop(run, k, |steps|);
  }
}
