/** The -2/DIN stream engine as a function on values (src/secc.c): what one received frame does to the
    charger, to the stream and to the history. The class in Secc.dfy is proved to compute it. */
module SeccModel {
  import opened Messages
  import opened Sequencer
  import AppSelection

  /** Configuration the engine branches on: offered energy modes and the protocol mask. */
  datatype Config = Config(energyModes: set<nat>, protocolMask: bv32)

  /** The part of jpv2g_secc_t that outlives a TCP stream. */
  datatype Charger = Charger(
    sessionId: Sid,
    lastSessionId: Sid,
    lastSessionEndMs: int,
    lastSessionWasDc: bool,
    resumeDcPending: bool,
    dinContract: Option<nat>,
    terminateAfterResponse: bool)

  const POWER_UP := Charger(ZERO_SID, ZERO_SID, 0, false, false, None, false)

  /** The locals of one jpv2g_secc_handle_stream_obs call. `exit` is set once the loop was left. */
  datatype Stream = Stream(
    protocol: Protocol,
    handledAny: bool,
    sawSessionStop: bool,
    undecodable: nat,
    sequence: SeqState,
    exit: Option<Rc>)

  const NEW_STREAM := Stream(UnknownProtocol, false, false, 0, INITIAL, None)

  datatype Code =
    | OK
    | OkNewSession
    | OkOldSessionJoined
    | Failed
    | FailedSequenceError
    | FailedUnknownSession
    | FailedPaymentSelectionInvalid
    | FailedWrongEnergyTransfer
    | Sapp(code: AppSelection.SappCode)

  /** A response that went out completely, named by the request type it answers. */
  datatype Response = Response(kind: MessageType, sid: Sid, code: Code)

  /** The history: what the engine did, in order. */
  datatype Event =
    | Opened                                          // a stream begins
    | Retired                                         // jpv2g_secc_retire_session
    | Minted(sid: Sid)                                // the generator's value became the live SessionID
    | Adopted(sid: Sid)                               // a value chosen by the EV became the live SessionID
    | Admitted(request: Request)                      // passed the sequencer
    | Handed(request: Request)                        // passed on to the handler
    | Settled(presented: seq<byte>, sid: Sid, joined: bool, now: int)  // SessionSetup fixed the SessionID
    | Consulted(authorized: bool)                     // the backend's verdict; without a backend it is no
    | Paused(sid: Sid, now: int, dc: bool)            // SessionStop(Pause) retained the session
    | Stopped                                         // SessionStop that retained nothing
    | Advertised(energyType: nat)                     // DIN ServiceDiscovery offer encoded
    | Withdrawn                                       // DIN ServiceDiscovery without a usable offer
    | Sent(response: Response)                        // response on the wire
    | SequenceMode(dc: bool)                          // sequencer mode once the SessionSetupRes is out
    | HeaderAlone                                     // the header of a refusal, its payload failed
    | Ignored                                         // undecodable frame tolerated

  /** What the environment contributes to one frame: the clock, the generator (None: it failed), the
      authorization backend, and the outcomes of encoding and of sending. */
  type FreshSid = s: Sid | s != ZERO_SID witness [1, 0, 0, 0, 0, 0, 0, 0]
  datatype Env = Env(
    now: int,
    minted: Option<FreshSid>,
    authorized: bool,
    encodeRc: Rc,
    emptyOutput: bool,
    sendRc: Rc,
    refusal: RefusalOutcome)

  /** The minimal FAILED response: could it be encoded, and how did the sends of its header and payload end? */
  datatype RefusalOutcome = RefusalOutcome(encoded: bool, headerRc: Rc, payloadRc: Rc)

  /** A V2G message as one of the EXI decoders returns it. */
  datatype Message = Message(sid: seq<byte>, body: Body)

  /** One turn of secc_recv_v2gtp: an error, a frame of another payload type, or an EXI payload together
      with what each of the three decoders makes of it. */
  type Failure = rc: Rc | rc != Done witness EINVAL
  datatype Received =
    | RecvFailed(rc: Failure)
    | ForeignPayload
    | Exi(app: Option<seq<Offer>>, iso: Option<Message>, din: Option<Message>, env: Env)

  datatype Conf = Conf(charger: Charger, stream: Stream, log: seq<Event>)
  {
    function Note(e: Event): Conf { this.(log := log + [e]) }
    function Leave(rc: Rc): Conf { this.(stream := stream.(exit := Some(rc))) }
  }

  const MAX_UNDECODABLE: nat := 6
  const PAUSE_RESUME_WINDOW_MS: int := 60 * 60 * 1000

  // ---- decoding ----

  /** Decoder order: SupportedAppProtocol, then ISO unless the stream speaks DIN, then DIN. */
  ghost function Decode(cfg: Config, protocol: Protocol, rx: Received): Option<Request>
    requires rx.Exi?
  {
    if rx.app.Some? then
      var detected := AppSelection.Negotiate(rx.app.value, cfg.protocolMask).protocol;
      Some(Request(if detected != UnknownProtocol then detected else protocol, [],
                   SupportedAppProtocol(rx.app.value)))
    else if protocol != Din && rx.iso.Some? && !rx.iso.value.body.SupportedAppProtocol? then
      Some(Request(Iso2, rx.iso.value.sid, rx.iso.value.body))
    else if rx.din.Some? && !rx.din.value.body.SupportedAppProtocol? then
      Some(Request(Din, rx.din.value.sid, rx.din.value.body))
    else None
  }

  // ---- gates ----

  /** jpv2g_secc_validate_request_session. */
  function ValidateSession(c: Charger, r: Request): Rc {
    if r.body.SupportedAppProtocol? then Done
    else if r.protocol !in {Iso2, Din} then EINVAL
    else if r.body.SessionSetup? then (if |r.sid| <= 8 then Done else EINVAL)
    else if c.sessionId != ZERO_SID && r.sid == c.sessionId then Done
    else EACCES
  }

  /** A minimal FAILED response exists for every request except these. */
  predicate HasMinimalFailed(r: Request) {
    r.protocol in {Iso2, Din} && !r.body.SupportedAppProtocol? &&
    !(r.protocol == Din && r.body.ChargingStatus?)
  }

  /** secc_send_min_failed: best effort, then the stream ends anyway. */
  function Refuse(c: Conf, r: Request, code: Code, env: Env, rc: Rc): Conf {
    match Told(c.charger, r, code, env.refusal)
    case None => c.Leave(rc)
    case Some(e) => c.Note(e).Leave(rc)
  }

  /** The payload is sent only once the header is out. */
  function Told(c: Charger, r: Request, code: Code, o: RefusalOutcome): Option<Event> {
    if !HasMinimalFailed(r) || !o.encoded || o.headerRc != Done then None
    else if o.payloadRc != Done then Some(HeaderAlone)
    else Some(Sent(Response(r.body.Type(), c.sessionId, code)))
  }

  /** Sequence gate, then session gate. */
  function Admit(c: Conf, r: Request, env: Env): Conf {
    var v := OnRequest(c.stream.sequence, r);
    var gated := c.(stream := c.stream.(sequence := v.next));
    if v.Rejected? then Refuse(gated, r, FailedSequenceError, env, EPROTO)
    else
      var admitted := gated.Note(Admitted(r));
      var rc := ValidateSession(c.charger, r);
      if rc == Done then admitted.Note(Handed(r))
      else Refuse(admitted, r, FailedUnknownSession, env, rc)
  }

  // ---- the handler ----

  /** secc_paused_session_resumable. */
  predicate Resumable(c: Charger, sid: seq<byte>, now: int) {
    c.lastSessionId != ZERO_SID && sid == c.lastSessionId &&
    0 <= now - c.lastSessionEndMs <= PAUSE_RESUME_WINDOW_MS
  }

  /** Stores a generated identifier; a failing generator leaves the old one in place. */
  function Mint(c: Conf, env: Env): Conf {
    match env.minted
    case None => c
    case Some(sid) => c.(charger := c.charger.(sessionId := sid)).Note(Minted(sid))
  }

  /** secc_resolve_session for SessionSetup. */
  function ResolveSetup(c: Conf, r: Request, env: Env): Conf {
    if Resumable(c.charger, r.sid, env.now) then
      c.(charger := c.charger.(sessionId := r.sid, resumeDcPending := c.charger.lastSessionWasDc,
                               lastSessionId := ZERO_SID, lastSessionEndMs := 0, lastSessionWasDc := false))
       .Note(Settled(r.sid, r.sid, true, env.now))
    else
      var m := Mint(c.(charger := c.charger.(resumeDcPending := false)), env);
      m.Note(Settled(r.sid, m.charger.sessionId, false, env.now))
  }

  /** secc_resolve_session for everything else: make sure some session is live. */
  function ResolveOther(c: Conf, r: Request, env: Env): Conf {
    if c.charger.sessionId != ZERO_SID then c
    else if |r.sid| == 8 && r.sid != ZERO_SID then
      c.(charger := c.charger.(sessionId := r.sid)).Note(Adopted(r.sid))
    else Mint(c, env)
  }

  function Resolve(c: Conf, r: Request, env: Env): Conf {
    if r.body.SessionSetup? then ResolveSetup(c, r, env) else ResolveOther(c, r, env)
  }

  /** secc_resolve_din_etm: DC_extended is preferred to DC_core. */
  function DinOffer(cfg: Config): Option<nat> {
    if DC_EXTENDED in cfg.energyModes then Some(DC_EXTENDED)
    else if DC_CORE in cfg.energyModes then Some(DC_CORE)
    else None
  }

  /** secc_iso_etm_supported. */
  predicate IsoModeSupported(cfg: Config, mode: nat) {
    if mode == DC_CORE then
      DC_CORE in cfg.energyModes || cfg.energyModes !! {DC_CORE, DC_EXTENDED, DC_COMBO_CORE, DC_UNIQUE}
    else mode in {DC_EXTENDED, DC_COMBO_CORE, DC_UNIQUE} && mode in cfg.energyModes
  }

  /** secc_din_etm_supported. */
  predicate DinModeAgreed(c: Charger, mode: nat) {
    mode in {DC_CORE, DC_EXTENDED} && c.dinContract == Some(mode)
  }

  /** Response code of the built-in handler, given the charger after session resolution. */
  ghost function Answer(cfg: Config, c: Charger, r: Request, env: Env, joined: bool): Code {
    match r.body
    case SupportedAppProtocol(offers) => Sapp(AppSelection.Negotiate(offers, cfg.protocolMask).code)
    case SessionSetup => if joined then OkOldSessionJoined else OkNewSession
    case ServiceDiscovery => if r.protocol == Din && DinOffer(cfg).None? then Failed else OK
    case PaymentServiceSelection(external) => if external then OK else FailedPaymentSelectionInvalid
    case PaymentDetails => if env.authorized then OK else Failed
    case Authorization => if env.authorized then OK else Failed
    case ChargeParameterDiscovery(mode) =>
      if (if r.protocol == Din then DinModeAgreed(c, mode) else IsoModeSupported(cfg, mode)) then OK
      else FailedWrongEnergyTransfer
    case CableCheck => Failed
    case _ => OK
  }

  /** jpv2g_secc_default_handle's return code. */
  function HandlerRc(r: Request, env: Env): Rc {
    if r.protocol == Din && r.body.ChargingStatus? then EPROTO else env.encodeRc
  }

  /** The handler's lasting effects, after session resolution. */
  function Effects(cfg: Config, c: Conf, r: Request, env: Env): Conf {
    var s := c.charger;
    match r.body
    case SessionSetup => c.(charger := s.(dinContract := None))
    case ServiceDiscovery =>
      if r.protocol != Din then c
      else
        var offer := if env.encodeRc == Done then DinOffer(cfg) else None;
        c.(charger := s.(dinContract := offer)).Note(if offer.Some? then Advertised(offer.value) else Withdrawn)
    case PaymentServiceSelection(external) =>
      if external then c else c.(charger := s.(terminateAfterResponse := true))
    case PaymentDetails => c.Note(Consulted(env.authorized))
    case Authorization => c.Note(Consulted(env.authorized))
    case SessionStop(pause) =>
      var ended := s.(sessionId := ZERO_SID, dinContract := None);
      if r.protocol != Din && pause && s.sessionId != ZERO_SID then
        c.(charger := ended.(lastSessionId := s.sessionId, lastSessionEndMs := env.now))
         .Note(Paused(s.sessionId, env.now, c.stream.sequence.modeKnown && c.stream.sequence.dcMode))
      else c.(charger := ended).Note(Stopped)
    case _ => c
  }

  /** Bookkeeping once the response is on the wire and the stream goes on or ends gracefully. */
  function AfterSend(c: Conf, r: Request): Conf {
    var seqn := c.stream.sequence;
    var handled := c.(stream := c.stream.(handledAny := true));
    match r.body
    case SessionStop(_) =>
      var dc := if c.charger.lastSessionId != ZERO_SID then seqn.modeKnown && seqn.dcMode
                else c.charger.lastSessionWasDc;
      handled.(charger := c.charger.(lastSessionWasDc := dc),
               stream := handled.stream.(sawSessionStop := true, exit := Some(Done)))
    case SessionSetup =>
      var sq := if c.charger.resumeDcPending then seqn.(dcMode := true, modeKnown := true) else seqn;
      handled.(charger := c.charger.(resumeDcPending := false),
               stream := handled.stream.(sequence := sq)).Note(SequenceMode(sq.dcMode))
    case _ => handled
  }

  /** From the handler's return to the end of the iteration: encode, send, then act on what was sent. */
  function Finish(c: Conf, r: Request, env: Env, answer: Response): Conf {
    if HandlerRc(r, env) != Done then c.Leave(HandlerRc(r, env))
    else if env.emptyOutput then c.Leave(EIO)
    else if env.sendRc != Done then c.Leave(env.sendRc)
    else
      var sent := c.Note(Sent(answer));
      if sent.charger.terminateAfterResponse then
        sent.(charger := sent.charger.(terminateAfterResponse := false)).Leave(ESHUTDOWN)
      else AfterSend(sent, r)
  }

  /** An admitted request: session resolution, handler effects, response. */
  ghost function Serve(cfg: Config, c: Conf, r: Request, env: Env): Conf {
    var resolved := Resolve(c, r, env);
    var joined := r.body.SessionSetup? && Resumable(c.charger, r.sid, env.now);
    var answer := Response(r.body.Type(), resolved.charger.sessionId,
                           Answer(cfg, resolved.charger, r, env, joined));
    Finish(Effects(cfg, resolved, r, env), r, env, answer)
  }

  // ---- the loop ----

  /** One iteration of the stream loop; a stream that was left stays as it is. */
  ghost function Receive(cfg: Config, c: Conf, rx: Received): Conf {
    if c.stream.exit.Some? then c
    else
      match rx
      case RecvFailed(rc) =>
        if rc == ETIMEDOUT then c.Leave(if c.stream.handledAny then Done else ETIMEDOUT)
        else if rc == EAGAIN then c.Leave(Done)
        else c.Leave(rc)
      case ForeignPayload => c.Leave(EBADMSG)
      case Exi(_, _, _, env) =>
        match Decode(cfg, c.stream.protocol, rx)
        case None =>
          if c.stream.handledAny && c.stream.undecodable < MAX_UNDECODABLE
          then c.(stream := c.stream.(undecodable := c.stream.undecodable + 1)).Note(Ignored)
          else c.Leave(EBADMSG)
        case Some(r) =>
          var admitted := Admit(c.(stream := c.stream.(protocol := r.protocol, undecodable := 0)), r, env);
          if admitted.stream.exit.Some? then admitted else Serve(cfg, admitted, r, env)
  }

  ghost function ReceiveAll(cfg: Config, c: Conf, script: seq<Received>): Conf
    decreases |script|
  {
    if script == [] then c else ReceiveAll(cfg, Receive(cfg, c, script[0]), script[1..])
  }

  ghost function Open(c: Conf): Conf {
    Conf(c.charger.(terminateAfterResponse := false), NEW_STREAM, c.log).Note(Opened)
  }

  /** One TCP stream; a peer that stays silent after the script runs into the receive timeout. */
  ghost function Connect(cfg: Config, c: Conf, script: seq<Received>): Conf {
    Receive(cfg, ReceiveAll(cfg, Open(c), script), RecvFailed(ETIMEDOUT))
  }

  /** jpv2g_secc_retire_session. */
  function Retire(c: Conf): Conf {
    c.(charger := c.charger.(sessionId := ZERO_SID, dinContract := None)).Note(Retired)
  }

  /** A charger's life: streams served one after the other, sessions retired in between. */
  datatype Act = Connection(script: seq<Received>) | Retirement

  ghost function Live(cfg: Config, acts: seq<Act>): Conf {
    if acts == [] then Conf(POWER_UP, NEW_STREAM.(exit := Some(Done)), [])
    else
      var c := Live(cfg, acts[..|acts| - 1]);
      match acts[|acts| - 1]
      case Connection(script) => Connect(cfg, c, script)
      case Retirement => Retire(c)
  }

  // ---- classification ----

  datatype DropReason =
    | FirstPacketTimeout | IdleTimeout | PeerReset | EvSessionStop | TcpRecvFail | TcpSendFail
    | CodecError | HandlerError | SequenceError | UnknownSession | InvalidArg | AppRejected

  /** jpv2g_secc_classify_disconnect. */
  function Classify(rc: Rc, handledAny: bool, sawSessionStop: bool): DropReason {
    match rc
    case Done => if sawSessionStop then EvSessionStop else IdleTimeout
    case ETIMEDOUT => if handledAny then IdleTimeout else FirstPacketTimeout
    case ECONNRESET => PeerReset
    case ESHUTDOWN => AppRejected
    case EBADMSG | ENOSPC | E2BIG => CodecError
    case EIO | EPIPE => TcpSendFail
    case EPROTO => SequenceError
    case EACCES => UnknownSession
    case EINVAL => InvalidArg
    case Positive(_) => HandlerError
    case _ => TcpRecvFail
  }
}
