# Verified model of the jpv2g charger side

jpv2g is the charger side (SECC) of vehicle charging by DIN 70121, ISO 15118-2 and ISO 15118-20. This project models
its protocol engines and the byte-level code below them in Dafny 4.11 and proves what they keep over every run.
Check it with `dafny verify dfyconfig.toml`.

Each stateful object of the C code is a class whose methods take the source's branches, and each method is proved to
compute a function on values: the new state is that function of the old one. The results below are lemmas about those
functions, over every reachable state, every history and every pattern of inputs. Decoded requests, clock readings,
generator results, controller answers and what a transport call does are inputs, and nothing is assumed about them.

## The parts

- **Messages**: decoded requests, return codes, SessionIDs.
- **Sequencer**, **SequencerRuns**: the 13-phase request sequencer of one TCP stream, and what every accepted run of
  requests satisfies.
- **AppSelection**, **SessionId**: SupportedAppProtocol negotiation as an argmin, and generation of a fresh SessionID.
- **SeccModel**, **Secc**, **SeccHistory**, **SeccTheorems**: the -2/DIN stream loop with its gates and built-in
  handler, pause and resume memory across streams, and a history of events. `SeccModel.Live` is the whole life of a
  charger: streams served one after the other with sessions retired in between. `SeccHistory` digests a history and
  proves the invariant that ties the charger's memory to it; `SeccTheorems` restates the consequences on positions of
  the history, without the digest.
- **SeccRetirement**: two lives side by side, with and without their retirements.
- **SeccTurns**: what every request handed on comes to, on the history alone: effects, response and live SessionID.
- **SeccFrames**: which request a frame gives, how a stream ends on it, how many undecodable frames it survives.
- **SeccRuns**: whole sessions through the loop, in DIN and ISO 15118-2, to the end or paused at any stage and resumed.
- **Secc20Model**, **Secc20**, **Secc20Theorems**, **Secc20Reports**, **Secc20Runs**: the ISO 15118-20 DC session
  engine, its contactor commands and its timers, treated in the same way; what each request is answered and what the
  controller hears of it; whole sessions that go through.
- **Rational**: the RationalNumber conversion of ISO 15118-20, over exact reals.
- **ExiBitstream**: the EXI bit cursor with its lazy byte advance, over `bv8` memory of which a part is the buffer.
- **V2gtp**: header building and parsing, and the send and receive loops over a transport that splits, retries, stalls
  and fails as it likes.
- **RxFramer**: the in-place QCA7000 receive framer with its ring queue, against a recursive batch parser.
- **TopK**: the control-pilot sampler's in-place array of the twelve largest readings.

## Where the code and the expectation differ

- A rejected request can already have bound the stream's protocol. `SequencerRuns.ProtocolMovesExactlyWhen` says
  exactly when a bound protocol can still move, `RejectedRequestCanBeOverruled` gives the two requests. The run
  theorems are therefore about runs whose steps were all accepted; the stream loop leaves on the first rejection.
- `jpv2g_secc20_handle_frame` issues no open command when a session ends by a FAILED answer or by the SEQUENCE timeout
  in the charge loop: the flag stays set. `Secc20Theorems.EndsClosedExactlyWhen` is the exact condition on the session
  and the frame, `Secc20Runs.EndsWithTheFlagSet` reaches the loop and ends there in both ways.
- A -20 frame that its decoder rejects, or whose response cannot be encoded, leaves the SEQUENCE timer off, and no other
  frame does (`Secc20Theorems.TimerOffExactlyWhen`); it stays off over any number of such frames
  (`TimerStaysOff`, with the shortest case in `UndecodableFrameStopsTheTimer`).
- The bitstream's capacity check compares before it moves, so it accepts up to eight bits more than the buffer holds.
  `ExiBitstream.AcceptedExactly` is the exact condition. The bits are stored in the byte behind the buffer and read back
  from there (`StoredBehindTheBuffer`); the empty buffer of a frame without payload is the smallest case
  (`EmptyBufferAcceptsAByte`).
- A failing random generator leaves the previous SessionID in place (`Secc.Secc.GenerateSessionId`), and only then can a
  retirement before a SessionSetup be noticed (`SeccRetirement.RetirementShowsExactlyWhen`; `RetirementShows` has the
  shortest lives).
- A send can leave the whole of its data on the wire and still fail: exactly for the transport scripts in which the
  first turn that is neither a retry nor a partial success comes in time and reports more than what is left, having
  taken all of that (`V2gtp.Swallows` in `SendPutsAPrefix`); one byte is enough (`OneByteSwallowed`).

## Model

| member | source | states |
|---|---|---|
| Sequencer.Sequence.RequireProtocol | src/state_secc.c:22-31 | the first known protocol is bound, a different one is refused, an unknown one never binds |
| Sequencer.Sequence.AcceptPowerDelivery | src/state_secc.c:33-63 | verdict and new state by direction; DIN never goes straight from charge parameters, a first passage without cable check settles AC mode |
| Sequencer.Sequence.AcceptRenegotiation | src/state_secc.c:65-75 | ISO 15118-2 only, from power delivery or charging, back to charge parameters with the mode kept |
| Sequencer.Sequence.Accept | src/state_secc.c:77-238 | verdict and new state equal the transition table, including what a refused request leaves behind |
| Sequencer.Sequence.AcceptRequest | src/secc.c:523-556 | PowerDelivery is judged by its decoded direction, everything else by its type |
| SequencerRuns.RunIsConsistent | src/state_secc.c:15-238 | after every accepted run, phase, protocol and mode imply the requests that must lie behind |
| SequencerRuns.CurrentDemandNeedsPreparation | src/state_secc.c:33-238 | without a resume, an accepted CurrentDemand follows CableCheck, then PreCharge, then a PowerDelivery(Start) newer than every renegotiation |
| SequencerRuns.EnergyNeedsStart | src/state_secc.c:33-238 | resumed or not, CurrentDemand and ChargingStatus follow a PowerDelivery(Start) newer than every renegotiation |
| SequencerRuns.NoEnergyAfterStop | src/state_secc.c:33-63 | once PowerDelivery(Stop) was accepted, no CurrentDemand, ChargingStatus or Start is ever accepted again on the stream |
| SequencerRuns.OpeningPhaseIsInitial | src/state_secc.c:77-101 | only the empty run leaves the sequencer in its opening phase |
| SequencerRuns.ModeIsSticky | src/state_secc.c:22-238 | between any two points of an accepted run a bound protocol stays and DC mode stays set |
| SequencerRuns.DcPhasesImplyDcMode | src/state_secc.c:130-230 | cable check, pre-charge and welding phases imply DC mode; DIN is in DC mode from cable check until completion |
| SequencerRuns.DinIsAlwaysDc | src/state_secc.c:33-238 | DIN ChargingStatus is never accepted; DIN Start follows CableCheck and then PreCharge on its own stream, even after a resume |
| SequencerRuns.ProtocolMovesExactlyWhen | src/state_secc.c:22-101 | one request moves a bound protocol iff the opening message is still awaited and is acceptable under another protocol |
| SequencerRuns.RejectedRequestCanBeOverruled | src/state_secc.c:22-31 | the instance: a refused PowerDelivery binds ISO 15118-2, the DIN SessionSetup after it is accepted |
| SequencerRuns.DcSessionIsAccepted | src/state_secc.c:77-238 | in both protocols a DC session that repeats its polls any number of times is accepted to the end |
| SequencerRuns.AcSessionIsAccepted | src/state_secc.c:22-238 | an AC session of ISO 15118-2 with ServiceDetail, PaymentDetails, MeteringReceipt and a renegotiation, polls repeated at will, is accepted to the end |
| SequencerRuns.NextIsAcceptedExactly | src/state_secc.c:22-238 | a request is accepted after an accepted run exactly when it may follow the run's latest request, its DC mode and its protocol, all read off the run |
| SequencerRuns.AcceptedRunsExactly | src/state_secc.c:22-238 | a run is accepted exactly when every request in it may follow on those before |
| AppSelection.NsContains | src/secc.c:124-132 | true exactly when the needle is not empty and occurs somewhere in the haystack |
| AppSelection.OfferMatches | src/secc.c:144-173 | an offer matches a protocol exactly when its namespace names it |
| AppSelection.SelectAppProtocol | src/secc.c:188-244 | the first offer of minimal Priority among those named, enabled and of supported major version; UNKNOWN exactly when there is none |
| AppSelection.SelectionIsUnique | src/secc.c:188-244 | that specification leaves one answer |
| AppSelection.SelectionExists | src/secc.c:188-244 | and always an answer |
| AppSelection.SingleOffer | src/secc.c:188-244 | one offer: selected exactly with a known namespace, major version 2 and the protocol enabled, and what its minor version makes of the code |
| AppSelection.IsoNamespace | src/secc.c:144-173 | the namespace of ISO 15118-2 is named so |
| AppSelection.DinNamespace | src/secc.c:144-173 | the namespace of DIN 70121 is named so and not as ISO 15118-2 |
| SessionId.Generate | src/session.c:14-30 | the first acceptable draw: never zero, equal to the current SessionID only after eight draws; a provider failure ends it |
| Secc.Secc.ValidateRequestSession | src/secc.c:952-998 | after SessionSetup a request passes exactly when a session is live and its header carries that eight-byte SessionID |
| Secc.Secc.PausedSessionResumable | src/secc.c:1010-1016 | yes exactly for the retained SessionID within the 60 minute window |
| Secc.Secc.GenerateSessionId | src/secc.c:1018-1085 | a generated value becomes the live SessionID; a failing generator changes nothing |
| Secc.Secc.ResolveSession | src/secc.c:1018-1085 | new charger and history after session resolution; a redeemed pause is consumed |
| Secc.Secc.DiscoverServices | src/secc.c:1380-1404 | the DIN offer is withdrawn first and advertised again only once it is encoded |
| Secc.Secc.DiscoverParameters | src/secc.c:1539-1563 | DIN types are judged by the advertised contract, ISO types by the configuration |
| Secc.Secc.StopSession | src/secc.c:1724-1754 | an ISO pause retains the live SessionID and its time; either way the live session and the DIN contract end |
| Secc.Secc.DefaultHandle | src/secc.c:1311-1759 | return code, response and every lasting effect, by message type |
| Secc.Secc.SendMinFailed | src/secc.c:1951-1989 | a refusal is answered exactly where a minimal FAILED response exists and can be encoded: header first, payload only once the header is out |
| Secc.Secc.DecodeFrame | src/secc.c:2122-2292 | decoder order: SupportedAppProtocol, ISO unless the stream speaks DIN, DIN |
| Secc.Secc.Gate | src/secc.c:2319-2348 | sequence gate, then session gate; what was refused is answered before the stream ends |
| Secc.Secc.Dispatch | src/secc.c:2350-2450 | handler, send, send-then-terminate, and the steps taken only after a successful send |
| Secc.Secc.HandleStream | src/secc.c:2010-2461 | a whole TCP stream: charger, history, return code and observation flags equal the model's |
| Secc.Secc.RetireSession | src/secc.c:1899-1910 | ends the live session and the DIN contract and nothing else |
| SeccHistory.AdmitIsSane | src/secc.c:2319-2348 | the two gates keep the invariant, whatever they decide |
| SeccHistory.SetupIsSane | src/secc.c:1018-1085 | settling the SessionID keeps it: one settlement per stream, by a SessionID of the SECC's own |
| SeccHistory.StopIsSane | src/secc.c:1724-1754 | stopping a session keeps it |
| SeccHistory.FinishStop | src/secc.c:2412-2450 | answering the SessionStop keeps it, with the paused session's mode recorded |
| SeccHistory.ServeIsSane | src/secc.c:2350-2450 | handling and answering any admitted request keeps it |
| SeccHistory.ReceiveIsSane | src/secc.c:2042-2450 | so does every iteration of the stream loop |
| SeccHistory.LifeIsSane | src/secc.c:2010-2461 | after any sequence of streams and retirements the whole history is sound and the charger's memory is what the history says |
| SeccTheorems.SessionIdsAreMinted | src/secc.c:1018-1085 | in every life the live and the retained SessionID are zero or generated by the SECC; the arm adopting the EV's SessionID is never taken |
| SeccTheorems.RequestsCarryTheSettledSid | src/secc.c:2337-2348 | every request handed on after SessionSetup carries the SessionID settled by its stream's only SessionSetup |
| SeccTheorems.JoinExactlyTheOpenPause | src/secc.c:1010-1075 | a SessionSetup is settled by joining exactly for the SessionID of the latest pause, not yet redeemed and at most 60 minutes old |
| SeccTheorems.JoinedResponseExactly | src/secc.c:1355-1378 | a SessionSetupRes on the wire says OK_OldSessionJoined exactly then, OK_NewSessionEstablished otherwise, with the SessionID settled; no other response says so |
| SeccTheorems.PauseLedger | src/secc.c:1724-1754 | over a whole life, resume grants plus the pause still retained never exceed the pauses handled |
| SeccTurns.PauseRequestLedger | src/secc.c:1724-1754 | the same ledger counted in requests: grants plus the pause retained never exceed the ISO SessionStop(Pause) requests handed on |
| SeccTurns.StopsAsAsked | src/secc.c:1724-1754 | a pause is retained right after an ISO SessionStop(Pause) and under its SessionID, a session ends for good right after every other SessionStop, and neither happens otherwise |
| SeccTurns.EveryTurnIsDue | src/secc.c:1311-1759 | in every life each request handed on has exactly the effects due on it and, if answered, the kind, SessionID and code due, by message type, configuration and backend; no response or effect comes about otherwise; the live SessionID is the one the history names |
| SeccTurns.AuthorizationFollowsBackend | src/secc.c:1480-1538 | PaymentDetails and Authorization are answered OK exactly when the backend has just authorized, FAILED exactly when it has not |
| SeccTurns.ServesAsDue | src/secc.c:2350-2450 | one request, served from any charger: effects, then the due answer or an abandoned stream |
| SeccFrames.FrameGivesRequest | src/secc.c:2122-2397 | an EXI frame gives a request exactly when a decoder the stream may ask delivers a message, with protocol, SessionID and body as delivered; it is admitted, handed on or refused with the code due, and all locals of the stream follow |
| SeccFrames.ServeEnds | src/secc.c:2350-2450 | on which return code, if any, a stream ends with an admitted request |
| SeccFrames.OtherTurnsEnd | src/secc.c:2042-2100 | every receive turn without an EXI payload ends the stream, and with which code |
| SeccFrames.SixAreTolerated | src/secc.c:2294-2319 | after any request that leaves the stream running, six undecodable frames in a row are tolerated and the seventh ends it |
| SeccRetirement.RetirementKeepsThePause | src/secc.c:1899-1910 | over whole lives in which the generator works, retirements change no decision to let an EV join and not the pause retained |
| SeccRetirement.LivesAlike | src/secc.c:1899-1910 | the two lives stay alike, and the same as soon as a SessionSetup is settled on a stream |
| SeccRetirement.RetirementShowsExactlyWhen | src/secc.c:1040-1075 | the settled SessionID depends on a retirement before it exactly when nothing is joined, the generator fails and a session was live |
| SeccRetirement.RetirementShows | src/secc.c:1040-1075 | two SessionSetups on two streams, the second with a failing generator: the live SessionID ends as zero with a retirement in between and as the first one without |
| SeccTheorems.DcModeNeedsCableCheck | src/secc.c:2412-2435 | a sequencer in DC mode has a CableCheck accepted on this or an earlier stream behind it |
| SeccTheorems.ResumeRestoresDcMode | src/secc.c:2412-2435 | a pause answered and redeemed with no SessionStop answered in between: the resumed sequencer starts in DC mode exactly when the paused one was |
| SeccRuns.PausedSessionResumes | src/secc.c:1018-1085 | a session paused after any stage from SessionSetup on and any number of polls is resumed on the next stream within 60 minutes, whatever retirements lie between, in DC mode exactly when it had come to the cable check |
| SeccRuns.IsoIsNegotiated | src/secc.c:188-244 | one offer with the namespace of ISO 15118-2 is enough for it |
| SeccRuns.DinIsNegotiated | src/secc.c:188-244 | and one offer with the namespace of DIN 70121 for that protocol |
| SeccRuns.SessionIsServed | src/secc.c:2010-2461 | in both protocols a session with any number of polls, DIN also without SupportedAppProtocol, is admitted, handed on and answered request by request to its end; the history is exactly that |
| SeccTheorems.NewSessionStartsWithoutDcMode | src/secc.c:1040-1075 | a new session never starts in DC mode |
| SeccTheorems.DinContractIsHonoured | src/secc.c:1186-1194 | the response to a DIN ChargeParameterDiscovery is OK exactly for the DC type of the latest ServiceDiscovery offer with no SessionSetup, SessionStop or retirement since |
| SeccTheorems.TerminalResponseIsLast | src/secc.c:2322-2397 | after FAILED_SequenceError, FAILED_UnknownSession, FAILED_PaymentSelectionInvalid or a header sent without its payload the stream sends, accepts and tolerates nothing |
| SeccTheorems.ToleranceIsBounded | src/secc.c:2294-2319 | on every stream, up to every point of it, at most six undecodable frames were tolerated per handled request |
| SeccTheorems.ConnectionIsClassified | src/secc.c:2605-2617 | a connection is classified EvSessionStop exactly when it sent a SessionStopRes, and keeps within the tolerance |
| SeccTheorems.CurrentDemandIsPrepared | src/secc.c:2319-2335 | in every life, a CurrentDemand accepted on a stream without a DC resume follows CableCheck, PreCharge and a Start still in force, accepted on that stream in this order |
| SeccTheorems.StoppedStaysStopped | src/secc.c:2319-2335 | no energy after a stop, inside the loop and over whole lives |
| Secc.LeftStaysLeft | src/secc.c:2451-2461 | a stream that was left takes in nothing more |
| Secc20.Secc20.DoReset | src/secc_iso20.c:1393-1407 | a fresh session with the SEQUENCE timer armed |
| Secc20.Secc20.HandleSessionSetup | src/secc_iso20.c:636-668 | always a fresh SessionID, whatever the EV presented |
| Secc20.Secc20.HandleAuthorization | src/secc_iso20.c:682-730 | the 180 s deadline runs from the first request; the controller is asked only within it |
| Secc20.Secc20.HandleServiceSelection | src/secc_iso20.c:774-790 | only the offered DC service and parameter set without value-added services go on |
| Secc20.Secc20.HandleScheduleExchange | src/secc_iso20.c:792-828 | scheduled mode within 55 s of the first exchange, otherwise FAILED |
| Secc20.Secc20.HandlePowerDelivery | src/secc_iso20.c:830-894 | contactor commands, flag and state by progress; a close that is not confirmed changes nothing |
| Secc20.Secc20.HandleSessionStop | src/secc_iso20.c:896-938 | terminate and pause end the session, service renegotiation is refused |
| Secc20.Secc20.HandleCpd | src/secc_iso20.c:942-982 | bidirectional or missing DC parameters are refused without a report to the controller |
| Secc20.Secc20.HandleCableCheck | src/secc_iso20.c:984-1020 | started once, polled each time, finished goes on, a fault is FAILED |
| Secc20.Secc20.HandlePreCharge | src/secc_iso20.c:1022-1052 | the target is reported each time, the first one opens power delivery |
| Secc20.Secc20.HandleChargeLoop | src/secc_iso20.c:1054-1155 | scheduled control only; the loop start is reported once |
| Secc20.Secc20.HandleWelding | src/secc_iso20.c:1157-1179 | welding detection ends only on the EV's word |
| Secc20.Secc20.CloseContactor | src/secc_iso20.c:848-865 | the close command, and flag and state only once it is confirmed |
| Secc20.Secc20.LeaveChargeLoop | src/secc_iso20.c:866-881 | the loop is reported finished, the contactor commanded open if it was closed |
| Secc20.Secc20.DispatchCommon | src/secc_iso20.c:1205-1312 | the CommonMessages dispatcher behind its gates |
| Secc20.Secc20.DispatchDc | src/secc_iso20.c:1314-1380 | the DC dispatcher behind its gates |
| Secc20.Secc20.Gate | src/secc_iso20.c:1205-1380 | SessionID first, then sequence; only what passes both is handled |
| Secc20.Secc20.HandleFrame | src/secc_iso20.c:1409-1458 | state, events, return code and disposition of one frame |
| Secc20Theorems.HandleIsSane | src/secc_iso20.c:636-1179 | every handler keeps the invariant tying state, flag and deadlines to the history |
| Secc20Theorems.LifeIsSane | src/secc_iso20.c:1384-1458 | so does every run of resets and frames |
| Secc20Theorems.CloseNeedsPreparation | src/secc_iso20.c:830-894 | a close command follows, in this order and session, the first AuthorizationReq, GRANTED within 180 s of it, a finished cable check and a PreCharge |
| Secc20Theorems.CloseSucceedsOnce | src/secc_iso20.c:830-894 | between two confirmed closes there is a reset |
| Secc20Theorems.TargetsOnlyWhileClosed | src/secc_iso20.c:1054-1155 | energy targets reach the controller only with a confirmed close and no open command in the session |
| Secc20Theorems.ContactorFlag | src/secc_iso20.c:830-938 | before the end the flag is exactly "in the charge loop"; in the current session confirmed closes minus open commands is exactly the flag, and at most one close is confirmed |
| Secc20Theorems.StopLeavesContactorOpen | src/secc_iso20.c:896-938 | a session ended by an accepted SessionStop counts one open command per confirmed close |
| Secc20Theorems.EndsClosedExactlyFromChargeLoop | src/secc_iso20.c:1424-1458 | a session ends with the flag set exactly when the ending frame found it in the charge loop |
| Secc20Theorems.LoopEndsExactlyWhen | src/secc_iso20.c:1424-1458 | from the charge loop a frame ends the session exactly when it comes too late or its encoded answer refuses it: foreign SessionID, other request, control mode, schedule tuple, renegotiation |
| Secc20Theorems.EndsClosedExactlyWhen | src/secc_iso20.c:1424-1458 | in every run a frame ends the session with the flag set exactly when it finds it in the charge loop and one of these guards holds |
| Secc20Theorems.HandleAdvances | src/secc_iso20.c:585-628 | no handler moves back, ends the session, touches the SEQUENCE timer, or moves the contactor flag with a FAILED code |
| Secc20Theorems.RankNeverDecreases | src/secc_iso20.c:1409-1458 | no frame moves a session backwards |
| Secc20Theorems.EndsExactlyWhen | src/secc_iso20.c:1446-1458 | an answered frame ends the session exactly when its code is FAILED or worse or it was an accepted SessionStop |
| Secc20Theorems.EndedIsSilent | src/secc_iso20.c:1409-1418 | until a reset, an ended session changes nothing and tells nobody anything |
| Secc20Theorems.GatedRequestsAreSilent | src/secc_iso20.c:1205-1380 | a wrong SessionID or an out-of-sequence request reaches no callback and changes only code, timer and end |
| Secc20Theorems.TimerOffExactlyWhen | src/secc_iso20.c:1423-1458 | a frame in time leaves a running session without its SEQUENCE timer exactly when its decoder rejects it or its response cannot be encoded |
| Secc20Theorems.SequenceTimer | src/secc_iso20.c:1423-1458 | the next frame times out exactly if this one was answered, left the session running and lies more than 60 s back |
| Secc20Theorems.TimerStaysOff | src/secc_iso20.c:1433-1445 | once off, the timer stays off over any number of unanswered frames |
| Secc20Theorems.UndecodableFrameStopsTheTimer | src/secc_iso20.c:1433-1445 | the shortest case: one undecodable frame after a reset |
| Secc20Reports.AcceptsExactly | src/secc_iso20.c:585-628 | the states that take a request, request by request |
| Secc20Reports.SettledExactly | src/secc_iso20.c:636-1179 | a request that passes the gates is refused, warned about or served exactly by the guards on session, request and controller; only served ones lead on, and where to |
| Secc20Reports.FrameDecided | src/secc_iso20.c:1409-1458 | return code, disposition, code class and end of every frame, from guards read before it is handled |
| Secc20Reports.HandledAsDue | src/secc_iso20.c:636-1179 | what the controller hears and is asked while one request is handled |
| Secc20Reports.EverythingIsReported | src/secc_iso20.c:636-1179 | in every run each request that passes the gates is answered, between the two stands exactly what is due (targets on every turn of the loop, its start once, display and meter as asked, PreCharge target each time, limits, cable check start once, loop finish and open command at Stop), and nothing at any other time |
| Secc20Runs.DcSessionGoesThrough | src/secc_iso20.c:585-1458 | a DC session that repeats its polls any number of times goes through every state to its end, and its history is exactly the requests, reports and answers of its stages |
| Secc20Runs.EndsWithTheFlagSet | src/secc_iso20.c:1423-1458 | the charge loop is reached with the flag set, and a request out of sequence or a silence ends it there with the flag set and no open command |
| Rational.FromReal | src/secc_iso20.c:88-117 | the delivered pair is an encoding: rounded, raised only for size, lowered only while it is not near an integer and fits |
| Rational.ToReal | src/secc_iso20.c:119-127 | mantissa times ten to the exponent |
| Rational.EncodingIsUnique | src/secc_iso20.c:88-117 | the encoding of a number is one pair |
| Rational.ScaledFits | src/secc_iso20.c:113-115 | within plus or minus 32767 times ten to the 127 the clamp never acts |
| Rational.ErrorBound | src/secc_iso20.c:88-117 | mantissa within the wire range and error at most half a unit of the exponent |
| Rational.LeastFittingExponent | src/secc_iso20.c:98-111 | beyond 32767 the exponent is the least that fits; the second loop never undoes the first |
| Rational.RoundTrip | src/secc_iso20.c:88-127 | every m times ten to the e with m within the mantissa range and e from -3 to 127 comes back as exactly the same number |
| Rational.SmallestExponentMagnitude | src/secc_iso20.c:103-111 | no exact representation of the number has a smaller magnitude of exponent |
| Rational.OverTheWire | src/secc_iso20.c:82-127 | four numbers with their pairs: a decimal fraction, one that needs a larger exponent, and rounding away from zero on either side |
| ExiBitstream.BitStream.constructor | 3rd_party/cbv2g/lib/cbv2g/common/exi_bitstream.c:93-105 | cursor and reset point at the given offset |
| ExiBitstream.BitStream.Reset | 3rd_party/cbv2g/lib/cbv2g/common/exi_bitstream.c:107-119 | back to where the stream began, contents untouched |
| ExiBitstream.BitStream.GetLength | 3rd_party/cbv2g/lib/cbv2g/common/exi_bitstream.c:121-133 | bytes begun since the offset |
| ExiBitstream.BitStream.HasOverflow | 3rd_party/cbv2g/lib/cbv2g/common/exi_bitstream.c:29-45 | the lazy advance: the position in bits never changes, and overflow is a full byte at the end |
| ExiBitstream.BitStream.WriteBit | 3rd_party/cbv2g/lib/cbv2g/common/exi_bitstream.c:47-72 | one bit put at the cursor, a byte cleared when it is begun, the byte behind the buffer included |
| ExiBitstream.BitStream.ReadBit | 3rd_party/cbv2g/lib/cbv2g/common/exi_bitstream.c:74-88 | the bit under the cursor, wherever the capacity check lets it go |
| ExiBitstream.BitStream.WriteBits | 3rd_party/cbv2g/lib/cbv2g/common/exi_bitstream.c:135-157 | the leading bits of the field that the check lets through, in order, and the error exactly when some are left |
| ExiBitstream.BitStream.WriteOctet | 3rd_party/cbv2g/lib/cbv2g/common/exi_bitstream.c:159-162 | an eight-bit field; at the start of a byte that byte becomes the value and no other changes |
| ExiBitstream.BitStream.ReadBits | 3rd_party/cbv2g/lib/cbv2g/common/exi_bitstream.c:164-187 | the number in the bits read, also the partial one when the stream ends; at the start of a byte 8, 16, 24 and 32 bits are the big-endian number of the bytes |
| ExiBitstream.BitStream.ReadOctet | 3rd_party/cbv2g/lib/cbv2g/common/exi_bitstream.c:189-208 | the same for eight bits, always below 256 |
| ExiBitstream.PutMeans | 3rd_party/cbv2g/lib/cbv2g/common/exi_bitstream.c:47-72 | a run of bits stands in the buffer exactly, earlier bits are kept, the rest of the last byte is clear |
| ExiBitstream.BitsThenNumber | 3rd_party/cbv2g/lib/cbv2g/common/exi_bitstream.c:135-187 | n bits of a number are the number modulo 2 to the n |
| ExiBitstream.RoundTrip | 3rd_party/cbv2g/lib/cbv2g/common/exi_bitstream.c:107-187 | any list of fields of at most 32 bits that the code accepts, written, reset and read with the same widths, returns each value modulo 2 to its width |
| ExiBitstream.WrittenSpan | 3rd_party/cbv2g/lib/cbv2g/common/exi_bitstream.c:121-157 | the length is the total of bits over eight rounded up, other bytes are untouched, trailing bits are zero |
| ExiBitstream.WrittenNumber | 3rd_party/cbv2g/lib/cbv2g/common/exi_bitstream.c:47-157 | the bytes of a message as one big-endian number are its fields packed one behind the other, most significant bit first, and zeros up to the end of the last byte |
| ExiBitstream.WrittenBytes | 3rd_party/cbv2g/lib/cbv2g/common/exi_bitstream.c:47-157 | every byte is the number of its eight bits of the message, the last one padded with zeros |
| ExiBitstream.OctetStored | 3rd_party/cbv2g/lib/cbv2g/common/exi_bitstream.c:159-162 | at the start of a byte an octet is stored as it is |
| ExiBitstream.BytesRead | 3rd_party/cbv2g/lib/cbv2g/common/exi_bitstream.c:164-187 | whole bytes read from the start of a byte are a big-endian number |
| ExiBitstream.TopBitFirst | 3rd_party/cbv2g/lib/cbv2g/common/exi_bitstream.c:47-72 | the value 0x80 in eight bits fills a byte as 0x80 |
| ExiBitstream.AcceptedExactly | 3rd_party/cbv2g/lib/cbv2g/common/exi_bitstream.c:29-45 | which widths are accepted from every cursor; an accepted one leaves the buffer exactly when it exceeds it by one to eight bits |
| ExiBitstream.StoredBehindTheBuffer | 3rd_party/cbv2g/lib/cbv2g/common/exi_bitstream.c:47-88 | such a field changes the byte behind the buffer and none further on; that byte holds its last bits and zeros, and the whole field reads back |
| ExiBitstream.EmptyBufferAcceptsAByte | 3rd_party/cbv2g/lib/cbv2g/common/exi_bitstream.c:29-45 | the empty buffer accepts eight bits, none of them inside it |
| V2gtp.U16RoundTrip | src/byte_utils.c:58-60 | two bytes read as v exactly when they are the big-endian bytes of v |
| V2gtp.U32RoundTrip | src/byte_utils.c:62-65 | the same for four bytes |
| V2gtp.WriteU16 | src/byte_utils.c:75-78 | two bytes in place, the rest of the buffer kept |
| V2gtp.WriteU32 | src/byte_utils.c:80-85 | four bytes in place, the rest of the buffer kept |
| V2gtp.WireBytes | src/v2gtp.c:77-100 | the eight header bytes of a frame as numbers |
| V2gtp.VerdictOnBytes | src/v2gtp.c:34-75 | the code for a header, from its bytes |
| V2gtp.Build | src/v2gtp.c:77-100 | the frame at the front of the buffer and the rest kept, or the first applicable error and nothing changed |
| V2gtp.Parse | src/v2gtp.c:55-75 | the code for what a buffer starts with, and the message on success |
| V2gtp.ParsesExactlyBuiltFrames | src/v2gtp.c:34-100 | parsing succeeds with a frame exactly when that frame is one that can be built and its bytes are a prefix of the buffer |
| V2gtp.Inlet.RecvBytes | src/secc.c:1783-1807 | bytes in the buffer, bytes left, clock and return code for every behaviour of the transport |
| V2gtp.Inlet.RecvV2gtp | src/secc.c:1835-1855 | header, length checks, payload and parse |
| V2gtp.Outlet.SendBytes | src/secc.c:1809-1833 | bytes on the wire and return code for every behaviour of the transport |
| V2gtp.RecvTakesTheFront | src/secc.c:1783-1807 | what is taken is the front of what came in; success exactly when all of it was taken |
| V2gtp.SendPutsAPrefix | src/secc.c:1809-1833 | the wire carries a prefix of the data, all of it on success, and all of it in spite of a failure exactly for the transport scripts that swallow the rest and overstate it |
| V2gtp.SendIsScripted | src/secc.c:1809-1833 | the script alone tells whether a send succeeds, what it leaves of the script and when, and whether all of the data went out |
| V2gtp.OneByteSwallowed | src/secc.c:1829-1829 | the shortest failing send with all of its data on the wire |
| V2gtp.SendTurnEnds | src/secc.c:1809-1833 | with which code one turn of the transport ends a send, if it does |
| V2gtp.RecvTurnEnds | src/secc.c:1783-1807 | the same for a receive |
| V2gtp.ReceivedWasSent | src/secc.c:1835-1855 | a frame received stood at the front of the incoming bytes, and exactly its bytes are gone |
| V2gtp.WirePrefixIsFrame | src/v2gtp.c:34-100 | frames are self-delimiting: two streams that agree on their bytes agree on their first frame |
| V2gtp.ReceivedArePrefix | src/secc.c:1835-1855 | from a stream of frames cut anywhere only its frames are received, in order |
| V2gtp.WireOfSends | src/secc.c:1809-1833 | the wire is the frames whose send succeeded and a part of the next, which is the whole of it exactly for the scripts that swallow it |
| V2gtp.FramedStreamRoundTrip | src/secc.c:1783-1855 | for every pattern of partial transfers, retries and failures at both ends only frames whose send succeeded are received, in order and unchanged, and one more at most if the script swallows it |
| V2gtp.RecvInTime | src/secc.c:1783-1807 | over a transport that only delivers or has the caller retry, a receive succeeds exactly when the bytes come within its time limit |
| V2gtp.SendInTime | src/secc.c:1809-1833 | the same for a send |
| V2gtp.SendAllInTime | src/secc.c:1809-1833 | all frames go out exactly when each send meets its time limit |
| V2gtp.RecvAllInTime | src/secc.c:1835-1855 | exactly the frames on the wire are received exactly when each header and each payload meets its time limit |
| V2gtp.EverythingArrives | src/secc.c:1783-1855 | both ends together: what is received is exactly the list handed to the sender, if and only if every send and every receive meets its own time limit |
| RxFramer.Framer.Process | platformio/esp32s3_slac_hlc_precharge/src/main.cpp:382-433 | leftover and dispatched frames after a burst, buffer compacted in place |
| RxFramer.Framer.Scan | platformio/esp32s3_slac_hlc_precharge/src/main.cpp:396-424 | the moving position computes the batch parse |
| RxFramer.RestIsShort | platformio/esp32s3_slac_hlc_precharge/src/main.cpp:397-415 | what is left waiting is the end of the input, at most 13 bytes more than the longest frame |
| RxFramer.ParseGoesOn | platformio/esp32s3_slac_hlc_precharge/src/main.cpp:396-432 | parsing can stop anywhere and go on with the leftover and what comes next |
| RxFramer.IncrementalIsBatch | platformio/esp32s3_slac_hlc_precharge/src/main.cpp:382-432 | for every cutting into bursts that fit next to the leftover before them, frames and leftover equal one parse of the whole |
| RxFramer.SmallChunksFit | platformio/esp32s3_slac_hlc_precharge/src/main.cpp:387-389 | bursts of at most capacity minus the longest frame plus 13 bytes always fit |
| RxFramer.CutsDoNotMatter | platformio/esp32s3_slac_hlc_precharge/src/main.cpp:382-432 | two cuttings of the same bytes give the same frames |
| RxFramer.RunSinceReset | platformio/esp32s3_slac_hlc_precharge/src/main.cpp:387-432 | after any run, frames and leftover are those before the latest overflowing burst followed by one parse of everything since: an overflow costs exactly the leftover it found |
| RxFramer.EnvelopesAreRecovered | platformio/esp32s3_slac_hlc_precharge/src/main.cpp:396-424 | wrapped frames sent back to back come out exactly with nothing left over |
| RxFramer.FramesSurviveAnyCut | platformio/esp32s3_slac_hlc_precharge/src/main.cpp:382-432 | the same through the buffer, however the bytes are read |
| RxFramer.DispatchedWasEnveloped | platformio/esp32s3_slac_hlc_precharge/src/main.cpp:397-421 | on any input every dispatched frame stood there in a complete envelope of acceptable size |
| RxFramer.FirstPlaceDecides | platformio/esp32s3_slac_hlc_precharge/src/main.cpp:396-432 | on any input exactly the bytes before the first frame, unfinished frame or short tail are skipped; that frame is dispatched and the scan goes on behind it, otherwise the rest waits |
| RxFramer.FrameQueue.Push | platformio/esp32s3_slac_hlc_precharge/src/main.cpp:348-358 | appended exactly when one of the eight slots is free and the frame is not too long |
| RxFramer.FrameQueue.Pop | platformio/esp32s3_slac_hlc_precharge/src/main.cpp:360-368 | the oldest frame, nothing exactly when empty |
| TopK.Sampler.Insert | platformio/esp32s3_slac_hlc_precharge/src/main.cpp:525-545 | after one more reading the array is ascending and holds the twelve largest seen |
| TopK.Sampler.MakeRoom | platformio/esp32s3_slac_hlc_precharge/src/main.cpp:526-534 | shifting inserts at the reading's place |
| TopK.Sampler.Bubble | platformio/esp32s3_slac_hlc_precharge/src/main.cpp:535-544 | overwriting the least and swapping up inserts into the rest |
| TopK.LargestIsUnique | platformio/esp32s3_slac_hlc_precharge/src/main.cpp:520-545 | a set of readings has one ascending sequence of its largest |
| TopK.ReadRobust | platformio/esp32s3_slac_hlc_precharge/src/main.cpp:520-587 | cut off towards zero, the measurement is the mean of the second and third largest of six or more readings and lies between them; of three to five it is the mean of the three largest, of fewer that of all |
| TopK.Average | platformio/esp32s3_slac_hlc_precharge/src/main.cpp:566-586 | the mean of the chosen range cut off towards zero: n times its size is at most the size of the sum, n times one more exceeds it, and the signs agree |
| TopK.EstimateMeasures | platformio/esp32s3_slac_hlc_precharge/src/main.cpp:555-586 | the range chosen for any number of kept readings |
| TopK.TruncatesOnce | platformio/esp32s3_slac_hlc_precharge/src/main.cpp:584-584 | there is one such quotient |
| TopK.SecondAndThirdLargest | platformio/esp32s3_slac_hlc_precharge/src/main.cpp:566-586 | with eighty readings a number is the measurement exactly if it is half the sum of the second and third largest cut off towards zero, and nothing left out exceeds either |
| TopK.MaximumDoesNotMatter | platformio/esp32s3_slac_hlc_precharge/src/main.cpp:566-586 | raising a reading that is already the largest leaves the measurement alone |

## Left out

- The EXI grammar codecs and `src/cbv2g_codec.c`: requests are decoded values, and encoding a response is an outcome.
- Electrical values, meters and the other contents of responses: only response codes, SessionIDs and the DIN energy type matter to the engines.
- The static "authorization pending" flag of the built-in handler: it changes a processing field of the response only.
- A custom `handle_request` callback: the stream loop is modelled with the built-in handler.
- ISO 15118-20 frames inside the -2/DIN loop: the two engines are modelled separately, the loop as built without the -20 flag.
- Sockets, TLS, SDP, interface lookup, SPI, GPIO, FreeRTOS and lwIP: a transport is a script of what its calls will do.
- The random provider: it supplies the draws; what the generator makes of them is proved in SessionId, and the stream engine takes its non-zero result as an input.
- Parsing of the configured energy-mode string: the configuration is the set of modes it lists.
- Null-pointer and empty-buffer argument checks (-EINVAL), logging, diagnostic fields such as the last rejected message.
- Rational.FromReal: exact reals, so double rounding inside the loops, the final rounding to `float`, NaN and infinities are not modelled.
- ExiBitstream.BitStream.WriteBits: there has to be memory under every bit the code touches, because C gives no meaning to the access otherwise; masks applied to 32-bit values are written as division and remainder by powers of two.
- V2gtp.Inlet.RecvBytes: a transport never delivers more than it was asked for, and a retry script is finite; how long retries may go on is not bounded by the code when there is no time limit.
- RxFramer.Framer.Process: the longest Ethernet frame is a parameter because its constant is defined in a library that is not part of this model; so is the EtherType that decides between the ring queue and lwIP.
- The 64-bit big-endian helpers, hexadecimal conversion, the legacy linear state machines and SDP: easy claims only.
