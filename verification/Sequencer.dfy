/** The connection-level request sequencer shared by DIN 70121 and ISO 15118-2 (src/state_secc.c). */
module Sequencer {
  import opened Messages

  datatype Phase =
    | InAppProtocol
    | InSessionSetup
    | InServiceDiscovery
    | InServiceSelection
    | InAuthorization
    | InChargeParameters
    | InCableCheck
    | InPreCharge
    | InPowerDelivery
    | InCharging
    | InPowerDeliveryStop
    | InWelding
    | InComplete
  {
    /** The enumeration value, for the source's range comparison. */
    function Ordinal(): nat {
      match this
      case InAppProtocol => 0
      case InSessionSetup => 1
      case InServiceDiscovery => 2
      case InServiceSelection => 3
      case InAuthorization => 4
      case InChargeParameters => 5
      case InCableCheck => 6
      case InPreCharge => 7
      case InPowerDelivery => 8
      case InCharging => 9
      case InPowerDeliveryStop => 10
      case InWelding => 11
      case InComplete => 12
    }
  }

  datatype SeqState = SeqState(phase: Phase, protocol: Protocol, dcMode: bool, modeKnown: bool)

  const INITIAL := SeqState(InAppProtocol, UnknownProtocol, false, false)

  /** The verdict on one request together with the state it leaves: a rejection can still bind the protocol. */
  datatype Verdict = Accepted(next: SeqState) | Rejected(next: SeqState)

  /** A request's protocol is usable when it is known and does not contradict the bound one. */
  predicate Agrees(s: SeqState, p: Protocol) {
    p != UnknownProtocol && (s.protocol == UnknownProtocol || s.protocol == p)
  }

  /** Transition table for everything except PowerDelivery and the opening phase. */
  function Successor(s: SeqState, t: MessageType): Option<Phase> {
    match t
    case SessionStopReq =>
      if s.phase in {InAppProtocol, InSessionSetup, InComplete} then None else Some(InComplete)
    case SuppAppProtocolReq => if s.phase == InSessionSetup then Some(InSessionSetup) else None
    case SessionSetupReq => if s.phase == InSessionSetup then Some(InServiceDiscovery) else None
    case ServiceDiscoveryReq =>
      if s.phase in {InServiceDiscovery, InServiceSelection} then Some(InServiceSelection) else None
    case ServiceDetailReq => if s.phase == InServiceSelection then Some(InServiceSelection) else None
    case PaymentServiceSelectionReq =>
      if s.phase in {InServiceSelection, InAuthorization} then Some(InAuthorization) else None
    case PaymentDetailsReq => if s.phase == InAuthorization then Some(InAuthorization) else None
    case AuthorizationReq => if s.phase == InAuthorization then Some(InAuthorization) else None
    case ChargeParameterDiscoveryReq =>
      if s.phase in {InAuthorization, InChargeParameters} then Some(InChargeParameters) else None
    case CableCheckReq => if s.phase in {InChargeParameters, InCableCheck} then Some(InCableCheck) else None
    case PreChargeReq => if s.phase in {InCableCheck, InPreCharge} then Some(InPreCharge) else None
    case ChargingStatusReq =>
      if s.phase in {InPowerDelivery, InCharging} && !s.dcMode then Some(InCharging) else None
    case CurrentDemandReq =>
      if s.phase in {InPowerDelivery, InCharging} && s.dcMode then Some(InCharging) else None
    case MeteringReceiptReq => if s.phase == InCharging then Some(InCharging) else None
    case WeldingDetectionReq =>
      if s.phase == InWelding || (s.phase in {InPowerDelivery, InCharging, InPowerDeliveryStop} && s.dcMode)
      then Some(InWelding) else None
    case PowerDeliveryReq => None
    case UnknownMessage => None
  }

  /** PowerDelivery with its direction: Start (energy) or Stop. */
  function OnPowerDelivery(s: SeqState, p: Protocol, energy: bool): Verdict {
    if !Agrees(s, p) then Rejected(s)
    else
      var b := s.(protocol := p);
      var open := match s.phase
        case InChargeParameters => energy && p != Din
        case InPreCharge | InPowerDelivery | InCharging => true
        case InPowerDeliveryStop => !energy
        case _ => false;
      if !open then Rejected(b)
      else
        var firstPassage := s.phase == InChargeParameters && !s.modeKnown;
        Accepted(b.(phase := if energy then InPowerDelivery else InPowerDeliveryStop,
                    dcMode := s.dcMode && !firstPassage,
                    modeKnown := s.modeKnown || firstPassage))
  }

  /** ISO 15118-2 ChargeProgress=Renegotiate: back to charge parameters, mode retained. */
  function OnRenegotiation(s: SeqState, p: Protocol): Verdict {
    if !Agrees(s, p) then Rejected(s)
    else if p == Iso2 && s.phase in {InPowerDelivery, InCharging}
    then Accepted(s.(protocol := p, phase := InChargeParameters))
    else Rejected(s.(protocol := p))
  }

  /** A request judged by its message type alone. */
  function OnMessage(s: SeqState, p: Protocol, t: MessageType): Verdict {
    if s.phase == InAppProtocol then
      if t == SessionSetupReq && p == Din then Accepted(s.(protocol := Din, phase := InServiceDiscovery))
      else if t == SuppAppProtocolReq then
        Accepted(s.(protocol := if p == UnknownProtocol then s.protocol else p, phase := InSessionSetup))
      else Rejected(s)
    else if !Agrees(s, p) then Rejected(s)
    else
      var b := s.(protocol := p);
      if t == PowerDeliveryReq &&
         s.phase in {InChargeParameters, InPreCharge, InPowerDelivery, InCharging}
      then OnPowerDelivery(s, p, true)
      else
        match Successor(b, t)
        case None => Rejected(b)
        case Some(phase) =>
          var cable := s.phase == InChargeParameters && t == CableCheckReq;
          Accepted(b.(phase := phase, dcMode := b.dcMode || cable, modeKnown := b.modeKnown || cable))
  }

  /** The stream dispatcher's gate (src/secc.c): PowerDelivery is judged by its direction. */
  function OnRequest(s: SeqState, r: Request): Verdict {
    match r.body
    case PowerDelivery(progress) =>
      if r.protocol == Din then OnPowerDelivery(s, Din, progress == Start)
      else if r.protocol == Iso2 then
        match progress
        case Start => OnPowerDelivery(s, Iso2, true)
        case Stop => OnPowerDelivery(s, Iso2, false)
        case Renegotiate => OnRenegotiation(s, Iso2)
        case OtherProgress => Rejected(s)
      else Rejected(s)
    case _ => OnMessage(s, r.protocol, r.body.Type())
  }

  /** The mutable sequencer object. */
  class Sequence {
    var phase: Phase
    var protocol: Protocol
    var dcMode: bool
    var modeKnown: bool

    ghost function State(): SeqState
      reads this
    {
      SeqState(phase, protocol, dcMode, modeKnown)
    }

    constructor ()
      ensures State() == INITIAL
    {
      phase := InAppProtocol;
      protocol := UnknownProtocol;
      dcMode := false;
      modeKnown := false;
    }

    method RequireProtocol(p: Protocol) returns (rc: Rc)
      modifies this`protocol
      ensures rc == if Agrees(old(State()), p) then Done else EPROTO
      ensures State() == if rc == Done then old(State()).(protocol := p) else old(State())
    {
      if p == UnknownProtocol { return EPROTO; }
      if protocol == UnknownProtocol {
        protocol := p;
        return Done;
      }
      return if protocol == p then Done else EPROTO;
    }

    method AcceptPowerDelivery(p: Protocol, energyEnabled: bool) returns (rc: Rc)
      modifies this
      ensures rc == Done <==> OnPowerDelivery(old(State()), p, energyEnabled).Accepted?
      ensures rc in {Done, EPROTO}
      ensures State() == OnPowerDelivery(old(State()), p, energyEnabled).next
    {
      rc := RequireProtocol(p);
      if rc != Done { return EPROTO; }
      match phase {
        case InChargeParameters =>
          if p == Din || !energyEnabled { return EPROTO; }
          if !modeKnown {
            dcMode := false;
            modeKnown := true;
          }
        case InPreCharge | InPowerDelivery | InCharging =>
        case InPowerDeliveryStop =>
          if energyEnabled { return EPROTO; }
        case _ =>
          return EPROTO;
      }
      phase := if energyEnabled then InPowerDelivery else InPowerDeliveryStop;
      return Done;
    }

    method AcceptRenegotiation(p: Protocol) returns (rc: Rc)
      modifies this
      ensures rc == Done <==> OnRenegotiation(old(State()), p).Accepted?
      ensures rc in {Done, EPROTO}
      ensures State() == OnRenegotiation(old(State()), p).next
    {
      rc := RequireProtocol(p);
      if rc != Done { return EPROTO; }
      if p != Iso2 { return EPROTO; }
      if phase != InPowerDelivery && phase != InCharging { return EPROTO; }
      phase := InChargeParameters;
      return Done;
    }

    method Accept(p: Protocol, t: MessageType) returns (rc: Rc)
      modifies this
      ensures rc == Done <==> OnMessage(old(State()), p, t).Accepted?
      ensures rc in {Done, EPROTO}
      ensures State() == OnMessage(old(State()), p, t).next
    {
      if phase == InAppProtocol {
        if t == SessionSetupReq && p == Din {
          protocol := p;
          phase := InServiceDiscovery;
          return Done;
        }
        if t != SuppAppProtocolReq { return EPROTO; }
        if p != UnknownProtocol { protocol := p; }
        phase := InSessionSetup;
        return Done;
      }
      rc := RequireProtocol(p);
      if rc != Done { return EPROTO; }
      if t == SessionStopReq && InServiceDiscovery.Ordinal() <= phase.Ordinal() < InComplete.Ordinal() {
        phase := InComplete;
        return Done;
      }
      rc := AcceptInPhase(p, t);
    }

    /** Its cases up to authorization. */
    method AcceptBeforeEnergy(p: Protocol, t: MessageType) returns (rc: Rc)
      requires protocol == p != UnknownProtocol && phase != InAppProtocol
      requires phase.Ordinal() <= InAuthorization.Ordinal()
      requires t == SessionStopReq ==> phase == InSessionSetup
      modifies this
      ensures rc == Done <==> OnMessage(old(State()), p, t).Accepted?
      ensures rc in {Done, EPROTO}
      ensures State() == OnMessage(old(State()), p, t).next
    {
      match phase {
        case InSessionSetup =>
          if t == SuppAppProtocolReq { return Done; }
          if t != SessionSetupReq { return EPROTO; }
          phase := InServiceDiscovery;
          return Done;
        case InServiceDiscovery =>
          if t != ServiceDiscoveryReq { return EPROTO; }
          phase := InServiceSelection;
          return Done;
        case InServiceSelection =>
          if t == ServiceDiscoveryReq || t == ServiceDetailReq { return Done; }
          if t != PaymentServiceSelectionReq { return EPROTO; }
          phase := InAuthorization;
          return Done;
        case InAuthorization =>
          if t == PaymentServiceSelectionReq || t == PaymentDetailsReq || t == AuthorizationReq {
            return Done;
          }
          if t != ChargeParameterDiscoveryReq { return EPROTO; }
          phase := InChargeParameters;
          return Done;
        case _ =>
          return EPROTO;
      }
    }

    /** Its cases from charge parameters to pre-charge. */
    method AcceptWhilePreparing(p: Protocol, t: MessageType) returns (rc: Rc)
      requires protocol == p != UnknownProtocol && phase in {InChargeParameters, InCableCheck, InPreCharge}
      requires t != SessionStopReq
      modifies this
      ensures rc == Done <==> OnMessage(old(State()), p, t).Accepted?
      ensures rc in {Done, EPROTO}
      ensures State() == OnMessage(old(State()), p, t).next
    {
      match phase {
        case InChargeParameters =>
          if t == ChargeParameterDiscoveryReq { return Done; }
          if t == CableCheckReq {
            dcMode := true;
            modeKnown := true;
            phase := InCableCheck;
            return Done;
          }
          if t == PowerDeliveryReq {
            rc := AcceptPowerDelivery(p, true);
            return rc;
          }
          return EPROTO;
        case InCableCheck =>
          if t == CableCheckReq { return Done; }
          if t != PreChargeReq { return EPROTO; }
          phase := InPreCharge;
          return Done;
        case InPreCharge =>
          if t == PreChargeReq { return Done; }
          if t != PowerDeliveryReq { return EPROTO; }
          rc := AcceptPowerDelivery(p, true);
          return rc;
        case _ =>
          return EPROTO;
      }
    }

    /** Its cases from power delivery on. */
    method AcceptAroundEnergy(p: Protocol, t: MessageType) returns (rc: Rc)
      requires protocol == p != UnknownProtocol && phase.Ordinal() >= InPowerDelivery.Ordinal()
      requires t == SessionStopReq ==> phase == InComplete
      modifies this
      ensures rc == Done <==> OnMessage(old(State()), p, t).Accepted?
      ensures rc in {Done, EPROTO}
      ensures State() == OnMessage(old(State()), p, t).next
    {
      match phase {
        case InPowerDelivery =>
          if t == PowerDeliveryReq {
            rc := AcceptPowerDelivery(p, true);
            return rc;
          }
          if dcMode && t == CurrentDemandReq {
            phase := InCharging;
            return Done;
          }
          if !dcMode && t == ChargingStatusReq {
            phase := InCharging;
            return Done;
          }
          if dcMode && t == WeldingDetectionReq {
            phase := InWelding;
            return Done;
          }
          return EPROTO;
        case InCharging =>
          if (dcMode && t == CurrentDemandReq) || (!dcMode && t == ChargingStatusReq) ||
             t == MeteringReceiptReq {
            return Done;
          }
          if t == PowerDeliveryReq {
            rc := AcceptPowerDelivery(p, true);
            return rc;
          }
          if dcMode && t == WeldingDetectionReq {
            phase := InWelding;
            return Done;
          }
          return EPROTO;
        case InPowerDeliveryStop =>
          if dcMode && t == WeldingDetectionReq {
            phase := InWelding;
            return Done;
          }
          return EPROTO;
        case InWelding =>
          return if t == WeldingDetectionReq then Done else EPROTO;
        case _ =>
          return EPROTO;
      }
    }

    /** The switch over phases, entered with the protocol settled and graceful SessionStop dealt with. */
    method AcceptInPhase(p: Protocol, t: MessageType) returns (rc: Rc)
      requires protocol == p != UnknownProtocol && phase != InAppProtocol
      requires t == SessionStopReq ==> phase in {InSessionSetup, InComplete}
      modifies this
      ensures rc == Done <==> OnMessage(old(State()), p, t).Accepted?
      ensures rc in {Done, EPROTO}
      ensures State() == OnMessage(old(State()), p, t).next
    {
      hide OnMessage;
      if phase.Ordinal() <= InAuthorization.Ordinal() {
        rc := AcceptBeforeEnergy(p, t);
      } else if phase.Ordinal() <= InPreCharge.Ordinal() {
        rc := AcceptWhilePreparing(p, t);
      } else {
        rc := AcceptAroundEnergy(p, t);
      }
    }

    /** secc_accept_request_sequence: PowerDelivery is split by its decoded direction. */
    method AcceptRequest(r: Request) returns (rc: Rc)
      modifies this
      ensures rc == Done <==> OnRequest(old(State()), r).Accepted?
      ensures rc in {Done, EPROTO}
      ensures State() == OnRequest(old(State()), r).next
    {
      if !r.body.PowerDelivery? {
        rc := Accept(r.protocol, r.body.Type());
        return rc;
      }
      if r.protocol == Din {
        rc := AcceptPowerDelivery(r.protocol, r.body.progress == Start);
        return rc;
      }
      if r.protocol == Iso2 {
        match r.body.progress {
          case Start => rc := AcceptPowerDelivery(r.protocol, true);
          case Stop => rc := AcceptPowerDelivery(r.protocol, false);
          case Renegotiate => rc := AcceptRenegotiation(r.protocol);
          case OtherProgress => rc := EPROTO;
        }
        return rc;
      }
      return EPROTO;
    }
  }
}
