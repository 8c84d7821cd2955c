/** Decoded requests, as the stream dispatcher hands them to the gates and the handler. */
module Messages {

  datatype Option<+T> = None | Some(value: T)

  newtype byte = x: int | 0 <= x < 256

  /** Return codes: zero, the errno values the engines produce themselves, and everything else. */
  datatype Rc =
    | Done
    | EINVAL | EPROTO | EACCES | EBADMSG | ETIMEDOUT | EAGAIN | EINTR | ECONNRESET
    | EIO | EPIPE | ESHUTDOWN | ENOTSUP | ENOSPC | E2BIG | EMSGSIZE | EPROTONOSUPPORT
    | OtherErrno(code: nat)
    | Positive(sentinel: nat)

  /** Session identifiers are eight bytes wide; all-zero means "no session". */
  type Sid = s: seq<byte> | |s| == 8 witness [0, 0, 0, 0, 0, 0, 0, 0]
  const ZERO_SID: Sid := [0, 0, 0, 0, 0, 0, 0, 0]

  datatype Protocol = UnknownProtocol | Iso2 | Din | Iso20Dc

  datatype MessageType =
    | SuppAppProtocolReq
    | SessionSetupReq
    | ServiceDiscoveryReq
    | ServiceDetailReq
    | PaymentServiceSelectionReq
    | PaymentDetailsReq
    | AuthorizationReq
    | ChargeParameterDiscoveryReq
    | CableCheckReq
    | PreChargeReq
    | PowerDeliveryReq
    | ChargingStatusReq
    | CurrentDemandReq
    | MeteringReceiptReq
    | WeldingDetectionReq
    | SessionStopReq
    | UnknownMessage

  /** ISO ChargeProgress. DIN's ReadyToChargeState flag travels as Start (true) or Stop (false). */
  datatype Progress = Start | Stop | Renegotiate | OtherProgress

  /** One entry of SupportedAppProtocolReq. */
  datatype Offer = Offer(ns: string, major: nat, minor: nat, schemaId: byte, priority: byte)

  /** Numeric values shared by the DIN requested/supported and ISO energy-transfer enumerations. */
  const DC_CORE: nat := 2
  const DC_EXTENDED: nat := 3
  const DC_COMBO_CORE: nat := 4
  const DC_UNIQUE: nat := 5

  /** The decoded body, reduced to the fields the engine branches on. */
  datatype Body =
    | SupportedAppProtocol(offers: seq<Offer>)
    | SessionSetup
    | ServiceDiscovery
    | ServiceDetail
    | PaymentServiceSelection(external: bool)
    | PaymentDetails
    | Authorization
    | ChargeParameterDiscovery(energyType: nat)
    | CableCheck
    | PreCharge
    | PowerDelivery(progress: Progress)
    | ChargingStatus
    | CurrentDemand
    | MeteringReceipt
    | WeldingDetection
    | SessionStop(pause: bool)
  {
    function Type(): MessageType {
      match this
      case SupportedAppProtocol(_) => SuppAppProtocolReq
      case SessionSetup => SessionSetupReq
      case ServiceDiscovery => ServiceDiscoveryReq
      case ServiceDetail => ServiceDetailReq
      case PaymentServiceSelection(_) => PaymentServiceSelectionReq
      case PaymentDetails => PaymentDetailsReq
      case Authorization => AuthorizationReq
      case ChargeParameterDiscovery(_) => ChargeParameterDiscoveryReq
      case CableCheck => CableCheckReq
      case PreCharge => PreChargeReq
      case PowerDelivery(_) => PowerDeliveryReq
      case ChargingStatus => ChargingStatusReq
      case CurrentDemand => CurrentDemandReq
      case MeteringReceipt => MeteringReceiptReq
      case WeldingDetection => WeldingDetectionReq
      case SessionStop(_) => SessionStopReq
    }
  }

  /** A request in flight: the protocol it was decoded under, its header SessionID and its body. */
  datatype Request = Request(protocol: Protocol, sid: seq<byte>, body: Body)
}
