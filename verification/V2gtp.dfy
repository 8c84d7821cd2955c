/** V2GTP headers over a byte stream that splits anywhere (src/v2gtp.c, src/byte_utils.c, and the send and receive
    loops of src/secc.c). */
module V2gtp {
  import opened Messages

  const HEADER_LEN: nat := 8
  const MAX_PAYLOAD: nat := 4096
  const VERSION: byte := 1
  const U32_LIMIT: int := 0x1_0000_0000

  // ---- big-endian fields ----

  function U16(v: nat): (b: seq<byte>)
    requires v < 0x1_0000
    ensures |b| == 2
  {
    [(v / 0x100) as byte, (v % 0x100) as byte]
  }

  function U32(v: nat): (b: seq<byte>)
    requires v < U32_LIMIT
    ensures |b| == 4
  {
    U16(v / 0x1_0000) + U16(v % 0x1_0000)
  }

  function ReadU16(b: seq<byte>, at: nat): (v: nat)
    requires at + 2 <= |b|
    ensures v < 0x1_0000
  {
    b[at] as nat * 0x100 + b[at + 1] as nat
  }

  function ReadU32(b: seq<byte>, at: nat): (v: nat)
    requires at + 4 <= |b|
    ensures v < U32_LIMIT
  {
    ReadU16(b, at) * 0x1_0000 + ReadU16(b, at + 2)
  }

  lemma U16RoundTrip(b: seq<byte>, at: nat, v: nat)
    requires at + 2 <= |b| && v < 0x1_0000
    ensures b[at..at + 2] == U16(v) <==> ReadU16(b, at) == v
  {
    var hi, lo := b[at] as nat, b[at + 1] as nat;
    assert b[at..at + 2] == [b[at], b[at + 1]];
    assert hi * 0x100 + lo == v <==> hi == v / 0x100 && lo == v % 0x100;
  }

  /** Reading is the exact inverse of writing: no other four bytes give the same number. */
  lemma U32RoundTrip(b: seq<byte>, at: nat, v: nat)
    requires at + 4 <= |b| && v < U32_LIMIT
    ensures b[at..at + 4] == U32(v) <==> ReadU32(b, at) == v
  {
    U16RoundTrip(b, at, v / 0x1_0000);
    U16RoundTrip(b, at + 2, v % 0x1_0000);
    var hi, lo := ReadU16(b, at), ReadU16(b, at + 2);
    hide ReadU16, U16;
    assert b[at..at + 4] == b[at..at + 2] + b[at + 2..at + 4];
    assert b[at..at + 4][..2] == b[at..at + 2] && b[at..at + 4][2..] == b[at + 2..at + 4];
    assert U32(v)[..2] == U16(v / 0x1_0000) && U32(v)[2..] == U16(v % 0x1_0000);
    assert hi * 0x1_0000 + lo == v <==> hi == v / 0x1_0000 && lo == v % 0x1_0000;
  }

  method WriteU16(a: array<byte>, at: nat, v: nat)
    requires at + 2 <= a.Length && v < 0x1_0000
    modifies a
    ensures a[..] == old(a[..at]) + U16(v) + old(a[at + 2..])
  {
    a[at] := (v / 0x100) as byte;
    a[at + 1] := (v % 0x100) as byte;
  }

  lemma U32Bytes(v: nat)
    requires v < U32_LIMIT
    ensures U32(v) == [(v / 0x100_0000) as byte, (v / 0x1_0000 % 0x100) as byte,
                       (v / 0x100 % 0x100) as byte, (v % 0x100) as byte]
  {
    var q, r := v / 0x1_0000, v % 0x1_0000;
    var a, b, c, d := q / 0x100, q % 0x100, r / 0x100, r % 0x100;
    assert v == 0x100_0000 * a + 0x1_0000 * b + 0x100 * c + d;
    assert v / 0x100_0000 == a && v / 0x100 == 0x1_0000 * a + 0x100 * b + c;
    assert v / 0x1_0000 % 0x100 == b && v / 0x100 % 0x100 == c && v % 0x100 == d;
  }

  method WriteU32(a: array<byte>, at: nat, v: nat)
    requires at + 4 <= a.Length && v < U32_LIMIT
    modifies a
    ensures a[..] == old(a[..at]) + U32(v) + old(a[at + 4..])
  {
    a[at] := (v / 0x100_0000) as byte;
    a[at + 1] := (v / 0x1_0000 % 0x100) as byte;
    a[at + 2] := (v / 0x100 % 0x100) as byte;
    a[at + 3] := (v % 0x100) as byte;
    U32Bytes(v);
  }

  // ---- frames ----

  datatype Frame = Frame(payloadType: nat, payload: seq<byte>)

  predicate Supported(payloadType: nat) { payloadType in {0x8001, 0x9000, 0x9001} }

  predicate Sendable(f: Frame) { Supported(f.payloadType) && |f.payload| <= MAX_PAYLOAD }

  /** The header and payload of a frame. */
  function Wire(f: Frame): (w: seq<byte>)
    requires f.payloadType < 0x1_0000 && |f.payload| < U32_LIMIT
    ensures |w| == HEADER_LEN + |f.payload|
  {
    [VERSION, 0xFE] + U16(f.payloadType) + U32(|f.payload|) + f.payload
  }

  /** The bytes of a frame as numbers: version, inverse, type and length, most significant byte first. */
  lemma WireBytes(f: Frame)
    requires f.payloadType < 0x1_0000 && |f.payload| < U32_LIMIT
    ensures var w := Wire(f);
            && w[0] == 0x01 && w[1] == 0xFE
            && 0x100 * w[2] as nat + w[3] as nat == f.payloadType
            && 0x100_0000 * w[4] as nat + 0x1_0000 * w[5] as nat + 0x100 * w[6] as nat + w[7] as nat == |f.payload|
            && w[8..] == f.payload
  {
    var w := Wire(f);
    U16RoundTrip(w, 2, f.payloadType);
    U32RoundTrip(w, 4, |f.payload|);
    hide U16, U32;
    assert w[2..4] == U16(f.payloadType) && w[4..8] == U32(|f.payload|);
  }

  function BuildRc(f: Frame, capacity: nat): Rc {
    if !Supported(f.payloadType) then ENOTSUP
    else if |f.payload| > MAX_PAYLOAD then E2BIG
    else if capacity < HEADER_LEN + |f.payload| then ENOSPC
    else Done
  }

  /** jpv2g_v2gtp_build: the frame goes to the front of the buffer, the rest of the buffer stays. */
  method Build(payloadType: nat, payload: seq<byte>, out: array<byte>) returns (rc: Rc, written: nat)
    modifies out
    ensures rc == BuildRc(Frame(payloadType, payload), out.Length)
    ensures rc == Done ==>
              && written == HEADER_LEN + |payload| <= out.Length
              && out[..written] == Wire(Frame(payloadType, payload))
              && out[written..] == old(out[written..])
    ensures rc != Done ==> out[..] == old(out[..])
  {
    written := 0;
    if !Supported(payloadType) { return ENOTSUP, 0; }
    if |payload| > MAX_PAYLOAD { return E2BIG, 0; }
    if out.Length < HEADER_LEN + |payload| { return ENOSPC, 0; }
    hide U16, U32;
    ghost var head := [VERSION, 0xFE] + U16(payloadType) + U32(|payload|);
    WriteHeader(out, payloadType, |payload|);
    forall i | 0 <= i < |payload| { out[HEADER_LEN + i] := payload[i]; }
    written := HEADER_LEN + |payload|;
    assert out[..8] == head;
    assert out[8..written] == payload;
    assert out[..written] == out[..8] + out[8..written];
    return Done, written;
  }

  /** The eight header bytes. */
  method WriteHeader(out: array<byte>, payloadType: nat, length: nat)
    requires payloadType < 0x1_0000 && length < U32_LIMIT && out.Length >= HEADER_LEN
    modifies out
    ensures out[..8] == [VERSION, 0xFE] + U16(payloadType) + U32(length) && out[8..] == old(out[8..])
  {
    hide U16, U32;
    out[0] := VERSION;
    out[1] := 0xFE;
    ghost var rest := out[8..];
    WriteU16(out, 2, payloadType);
    assert out[..4] == [VERSION, 0xFE] + U16(payloadType) && out[8..] == rest;
    WriteU32(out, 4, length);
    assert out[..8] == out[..4] + out[4..8];
  }

  /** jpv2g_v2gtp_t; no payload is the null pointer. */
  datatype Message = Message(version: byte, inverse: byte, payloadType: nat, payloadLength: nat,
                             payload: Option<seq<byte>>)

  const BLANK := Message(0, 0, 0, 0, None)

  /** jpv2g_v2gtp_validate. */
  function Validate(m: Message): Rc {
    if m.version != VERSION then EPROTONOSUPPORT
    else if m.inverse != 255 - m.version then EBADMSG
    else if !Supported(m.payloadType) then ENOTSUP
    else if m.payloadLength > MAX_PAYLOAD then E2BIG
    else if m.payloadLength == 0 && m.payload.Some? then EINVAL
    else Done
  }

  /** What a byte string starts with: the code for rejecting it, or Done. */
  function ParseRc(b: seq<byte>): Rc {
    if |b| < HEADER_LEN then EMSGSIZE
    else if ReadU32(b, 4) > MAX_PAYLOAD then E2BIG
    else if HEADER_LEN + ReadU32(b, 4) > |b| then EMSGSIZE
    else if b[0] != VERSION then EPROTONOSUPPORT
    else if b[1] != 0xFE then EBADMSG
    else if !Supported(ReadU16(b, 2)) then ENOTSUP
    else Done
  }

  /** The verdict on the bytes of a header, in the order of the checks. */
  lemma VerdictOnBytes(b: seq<byte>)
    requires |b| >= 8
    ensures var n := 0x100_0000 * b[4] as nat + 0x1_0000 * b[5] as nat + 0x100 * b[6] as nat + b[7] as nat;
            var rc := ParseRc(b);
            && (n > 4096 <==> rc == E2BIG)
            && (n <= 4096 && |b| < 8 + n <==> rc == EMSGSIZE)
            && (n <= 4096 && |b| >= 8 + n ==>
                  (b[0] != 0x01 <==> rc == EPROTONOSUPPORT) && (b[0] == 0x01 && b[1] != 0xFE <==> rc == EBADMSG))
            && (rc == ENOTSUP ==> 0x100 * b[2] as nat + b[3] as nat !in {0x8001, 0x9000, 0x9001})
  {
  }

  function FrameOf(b: seq<byte>): Frame
    requires ParseRc(b) == Done
  {
    Frame(ReadU16(b, 2), b[HEADER_LEN..HEADER_LEN + ReadU32(b, 4)])
  }

  function Payload(m: Message): seq<byte> { if m.payload.Some? then m.payload.value else [] }

  /** jpv2g_v2gtp_parse: fills the message field by field, then validates it. */
  method Parse(b: seq<byte>) returns (rc: Rc, m: Message)
    ensures rc == ParseRc(b)
    ensures rc == Done ==> Frame(m.payloadType, Payload(m)) == FrameOf(b)
    ensures rc == Done ==> m.version == VERSION && m.inverse == 0xFE && m.payloadLength == |Payload(m)|
    ensures rc == Done ==> (m.payload.None? <==> m.payloadLength == 0)
  {
    m := BLANK;
    if |b| < HEADER_LEN { return EMSGSIZE, m; }
    m := m.(version := b[0], inverse := b[1]);
    m := m.(payloadType := ReadU16(b, 2), payloadLength := ReadU32(b, 4));
    if m.payloadLength > MAX_PAYLOAD { return E2BIG, m; }
    if HEADER_LEN + m.payloadLength > |b| { return EMSGSIZE, m; }
    m := m.(payload := if m.payloadLength > 0 then Some(b[HEADER_LEN..HEADER_LEN + m.payloadLength]) else None);
    rc := Validate(m);
  }

  /** Parsing succeeds exactly when a buildable frame is a prefix of the buffer, and yields that frame. */
  lemma ParsesExactlyBuiltFrames(b: seq<byte>, f: Frame)
    ensures ParseRc(b) == Done && FrameOf(b) == f <==> Sendable(f) && Wire(f) <= b
  {
    if Sendable(f) && HEADER_LEN + |f.payload| <= |b| {
      var n := HEADER_LEN + |f.payload|;
      U16RoundTrip(b, 2, f.payloadType);
      U32RoundTrip(b, 4, |f.payload|);
      hide ReadU16, ReadU32, U16, U32;
      SplitHeader(b[..n]);
      SplitHeader(Wire(f));
      assert b[..n][2..4] == b[2..4] && b[..n][4..8] == b[4..8] && b[..n][8..] == b[8..n];
      assert Wire(f)[2..4] == U16(f.payloadType) && Wire(f)[4..8] == U32(|f.payload|) && Wire(f)[8..] == f.payload;
      assert Wire(f)[0] == VERSION && Wire(f)[1] == 0xFE;
    }
  }

  lemma SplitHeader(b: seq<byte>)
    requires |b| >= 8
    ensures b == [b[0], b[1]] + b[2..4] + b[4..8] + b[8..]
  {
  }

  // ---- receiving ----

  /** Error returns of a transport call. */
  type Fault = rc: Rc | rc != Done && !rc.Positive? witness EIO

  /** One call of the receive function: peer closed, up to n of the bytes on their way, or an error. When nothing
      is on its way a chunk delivers nothing and the call is tried again. */
  datatype Delivery = Closed | Chunk(n: nat) | RecvFault(fault: Fault)

  /** A trip round the loop: the time that has passed, and what the call will do. */
  datatype RecvTurn = RecvTurn(elapsed: nat, what: Delivery)

  /** The peer's bytes not yet taken, what the transport will do, and the monotonic clock. */
  datatype Receiver = Receiver(incoming: seq<byte>, script: seq<RecvTurn>, now: int)

  /** No rc means that the script is over before the loop is: the call has not returned. */
  datatype Reading = Reading(rc: Option<Rc>, got: seq<byte>, left: Receiver)

  function Min(a: nat, b: nat): nat { if a <= b then a else b }

  function After(r: Receiver): Receiver
    requires r.script != []
  {
    r.(script := r.script[1..], now := r.now + r.script[0].elapsed)
  }

  function Recv(r: Receiver, want: nat, timeout: int, deadline: int): Reading
    decreases |r.script|
  {
    if want == 0 then Reading(Some(Done), [], r)
    else if r.script == [] then Reading(None, [], r)
    else
      var s := After(r);
      if timeout > 0 && deadline - s.now <= 0 then Reading(Some(ETIMEDOUT), [], s)
      else match r.script[0].what
        case Closed => Reading(Some(ECONNRESET), [], s)
        case RecvFault(e) => if e == EAGAIN then Recv(s, want, timeout, deadline) else Reading(Some(e), [], s)
        case Chunk(n) =>
          var k := Min(n, Min(want, |s.incoming|));
          var rest := Recv(s.(incoming := s.incoming[k..]), want - k, timeout, deadline);
          rest.(got := s.incoming[..k] + rest.got)
  }

  /** One trip round the loop. */
  lemma RecvOnce(r: Receiver, want: nat, timeout: int, deadline: int)
    requires want > 0 && r.script != []
    ensures var s, x := After(r), Recv(r, want, timeout, deadline);
            if timeout > 0 && deadline - s.now <= 0 then x == Reading(Some(ETIMEDOUT), [], s)
            else match r.script[0].what
              case Closed => x == Reading(Some(ECONNRESET), [], s)
              case RecvFault(e) =>
                x == if e == EAGAIN then Recv(s, want, timeout, deadline) else Reading(Some(e), [], s)
              case Chunk(n) =>
                var k := Min(n, Min(want, |s.incoming|));
                var rest := Recv(s.(incoming := s.incoming[k..]), want - k, timeout, deadline);
                x == rest.(got := s.incoming[..k] + rest.got)
  {
  }

  lemma RecvNone(r: Receiver, want: nat, timeout: int, deadline: int)
    requires want == 0 || r.script == []
    ensures Recv(r, want, timeout, deadline) == Reading(if want == 0 then Some(Done) else None, [], r)
  {
  }

  /** How one turn of the transport ends a receive, and that nothing else does. */
  lemma RecvTurnEnds(r: Receiver, want: nat, timeout: int, deadline: int)
    requires want > 0 && |r.script| == 1
    ensures var t := r.script[0];
            Recv(r, want, timeout, deadline).rc ==
              if timeout > 0 && r.now + t.elapsed >= deadline then Some(ETIMEDOUT)
              else match t.what
                case Closed => Some(ECONNRESET)
                case RecvFault(e) => if e == EAGAIN then None else Some(e)
                case Chunk(n) => if n >= want && |r.incoming| >= want then Some(Done) else None
  {
    hide Recv;
    RecvOnce(r, want, timeout, deadline);
    var s := After(r);
    RecvNone(s, want, timeout, deadline);
    match r.script[0].what
    case Chunk(n) =>
      var k := Min(n, Min(want, |s.incoming|));
      RecvNone(s.(incoming := s.incoming[k..]), want - k, timeout, deadline);
    case _ =>
  }

  lemma MoreFirst(a: seq<byte>, b: seq<byte>, x: Reading)
    ensures x.(got := a + (b + x.got)) == x.(got := a + b + x.got)
  {
    assert a + (b + x.got) == a + b + x.got;
  }

  lemma NothingFirst(x: Reading)
    ensures x.(got := [] + x.got) == x
  {
    assert [] + x.got == x.got;
  }

  /** What was taken is the front of what came in, done or not. */
  predicate FrontTaken(all: seq<byte>, want: nat, got: seq<byte>, rest: seq<byte>, done: bool) {
    |got| <= want && all == got + rest && (done <==> |got| == want)
  }

  lemma FrontTakenSplit(all: seq<byte>, want: nat, k: nat, got: seq<byte>, rest: seq<byte>, done: bool)
    requires k <= want && k <= |all| && FrontTaken(all[k..], want - k, got, rest, done)
    ensures FrontTaken(all, want, all[..k] + got, rest, done)
  {
    assert all == all[..k] + all[k..];
  }

  lemma FrontTakenSoFar(all: seq<byte>, want: nat)
    ensures FrontTaken(all, want, [], all, want == 0)
  {
    assert all == [] + all;
  }

  /** However the bytes are cut up, what is taken is the front of what came in, and success means all of it. */
  lemma {:induction false} RecvTakesTheFront(r: Receiver, want: nat, timeout: int, deadline: int)
    ensures var x := Recv(r, want, timeout, deadline);
            && |x.left.script| <= |r.script| && x.left.script == r.script[|r.script| - |x.left.script|..]
            && FrontTaken(r.incoming, want, x.got, x.left.incoming, x.rc == Some(Done))
    decreases |r.script|
  {
    hide Recv, FrontTaken;
    FrontTakenSoFar(r.incoming, want);
    if want > 0 && r.script != [] {
      RecvOnce(r, want, timeout, deadline);
      var s, x := After(r), Recv(r, want, timeout, deadline);
      match r.script[0].what
      case Closed =>
      case RecvFault(e) => RecvTakesTheFront(s, want, timeout, deadline);
      case Chunk(n) =>
        var k := Min(n, Min(want, |s.incoming|));
        var t := s.(incoming := s.incoming[k..]);
        RecvTakesTheFront(t, want - k, timeout, deadline);
        var y := Recv(t, want - k, timeout, deadline);
        FrontTakenSplit(r.incoming, want, k, y.got, y.left.incoming, y.rc == Some(Done));
    } else {
      RecvNone(r, want, timeout, deadline);
    }
  }

  datatype Receipt = Receipt(rc: Option<Rc>, frame: Option<Frame>, left: Receiver)

  /** The header, the length it announces, and a parse of the whole. */
  function RecvFrame(r: Receiver, capacity: nat, timeout: int): Receipt {
    if capacity < HEADER_LEN then Receipt(Some(ENOSPC), None, r)
    else
      var head := Recv(r, HEADER_LEN, timeout, r.now + timeout);
      if head.rc != Some(Done) then Receipt(head.rc, None, head.left)
      else
        RecvTakesTheFront(r, HEADER_LEN, timeout, r.now + timeout);
        RecvBody(head.left, head.got, capacity, timeout)
  }

  function RecvBody(r: Receiver, head: seq<byte>, capacity: nat, timeout: int): Receipt
    requires |head| == HEADER_LEN <= capacity
  {
    var length := ReadU32(head, 4);
    if length > MAX_PAYLOAD then Receipt(Some(E2BIG), None, r)
    else if length > (capacity - HEADER_LEN) % U32_LIMIT then Receipt(Some(ENOSPC), None, r)
    else
      var body := Recv(r, length, timeout, r.now + timeout);
      if body.rc != Some(Done) then Receipt(body.rc, None, body.left)
      else
        var rc := ParseRc(head + body.got);
        Receipt(Some(rc), if rc == Done then Some(FrameOf(head + body.got)) else None, body.left)
  }

  /** A buffer with some bytes stored into it. */
  function Overlay(b: seq<byte>, at: nat, bytes: seq<byte>): seq<byte>
    requires at + |bytes| <= |b|
  {
    b[..at] + bytes + b[at + |bytes|..]
  }

  lemma OverlayNothing(b: seq<byte>, at: nat)
    requires at <= |b|
    ensures Overlay(b, at, []) == b
  {
  }

  lemma OverlayMore(b: seq<byte>, at: nat, x: seq<byte>, y: seq<byte>)
    requires at + |x| + |y| <= |b|
    ensures |Overlay(b, at, x)| == |b|
    ensures Overlay(Overlay(b, at, x), at + |x|, y) == Overlay(b, at, x + y)
  {
  }

  /** The receiving end of a connection. */
  class Inlet {
    var incoming: seq<byte>
    var script: seq<RecvTurn>
    var now: int

    ghost function State(): Receiver
      reads this
    {
      Receiver(incoming, script, now)
    }

    /** secc_recv_bytes into buf[from..from + len]. */
    method RecvBytes(buf: array<byte>, from: nat, len: nat, timeout: int) returns (rc: Option<Rc>)
      requires from + len <= buf.Length
      modifies this, buf
      ensures var x := Recv(old(State()), len, timeout, old(now) + timeout);
              && rc == x.rc && State() == x.left && |x.got| <= len
              && buf[..] == Overlay(old(buf[..]), from, x.got)
    {
      hide Recv, Overlay;
      ghost var start, deadline, before, got := State(), now + timeout, buf[..], [];
      var expiry := if timeout > 0 then now + timeout else 0;
      var off := 0;
      RecvTakesTheFront(start, len, timeout, deadline);
      OverlayNothing(before, from);
      NothingFirst(Recv(start, len, timeout, deadline));
      while off < len
        invariant 0 <= off <= len && |got| == off
        invariant buf[..] == Overlay(before, from, got)
        invariant var x := Recv(State(), len - off, timeout, deadline);
                  Recv(start, len, timeout, deadline) == x.(got := got + x.got)
        decreases |script|
      {
        ghost var here := State();
        assert got + [] == got;
        if script == [] {
          RecvNone(here, len - off, timeout, deadline);
          return None;
        }
        RecvOnce(here, len - off, timeout, deadline);
        var turn := script[0];
        script := script[1..];
        now := now + turn.elapsed;
        if timeout > 0 {
          var remaining := expiry - now;
          if remaining <= 0 { return Some(ETIMEDOUT); }
        }
        match turn.what
        case Closed => return Some(ECONNRESET);
        case RecvFault(e) =>
          if e != EAGAIN { return Some(e); }
        case Chunk(n) =>
          var k := Min(n, Min(len - off, |incoming|));
          OverlayMore(before, from, got, incoming[..k]);
          MoreFirst(got, incoming[..k], Recv(here.(script := script, now := now, incoming := incoming[k..]),
                                             len - off - k, timeout, deadline));
          Store(buf, from + off, incoming[..k]);
          got := got + incoming[..k];
          incoming := incoming[k..];
          off := off + k;
      }
      RecvNone(State(), 0, timeout, deadline);
      assert got + [] == got;
      rc := Some(Done);
    }

    /** secc_recv_v2gtp. */
    method RecvV2gtp(buf: array<byte>, timeout: int) returns (rc: Option<Rc>, m: Message)
      modifies this, buf
      ensures var x := RecvFrame(old(State()), buf.Length, timeout);
              && rc == x.rc && State() == x.left
              && (rc == Some(Done) ==> x.frame == Some(Frame(m.payloadType, Payload(m))))
    {
      hide Recv, RecvBody, Overlay, ReadU32, FrontTaken;
      m := BLANK;
      if buf.Length < HEADER_LEN { return Some(ENOSPC), m; }
      ghost var start, blank := State(), buf[..];
      rc := RecvBytes(buf, 0, HEADER_LEN, timeout);
      Complete(start, HEADER_LEN, timeout, start.now + timeout);
      if rc != Some(Done) { return rc, m; }
      ghost var head := Recv(start, HEADER_LEN, timeout, start.now + timeout).got;
      HeadInBuffer(blank, head);
      rc, m := RecvPayload(buf, head, timeout);
    }

    /** The rest of secc_recv_v2gtp, with the header in place. */
    method RecvPayload(buf: array<byte>, ghost head: seq<byte>, timeout: int) returns (rc: Option<Rc>, m: Message)
      requires |head| == HEADER_LEN <= buf.Length && buf[..HEADER_LEN] == head
      requires ReadU32(buf[..], 4) == ReadU32(head, 4)
      modifies this, buf
      ensures var x := RecvBody(old(State()), head, buf.Length, timeout);
              && rc == x.rc && State() == x.left
              && (rc == Some(Done) ==> x.frame == Some(Frame(m.payloadType, Payload(m))))
    {
      hide Recv, Overlay, ReadU32, FrontTaken, ParseRc, FrameOf;
      m := BLANK;
      var length := ReadU32(buf[..], 4);
      if length > MAX_PAYLOAD { return Some(E2BIG), m; }
      if length > (buf.Length - HEADER_LEN) % U32_LIMIT { return Some(ENOSPC), m; }
      var total := HEADER_LEN + length;
      if total > buf.Length { return Some(ENOSPC), m; }
      ghost var start, with := State(), buf[..];
      rc := RecvBytes(buf, HEADER_LEN, length, timeout);
      Complete(start, length, timeout, start.now + timeout);
      if rc != Some(Done) { return rc, m; }
      ghost var body := Recv(start, length, timeout, start.now + timeout).got;
      WholeInBuffer(with, head, body);
      assert buf[..total] == head + body;
      var code;
      code, m := Parse(buf[..total]);
      rc := Some(code);
    }
  }

  lemma Complete(r: Receiver, want: nat, timeout: int, deadline: int)
    ensures var x := Recv(r, want, timeout, deadline);
            |x.got| <= want && (x.rc == Some(Done) ==> |x.got| == want)
  {
    hide Recv;
    RecvTakesTheFront(r, want, timeout, deadline);
  }

  lemma HeadInBuffer(b: seq<byte>, head: seq<byte>)
    requires |head| == HEADER_LEN <= |b|
    ensures |Overlay(b, 0, head)| == |b| && Overlay(b, 0, head)[..HEADER_LEN] == head
    ensures ReadU32(Overlay(b, 0, head), 4) == ReadU32(head, 4)
  {
    assert b[..0] == [];
  }

  lemma WholeInBuffer(b: seq<byte>, head: seq<byte>, body: seq<byte>)
    requires |head| == HEADER_LEN && HEADER_LEN + |body| <= |b| && b[..HEADER_LEN] == head
    ensures |Overlay(b, HEADER_LEN, body)| == |b|
    ensures Overlay(b, HEADER_LEN, body)[..HEADER_LEN + |body|] == head + body
  {
  }

  /** The bytes a transport call puts into the caller's buffer. */
  method Store(buf: array<byte>, at: nat, bytes: seq<byte>)
    requires at + |bytes| <= buf.Length
    modifies buf
    ensures buf[..] == Overlay(old(buf[..]), at, bytes)
  {
    forall i | 0 <= i < |bytes| { buf[at + i] := bytes[i]; }
  }

  // ---- sending ----

  /** One call of the send function: it takes up to n of the bytes offered and says so, it reports more than it was
      offered (having taken some or all), or it fails. */
  datatype Acceptance = Took(n: nat) | Overclaims(excess: nat, taken: nat) | SendFault(fault: Fault)
  {
    function Reported(offered: nat): nat
      requires !SendFault?
    {
      if Took? then Min(n, offered) else offered + 1 + excess
    }

    function Accepted(offered: nat): nat
      requires !SendFault?
    {
      Min(if Took? then n else taken, offered)
    }
  }

  datatype SendTurn = SendTurn(elapsed: nat, what: Acceptance)

  /** What is on the wire, what the transport will do, and the monotonic clock (which a sleep advances). */
  datatype Sender = Sender(wire: seq<byte>, script: seq<SendTurn>, now: int)

  datatype Sending = Sending(rc: Option<Rc>, left: Sender)

  function Send(s: Sender, data: seq<byte>, timeout: int, deadline: int): Sending
    decreases |s.script|
  {
    if data == [] then Sending(Some(Done), s)
    else if s.script == [] then Sending(None, s)
    else
      var t := s.(script := s.script[1..], now := s.now + s.script[0].elapsed);
      if timeout > 0 && t.now >= deadline then Sending(Some(ETIMEDOUT), t)
      else match s.script[0].what
        case SendFault(e) =>
          if e == EINTR || e == EAGAIN then Send(t, data, timeout, deadline) else Sending(Some(e), t)
        case Took(n) =>
          if n == 0 then Sending(Some(EPIPE), t)
          else
            var k := Min(n, |data|);
            Send(t.(wire := t.wire + data[..k]), data[k..], timeout, deadline)
        case Overclaims(_, n) => Sending(Some(EIO), t.(wire := t.wire + data[..Min(n, |data|)]))
  }

  /** With `size` bytes to send at time `now`, the first turn that is neither a retry nor a partial success comes in
      time and reports more than what is left, having taken all of that. */
  predicate Swallows(script: seq<SendTurn>, size: nat, now: int, timeout: int, deadline: int)
    decreases |script|
  {
    size > 0 && script != [] &&
    var t := now + script[0].elapsed;
    !(timeout > 0 && t >= deadline) &&
    match script[0].what
    case SendFault(e) => e in {EINTR, EAGAIN} && Swallows(script[1..], size, t, timeout, deadline)
    case Took(n) => n > 0 && Swallows(script[1..], size - Min(n, size), t, timeout, deadline)
    case Overclaims(_, taken) => size <= taken
  }

  /** What is left of the script, and the time, once `size` bytes have been sent without a failure. */
  function Cleared(script: seq<SendTurn>, size: nat, now: int, timeout: int, deadline: int)
    : Option<(seq<SendTurn>, int)>
    decreases |script|
  {
    if size == 0 then Some((script, now))
    else if script == [] then None
    else
      var t := now + script[0].elapsed;
      if timeout > 0 && t >= deadline then None
      else match script[0].what
        case SendFault(e) => if e in {EINTR, EAGAIN} then Cleared(script[1..], size, t, timeout, deadline) else None
        case Took(n) => if n == 0 then None else Cleared(script[1..], size - Min(n, size), t, timeout, deadline)
        case Overclaims(_, _) => None
  }

  /** The wire carries a prefix of the data, and all of it exactly if so said. */
  predicate OnWire(before: seq<byte>, data: seq<byte>, after: seq<byte>, all: bool) {
    before <= after <= before + data && (after == before + data <==> all)
  }

  lemma OnWireSplit(before: seq<byte>, data: seq<byte>, k: nat, after: seq<byte>, all: bool)
    requires k <= |data| && OnWire(before + data[..k], data[k..], after, all)
    ensures OnWire(before, data, after, all)
  {
    assert before + data[..k] + data[k..] == before + data;
  }

  lemma OnWireSoFar(before: seq<byte>, data: seq<byte>, k: nat)
    requires k <= |data|
    ensures OnWire(before, data, before + data[..k], k == |data|)
  {
    assert |before + data[..k]| == |before| + k;
    if k == |data| { assert data[..k] == data; }
  }

  /** The one trip of a script read by Swallows and Cleared. */
  lemma ScriptOnce(script: seq<SendTurn>, size: nat, now: int, timeout: int, deadline: int)
    requires size > 0 && script != []
    ensures var w := Swallows(script, size, now, timeout, deadline);
            var c := Cleared(script, size, now, timeout, deadline);
            var (t, rest) := (now + script[0].elapsed, script[1..]);
            if timeout > 0 && t >= deadline then !w && c.None?
            else match script[0].what
              case SendFault(e) =>
                if e in {EINTR, EAGAIN}
                then w == Swallows(rest, size, t, timeout, deadline) && c == Cleared(rest, size, t, timeout, deadline)
                else !w && c.None?
              case Took(n) =>
                var left := size - Min(n, size);
                if n > 0
                then w == Swallows(rest, left, t, timeout, deadline) && c == Cleared(rest, left, t, timeout, deadline)
                else !w && c.None?
              case Overclaims(_, taken) => c.None? && w == (size <= taken)
  {
  }

  lemma ScriptNone(script: seq<SendTurn>, size: nat, now: int, timeout: int, deadline: int)
    requires size == 0 || script == []
    ensures !Swallows(script, size, now, timeout, deadline)
    ensures Cleared(script, size, now, timeout, deadline) == if size == 0 then Some((script, now)) else None
  {
  }

  /** How a call ended, told from the script it was given. */
  predicate EndsAsScripted(s: Sender, data: seq<byte>, timeout: int, deadline: int, x: Sending) {
    var c := Cleared(s.script, |data|, s.now, timeout, deadline);
    && (x.rc == Some(Done) <==> c.Some?)
    && (c.Some? ==> c.value == (x.left.script, x.left.now))
    && OnWire(s.wire, data, x.left.wire, c.Some? || Swallows(s.script, |data|, s.now, timeout, deadline))
  }

  /** Whatever happens, the wire carries a prefix of the data. Success, what it leaves of the script, and the failures
      that leave all of the data on the wire are exactly those the script announces. */
  lemma {:induction false} SendIsScripted(s: Sender, data: seq<byte>, timeout: int, deadline: int)
    ensures EndsAsScripted(s, data, timeout, deadline, Send(s, data, timeout, deadline))
    decreases |s.script|
  {
    hide Send, OnWire, Swallows, Cleared;
    assert s.wire + data[..0] == s.wire;
    OnWireSoFar(s.wire, data, 0);
    if data == [] || s.script == [] {
      SendNone(s, data, timeout, deadline);
      ScriptNone(s.script, |data|, s.now, timeout, deadline);
    } else {
      SendOnce(s, data, timeout, deadline);
      ScriptOnce(s.script, |data|, s.now, timeout, deadline);
      var t := s.(script := s.script[1..], now := s.now + s.script[0].elapsed);
      match s.script[0].what
      case SendFault(_) => SendIsScripted(t, data, timeout, deadline);
      case Took(n) =>
        var k := Min(n, |data|);
        var u := t.(wire := t.wire + data[..k]);
        SendIsScripted(u, data[k..], timeout, deadline);
        if n > 0 && !(timeout > 0 && t.now >= deadline) {
          var c := Cleared(u.script, |data| - k, u.now, timeout, deadline);
          OnWireSplit(s.wire, data, k, Send(u, data[k..], timeout, deadline).left.wire,
                      c.Some? || Swallows(u.script, |data| - k, u.now, timeout, deadline));
        }
      case Overclaims(_, n) => OnWireSoFar(s.wire, data, Min(n, |data|));
    }
  }

  /** A script does one or the other. */
  lemma {:induction false} ClearedIsNotSwallowed(script: seq<SendTurn>, size: nat, now: int, timeout: int,
                                                 deadline: int)
    ensures Cleared(script, size, now, timeout, deadline).Some? ==> !Swallows(script, size, now, timeout, deadline)
    ensures var c := Cleared(script, size, now, timeout, deadline);
            c.Some? ==> |c.value.0| <= |script| && c.value.0 == script[|script| - |c.value.0|..]
    decreases |script|
  {
    hide Swallows, Cleared;
    if size == 0 || script == [] {
      ScriptNone(script, size, now, timeout, deadline);
    } else {
      ScriptOnce(script, size, now, timeout, deadline);
      var t := now + script[0].elapsed;
      match script[0].what
      case SendFault(_) => ClearedIsNotSwallowed(script[1..], size, t, timeout, deadline);
      case Took(n) => ClearedIsNotSwallowed(script[1..], size - Min(n, size), t, timeout, deadline);
      case Overclaims(_, _) =>
    }
  }

  /** A send that does not succeed leaves a strict prefix of the data on the wire, except exactly for the scripts in
      which the transport swallows the rest and overstates that. */
  lemma SendPutsAPrefix(s: Sender, data: seq<byte>, timeout: int, deadline: int)
    ensures var x := Send(s, data, timeout, deadline);
            && s.wire <= x.left.wire <= s.wire + data
            && (x.rc == Some(Done) ==> x.left.wire == s.wire + data)
            && (x.rc != Some(Done) && x.left.wire == s.wire + data <==>
                  Swallows(s.script, |data|, s.now, timeout, deadline))
  {
    hide Send, Swallows, Cleared;
    SendIsScripted(s, data, timeout, deadline);
    ClearedIsNotSwallowed(s.script, |data|, s.now, timeout, deadline);
  }

  /** How one turn of the transport ends a send, and that nothing else does. */
  lemma SendTurnEnds(s: Sender, data: seq<byte>, timeout: int, deadline: int)
    requires data != [] && |s.script| == 1
    ensures var t := s.script[0];
            Send(s, data, timeout, deadline).rc ==
              if timeout > 0 && s.now + t.elapsed >= deadline then Some(ETIMEDOUT)
              else match t.what
                case SendFault(e) => if e == EINTR || e == EAGAIN then None else Some(e)
                case Took(n) => if n == 0 then Some(EPIPE) else if n >= |data| then Some(Done) else None
                case Overclaims(_, _) => Some(EIO)
  {
  }

  /** The shortest such send: one byte offered, one taken, two reported. */
  lemma OneByteSwallowed(b: byte, now: int, deadline: int)
    ensures var s := Sender([], [SendTurn(0, Overclaims(0, 1))], now);
            var x := Send(s, [b], 0, deadline);
            Swallows(s.script, 1, now, 0, deadline) && x.rc == Some(EIO) && x.left.wire == [b]
  {
    assert [b][..1] == [b];
  }

  /** One trip round the loop. */
  lemma SendOnce(s: Sender, data: seq<byte>, timeout: int, deadline: int)
    requires data != [] && s.script != []
    ensures var t := s.(script := s.script[1..], now := s.now + s.script[0].elapsed);
            var x := Send(s, data, timeout, deadline);
            if timeout > 0 && t.now >= deadline then x == Sending(Some(ETIMEDOUT), t)
            else match s.script[0].what
              case SendFault(e) =>
                x == if e == EINTR || e == EAGAIN then Send(t, data, timeout, deadline) else Sending(Some(e), t)
              case Took(n) =>
                var k := Min(n, |data|);
                x == if n == 0 then Sending(Some(EPIPE), t)
                     else Send(t.(wire := t.wire + data[..k]), data[k..], timeout, deadline)
              case Overclaims(_, n) => x == Sending(Some(EIO), t.(wire := t.wire + data[..Min(n, |data|)]))
  {
  }

  lemma SendNone(s: Sender, data: seq<byte>, timeout: int, deadline: int)
    requires data == [] || s.script == []
    ensures Send(s, data, timeout, deadline) == Sending(if data == [] then Some(Done) else None, s)
  {
  }

  lemma DropTwice(d: seq<byte>, a: nat, b: nat)
    requires a + b <= |d|
    ensures d[a..][b..] == d[a + b..]
  {
    assert forall i :: 0 <= i < |d| - a - b ==> d[a..][b..][i] == d[a + b + i];
  }

  /** The sending end of a connection. */
  class Outlet {
    var wire: seq<byte>
    var script: seq<SendTurn>
    var now: int

    ghost function State(): Sender
      reads this
    {
      Sender(wire, script, now)
    }

    /** A call of the transport's send function that does not fail. */
    method Transmit(bytes: seq<byte>, what: Acceptance) returns (sent: nat)
      requires !what.SendFault?
      modifies this`wire
      ensures wire == old(wire) + bytes[..what.Accepted(|bytes|)] && sent == what.Reported(|bytes|)
    {
      wire := wire + bytes[..what.Accepted(|bytes|)];
      sent := what.Reported(|bytes|);
    }

    /** secc_send_bytes of the first len bytes of a buffer. */
    method SendBytes(buf: array<byte>, len: nat, timeout: int) returns (rc: Option<Rc>)
      requires len <= buf.Length
      modifies this
      ensures var x := Send(old(State()), buf[..len], timeout, old(now) + timeout);
              rc == x.rc && State() == x.left
    {
      ghost var start, deadline := State(), now + timeout;
      var expiry := if timeout > 0 then now + timeout else 0;
      var off := 0;
      ghost var data := buf[..len];
      assert data[0..] == data;
      hide Send;
      while off < len
        invariant 0 <= off <= len
        invariant Send(start, data, timeout, deadline) == Send(State(), data[off..], timeout, deadline)
        decreases |script|
      {
        ghost var here := State();
        if script == [] {
          SendNone(here, data[off..], timeout, deadline);
          return None;
        }
        SendOnce(here, data[off..], timeout, deadline);
        var turn := script[0];
        script := script[1..];
        now := now + turn.elapsed;
        if timeout > 0 && now >= expiry { return Some(ETIMEDOUT); }
        if turn.what.SendFault? {
          if turn.what.fault == EINTR || turn.what.fault == EAGAIN { continue; }
          return Some(turn.what.fault);
        }
        assert buf[off..len] == data[off..];
        var sent := Transmit(buf[off..len], turn.what);
        if sent == 0 {
          assert wire == here.wire;
          return Some(EPIPE);
        }
        if sent > len - off { return Some(EIO); }
        DropTwice(data, off, sent);
        off := off + sent;
      }
      SendNone(State(), [], timeout, deadline);
      rc := Some(Done);
    }
  }

  // ---- a stream of frames ----

  predicate AllSendable(frames: seq<Frame>) { forall i :: 0 <= i < |frames| ==> Sendable(frames[i]) }

  function WireAll(frames: seq<Frame>): seq<byte>
    requires AllSendable(frames)
  {
    if frames == [] then [] else Wire(frames[0]) + WireAll(frames[1..])
  }

  /** Frames sent one after the other until a send does not succeed: how many did, and the sender left behind. */
  function SendAll(s: Sender, frames: seq<Frame>, timeout: int): (r: (nat, Sending))
    requires AllSendable(frames)
    ensures r.0 <= |frames| && (r.0 == |frames| <==> r.1.rc == Some(Done))
    decreases |frames|
  {
    if frames == [] then (0, Sending(Some(Done), s))
    else
      var x := Send(s, Wire(frames[0]), timeout, s.now + timeout);
      if x.rc != Some(Done) then (0, x)
      else
        var rest := SendAll(x.left, frames[1..], timeout);
        (1 + rest.0, rest.1)
  }

  /** Up to n frames received one after the other until a receive does not succeed. */
  function RecvAll(r: Receiver, n: nat, capacity: nat, timeout: int): (seq<Frame>, Receiver)
    decreases n
  {
    if n == 0 then ([], r)
    else
      var x := RecvFrame(r, capacity, timeout);
      if x.frame.None? then ([], x.left)
      else
        var rest := RecvAll(x.left, n - 1, capacity, timeout);
        ([x.frame.value] + rest.0, rest.1)
  }

  /** A buffer that holds any legal frame. */
  predicate Roomy(capacity: nat) { HEADER_LEN + MAX_PAYLOAD <= capacity < U32_LIMIT }

  /** A frame received is a frame that was at the front of the incoming bytes, and exactly its bytes are gone. */
  lemma ReceivedWasSent(r: Receiver, capacity: nat, timeout: int)
    ensures var x := RecvFrame(r, capacity, timeout);
            && (x.frame.Some? <==> x.rc == Some(Done))
            && (x.frame.Some? ==>
                  && Sendable(x.frame.value)
                  && r.incoming == Wire(x.frame.value) + x.left.incoming)
  {
    hide Recv, ParseRc, FrameOf, Wire, ReadU32;
    var x := RecvFrame(r, capacity, timeout);
    if x.frame.Some? {
      var head := Recv(r, HEADER_LEN, timeout, r.now + timeout);
      RecvTakesTheFront(r, HEADER_LEN, timeout, r.now + timeout);
      var length := ReadU32(head.got, 4);
      var body := Recv(head.left, length, timeout, head.left.now + timeout);
      RecvTakesTheFront(head.left, length, timeout, head.left.now + timeout);
      var whole := head.got + body.got;
      assert r.incoming == whole + body.left.incoming;
      ParsesExactlyBuiltFrames(whole, x.frame.value);
      FrameFillsItsBytes(head.got, body.got);
    }
  }

  lemma FrameFillsItsBytes(head: seq<byte>, body: seq<byte>)
    requires |head| == HEADER_LEN && |body| == ReadU32(head, 4) && ParseRc(head + body) == Done
    ensures |FrameOf(head + body).payload| == |body|
  {
  }

  /** No frame is the beginning of another stream of frames than its own. */
  lemma WirePrefixIsFrame(f: Frame, g: Frame, a: seq<byte>, b: seq<byte>)
    requires Sendable(f) && Sendable(g) && Wire(f) + a <= Wire(g) + b
    ensures f == g && a <= b
  {
    hide Wire, ParseRc, FrameOf;
    var all := Wire(g) + b;
    assert Wire(f) <= Wire(f) + a <= all && Wire(g) <= all;
    ParsesExactlyBuiltFrames(all, f);
    ParsesExactlyBuiltFrames(all, g);
    assert a == (Wire(f) + a)[|Wire(f)|..] && b == all[|Wire(g)|..];
  }

  /** From a prefix of a stream of frames, cut anywhere, only frames of that stream are ever received, in order. */
  lemma {:induction false} ReceivedArePrefix(r: Receiver, frames: seq<Frame>, n: nat, capacity: nat, timeout: int)
    requires AllSendable(frames) && r.incoming <= WireAll(frames)
    ensures RecvAll(r, n, capacity, timeout).0 <= frames
    decreases n
  {
    hide RecvFrame, Wire;
    var x := RecvFrame(r, capacity, timeout);
    ReceivedWasSent(r, capacity, timeout);
    if n > 0 && x.frame.Some? {
      var f := x.frame.value;
      assert Wire(f) + x.left.incoming <= WireAll(frames);
      assert frames != [] by { WireIsLong(f); }
      WirePrefixIsFrame(f, frames[0], x.left.incoming, WireAll(frames[1..]));
      ReceivedArePrefix(x.left, frames[1..], n - 1, capacity, timeout);
    }
  }

  lemma WireIsLong(f: Frame)
    requires Sendable(f)
    ensures |Wire(f)| >= HEADER_LEN
  {
  }

  lemma {:induction false} WireAllNext(frames: seq<Frame>, k: nat)
    requires AllSendable(frames) && k < |frames|
    ensures AllSendable(frames[..k]) && AllSendable(frames[..k + 1])
    ensures WireAll(frames[..k + 1]) == WireAll(frames[..k]) + Wire(frames[k])
  {
    hide Wire;
    if k > 0 {
      WireAllNext(frames[1..], k - 1);
      assert frames[..k][1..] == frames[1..][..k - 1];
      assert frames[..k + 1][1..] == frames[1..][..k];
    } else {
      assert frames[..1][1..] == [];
    }
  }

  lemma NothingOnWire(before: seq<byte>)
    ensures before + WireAll([]) == before
  {
  }

  lemma FirstFrameOff(before: seq<byte>, frames: seq<Frame>, k: nat)
    requires AllSendable(frames) && 1 <= k <= |frames|
    ensures AllSendable(frames[..k]) && AllSendable(frames[1..]) && AllSendable(frames[1..][..k - 1])
    ensures before + Wire(frames[0]) + WireAll(frames[1..]) == before + WireAll(frames)
    ensures before + Wire(frames[0]) + WireAll(frames[1..][..k - 1]) == before + WireAll(frames[..k])
  {
    hide Wire, WireAll;
    var g := frames[..k];
    assert g[1..] == frames[1..][..k - 1];
    WireAllOf(frames);
    WireAllOf(g);
    Regroup(before, Wire(frames[0]), WireAll(frames[1..]));
    Regroup(before, Wire(frames[0]), WireAll(g[1..]));
  }

  lemma WireAllOf(frames: seq<Frame>)
    requires AllSendable(frames) && frames != []
    ensures AllSendable(frames[1..]) && WireAll(frames) == Wire(frames[0]) + WireAll(frames[1..])
  {
  }

  lemma Regroup(a: seq<byte>, b: seq<byte>, c: seq<byte>)
    ensures a + b + c == a + (b + c)
  {
  }

  lemma StopsWithin(before: seq<byte>, after: seq<byte>, frames: seq<Frame>)
    requires AllSendable(frames) && frames != [] && before <= after <= before + Wire(frames[0])
    ensures before + WireAll(frames[..0]) <= after <= before + WireAll(frames)
    ensures |after| <= |before + WireAll(frames[..0])| + |Wire(frames[0])|
    ensures |after| == |before + WireAll(frames[..0])| + |Wire(frames[0])| <==> after == before + Wire(frames[0])
  {
    hide Wire;
    assert frames[..0] == [] && before + [] == before;
    assert before + WireAll(frames) == before + Wire(frames[0]) + WireAll(frames[1..]);
  }

  /** One after the other the sends of the frames go through, until one of them is swallowed. */
  predicate StreamSwallows(script: seq<SendTurn>, now: int, frames: seq<Frame>, timeout: int)
    decreases |frames|
  {
    frames != [] &&
    var size := HEADER_LEN + |frames[0].payload|;
    (Swallows(script, size, now, timeout, now + timeout) ||
     (var c := Cleared(script, size, now, timeout, now + timeout);
      c.Some? && StreamSwallows(c.value.0, c.value.1, frames[1..], timeout)))
  }

  /** The wire after any run of sends: all of the frames that were sent, then a part of the next one that is the whole
      of it exactly for the scripts that swallow it. */
  lemma {:induction false} WireOfSends(s: Sender, frames: seq<Frame>, timeout: int)
    requires AllSendable(frames)
    ensures var (k, x) := SendAll(s, frames, timeout);
            var swallowed := StreamSwallows(s.script, s.now, frames, timeout);
            && AllSendable(frames[..k])
            && s.wire + WireAll(frames[..k]) <= x.left.wire <= s.wire + WireAll(frames)
            && (k == |frames| ==> x.left.wire == s.wire + WireAll(frames) && !swallowed)
            && (k < |frames| ==>
                  |x.left.wire| <= |s.wire + WireAll(frames[..k])| + |Wire(frames[k])|
                  && (|x.left.wire| == |s.wire + WireAll(frames[..k])| + |Wire(frames[k])| <==> swallowed))
    decreases |frames|
  {
    hide Send, Wire, WireAll, Swallows, Cleared;
    if frames == [] {
      NothingOnWire(s.wire);
    } else {
      var f := frames[0];
      var first := Send(s, Wire(f), timeout, s.now + timeout);
      SendIsScripted(s, Wire(f), timeout, s.now + timeout);
      ClearedIsNotSwallowed(s.script, |Wire(f)|, s.now, timeout, s.now + timeout);
      if first.rc == Some(Done) {
        WireOfSends(first.left, frames[1..], timeout);
        FirstFrameOff(s.wire, frames, SendAll(s, frames, timeout).0);
      } else {
        StopsWithin(s.wire, first.left.wire, frames);
      }
    }
  }

  /** Two ends of one connection, with any pattern of partial transfers, retries and failures on both: only frames
      whose send succeeded are received, in order and unchanged, and one more at most if the script swallows it. */
  lemma FramedStreamRoundTrip(s: Sender, r: Receiver, frames: seq<Frame>, n: nat, capacity: nat,
                              sendTimeout: int, recvTimeout: int)
    requires AllSendable(frames) && s.wire == []
    requires r.incoming == SendAll(s, frames, sendTimeout).1.left.wire
    ensures var (k, x) := SendAll(s, frames, sendTimeout);
            var got := RecvAll(r, n, capacity, recvTimeout).0;
            && got <= frames
            && |got| <= k + if StreamSwallows(s.script, s.now, frames, sendTimeout) then 1 else 0
  {
    hide SendAll, Wire, WireAll, RecvAll, StreamSwallows;
    WireOfSends(s, frames, sendTimeout);
    var (k, x) := SendAll(s, frames, sendTimeout);
    assert s.wire + WireAll(frames) == WireAll(frames) && s.wire + WireAll(frames[..k]) == WireAll(frames[..k]);
    ReceivedArePrefix(r, frames, n, capacity, recvTimeout);
    var got := RecvAll(r, n, capacity, recvTimeout).0;
    var most := k + if StreamSwallows(s.script, s.now, frames, sendTimeout) then 1 else 0;
    if |got| > most {
      ReceivedFits(r, frames, n, capacity, recvTimeout, most + 1);
      if most == k { PartOfNext(frames, k, x.left.wire); } else { WholeOfNext(frames, k, x.left.wire); }
    }
  }

  lemma WholeOfNext(frames: seq<Frame>, k: nat, wire: seq<byte>)
    requires AllSendable(frames) && k + 1 < |frames| && AllSendable(frames[..k]) && AllSendable(frames[..k + 2])
    requires |wire| <= |WireAll(frames[..k])| + |Wire(frames[k])|
    ensures !(WireAll(frames[..k + 2]) <= wire)
  {
    WireIsLong(frames[k + 1]);
    hide WireAll, Wire;
    WireAllNext(frames, k);
    WireAllNext(frames, k + 1);
  }

  lemma PartOfNext(frames: seq<Frame>, k: nat, wire: seq<byte>)
    requires AllSendable(frames) && k < |frames| && AllSendable(frames[..k]) && AllSendable(frames[..k + 1])
    requires |wire| < |WireAll(frames[..k])| + |Wire(frames[k])|
    ensures !(WireAll(frames[..k + 1]) <= wire)
  {
    hide WireAll, Wire;
    WireAllNext(frames, k);
  }

  /** The bytes of the frames received so far really were there. */
  lemma {:induction false} ReceivedFits(r: Receiver, frames: seq<Frame>, n: nat, capacity: nat, timeout: int, k: nat)
    requires AllSendable(frames) && k <= |RecvAll(r, n, capacity, timeout).0| <= |frames|
    requires RecvAll(r, n, capacity, timeout).0 <= frames
    ensures AllSendable(frames[..k]) && WireAll(frames[..k]) <= r.incoming
    decreases n
  {
    hide RecvFrame, Wire;
    if k > 0 {
      var x := RecvFrame(r, capacity, timeout);
      ReceivedWasSent(r, capacity, timeout);
      var rest := RecvAll(x.left, n - 1, capacity, timeout).0;
      assert rest == RecvAll(r, n, capacity, timeout).0[1..];
      ReceivedFits(x.left, frames[1..], n - 1, capacity, timeout, k - 1);
      assert frames[..k][1..] == frames[1..][..k - 1];
    }
  }

  // ---- when nothing fails ----

  /** A trip round either loop, reduced to the time it takes and the progress it makes. */
  datatype Beat = Beat(elapsed: nat, n: nat)

  function RecvPace(script: seq<RecvTurn>): (p: seq<Beat>)
    ensures |p| == |script|
  {
    seq(|script|, i requires 0 <= i < |script| =>
      Beat(script[i].elapsed, if script[i].what.Chunk? then script[i].what.n else 0))
  }

  function SendPace(script: seq<SendTurn>): (p: seq<Beat>)
    ensures |p| == |script|
  {
    seq(|script|, i requires 0 <= i < |script| =>
      Beat(script[i].elapsed, if script[i].what.Took? then script[i].what.n else 0))
  }

  /** A transport that never closes or fails, only delivers and has the caller try again. */
  predicate Delivering(script: seq<RecvTurn>) {
    forall i :: 0 <= i < |script| ==> script[i].what.Chunk? || script[i].what == RecvFault(EAGAIN)
  }

  predicate Taking(script: seq<SendTurn>) {
    forall i :: 0 <= i < |script| ==>
      (script[i].what.Took? && script[i].what.n > 0) || script[i].what in {SendFault(EINTR), SendFault(EAGAIN)}
  }

  /** How many trips, and how much time, it takes to transfer so many bytes; None if the pace never gets there. */
  function Needs(p: seq<Beat>, want: nat): (r: Option<(nat, nat)>)
    ensures r.Some? ==> r.value.0 <= |p|
    decreases |p|
  {
    if want == 0 then Some((0, 0))
    else if p == [] then None
    else
      var rest := Needs(p[1..], want - Min(p[0].n, want));
      if rest.None? then None else Some((rest.value.0 + 1, rest.value.1 + p[0].elapsed))
  }

  /** So many bytes are transferred within the time limit, if there is one. */
  predicate InTime(p: seq<Beat>, want: nat, timeout: int) {
    Needs(p, want).Some? && (timeout > 0 ==> Needs(p, want).value.1 < timeout)
  }

  /** The pace that is left after so many bytes. */
  function Beyond(p: seq<Beat>, want: nat): seq<Beat>
    requires Needs(p, want).Some?
  {
    p[Needs(p, want).value.0..]
  }

  /** Each frame goes out within the time limit of its own send. */
  predicate WritesInTime(p: seq<Beat>, frames: seq<Frame>, timeout: int)
    decreases |frames|
  {
    frames == [] ||
    (InTime(p, HEADER_LEN + |frames[0].payload|, timeout) &&
     WritesInTime(Beyond(p, HEADER_LEN + |frames[0].payload|), frames[1..], timeout))
  }

  /** Each header and each payload comes in within the time limit of its own receive. */
  predicate ReadsInTime(p: seq<Beat>, frames: seq<Frame>, timeout: int)
    decreases |frames|
  {
    frames == [] ||
    (InTime(p, HEADER_LEN, timeout) &&
     InTime(Beyond(p, HEADER_LEN), |frames[0].payload|, timeout) &&
     ReadsInTime(Beyond(Beyond(p, HEADER_LEN), |frames[0].payload|), frames[1..], timeout))
  }

  /** A call that went at pace p succeeded exactly when that met the deadline, using up just the trips it needed. */
  predicate Paced(p: seq<Beat>, now: int, want: nat, timeout: int, deadline: int, done: bool, left: nat) {
    var n := Needs(p, want);
    && (done <==> n.Some? && (timeout > 0 && want > 0 ==> now + n.value.1 < deadline))
    && (done ==> left + n.value.0 == |p|)
  }

  lemma PacedLater(p: seq<Beat>, now: int, want: nat, timeout: int, deadline: int, done: bool, left: nat)
    requires want > 0 && p != [] && !(timeout > 0 && now + p[0].elapsed >= deadline)
    requires Paced(p[1..], now + p[0].elapsed, want - Min(p[0].n, want), timeout, deadline, done, left)
    ensures Paced(p, now, want, timeout, deadline, done, left)
  {
    if want == Min(p[0].n, want) { NeedsNothing(p[1..]); }
  }

  lemma PacedTooLate(p: seq<Beat>, now: int, want: nat, timeout: int, deadline: int, left: nat)
    requires want > 0 && p != [] && timeout > 0 && now + p[0].elapsed >= deadline
    ensures Paced(p, now, want, timeout, deadline, false, left)
  {
  }

  lemma PacedAtOnce(p: seq<Beat>, now: int, want: nat, timeout: int, deadline: int)
    requires want == 0 || p == []
    ensures Paced(p, now, want, timeout, deadline, want == 0, |p|)
  {
  }

  /** A receive succeeds exactly when the transport delivers in time. */
  lemma {:induction false} RecvInTime(r: Receiver, want: nat, timeout: int, deadline: int)
    requires Delivering(r.script) && want <= |r.incoming|
    ensures var x := Recv(r, want, timeout, deadline);
            Paced(RecvPace(r.script), r.now, want, timeout, deadline, x.rc == Some(Done), |x.left.script|)
    decreases |r.script|
  {
    hide Recv, Paced, Needs;
    var p := RecvPace(r.script);
    if want == 0 || r.script == [] {
      RecvNone(r, want, timeout, deadline);
      PacedAtOnce(p, r.now, want, timeout, deadline);
    } else {
      RecvOnce(r, want, timeout, deadline);
      var s, x := After(r), Recv(r, want, timeout, deadline);
      assert p[1..] == RecvPace(s.script);
      if timeout > 0 && deadline - s.now <= 0 {
        PacedTooLate(p, r.now, want, timeout, deadline, |x.left.script|);
      } else {
        var k := Min(p[0].n, want);
        assert s.incoming[0..] == s.incoming;
        RecvInTime(s.(incoming := s.incoming[k..]), want - k, timeout, deadline);
        PacedLater(p, r.now, want, timeout, deadline, x.rc == Some(Done), |x.left.script|);
      }
    }
  }

  /** And a send, exactly when the transport takes in time. */
  lemma {:induction false} SendInTime(s: Sender, data: seq<byte>, timeout: int, deadline: int)
    requires Taking(s.script)
    ensures var x := Send(s, data, timeout, deadline);
            Paced(SendPace(s.script), s.now, |data|, timeout, deadline, x.rc == Some(Done), |x.left.script|)
    decreases |s.script|
  {
    hide Send, Paced, Needs;
    var p := SendPace(s.script);
    if data == [] || s.script == [] {
      SendNone(s, data, timeout, deadline);
      PacedAtOnce(p, s.now, |data|, timeout, deadline);
    } else {
      SendOnce(s, data, timeout, deadline);
      var t := s.(script := s.script[1..], now := s.now + s.script[0].elapsed);
      var x := Send(s, data, timeout, deadline);
      assert p[1..] == SendPace(t.script);
      if timeout > 0 && t.now >= deadline {
        PacedTooLate(p, s.now, |data|, timeout, deadline, |x.left.script|);
      } else {
        var k := Min(p[0].n, |data|);
        assert data[0..] == data && t.wire + data[..0] == t.wire;
        SendInTime(t.(wire := t.wire + data[..k]), data[k..], timeout, deadline);
        PacedLater(p, s.now, |data|, timeout, deadline, x.rc == Some(Done), |x.left.script|);
      }
    }
  }

  /** Sending frames to a transport that only takes and has the caller retry goes through exactly when each send
      meets its time limit. */
  lemma {:induction false} SendAllInTime(s: Sender, frames: seq<Frame>, timeout: int)
    requires AllSendable(frames) && Taking(s.script)
    ensures SendAll(s, frames, timeout).0 == |frames| <==> WritesInTime(SendPace(s.script), frames, timeout)
    decreases |frames|
  {
    hide Send, Wire, Needs, Swallows, Cleared, OnWire;
    if frames != [] {
      var f, p := frames[0], SendPace(s.script);
      var data := Wire(f);
      SendInTime(s, data, timeout, s.now + timeout);
      SendIsScripted(s, data, timeout, s.now + timeout);
      ClearedIsNotSwallowed(s.script, |data|, s.now, timeout, s.now + timeout);
      var x := Send(s, data, timeout, s.now + timeout);
      if x.rc == Some(Done) {
        assert SendPace(x.left.script) == Beyond(p, |data|);
        SendAllInTime(x.left, frames[1..], timeout);
      }
    }
  }

  lemma SameSplit(a: seq<byte>, b: seq<byte>, c: seq<byte>, d: seq<byte>)
    requires a + b == c + d && |a| == |c|
    ensures a == c && b == d
  {
    assert a == (a + b)[..|a|] && b == (a + b)[|a|..];
  }

  /** A frame at the front of the input is received exactly when header and payload come in time. */
  lemma FrameInTime(r: Receiver, f: Frame, rest: seq<byte>, capacity: nat, timeout: int)
    requires Sendable(f) && Roomy(capacity) && Delivering(r.script) && r.incoming == Wire(f) + rest
    ensures var (x, p) := (RecvFrame(r, capacity, timeout), RecvPace(r.script));
            && (x.frame.Some? <==>
                  InTime(p, HEADER_LEN, timeout) && InTime(Beyond(p, HEADER_LEN), |f.payload|, timeout))
            && (x.frame.Some? ==>
                  && x.frame == Some(f) && x.left.incoming == rest && Delivering(x.left.script)
                  && RecvPace(x.left.script) == Beyond(Beyond(p, HEADER_LEN), |f.payload|))
  {
    hide Recv, Needs;
    var head := Recv(r, HEADER_LEN, timeout, r.now + timeout);
    RecvInTime(r, HEADER_LEN, timeout, r.now + timeout);
    RecvTakesTheFront(r, HEADER_LEN, timeout, r.now + timeout);
    if head.rc == Some(Done) {
      HeaderOf(f, rest, head.got, head.left.incoming);
      hide Wire;
      assert Beyond(RecvPace(r.script), HEADER_LEN) == RecvPace(head.left.script);
      BodyInTime(head.left, head.got, f, rest, capacity, timeout);
    }
  }

  lemma HeaderOf(f: Frame, rest: seq<byte>, got: seq<byte>, left: seq<byte>)
    requires Sendable(f) && Wire(f) + rest == got + left && |got| == HEADER_LEN
    ensures ReadU32(got, 4) == |f.payload| && |left| >= |f.payload|
  {
    assert Wire(f) + rest == Wire(f)[..HEADER_LEN] + (Wire(f)[HEADER_LEN..] + rest);
    SameSplit(got, left, Wire(f)[..HEADER_LEN], Wire(f)[HEADER_LEN..] + rest);
    assert got[4..8] == U32(|f.payload|);
    U32RoundTrip(got, 4, |f.payload|);
  }

  lemma BodyInTime(r: Receiver, head: seq<byte>, f: Frame, rest: seq<byte>, capacity: nat, timeout: int)
    requires Sendable(f) && Roomy(capacity) && Delivering(r.script) && head + r.incoming == Wire(f) + rest
    requires |head| == HEADER_LEN && ReadU32(head, 4) == |f.payload| <= |r.incoming|
    ensures var (x, p) := (RecvBody(r, head, capacity, timeout), RecvPace(r.script));
            && (x.frame.Some? <==> InTime(p, |f.payload|, timeout))
            && (x.frame.Some? ==>
                  && x.frame == Some(f) && x.left.incoming == rest && Delivering(x.left.script)
                  && RecvPace(x.left.script) == Beyond(p, |f.payload|))
  {
    hide Recv, Needs, Wire, ReadU32, ParseRc, FrameOf;
    var length := |f.payload|;
    var body := Recv(r, length, timeout, r.now + timeout);
    RecvInTime(r, length, timeout, r.now + timeout);
    RecvTakesTheFront(r, length, timeout, r.now + timeout);
    if length == 0 { NeedsNothing(RecvPace(r.script)); }
    if body.rc == Some(Done) {
      assert head + r.incoming == head + body.got + body.left.incoming;
      SameSplit(head + body.got, body.left.incoming, Wire(f), rest);
      ParsesExactlyBuiltFrames(head + body.got, f);
    }
  }

  lemma NeedsNothing(p: seq<Beat>)
    ensures Needs(p, 0) == Some((0, 0))
  {
  }

  /** Receiving a stream of frames from a transport that only delivers and has the caller retry yields all of them
      exactly when each receive meets its time limit. */
  lemma {:induction false} RecvAllInTime(r: Receiver, frames: seq<Frame>, capacity: nat, timeout: int)
    requires AllSendable(frames) && Roomy(capacity) && Delivering(r.script) && r.incoming == WireAll(frames)
    ensures var (got, left) := RecvAll(r, |frames|, capacity, timeout);
            && (got == frames <==> ReadsInTime(RecvPace(r.script), frames, timeout))
            && (got == frames ==> left.incoming == [])
    decreases |frames|
  {
    hide RecvFrame, Wire, InTime, Beyond;
    if frames != [] {
      FrameInTime(r, frames[0], WireAll(frames[1..]), capacity, timeout);
      var x := RecvFrame(r, capacity, timeout);
      if x.frame.Some? { RecvAllInTime(x.left, frames[1..], capacity, timeout); }
    }
  }

  /** Both ends of one connection over transports that split and retry as they like but neither fail nor lie: the
      receiver gets exactly the frames handed to the sender if and only if every send and every receive meets its
      own time limit. */
  lemma EverythingArrives(s: Sender, r: Receiver, frames: seq<Frame>, capacity: nat, sendTimeout: int, recvTimeout: int)
    requires AllSendable(frames) && Roomy(capacity) && s.wire == []
    requires r.incoming == SendAll(s, frames, sendTimeout).1.left.wire
    requires Taking(s.script) && Delivering(r.script)
    ensures RecvAll(r, |frames|, capacity, recvTimeout).0 == frames <==>
            WritesInTime(SendPace(s.script), frames, sendTimeout) &&
            ReadsInTime(RecvPace(r.script), frames, recvTimeout)
    ensures WritesInTime(SendPace(s.script), frames, sendTimeout) ==>
            SendAll(s, frames, sendTimeout).0 == |frames| && r.incoming == WireAll(frames)
  {
    hide SendAll, RecvAll, Wire, WireAll, WritesInTime, ReadsInTime;
    var (k, x) := SendAll(s, frames, sendTimeout);
    WireOfSends(s, frames, sendTimeout);
    assert s.wire + WireAll(frames) == WireAll(frames);
    SendAllInTime(s, frames, sendTimeout);
    if k == |frames| {
      RecvAllInTime(r, frames, capacity, recvTimeout);
    } else {
      TakingSwallowsNothing(s.script, s.now, frames, sendTimeout);
      FramedStreamRoundTrip(s, r, frames, |frames|, capacity, sendTimeout, recvTimeout);
    }
  }

  lemma {:induction false} TakingSwallowsNothing(script: seq<SendTurn>, now: int, frames: seq<Frame>, timeout: int)
    requires Taking(script)
    ensures !StreamSwallows(script, now, frames, timeout)
    decreases |frames|
  {
    hide Swallows, Cleared;
    if frames != [] {
      var size := HEADER_LEN + |frames[0].payload|;
      TakingTakes(script, size, now, timeout, now + timeout);
      ClearedIsNotSwallowed(script, size, now, timeout, now + timeout);
      var c := Cleared(script, size, now, timeout, now + timeout);
      if c.Some? { TakingSwallowsNothing(c.value.0, c.value.1, frames[1..], timeout); }
    }
  }

  lemma {:induction false} TakingTakes(script: seq<SendTurn>, size: nat, now: int, timeout: int, deadline: int)
    requires Taking(script)
    ensures !Swallows(script, size, now, timeout, deadline)
    decreases |script|
  {
    hide Swallows, Cleared;
    if size == 0 || script == [] {
      ScriptNone(script, size, now, timeout, deadline);
    } else {
      ScriptOnce(script, size, now, timeout, deadline);
      var t := now + script[0].elapsed;
      var left := size - (if script[0].what.Took? then Min(script[0].what.n, size) else 0);
      TakingTakes(script[1..], left, t, timeout, deadline);
    }
  }
}
