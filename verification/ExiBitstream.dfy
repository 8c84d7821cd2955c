/** The EXI bit cursor (3rd_party/cbv2g/lib/cbv2g/common/exi_bitstream.c): n-bit unsigned integers, most
    significant bit first, over a byte buffer whose cursor moves to the next byte only when that byte is used. */
module ExiBitstream {

  datatype Error = NoError | Overflow | BitCountLargerThanType

  const MAX_BIT_COUNT: nat := 8
  const U32_LIMIT: int := 0x1_0000_0000
  type U32 = x: int | 0 <= x < U32_LIMIT

  // ---- one byte ----

  /** Bit i of a byte, counted from the most significant end. */
  predicate Test(b: bv8, i: nat)
    requires i < 8
  {
    (b >> (7 - i)) & 1 == 1
  }

  function Mask(i: nat): bv8
    requires i < 8
  {
    1 << (7 - i)
  }

  lemma TestAfterSet(b: bv8, i: nat, j: nat)
    requires i < 8 && j < 8
    ensures Test(b | Mask(i), j) <==> (i == j || Test(b, j))
  {
  }

  lemma TestOfZero(j: nat)
    requires j < 8
    ensures !Test(0, j)
  {
  }

  // ---- memory as bits ----

  /** Bit k of the bytes. */
  predicate BitAt(d: seq<bv8>, k: nat)
    requires k / 8 < |d|
  {
    Test(d[k / 8], k % 8)
  }

  /** Write one bit at k: the first bit of a byte clears that byte, every set bit is or-ed in. */
  function PutBit(d: seq<bv8>, k: nat, bit: bool): (e: seq<bv8>)
    requires k / 8 < |d|
    ensures |e| == |d|
  {
    var b: bv8 := if k % 8 == 0 then 0 else d[k / 8];
    d[k / 8 := if bit then b | Mask(k % 8) else b]
  }

  function Put(d: seq<bv8>, k: nat, bits: seq<bool>): (e: seq<bv8>)
    requires k + |bits| <= 8 * |d|
    ensures |e| == |d|
  {
    if bits == [] then d
    else PutBit(Put(d, k, bits[..|bits| - 1]), k + |bits| - 1, bits[|bits| - 1])
  }

  function Get(d: seq<bv8>, k: nat, n: nat): seq<bool>
    requires k + n <= 8 * |d|
  {
    seq(n, i requires 0 <= i < n => BitAt(d, k + i))
  }

  /** Nothing is set yet from bit k to the end of k's byte (a byte not begun does not matter). */
  ghost predicate Blank(d: seq<bv8>, k: nat) {
    k % 8 != 0 ==> k / 8 < |d| && forall j: nat :: k <= j && j / 8 == k / 8 ==> !BitAt(d, j)
  }

  /** One bit, seen through one other bit. */
  lemma PutBitAt(d: seq<bv8>, k: nat, bit: bool, j: nat)
    requires k / 8 < |d| && j / 8 < |d|
    ensures j / 8 != k / 8 ==> BitAt(PutBit(d, k, bit), j) == BitAt(d, j)
    ensures j / 8 == k / 8 ==>
              BitAt(PutBit(d, k, bit), j) == ((bit && j == k) || (k % 8 != 0 && BitAt(d, j)))
  {
    hide Test, Mask;
    if j / 8 == k / 8 {
      var b: bv8 := if k % 8 == 0 then 0 else d[k / 8];
      TestAfterSet(b, k % 8, j % 8);
      TestOfZero(j % 8);
      assert j == k <==> j % 8 == k % 8;
    }
  }

  /** A run of bits leaves the bytes it does not reach alone. */
  lemma {:induction false} PutFrame(d: seq<bv8>, k: nat, bits: seq<bool>)
    requires k + |bits| <= 8 * |d|
    ensures forall i: nat :: i < |d| && (i < k / 8 || 8 * i >= k + |bits|) ==> Put(d, k, bits)[i] == d[i]
  {
    hide Test, Mask;
    if bits != [] { PutFrame(d, k, bits[..|bits| - 1]); }
  }

  /** What a run of bits does to the buffer: exactly those bits, and an all-clear rest of the last byte. */
  lemma {:induction false} PutMeans(d: seq<bv8>, k: nat, bits: seq<bool>)
    requires Blank(d, k) && k + |bits| <= 8 * |d|
    ensures forall j: nat :: j < k ==> BitAt(Put(d, k, bits), j) == BitAt(d, j)
    ensures forall i: nat :: i < |bits| ==> BitAt(Put(d, k, bits), k + i) == bits[i]
    ensures Blank(Put(d, k, bits), k + |bits|)
  {
    hide Test, Mask, BitAt, PutBit;
    if bits != [] {
      var n := |bits| - 1;
      PutMeans(d, k, bits[..n]);
      var f, p := Put(d, k, bits[..n]), k + n;
      var e := PutBit(f, p, bits[n]);
      assert e == Put(d, k, bits);
      hide Put;
      forall j: nat | j / 8 < |d|
        ensures j / 8 != p / 8 ==> BitAt(e, j) == BitAt(f, j)
        ensures j / 8 == p / 8 ==> BitAt(e, j) == ((bits[n] && j == p) || (p % 8 != 0 && BitAt(f, j)))
      {
        PutBitAt(f, p, bits[n], j);
      }
      forall i: nat | i < n ensures BitAt(e, k + i) == bits[i] {
        assert BitAt(f, k + i) == bits[..n][i];
      }
    }
  }

  lemma {:induction false} PutAppend(d: seq<bv8>, k: nat, a: seq<bool>, b: seq<bool>)
    requires k + |a| + |b| <= 8 * |d|
    ensures Put(d, k, a + b) == Put(Put(d, k, a), k + |a|, b)
  {
    hide PutBit;
    if b == [] {
      assert a + b == a;
    } else {
      var n := |b| - 1;
      PutAppend(d, k, a, b[..n]);
      assert (a + b)[..|a + b| - 1] == a + b[..n];
      PutLast(d, k, a + b);
      PutLast(Put(d, k, a), k + |a|, b);
    }
  }

  lemma PutLast(d: seq<bv8>, k: nat, bits: seq<bool>)
    requires bits != [] && k + |bits| <= 8 * |d|
    ensures Put(d, k, bits) == PutBit(Put(d, k, bits[..|bits| - 1]), k + |bits| - 1, bits[|bits| - 1])
  {
  }

  // ---- numbers as bits ----

  function Pow2(n: nat): (r: nat)
    ensures r > 0
  {
    if n == 0 then 1 else 2 * Pow2(n - 1)
  }

  /** The low `width` bits of a value, most significant first. */
  function BitsOf(width: nat, value: nat): seq<bool> {
    seq(width, i requires 0 <= i < width => value / Pow2(width - 1 - i) % 2 == 1)
  }

  function NumberOf(bits: seq<bool>): nat {
    if bits == [] then 0
    else 2 * NumberOf(bits[..|bits| - 1]) + (if bits[|bits| - 1] then 1 else 0)
  }

  lemma {:induction false} NumberBound(bits: seq<bool>)
    ensures NumberOf(bits) < Pow2(|bits|)
  {
    if bits != [] { NumberBound(bits[..|bits| - 1]); }
  }

  lemma HalveThenDivide(v: nat, q: nat)
    requires q > 0
    ensures v / (2 * q) == v / 2 / q
  {
    var h := v / 2;
    var t := h / q;
    assert h == q * t + h % q;
    assert v == 2 * q * t + (2 * (h % q) + v % 2);
    QuotientIs(v, 2 * q, t, 2 * (h % q) + v % 2);
  }

  lemma QuotientIs(v: nat, q: nat, t: nat, r: nat)
    requires q > 0 && v == q * t + r && r < q
    ensures v / q == t && v % q == r
  {
    assert q * (v / q - t) == r - v % q;
    ZeroFactor(q, v / q - t);
  }

  lemma ZeroFactor(q: int, x: int)
    requires q > 0 && -q < q * x < q
    ensures x == 0
  {
    if x > 0 { AtLeastOnce(q, x); }
    if x < 0 { AtLeastOnce(q, -x); }
  }

  lemma AtLeastOnce(q: int, x: int)
    requires q > 0 && x >= 1
    ensures q * x >= q
  {
    assert q * (x - 1) >= 0;
  }

  /** Writing a number in n bits keeps it modulo 2^n. */
  lemma {:induction false} BitsThenNumber(width: nat, value: nat)
    ensures NumberOf(BitsOf(width, value)) == value % Pow2(width)
  {
    if width > 0 {
      var n := width - 1;
      BitsThenNumber(n, value / 2);
      BitsOfHalf(width, value);
      var bits := BitsOf(width, value);
      hide BitsOf;
      HalfModulo(value, Pow2(n));
      assert NumberOf(bits) == 2 * NumberOf(bits[..n]) + (if bits[n] then 1 else 0);
    }
  }

  lemma BitsOfHalf(width: nat, value: nat)
    requires width > 0
    ensures BitsOf(width, value)[..width - 1] == BitsOf(width - 1, value / 2)
    ensures BitsOf(width, value)[width - 1] == (value % 2 == 1)
  {
    var n := width - 1;
    assert Pow2(0) == 1;
    forall i | 0 <= i < n ensures BitsOf(width, value)[i] == BitsOf(n, value / 2)[i] {
      assert Pow2(width - 1 - i) == 2 * Pow2(n - 1 - i);
      HalveThenDivide(value, Pow2(n - 1 - i));
    }
  }

  lemma HalfModulo(v: nat, q: nat)
    requires q > 0
    ensures v % (2 * q) == 2 * (v / 2 % q) + v % 2
  {
    var h := v / 2;
    assert h == q * (h / q) + h % q;
    QuotientIs(v, 2 * q, h / q, 2 * (h % q) + v % 2);
  }

  // ---- the stream ----

  /** `data` is the memory from the data pointer on, `dataSize` how much of it belongs to the buffer. Memory goes
      on behind the buffer, and the cursor can get there. */
  datatype Stream = Stream(data: seq<bv8>, dataSize: nat, bytePos: nat, bitCount: nat, initCalled: bool,
                           flagBytePos: nat)
  {
    predicate Valid() { bitCount <= 8 && dataSize <= |data| && (initCalled ==> flagBytePos <= bytePos) }

    /** The cursor in bits: a full byte and the start of the next one are the same place. */
    function Pos(): nat { 8 * bytePos + bitCount }

    /** How many single-bit steps the capacity check lets through: it compares before it moves, so one byte
        beyond data_size is let through as well. */
    function Room(): nat
      requires Valid()
    {
      8 - bitCount + (if bytePos < dataSize then 8 * (dataSize - bytePos) else 0)
    }

    /** The cursor after n further steps: never left at the start of a byte it has not used. */
    function Moved(n: nat): Stream {
      if n == 0 then this
      else this.(bytePos := (Pos() + n - 1) / 8, bitCount := (Pos() + n - 1) % 8 + 1)
    }

    function Length(): int {
      bytePos - (if initCalled && flagBytePos > 0 then flagBytePos else 0) + (if bitCount > 0 then 1 else 0)
    }

    function Rewound(): Stream { this.(bytePos := if initCalled then flagBytePos else 0, bitCount := 0) }
  }

  function Min(a: nat, b: nat): nat { if a <= b then a else b }

  /** How many of the requested bits are handled before the cursor is stuck. */
  function Steps(s: Stream, width: nat): nat
    requires s.Valid()
  {
    if width > 32 then 0 else Min(width, s.Room())
  }

  function Outcome(s: Stream, width: nat): Error
    requires s.Valid()
  {
    if width > 32 then BitCountLargerThanType else if width > s.Room() then Overflow else NoError
  }

  /** There is memory under every bit that a field of this width makes the code touch. */
  predicate Backed(s: Stream, width: nat)
    requires s.Valid()
  {
    s.Pos() + Steps(s, width) <= 8 * |s.data|
  }

  function Written(s: Stream, width: nat, value: nat): Stream
    requires s.Valid() && Backed(s, width)
  {
    s.Moved(Steps(s, width)).(data := Put(s.data, s.Pos(), BitsOf(width, value)[..Steps(s, width)]))
  }

  function ReadValue(s: Stream, width: nat): nat
    requires s.Valid() && Backed(s, width)
  {
    NumberOf(Get(s.data, s.Pos(), Steps(s, width)))
  }

  lemma MovedAgain(s: Stream, n: nat)
    requires s.Valid() && n <= s.Room()
    ensures s.Moved(n).Valid() && s.Moved(n).Pos() == s.Pos() + n && s.Moved(n).Room() == s.Room() - n
    ensures s.Moved(n).Moved(1) == s.Moved(n + 1)
  {
  }

  lemma MovedOne(s: Stream)
    requires s.bitCount < 8
    ensures s.Moved(1) == s.(bitCount := s.bitCount + 1)
    ensures s.Pos() / 8 == s.bytePos && s.Pos() % 8 == s.bitCount
  {
  }

  lemma OneStep(s: Stream)
    requires s.Valid() && s.Room() > 0 && Backed(s, 1)
    ensures s.Pos() < 8 * |s.data|
  {
  }

  lemma StoredByte(before: seq<bv8>, after: seq<bv8>, i: nat)
    requires |after| == |before| && i < |before|
    requires forall k :: 0 <= k < |before| && k != i ==> after[k] == before[k]
    ensures after == before[i := after[i]]
  {
  }

  /** exi_bitstream_t. */
  class BitStream {
    const data: array<bv8>
    const dataSize: nat
    var bytePos: nat
    var bitCount: nat
    var initCalled: bool
    var flagBytePos: nat

    ghost function State(): Stream
      reads this, data
    {
      Stream(data[..], dataSize, bytePos, bitCount, initCalled, flagBytePos)
    }

    constructor (data: array<bv8>, dataSize: nat, dataOffset: nat)
      requires dataSize <= data.Length
      ensures this.data == data
      ensures State() == Stream(data[..], dataSize, dataOffset, 0, true, dataOffset)
    {
      this.data := data;
      this.dataSize := dataSize;
      bytePos := dataOffset;
      bitCount := 0;
      initCalled := true;
      flagBytePos := dataOffset;
    }

    method Reset()
      modifies this
      ensures State() == old(State()).Rewound()
    {
      if initCalled { bytePos := flagBytePos; } else { bytePos := 0; }
      bitCount := 0;
    }

    method GetLength() returns (length: int)
      requires State().Valid()
      ensures length == State().Length()
    {
      length := bytePos;
      if initCalled && flagBytePos > 0 { length := length - flagBytePos; }
      length := length + (if bitCount > 0 then 1 else 0);
    }

    method HasOverflow() returns (error: Error)
      requires State().Valid()
      modifies this
      ensures error == (if old(State()).Room() == 0 then Overflow else NoError)
      ensures State().Valid() && data[..] == old(data[..]) && State().Pos() == old(State()).Pos()
      ensures initCalled == old(initCalled) && flagBytePos == old(flagBytePos)
      ensures error == NoError ==> bitCount < 8 && State().Moved(1) == old(State()).Moved(1)
      ensures error == Overflow ==> State() == old(State())
    {
      error := NoError;
      if bitCount == MAX_BIT_COUNT {
        if bytePos < dataSize {
          bytePos := bytePos + 1;
          bitCount := 0;
        } else {
          error := Overflow;
        }
      }
    }

    method WriteBit(bit: bool) returns (error: Error)
      requires State().Valid() && Backed(State(), 1)
      modifies this, data
      ensures error == (if old(State()).Room() == 0 then Overflow else NoError)
      ensures error == NoError ==>
                && old(State()).Pos() / 8 < data.Length
                && State() == old(State()).Moved(1).(data := PutBit(old(data[..]), old(State()).Pos(), bit))
      ensures error != NoError ==> State() == old(State())
    {
      hide PutBit, Stream.Moved, Stream.Room;
      ghost var s := State();
      error := HasOverflow();
      if error != NoError { return; }
      OneStep(s);
      MovedOne(State());
      StoreBit(bit);
      bitCount := bitCount + 1;
    }

    /** The bit under the cursor. */
    method StoreBit(bit: bool)
      requires bitCount < 8 && bytePos < data.Length
      modifies data
      ensures State().Pos() / 8 < data.Length
      ensures data[..] == PutBit(old(data[..]), State().Pos(), bit)
    {
      hide Mask;
      MovedOne(State());
      hide Stream.Pos, Stream.Moved;
      ghost var d := data[..];
      if bitCount == 0 { data[bytePos] := 0; }
      if bit { data[bytePos] := data[bytePos] | Mask(bitCount); }
      StoredByte(d, data[..], bytePos);
    }

    method ReadBit() returns (error: Error, bit: bool)
      requires State().Valid() && Backed(State(), 1)
      modifies this
      ensures error == (if old(State()).Room() == 0 then Overflow else NoError)
      ensures error == NoError ==>
                && old(State()).Pos() / 8 < data.Length
                && State() == old(State()).Moved(1) && bit == BitAt(old(data[..]), old(State()).Pos())
      ensures error != NoError ==> State() == old(State())
    {
      hide Test, Stream.Moved, Stream.Room;
      bit := false;
      ghost var s := State();
      error := HasOverflow();
      if error != NoError { return; }
      OneStep(s);
      MovedOne(State());
      hide Stream.Pos;
      bit := Test(data[bytePos], bitCount);
      bitCount := bitCount + 1;
    }

    method WriteBits(width: nat, value: U32) returns (error: Error)
      requires State().Valid() && Backed(State(), width)
      modifies this, data
      ensures error == Outcome(old(State()), width)
      ensures State() == Written(old(State()), width, value)
    {
      hide PutBit, Put, BitsOf, Pow2, Stream.Pos, Stream.Room, Stream.Moved;
      ghost var s, bits := State(), BitsOf(width, value);
      BitsLength(Field(width, value));
      if width > 32 {
        WriteNothing(s, bits);
        return BitCountLargerThanType;
      }
      error := NoError;
      var n := 0;
      WriteNothing(s, bits);
      while n < width
        invariant 0 <= n <= width && n <= s.Room() && error == NoError && s.Pos() + n <= 8 * |s.data|
        invariant State() == s.Moved(n).(data := Put(s.data, s.Pos(), bits[..n]))
      {
        WriteStep(s, bits, n);
        BitsAt(width, value, n);
        var bit := value / Pow2(width - n - 1) % 2 == 1;
        error := WriteBit(bit);
        if error != NoError { break; }
        n := n + 1;
      }
    }

    method WriteOctet(value: U32) returns (error: Error)
      requires State().Valid() && Backed(State(), 8) && value < 256
      modifies this, data
      ensures error == Outcome(old(State()), 8)
      ensures State() == Written(old(State()), 8, value)
      ensures error == NoError && old(State()).Pos() % 8 == 0 ==>
                var p := old(State()).Pos() / 8;
                p < data.Length && data[p] as nat == value && data[..] == old(data[..])[p := data[p]]
    {
      hide Written, Outcome;
      ghost var s := State();
      error := WriteBits(8, value);
      if error == NoError && s.Pos() % 8 == 0 { OctetStored(s, value); }
    }

    method ReadBits(width: nat) returns (error: Error, value: U32)
      requires State().Valid() && Backed(State(), width)
      modifies this
      ensures error == Outcome(old(State()), width)
      ensures value == ReadValue(old(State()), width)
      ensures State() == old(State()).Moved(Steps(old(State()), width))
      ensures error == NoError && old(State()).Pos() % 8 == 0 && width in {8, 16, 24, 32} ==>
                var p := old(State()).Pos() / 8;
                p + width / 8 <= data.Length && value == BigEndian(data[p..p + width / 8])
    {
      hide ReadValue, Outcome;
      ghost var s := State();
      value := 0;
      if width > 32 {
        TooWide(s, width);
        return BitCountLargerThanType, 0;
      }
      error, value := ReadLoop(width);
      if error == NoError && s.Pos() % 8 == 0 && width in {8, 16, 24, 32} { BytesRead(s, width / 8); }
    }

    method ReadOctet() returns (error: Error, value: U32)
      requires State().Valid() && Backed(State(), 8)
      modifies this
      ensures error == Outcome(old(State()), 8)
      ensures value == ReadValue(old(State()), 8) && value < 256
      ensures State() == old(State()).Moved(Steps(old(State()), 8))
    {
      error, value := ReadLoop(8);
      NumberBound(Get(old(State()).data, old(State()).Pos(), Steps(old(State()), 8)));
      SmallPowers();
      PowMonotone(Steps(old(State()), 8), 8);
    }

    /** The loop the two readers share: shift the bits read so far up by one and append the next. */
    method ReadLoop(width: nat) returns (error: Error, value: U32)
      requires State().Valid() && width <= 32 && Backed(State(), width)
      modifies this
      ensures error == Outcome(old(State()), width)
      ensures value == ReadValue(old(State()), width)
      ensures State() == old(State()).Moved(Steps(old(State()), width))
    {
      hide BitAt, NumberOf, Get, Stream.Pos, Stream.Room, Stream.Moved;
      ghost var s := State();
      value := 0;
      error := NoError;
      GetNothing(s.data, s.Pos());
      MovedNowhere(s);
      var n := 0;
      while n < width
        invariant 0 <= n <= width && n <= s.Room() && error == NoError && s.Pos() + n <= 8 * |s.data|
        invariant State() == s.Moved(n)
        invariant value == NumberOf(Get(s.data, s.Pos(), n))
      {
        MovedAgain(s, n);
        var bit;
        error, bit := ReadBit();
        if error != NoError { break; }
        GetStep(s.data, s.Pos(), n);
        value := (2 * value + (if bit then 1 else 0)) % U32_LIMIT;
        n := n + 1;
      }
    }
  }

  lemma TooWide(s: Stream, width: nat)
    requires s.Valid() && width > 32 && Backed(s, width)
    ensures ReadValue(s, width) == 0 && Outcome(s, width) == BitCountLargerThanType && s.Moved(Steps(s, width)) == s
  {
  }

  lemma WriteNothing(s: Stream, bits: seq<bool>)
    requires s.Pos() <= 8 * |s.data|
    ensures s == s.Moved(0).(data := Put(s.data, s.Pos(), bits[..0]))
  {
  }

  lemma BitsAt(width: nat, value: nat, n: nat)
    requires n < width
    ensures BitsOf(width, value)[n] == (value / Pow2(width - n - 1) % 2 == 1)
  {
    assert width - n - 1 == width - 1 - n;
  }

  /** One more bit on a stream that has taken n of them. */
  lemma WriteStep(s: Stream, bits: seq<bool>, n: nat)
    requires s.Valid() && n < |bits| && n <= s.Room() && s.Pos() + n <= 8 * |s.data|
    ensures var t := s.Moved(n).(data := Put(s.data, s.Pos(), bits[..n]));
            && t.Valid() && t.Pos() == s.Pos() + n && t.Room() == s.Room() - n
    ensures var t := s.Moved(n).(data := Put(s.data, s.Pos(), bits[..n]));
            s.Pos() + n < 8 * |s.data| ==>
              t.Moved(1).(data := PutBit(t.data, t.Pos(), bits[n])) ==
               s.Moved(n + 1).(data := Put(s.data, s.Pos(), bits[..n + 1]))
  {
    hide PutBit, Put, Stream.Moved;
    MovedAgain(s, n);
    if s.Pos() + n < 8 * |s.data| { PutLast(s.data, s.Pos(), bits[..n + 1]); }
    assert bits[..n + 1][..n] == bits[..n];
    MovedIgnoresData(s.Moved(n), Put(s.data, s.Pos(), bits[..n]), 1);
    assert s.Moved(n).data == s.data by { MovedIgnoresData(s, s.data, n); }
  }

  lemma GetNothing(d: seq<bv8>, k: nat)
    requires k <= 8 * |d|
    ensures NumberOf(Get(d, k, 0)) == 0
  {
  }

  /** Shifting up by one and adding a bit appends that bit, without loss in 32 bits. */
  lemma GetStep(d: seq<bv8>, k: nat, n: nat)
    requires n < 32 && k + n < 8 * |d|
    ensures NumberOf(Get(d, k, n + 1)) == 2 * NumberOf(Get(d, k, n)) + (if BitAt(d, k + n) then 1 else 0)
    ensures NumberOf(Get(d, k, n + 1)) < U32_LIMIT
  {
    hide BitAt;
    assert Get(d, k, n + 1)[..n] == Get(d, k, n);
    NumberBound(Get(d, k, n + 1));
    SmallPowers();
    PowMonotone(n + 1, 32);
  }

  lemma SmallPowers()
    ensures Pow2(8) == 256 && Pow2(32) == U32_LIMIT
  {
    assert Pow2(8) == 256;
    assert Pow2(16) == 0x1_0000;
    assert Pow2(24) == 0x100_0000;
    assert Pow2(32) == U32_LIMIT;
  }

  lemma {:induction false} PowMonotone(a: nat, b: nat)
    requires a <= b
    ensures Pow2(a) <= Pow2(b)
  {
    if a < b { PowMonotone(a, b - 1); }
  }

  // ---- whole streams ----

  datatype Field = Field(width: nat, value: nat)

  /** What a field of so many bits can hold of its value. */
  function Kept(f: Field): nat { f.value % Pow2(f.width) }

  function Total(fields: seq<Field>): nat {
    if fields == [] then 0 else Total(fields[..|fields| - 1]) + fields[|fields| - 1].width
  }

  function Encode(fields: seq<Field>): seq<bool> {
    if fields == [] then []
    else
      var f := fields[|fields| - 1];
      Encode(fields[..|fields| - 1]) + BitsOf(f.width, f.value)
  }

  lemma {:induction false} EncodeLength(fields: seq<Field>)
    ensures |Encode(fields)| == Total(fields)
  {
    if fields != [] { EncodeLength(fields[..|fields| - 1]); }
  }

  predicate Typed(fields: seq<Field>) { forall f :: f in fields ==> f.width <= 32 }

  /** The code accepts every one of the fields, and there is memory under all of them. */
  predicate Accepted(s: Stream, fields: seq<Field>)
    requires s.Valid()
  {
    Typed(fields) && Total(fields) <= s.Room() && s.Pos() + Total(fields) <= 8 * |s.data|
  }

  /** write_bits for each field in turn. */
  function WriteAll(s: Stream, fields: seq<Field>): (t: Stream)
    requires s.Valid() && s.Pos() + Total(fields) <= 8 * |s.data|
    ensures t.Valid() && |t.data| == |s.data| && t.Pos() <= s.Pos() + Total(fields)
  {
    if fields == [] then s
    else
      var f := fields[|fields| - 1];
      Written(WriteAll(s, fields[..|fields| - 1]), f.width, f.value)
  }

  /** read_bits for each width in turn: the values, and the stream left behind. */
  function ReadAll(s: Stream, fields: seq<Field>): (r: (seq<nat>, Stream))
    requires s.Valid() && s.Pos() + Total(fields) <= 8 * |s.data|
    ensures r.1.Valid() && |r.0| == |fields| && r.1.data == s.data && r.1.Pos() <= s.Pos() + Total(fields)
  {
    if fields == [] then ([], s)
    else
      var w := fields[|fields| - 1].width;
      var (values, t) := ReadAll(s, fields[..|fields| - 1]);
      (values + [ReadValue(t, w)], t.Moved(Steps(t, w)))
  }

  lemma {:induction false} WriteAllMeans(s: Stream, fields: seq<Field>)
    requires s.Valid() && Accepted(s, fields)
    ensures |Encode(fields)| == Total(fields)
    ensures WriteAll(s, fields) == s.Moved(Total(fields)).(data := Put(s.data, s.Pos(), Encode(fields)))
  {
    hide Put, BitsOf, Stream.Moved, Stream.Room;
    EncodeLength(fields);
    if fields == [] {
      assert Put(s.data, s.Pos(), []) == s.data by { PutNothing(s.data, s.Pos()); }
      assert s.Moved(0) == s by { MovedNowhere(s); }
    } else {
      var n, f := |fields| - 1, fields[|fields| - 1];
      WriteAllMeans(s, fields[..n]);
      EncodeLength(fields[..n]);
      WrittenAfter(s, Encode(fields[..n]), f);
    }
  }

  lemma PutNothing(d: seq<bv8>, k: nat)
    requires k <= 8 * |d|
    ensures Put(d, k, []) == d
  {
  }

  lemma MovedNowhere(s: Stream)
    ensures s.Moved(0) == s
  {
  }

  /** One more field on a stream that has taken `bits` so far. */
  lemma WrittenAfter(s: Stream, bits: seq<bool>, f: Field)
    requires s.Valid() && f.width <= 32 && |bits| + f.width <= s.Room()
    requires s.Pos() + |bits| + f.width <= 8 * |s.data|
    ensures |BitsOf(f.width, f.value)| == f.width
    ensures var t := s.Moved(|bits|).(data := Put(s.data, s.Pos(), bits));
            && t.Valid() && Backed(t, f.width)
            && Written(t, f.width, f.value) ==
               s.Moved(|bits| + f.width).(data := Put(s.data, s.Pos(), bits + BitsOf(f.width, f.value)))
  {
    hide PutBit, Put, BitsOf, Stream.Moved;
    MovedFurther(s, |bits|, f.width);
    BitsLength(f);
    var t := s.Moved(|bits|).(data := Put(s.data, s.Pos(), bits));
    assert t.Valid() && f.width <= t.Room() && t.Pos() == s.Pos() + |bits|;
    PutAppend(s.data, s.Pos(), bits, BitsOf(f.width, f.value));
    MovedIgnoresData(s.Moved(|bits|), t.data, f.width);
    assert BitsOf(f.width, f.value)[..f.width] == BitsOf(f.width, f.value);
  }

  lemma MovedIgnoresData(s: Stream, d: seq<bv8>, n: nat)
    ensures s.(data := d).Moved(n) == s.Moved(n).(data := d)
  {
  }

  lemma MovedFurther(s: Stream, a: nat, b: nat)
    requires s.Valid() && a + b <= s.Room()
    ensures s.Moved(a).Moved(b) == s.Moved(a + b) && s.Moved(a).Pos() == s.Pos() + a
    ensures s.Moved(a).Valid() && b <= s.Moved(a).Room() && s.Moved(a).data == s.data
  {
    MovedAgain(s, a);
    hide Stream.Room;
    if a > 0 && b > 0 { assert s.Moved(a).Pos() + b - 1 == s.Pos() + (a + b) - 1; }
  }

  lemma {:induction false} ReadAllMeans(s: Stream, fields: seq<Field>)
    requires s.Valid() && Accepted(s, fields)
    requires Get(s.data, s.Pos(), Total(fields)) == Encode(fields)
    ensures ReadAll(s, fields).1 == s.Moved(Total(fields))
    ensures forall i :: 0 <= i < |fields| ==>
                          ReadAll(s, fields).0[i] == Kept(fields[i])
  {
    hide Get, BitsOf, NumberOf, Kept, Stream.Moved, Stream.Room, Stream.Pos;
    if fields == [] {
      MovedNowhere(s);
    } else {
      var n, f := |fields| - 1, fields[|fields| - 1];
      var before := Total(fields[..n]);
      EncodeLength(fields[..n]);
      BitsLength(f);
      SplitGet(s.data, s.Pos(), Encode(fields[..n]), BitsOf(f.width, f.value));
      hide Encode;
      ReadAllMeans(s, fields[..n]);
      MovedFurther(s, before, f.width);
      FieldKept(f);
      var (values, t) := ReadAll(s, fields[..n]);
      assert ReadValue(t, f.width) == Kept(f);
      assert ReadAll(s, fields) == (values + [ReadValue(t, f.width)], t.Moved(f.width));
      hide ReadAll, ReadValue, Pow2, Total, Typed, Accepted;
      forall i | 0 <= i < |fields| ensures ReadAll(s, fields).0[i] == Kept(fields[i]) {
        if i < n { assert fields[i] == fields[..n][i]; }
      }
    }
  }

  lemma FieldKept(f: Field)
    ensures NumberOf(BitsOf(f.width, f.value)) == Kept(f)
  {
    BitsThenNumber(f.width, f.value);
  }

  lemma BitsLength(f: Field)
    ensures |BitsOf(f.width, f.value)| == f.width
  {
  }

  lemma SplitGet(d: seq<bv8>, k: nat, a: seq<bool>, b: seq<bool>)
    requires k + |a| + |b| <= 8 * |d| && Get(d, k, |a| + |b|) == a + b
    ensures Get(d, k, |a|) == a && Get(d, k + |a|, |b|) == b
  {
    hide BitAt;
    var all := Get(d, k, |a| + |b|);
    assert Get(d, k, |a|) == all[..|a|];
    assert Get(d, k + |a|, |b|) == all[|a|..];
  }

  /** A stream just initialised over a buffer, or reset to where it began. */
  predicate AtStart(s: Stream) { s.initCalled && s.bytePos == s.flagBytePos && s.bitCount == 0 }

  lemma StartAgain(s: Stream, fields: seq<Field>)
    requires s.Valid() && AtStart(s) && Accepted(s, fields)
    ensures WriteAll(s, fields).Rewound() == s.(data := WriteAll(s, fields).data)
    ensures |WriteAll(s, fields).data| == |s.data|
  {
    hide Put, Encode, Total, WriteAll, Typed, Stream.Moved;
    WriteAllMeans(s, fields);
    MovedKeeps(s, Total(fields));
  }

  /** Write any list of fields that the code accepts, reset, read the same widths: every value comes back modulo
      2^width, also from the byte behind the buffer. */
  lemma RoundTrip(s: Stream, fields: seq<Field>)
    requires s.Valid() && AtStart(s) && Accepted(s, fields)
    ensures var t := WriteAll(s, fields).Rewound();
            && t.Valid() && t.Pos() + Total(fields) <= 8 * |t.data|
            && forall i :: 0 <= i < |fields| ==> ReadAll(t, fields).0[i] == Kept(fields[i])
  {
    hide BitAt, Put, Encode, Total, WriteAll, Kept, Blank, Get, ReadAll, Typed, Stream.Moved;
    WriteAllMeans(s, fields);
    StartAgain(s, fields);
    NothingBlank(s);
    PutThenGet(s.data, s.Pos(), Encode(fields));
    ReadAllMeans(WriteAll(s, fields).Rewound(), fields);
  }

  lemma NothingBlank(s: Stream)
    requires AtStart(s)
    ensures Blank(s.data, s.Pos())
  {
    hide BitAt;
    assert s.Pos() % 8 == 0;
  }

  /** What was put is what one gets. */
  lemma PutThenGet(d: seq<bv8>, k: nat, bits: seq<bool>)
    requires Blank(d, k) && k + |bits| <= 8 * |d|
    ensures Get(Put(d, k, bits), k, |bits|) == bits
  {
    hide BitAt, Put, Blank;
    PutMeans(d, k, bits);
  }

  lemma MovedKeeps(s: Stream, n: nat)
    requires AtStart(s)
    ensures var t := s.Moved(n);
            && t.initCalled && t.flagBytePos == s.flagBytePos
            && t.data == s.data && t.dataSize == s.dataSize
            && t.Length() == (n + 7) / 8
  {
  }

  /** The length is the number of bytes begun; bytes outside that span keep their contents and the unused bits of
      the last byte are zero. */
  lemma WrittenSpan(s: Stream, fields: seq<Field>)
    requires s.Valid() && AtStart(s) && Accepted(s, fields)
    ensures var t, o := WriteAll(s, fields), s.flagBytePos;
            && t.Length() == (Total(fields) + 7) / 8
            && o + t.Length() <= |s.data| == |t.data|
            && (forall i: nat :: i < |s.data| && !(o <= i < o + t.Length()) ==> t.data[i] == s.data[i])
            && (forall k: nat :: 8 * o + Total(fields) <= k < 8 * (o + t.Length()) ==> !BitAt(t.data, k))
  {
    hide BitAt, Put, Encode, Total, WriteAll, Typed, Stream.Moved;
    WriteAllMeans(s, fields);
    PutMeans(s.data, s.Pos(), Encode(fields));
    PutFrame(s.data, s.Pos(), Encode(fields));
    MovedKeeps(s, Total(fields));
  }

  // ---- what the capacity check admits ----

  /** A field that fits into the buffer is accepted, and an accepted field leaves the buffer exactly when it exceeds
      it by one to eight bits. A cursor that started behind the buffer is let on to the end of its byte. */
  lemma AcceptedExactly(s: Stream, width: nat)
    requires s.Valid()
    ensures s.bytePos <= s.dataSize ==>
              (Outcome(s, width) == NoError <==> width <= 32 && s.Pos() + width <= 8 * s.dataSize + 8)
    ensures s.bytePos <= s.dataSize ==>
              (Outcome(s, width) == NoError && s.Pos() + width > 8 * s.dataSize <==>
                 width <= 32 && 0 < s.Pos() + width - 8 * s.dataSize <= 8)
    ensures s.bytePos > s.dataSize ==>
              (Outcome(s, width) == NoError <==> width <= 32 && width <= 8 - s.bitCount)
  {
  }

  /** What an accepted field that leaves the buffer does: of the bytes behind the buffer the first alone can change,
      and it ends up holding exactly the field's last bits followed by zeros, whatever it held before if the field
      began it; all of the field's bits read back. */
  lemma StoredBehindTheBuffer(s: Stream, width: nat, value: nat)
    requires s.Valid() && s.bytePos <= s.dataSize && Blank(s.data, s.Pos())
    requires Outcome(s, width) == NoError && s.Pos() + width > 8 * s.dataSize && Backed(s, width)
    ensures var t := Written(s, width, value);
            && s.dataSize < |s.data| == |t.data|
            && (forall i: nat :: s.dataSize < i < |s.data| ==> t.data[i] == s.data[i])
            && (forall k: nat :: s.Pos() <= k < 8 * s.dataSize + 8 ==>
                  (BitAt(t.data, k) <==> k < s.Pos() + width && BitsOf(width, value)[k - s.Pos()]))
            && Backed(s.(data := t.data), width)
            && ReadValue(s.(data := t.data), width) == value % Pow2(width)
  {
    hide BitAt, Put, BitsOf, Pow2, Stream.Moved, Blank;
    var bits := BitsOf(width, value);
    BitsLength(Field(width, value));
    assert bits[..width] == bits;
    PutFrame(s.data, s.Pos(), bits);
    PutThenGet(s.data, s.Pos(), bits);
    BitsThenNumber(width, value);
    EndOfRun(s.data, s.Pos(), bits, s.dataSize);
  }

  /** Up to the end of its last byte a run of bits is followed by zeros. */
  lemma EndOfRun(d: seq<bv8>, k: nat, bits: seq<bool>, last: nat)
    requires Blank(d, k) && k + |bits| <= 8 * |d| && last < |d| && 8 * last < k + |bits| <= 8 * last + 8
    ensures forall j: nat :: k <= j < 8 * last + 8 ==>
              (BitAt(Put(d, k, bits), j) <==> j < k + |bits| && bits[j - k])
  {
    hide BitAt, Put, Blank;
    PutMeans(d, k, bits);
    var e := Put(d, k, bits);
    forall j: nat | k <= j < 8 * last + 8 ensures BitAt(e, j) <==> j < k + |bits| && bits[j - k] {
      if j < k + |bits| {
        assert BitAt(e, k + (j - k)) == bits[j - k];
      } else {
        BlankRest(e, k + |bits|, j);
      }
    }
  }

  lemma BlankRest(d: seq<bv8>, k: nat, j: nat)
    requires Blank(d, k) && k <= j && j / 8 < |d| && k % 8 != 0 && j / 8 == k / 8
    ensures !BitAt(d, j)
  {
    hide BitAt;
  }

  /** The empty buffer of a frame without payload accepts a whole byte. Every bit of it lies behind the buffer, and
      with no memory there (a null payload) the code touches what does not exist. */
  lemma EmptyBufferAcceptsAByte(behind: seq<bv8>)
    ensures var s := Stream(behind, 0, 0, 0, true, 0);
            && s.Valid() && Outcome(s, 8) == NoError && Outcome(s, 9) == Overflow
            && s.Pos() >= 8 * s.dataSize
            && (Backed(s, 8) <==> behind != [])
            && (behind != [] ==> Written(s, 8, 0xFF).data == behind[0 := 0xFF])
  {
    var s := Stream(behind, 0, 0, 0, true, 0);
    if behind != [] {
      StoredBehindTheBuffer(s, 8, 0xFF);
      var d := Written(s, 8, 0xFF).data;
      hide Written, BitsOf, Test;
      AllOnes();
      forall k: nat | k < 8 ensures Test(d[0], k) { assert BitAt(d, k); }
      ByteOfOnes(d[0]);
      assert d == behind[0 := 0xFF];
    }
  }

  lemma AllOnes()
    ensures BitsOf(8, 0xFF) == seq(8, i => true)
  {
    assert Pow2(0) == 1 && Pow2(1) == 2 && Pow2(2) == 4 && Pow2(3) == 8;
    assert Pow2(4) == 16 && Pow2(5) == 32 && Pow2(6) == 64 && Pow2(7) == 128;
  }

  lemma ByteOfOnes(b: bv8)
    requires Test(b, 0) && Test(b, 1) && Test(b, 2) && Test(b, 3)
    requires Test(b, 4) && Test(b, 5) && Test(b, 6) && Test(b, 7)
    ensures b == 0xFF
  {
  }

  // ---- the bytes as numbers ----

  /** Bytes as one number, the first byte being the most significant. */
  function BigEndian(bytes: seq<bv8>): nat {
    if bytes == [] then 0 else 256 * BigEndian(bytes[..|bytes| - 1]) + Value(bytes[|bytes| - 1])
  }

  function Value(b: bv8): nat { b as nat }

  /** Fields as one number, each shifting those before it up by its width. */
  function Packed(fields: seq<Field>): nat {
    if fields == [] then 0
    else
      var f := fields[|fields| - 1];
      Packed(fields[..|fields| - 1]) * Pow2(f.width) + f.value % Pow2(f.width)
  }

  function One(bit: bool): nat { if bit then 1 else 0 }

  function Weigh(a: bool, b: bool, c: bool, d: bool, e: bool, f: bool, g: bool, h: bool): nat {
    128 * One(a) + 64 * One(b) + 32 * One(c) + 16 * One(d) + 8 * One(e) + 4 * One(f) + 2 * One(g) + One(h)
  }

  /** The value of a byte, bit by bit. */
  lemma ByteBits(b: bv8)
    ensures Value(b) == Weigh(Test(b, 0), Test(b, 1), Test(b, 2), Test(b, 3), Test(b, 4), Test(b, 5), Test(b, 6),
                              Test(b, 7))
  {
  }

  lemma EightBits(x: seq<bool>)
    requires |x| == 8
    ensures NumberOf(x) == Weigh(x[0], x[1], x[2], x[3], x[4], x[5], x[6], x[7])
  {
    assert Pow2(4) == 16;
    hide NumberOf, One, Pow2;
    FourBits(x[..4]);
    FourBits(x[4..]);
    NumberOfBoth(x[..4], x[4..]);
    assert x[..4] + x[4..] == x;
  }

  lemma FourBits(x: seq<bool>)
    requires |x| == 4
    ensures NumberOf(x) == 8 * One(x[0]) + 4 * One(x[1]) + 2 * One(x[2]) + One(x[3])
  {
    assert NumberOf(x[..0]) == 0;
    assert x[..4][..3] == x[..3] && x[..3][..2] == x[..2] && x[..2][..1] == x[..1] && x[..1][..0] == x[..0];
    assert NumberOf(x[..1]) == One(x[0]);
    assert NumberOf(x[..2]) == 2 * One(x[0]) + One(x[1]);
    assert NumberOf(x[..3]) == 4 * One(x[0]) + 2 * One(x[1]) + One(x[2]);
  }

  lemma {:induction false} NumberOfBoth(a: seq<bool>, b: seq<bool>)
    ensures NumberOf(a + b) == NumberOf(a) * Pow2(|b|) + NumberOf(b)
  {
    if b == [] {
      assert a + b == a;
    } else {
      var n := |b| - 1;
      NumberOfBoth(a, b[..n]);
      assert (a + b)[..|a + b| - 1] == a + b[..n];
      assert NumberOf(a) * Pow2(|b|) == 2 * (NumberOf(a) * Pow2(n));
    }
  }

  /** A byte is the number of its eight bits, most significant first. */
  lemma ByteIsNumber(d: seq<bv8>, i: nat)
    requires i < |d|
    ensures Value(d[i]) == NumberOf(Get(d, 8 * i, 8))
  {
    hide NumberOf, Test, Value;
    var x := Get(d, 8 * i, 8);
    forall j | 0 <= j < 8 ensures x[j] == Test(d[i], j) { BitInByte(d, i, j); }
    hide Get;
    ByteOfBits(d[i], x);
  }

  lemma ByteOfBits(b: bv8, x: seq<bool>)
    requires |x| == 8 && forall j :: 0 <= j < 8 ==> x[j] == Test(b, j)
    ensures Value(b) == NumberOf(x)
  {
    hide NumberOf, Test, Weigh, Value;
    ByteBits(b);
    EightBits(x);
    assert x[0] == Test(b, 0) && x[1] == Test(b, 1) && x[2] == Test(b, 2) && x[3] == Test(b, 3);
    assert x[4] == Test(b, 4) && x[5] == Test(b, 5) && x[6] == Test(b, 6) && x[7] == Test(b, 7);
  }

  lemma BitInByte(d: seq<bv8>, i: nat, j: nat)
    requires i < |d| && j < 8
    ensures BitAt(d, 8 * i + j) == Test(d[i], j)
  {
    assert (8 * i + j) / 8 == i;
  }

  lemma {:induction false} BytesAreNumber(d: seq<bv8>, i: nat, n: nat)
    requires i + n <= |d|
    ensures BigEndian(d[i..i + n]) == NumberOf(Get(d, 8 * i, 8 * n))
    decreases n
  {
    hide NumberOf, BitAt, Value;
    if n == 0 {
      assert Get(d, 8 * i, 0) == [];
      GetNothing(d, 8 * i);
    } else {
      BytesAreNumber(d, i, n - 1);
      assert d[i..i + n][..n - 1] == d[i..i + n - 1];
      ByteIsNumber(d, i + n - 1);
      var (a, b) := (Get(d, 8 * i, 8 * (n - 1)), Get(d, 8 * (i + n - 1), 8));
      assert Get(d, 8 * i, 8 * n) == a + b;
      NumberOfBoth(a, b);
      SmallPowers();
    }
  }

  lemma {:induction false} PackedIsNumber(fields: seq<Field>)
    ensures NumberOf(Encode(fields)) == Packed(fields)
  {
    hide NumberOf, BitsOf, Pow2;
    if fields == [] {
      NumberOfNothing();
    } else {
      var n, f := |fields| - 1, fields[|fields| - 1];
      PackedIsNumber(fields[..n]);
      BitsThenNumber(f.width, f.value);
      BitsLength(f);
      NumberOfBoth(Encode(fields[..n]), BitsOf(f.width, f.value));
    }
  }

  lemma NumberOfNothing()
    ensures NumberOf([]) == 0
  {
  }

  lemma {:induction false} ClearBits(n: nat)
    ensures NumberOf(seq(n, i => false)) == 0
  {
    if n > 0 {
      ClearBits(n - 1);
      assert seq(n, i => false)[..n - 1] == seq(n - 1, i => false);
    }
  }

  /** Bits followed by clear ones. */
  lemma Padded(bits: seq<bool>, n: nat)
    ensures NumberOf(bits + seq(n, i => false)) == NumberOf(bits) * Pow2(n)
  {
    ClearBits(n);
    NumberOfBoth(bits, seq(n, i => false));
  }

  /** The bits of everything that was written, padded with zeros up to the end of the last byte. */
  lemma WrittenBits(s: Stream, fields: seq<Field>)
    requires s.Valid() && AtStart(s) && Accepted(s, fields)
    ensures var (t, o) := (WriteAll(s, fields), s.flagBytePos);
            var n := (Total(fields) + 7) / 8;
            && |Encode(fields)| == Total(fields) && o + n <= |t.data|
            && Get(t.data, 8 * o, 8 * n) == Encode(fields) + seq(8 * n - Total(fields), i => false)
  {
    hide BitAt, Put, Encode, Total, WriteAll, Typed, Stream.Moved, Blank;
    WriteAllMeans(s, fields);
    WrittenSpan(s, fields);
    NothingBlank(s);
    PutThenGet(s.data, s.Pos(), Encode(fields));
    var (t, o) := (WriteAll(s, fields), s.flagBytePos);
    var n := (Total(fields) + 7) / 8;
    var all := Get(t.data, 8 * o, 8 * n);
    assert Get(t.data, 8 * o, Total(fields)) == Encode(fields);
    forall k | 0 <= k < 8 * n
      ensures all[k] == (Encode(fields) + seq(8 * n - Total(fields), i => false))[k]
    {
      if k < Total(fields) { assert all[k] == Get(t.data, 8 * o, Total(fields))[k]; }
    }
  }

  /** The bytes of a message are one number: its fields packed one behind the other, most significant bit first, and
      zeros up to the end of the last byte. */
  lemma WrittenNumber(s: Stream, fields: seq<Field>)
    requires s.Valid() && AtStart(s) && Accepted(s, fields)
    ensures var (t, o) := (WriteAll(s, fields), s.flagBytePos);
            var n := (Total(fields) + 7) / 8;
            o + n <= |t.data| && BigEndian(t.data[o..o + n]) == Packed(fields) * Pow2(8 * n - Total(fields))
  {
    hide NumberOf, BitAt, Encode, Total, WriteAll, Pow2, Value, BigEndian, Packed;
    var (t, o) := (WriteAll(s, fields), s.flagBytePos);
    var n := (Total(fields) + 7) / 8;
    WrittenBits(s, fields);
    BytesAreNumber(t.data, o, n);
    Padded(Encode(fields), 8 * n - Total(fields));
    PackedIsNumber(fields);
  }

  /** Every byte the fields fill is the number of its eight bits of the message, the last one that of what is left
      padded with zeros. */
  lemma WrittenBytes(s: Stream, fields: seq<Field>, i: nat)
    requires s.Valid() && AtStart(s) && Accepted(s, fields) && 8 * i < Total(fields)
    ensures var (t, o, rest) := (WriteAll(s, fields), s.flagBytePos, Total(fields) - 8 * i);
            && o + i < |t.data| && |Encode(fields)| == Total(fields)
            && Value(t.data[o + i]) ==
               if rest >= 8 then NumberOf(Encode(fields)[8 * i..8 * i + 8])
               else NumberOf(Encode(fields)[8 * i..]) * Pow2(8 - rest)
  {
    hide NumberOf, BitAt, Get, Encode, Total, WriteAll, Pow2, Value;
    WrittenBits(s, fields);
    ByteOfMessage(WriteAll(s, fields).data, s.flagBytePos, Encode(fields), i);
  }

  /** One byte of a padded message. */
  lemma ByteOfMessage(d: seq<bv8>, o: nat, bits: seq<bool>, i: nat)
    requires 8 * i < |bits| && o + (|bits| + 7) / 8 <= |d|
    requires var n := (|bits| + 7) / 8; Get(d, 8 * o, 8 * n) == bits + seq(8 * n - |bits|, i => false)
    ensures Value(d[o + i]) == if |bits| - 8 * i >= 8 then NumberOf(bits[8 * i..8 * i + 8])
                               else NumberOf(bits[8 * i..]) * Pow2(8 - (|bits| - 8 * i))
  {
    hide NumberOf, Get, Pow2, Value;
    var n := (|bits| + 7) / 8;
    ByteIsNumber(d, o + i);
    EightOf(d, 8 * o, 8 * n, 8 * i);
    EightOfPadded(bits, 8 * n - |bits|, 8 * i);
    if |bits| - 8 * i < 8 { Padded(bits[8 * i..], 8 - (|bits| - 8 * i)); }
  }

  lemma EightOf(d: seq<bv8>, k: nat, n: nat, j: nat)
    requires k + n <= 8 * |d| && j + 8 <= n
    ensures Get(d, k + j, 8) == Get(d, k, n)[j..j + 8]
  {
    hide BitAt;
  }

  lemma EightOfPadded(bits: seq<bool>, n: nat, j: nat)
    requires j < |bits| && j + 8 <= |bits| + n
    ensures (bits + seq(n, i => false))[j..j + 8] ==
            if j + 8 <= |bits| then bits[j..j + 8] else bits[j..] + seq(8 - (|bits| - j), i => false)
  {
  }

  /** At the start of a byte an octet is stored as it is. */
  lemma OctetStored(s: Stream, value: nat)
    requires s.Valid() && Backed(s, 8) && Outcome(s, 8) == NoError && s.Pos() % 8 == 0 && value < 256
    ensures var (t, p) := (Written(s, 8, value), s.Pos() / 8);
            p < |s.data| == |t.data| && Value(t.data[p]) == value && t.data == s.data[p := t.data[p]]
  {
    hide BitAt, Put, BitsOf, NumberOf, Pow2, Stream.Moved, Stream.Room, Blank, Value;
    var (p, bits) := (s.Pos() / 8, BitsOf(8, value));
    BitsLength(Field(8, value));
    assert bits[..8] == bits;
    PutThenGet(s.data, s.Pos(), bits) by { AlignedIsBlank(s.data, s.Pos()); }
    PutFrame(s.data, s.Pos(), bits);
    ByteIsNumber(Put(s.data, s.Pos(), bits), p);
    BitsThenNumber(8, value);
    SmallPowers();
  }

  lemma AlignedIsBlank(d: seq<bv8>, k: nat)
    requires k % 8 == 0
    ensures Blank(d, k)
  {
    hide BitAt;
  }

  /** At the start of a byte whole bytes are read as a big-endian number. */
  lemma BytesRead(s: Stream, n: nat)
    requires s.Valid() && Backed(s, 8 * n) && Outcome(s, 8 * n) == NoError && s.Pos() % 8 == 0
    ensures var p := s.Pos() / 8;
            p + n <= |s.data| && ReadValue(s, 8 * n) == BigEndian(s.data[p..p + n])
  {
    hide BitAt, NumberOf, Value;
    BytesAreNumber(s.data, s.Pos() / 8, n);
  }

  /** What that is for the widths in use. */
  lemma BigEndianWords(a: bv8, b: bv8, c: bv8, d: bv8)
    ensures BigEndian([a]) == a as nat
    ensures BigEndian([a, b]) == 0x100 * a as nat + b as nat
    ensures BigEndian([a, b, c, d]) == 0x100_0000 * a as nat + 0x1_0000 * b as nat + 0x100 * c as nat + d as nat
  {
    assert [a][..0] == [] && [a, b][..1] == [a] && [a, b, c][..2] == [a, b] && [a, b, c, d][..3] == [a, b, c];
  }

  /** Not a mirror image: the top bit alone fills a byte as 0x80. */
  lemma TopBitFirst()
    ensures Written(Stream([0], 1, 0, 0, true, 0), 8, 0x80).data == [0x80]
  {
    var s := Stream([0], 1, 0, 0, true, 0);
    assert s.Valid() && Backed(s, 8) && Outcome(s, 8) == NoError && s.Pos() == 0;
    hide Written, Stream.Pos, Stream.Room;
    OctetStored(s, 0x80);
    ByteFromNumber(Written(s, 8, 0x80).data[0], 0x80);
  }

  lemma ByteFromNumber(b: bv8, c: bv8)
    requires b as nat == c as nat
    ensures b == c
  {
  }
}
