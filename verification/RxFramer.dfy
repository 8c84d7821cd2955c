/** The QCA7000 receive framer (platformio/esp32s3_slac_hlc_precharge/src/main.cpp): bytes arrive in bursts, frames
    are cut out of a fixed buffer in place, and anything that is not a frame is skipped one byte at a time. */
module RxFramer {
  import opened Messages

  const CAPACITY: nat := 4096
  const OVERHEAD: nat := 14
  const QUEUE_CAPACITY: nat := 8

  // ---- the batch parser ----

  predicate StartsFrame(b: seq<byte>)
    requires |b| >= OVERHEAD
  {
    b[4] == 0xAA && b[5] == 0xAA && b[6] == 0xAA && b[7] == 0xAA
  }

  /** The little-endian length field. */
  function FrameLength(b: seq<byte>): nat
    requires |b| >= OVERHEAD
  {
    b[8] as nat + 0x100 * b[9] as nat
  }

  /** A header worth waiting for: marker present and a length within bounds. */
  predicate Plausible(b: seq<byte>, maxFrame: nat)
    requires |b| >= OVERHEAD
  {
    var fl := FrameLength(b);
    StartsFrame(b) && 60 <= fl <= maxFrame && fl + OVERHEAD <= CAPACITY
  }

  datatype Parsing = Parsing(frames: seq<seq<byte>>, rest: seq<byte>)

  /** Cut every frame out of a byte string, skipping what is none; what may still become one is the rest. */
  function Parse(b: seq<byte>, maxFrame: nat): (p: Parsing)
    decreases |b|
  {
    if |b| < OVERHEAD then Parsing([], b)
    else if !Plausible(b, maxFrame) then Parse(b[1..], maxFrame)
    else
      var total := FrameLength(b) + OVERHEAD;
      if |b| < total then Parsing([], b)
      else if b[total - 2] == 0x55 && b[total - 1] == 0x55 then
        var p := Parse(b[total..], maxFrame);
        p.(frames := [b[12..total - 2]] + p.frames)
      else Parse(b[1..], maxFrame)
  }

  /** What is left waiting is the end of the input and shorter than the longest acceptable frame. */
  lemma {:induction false} RestIsShort(b: seq<byte>, maxFrame: nat)
    ensures var r := Parse(b, maxFrame).rest;
            && |r| <= maxFrame + 13 && |r| < CAPACITY
            && |r| <= |b| && r == b[|b| - |r|..]
    decreases |b|
  {
    hide Parse;
    if |b| < OVERHEAD {
      ParseStops(b, maxFrame);
    } else {
      ParseOnce(b, maxFrame);
      if !Plausible(b, maxFrame) {
        RestIsShort(b[1..], maxFrame);
      } else {
        var total := FrameLength(b) + OVERHEAD;
        if |b| >= total {
          RestIsShort(b[1..], maxFrame);
          RestIsShort(b[total..], maxFrame);
        }
      }
    }
  }

  /** Parsing can stop anywhere and go on with what was left plus what comes next. */
  lemma {:induction false} ParseGoesOn(a: seq<byte>, b: seq<byte>, maxFrame: nat)
    ensures var p := Parse(a, maxFrame);
            var q := Parse(p.rest + b, maxFrame);
            Parse(a + b, maxFrame) == Parsing(p.frames + q.frames, q.rest)
    decreases |a|
  {
    hide Parse;
    if |a| < OVERHEAD {
      ParseStops(a, maxFrame);
    } else {
      ParseOnce(a, maxFrame);
      SameHead(a, b);
      ParseOnce(a + b, maxFrame);
      var total := FrameLength(a) + OVERHEAD;
      DropOfSum(a, b, 1);
      if !Plausible(a, maxFrame) {
        ParseGoesOn(a[1..], b, maxFrame);
      } else if |a| >= total {
        if a[total - 2] == 0x55 && a[total - 1] == 0x55 {
          DropOfSum(a, b, total);
          assert (a + b)[12..total - 2] == a[12..total - 2];
          ParseGoesOn(a[total..], b, maxFrame);
          var p := Parse(a[total..], maxFrame);
          ConsAppend(a[12..total - 2], p.frames, Parse(p.rest + b, maxFrame).frames);
        } else {
          ParseGoesOn(a[1..], b, maxFrame);
        }
      }
    }
  }

  lemma DropOfSum(a: seq<byte>, b: seq<byte>, n: nat)
    requires n <= |a|
    ensures (a + b)[n..] == a[n..] + b
  {
  }

  /** A header is decided by its own bytes. */
  lemma SameHead(a: seq<byte>, b: seq<byte>)
    requires |a| >= OVERHEAD
    ensures StartsFrame(a + b) == StartsFrame(a) && FrameLength(a + b) == FrameLength(a)
  {
  }

  lemma ConsAppend(x: seq<byte>, a: seq<seq<byte>>, b: seq<seq<byte>>)
    ensures [x] + (a + b) == [x] + a + b
  {
  }

  // ---- one burst ----

  /** A burst is appended to what is left over; a buffer that cannot take it is emptied first. */
  function Absorb(rest: seq<byte>, chunk: seq<byte>, maxFrame: nat): Parsing {
    if chunk == [] then Parsing([], rest)
    else if |chunk| > CAPACITY then Parsing([], if |rest| + |chunk| > CAPACITY then [] else rest)
    else Parse((if |rest| + |chunk| > CAPACITY then [] else rest) + chunk, maxFrame)
  }

  class Framer {
    const maxFrame: nat
    const stream: array<byte>
    var length: nat
    var dispatched: seq<seq<byte>>

    ghost predicate Valid()
      reads this
    {
      stream.Length == CAPACITY && length <= CAPACITY
    }

    ghost function Buffered(): seq<byte>
      requires Valid()
      reads this, stream
    {
      stream[..length]
    }

    constructor (maxFrame: nat)
      ensures Valid() && fresh(stream) && this.maxFrame == maxFrame && Buffered() == [] && dispatched == []
    {
      this.maxFrame := maxFrame;
      stream := new byte[CAPACITY](i => 0);
      length := 0;
      dispatched := [];
    }

    /** process_rx_stream on a burst that has just been read. */
    method Process(chunk: seq<byte>)
      requires Valid()
      modifies this, stream
      ensures Valid()
      ensures var p := Absorb(old(Buffered()), chunk, maxFrame);
              Buffered() == p.rest && dispatched == old(dispatched) + p.frames
    {
      hide Parse, Plausible;
      if |chunk| == 0 { return; }
      if length + |chunk| > CAPACITY { length := 0; }
      if |chunk| > CAPACITY { return; }
      Append(chunk);
      var pos := Scan();
      if pos > 0 { Compact(pos); }
    }

    method Append(chunk: seq<byte>)
      requires Valid() && length + |chunk| <= CAPACITY
      modifies this`length, stream
      ensures Valid() && Buffered() == old(Buffered()) + chunk
    {
      forall i | 0 <= i < |chunk| { stream[length + i] := chunk[i]; }
      length := length + |chunk|;
    }

    /** What has been scanned goes, the rest moves to the front. */
    method Compact(pos: nat)
      requires Valid() && pos <= length
      modifies this`length, stream
      ensures Valid() && Buffered() == old(stream[pos..length])
    {
      forall i | 0 <= i < length - pos { stream[i] := stream[pos + i]; }
      length := length - pos;
    }

    /** The scanning loop: dispatches the frames and returns where the leftover starts. */
    method Scan() returns (pos: nat)
      requires Valid()
      modifies this`dispatched
      ensures pos <= length
      ensures var p := Parse(Buffered(), maxFrame);
              stream[pos..length] == p.rest && dispatched == old(dispatched) + p.frames
    {
      hide Parse, Scanned;
      pos := 0;
      ghost var s, before := stream[..length], dispatched;
      ScanStarts(s, before, maxFrame);
      while length - pos >= 14
        invariant 0 <= pos <= length && Scanned(s, pos, before, dispatched, maxFrame)
        decreases length - pos
      {
        ScanOnce(s, pos, maxFrame);
        ScanGoesOn(s, pos, before, dispatched, maxFrame);
        var sofOk :=
          stream[pos + 4] == 0xAA && stream[pos + 5] == 0xAA && stream[pos + 6] == 0xAA && stream[pos + 7] == 0xAA;
        if !sofOk {
          pos := pos + 1;
          continue;
        }
        var fl := stream[pos + 8] as nat + 0x100 * stream[pos + 9] as nat;
        var total := fl + 14;
        if fl < 60 || fl > maxFrame || total > CAPACITY {
          pos := pos + 1;
          continue;
        }
        if length - pos < total { break; }
        if stream[pos + total - 2] == 0x55 && stream[pos + total - 1] == 0x55 {
          var frame := stream[pos + 12..pos + 12 + fl];
          SameBytes(stream, length, pos + 12, pos + 12 + fl);
          ScanCuts(s, pos, total, frame, before, dispatched, maxFrame);
          dispatched := dispatched + [frame];
          pos := pos + total;
          continue;
        }
        pos := pos + 1;
      }
      SameBytes(stream, length, pos, length);
      ScanEnds(s, pos, before, dispatched, maxFrame);
    }
  }

  /** Up to pos the scan of s has given what parsing it gives. */
  ghost predicate Scanned(s: seq<byte>, pos: nat, before: seq<seq<byte>>, now: seq<seq<byte>>, maxFrame: nat)
    requires pos <= |s|
  {
    var p := Parse(s[pos..], maxFrame);
    Parse(s, maxFrame).rest == p.rest && before + Parse(s, maxFrame).frames == now + p.frames
  }

  lemma ScanStarts(s: seq<byte>, before: seq<seq<byte>>, maxFrame: nat)
    ensures Scanned(s, 0, before, before, maxFrame)
  {
    assert s[0..] == s;
  }

  lemma ScanGoesOn(s: seq<byte>, pos: nat, before: seq<seq<byte>>, now: seq<seq<byte>>, maxFrame: nat)
    requires pos < |s| && Scanned(s, pos, before, now, maxFrame)
    ensures Parse(s[pos..], maxFrame) == Parse(s[pos + 1..], maxFrame) ==> Scanned(s, pos + 1, before, now, maxFrame)
  {
    hide Parse;
  }

  lemma ScanCuts(s: seq<byte>, pos: nat, total: nat, frame: seq<byte>, before: seq<seq<byte>>, now: seq<seq<byte>>,
                 maxFrame: nat)
    requires pos + total <= |s| && Scanned(s, pos, before, now, maxFrame)
    requires var q := Parse(s[pos + total..], maxFrame);
             Parse(s[pos..], maxFrame) == Parsing([frame] + q.frames, q.rest)
    ensures Scanned(s, pos + total, before, now + [frame], maxFrame)
  {
    hide Parse;
    AppendCons(now, frame, Parse(s[pos + total..], maxFrame).frames);
  }

  lemma ScanEnds(s: seq<byte>, pos: nat, before: seq<seq<byte>>, now: seq<seq<byte>>, maxFrame: nat)
    requires pos <= |s| && Scanned(s, pos, before, now, maxFrame)
    requires |s| - pos < OVERHEAD || Parse(s[pos..], maxFrame) == Parsing([], s[pos..])
    ensures Parse(s, maxFrame).rest == s[pos..] && now == before + Parse(s, maxFrame).frames
  {
    hide Parse;
    ParseStops(s[pos..], maxFrame);
  }

  lemma SameBytes(a: array<byte>, n: nat, i: nat, j: nat)
    requires i <= j <= n <= a.Length
    ensures a[i..j] == a[..n][i..j] && a[..n][i..n] == a[..n][i..]
  {
    assert forall k :: 0 <= k < j - i ==> a[i..j][k] == a[..n][i..j][k];
  }

  /** One turn of the scanning loop, in terms of the buffer. */
  lemma ScanOnce(s: seq<byte>, pos: nat, maxFrame: nat)
    requires pos + OVERHEAD <= |s|
    ensures var p := Parse(s[pos..], maxFrame);
            var sofOk := s[pos + 4] == 0xAA && s[pos + 5] == 0xAA && s[pos + 6] == 0xAA && s[pos + 7] == 0xAA;
            var fl := s[pos + 8] as nat + 0x100 * s[pos + 9] as nat;
            var total := fl + OVERHEAD;
            if !sofOk || fl < 60 || fl > maxFrame || total > CAPACITY then p == Parse(s[pos + 1..], maxFrame)
            else if |s| - pos < total then p == Parsing([], s[pos..])
            else if s[pos + total - 2] == 0x55 && s[pos + total - 1] == 0x55 then
              var q := Parse(s[pos + total..], maxFrame);
              p == Parsing([s[pos + 12..pos + 12 + fl]] + q.frames, q.rest)
            else p == Parse(s[pos + 1..], maxFrame)
  {
    hide Parse;
    var b := s[pos..];
    ParseOnce(b, maxFrame);
    var fl := FrameLength(b);
    assert b[1..] == s[pos + 1..];
    if fl + OVERHEAD <= |b| {
      assert b[12..fl + 12] == s[pos + 12..pos + 12 + fl];
      assert b[fl + OVERHEAD..] == s[pos + fl + OVERHEAD..];
    }
  }

  lemma AppendCons(a: seq<seq<byte>>, x: seq<byte>, b: seq<seq<byte>>)
    ensures a + ([x] + b) == a + [x] + b
  {
  }

  lemma ParseOnce(b: seq<byte>, maxFrame: nat)
    requires |b| >= OVERHEAD
    ensures var p := Parse(b, maxFrame);
            var total := FrameLength(b) + OVERHEAD;
            if !Plausible(b, maxFrame) then p == Parse(b[1..], maxFrame)
            else if |b| < total then p == Parsing([], b)
            else if b[total - 2] == 0x55 && b[total - 1] == 0x55 then
              var q := Parse(b[total..], maxFrame);
              p == Parsing([b[12..total - 2]] + q.frames, q.rest)
            else p == Parse(b[1..], maxFrame)
  {
  }

  lemma ParseStops(b: seq<byte>, maxFrame: nat)
    ensures |b| < OVERHEAD ==> Parse(b, maxFrame) == Parsing([], b)
  {
  }

  // ---- any number of bursts ----

  function Concat(chunks: seq<seq<byte>>): seq<byte> {
    if chunks == [] then [] else Concat(chunks[..|chunks| - 1]) + chunks[|chunks| - 1]
  }

  /** The bursts of a run, one after the other from an empty buffer. */
  function Run(chunks: seq<seq<byte>>, maxFrame: nat): Parsing {
    if chunks == [] then Parsing([], [])
    else
      var before := Run(chunks[..|chunks| - 1], maxFrame);
      var p := Absorb(before.rest, chunks[|chunks| - 1], maxFrame);
      Parsing(before.frames + p.frames, p.rest)
  }

  predicate Deliverable(chunks: seq<seq<byte>>) { forall i :: 0 <= i < |chunks| ==> |chunks[i]| <= CAPACITY }

  /** Burst i does not fit next to what the bursts before it left over. */
  predicate Overflows(chunks: seq<seq<byte>>, i: nat, maxFrame: nat)
    requires i < |chunks|
  {
    |Run(chunks[..i], maxFrame).rest| + |chunks[i]| > CAPACITY
  }

  /** The latest burst that emptied the buffer first; 0 if none did. */
  function LastReset(chunks: seq<seq<byte>>, maxFrame: nat): (k: nat)
    ensures k <= |chunks|
  {
    if chunks == [] then 0
    else
      var n := |chunks| - 1;
      if Overflows(chunks, n, maxFrame) then n else LastReset(chunks[..n], maxFrame)
  }

  /** After any run the leftover is that of one parse of everything since the latest overflowing burst, and the
      frames are those of that parse after those of the run before the burst: each overflow costs exactly what was
      left over when it came. */
  lemma {:induction false} RunSinceReset(chunks: seq<seq<byte>>, maxFrame: nat)
    requires Deliverable(chunks)
    ensures var k := LastReset(chunks, maxFrame);
            var p := Parse(Concat(chunks[k..]), maxFrame);
            Run(chunks, maxFrame) == Parsing(Run(chunks[..k], maxFrame).frames + p.frames, p.rest)
    decreases |chunks|
  {
    hide Parse;
    if chunks == [] {
      ParseStops([], maxFrame);
    } else {
      var n, chunk := |chunks| - 1, chunks[|chunks| - 1];
      var k := LastReset(chunks[..n], maxFrame);
      RunSinceReset(chunks[..n], maxFrame);
      RestIsShort(Concat(chunks[..n][k..]), maxFrame);
      var before := Run(chunks[..n], maxFrame);
      hide Run, LastReset, Concat;
      RunOnce(chunks, maxFrame);
      LastResetOnce(chunks, maxFrame);
      if Overflows(chunks, n, maxFrame) {
        assert chunks[n..] == [chunk];
        ConcatOne(chunk);
      } else {
        assert chunks[..n][..k] == chunks[..k];
        ConcatFrom(chunks, k);
        OneMoreBurst(Run(chunks[..k], maxFrame).frames, before, Concat(chunks[..n][k..]), chunk, maxFrame);
      }
    }
  }

  lemma RunOnce(chunks: seq<seq<byte>>, maxFrame: nat)
    requires chunks != []
    ensures var n := |chunks| - 1;
            var before := Run(chunks[..n], maxFrame);
            var p := Absorb(before.rest, chunks[n], maxFrame);
            Run(chunks, maxFrame) == Parsing(before.frames + p.frames, p.rest)
  {
  }

  lemma LastResetOnce(chunks: seq<seq<byte>>, maxFrame: nat)
    requires chunks != []
    ensures var n := |chunks| - 1;
            LastReset(chunks, maxFrame) ==
            if Overflows(chunks, n, maxFrame) then n else LastReset(chunks[..n], maxFrame)
  {
  }

  lemma ConcatOne(chunk: seq<byte>)
    ensures Concat([chunk]) == chunk && [] + chunk == chunk
  {
    assert [chunk][..0] == [];
  }

  lemma ConcatFrom(chunks: seq<seq<byte>>, k: nat)
    requires k < |chunks|
    ensures Concat(chunks[k..]) == Concat(chunks[..|chunks| - 1][k..]) + chunks[|chunks| - 1]
  {
    assert chunks[k..][..|chunks[k..]| - 1] == chunks[..|chunks| - 1][k..];
  }

  lemma OneMoreBurst(sent: seq<seq<byte>>, before: Parsing, b: seq<byte>, chunk: seq<byte>, maxFrame: nat)
    requires before == Parsing(sent + Parse(b, maxFrame).frames, Parse(b, maxFrame).rest)
    requires |before.rest| + |chunk| <= CAPACITY
    ensures var (p, q) := (Absorb(before.rest, chunk, maxFrame), Parse(b + chunk, maxFrame));
            before.frames + p.frames == sent + q.frames && p.rest == q.rest
  {
    hide Parse;
    if chunk == [] {
      assert b + [] == b;
    } else {
      ParseGoesOn(b, chunk, maxFrame);
    }
  }

  predicate NeverOverflows(chunks: seq<seq<byte>>, maxFrame: nat) {
    forall i :: 0 <= i < |chunks| ==> !Overflows(chunks, i, maxFrame)
  }

  /** However a byte stream is cut into bursts, as long as each fits next to the leftover before it, the frames
      dispatched and the bytes left over are those of one parse of the whole. */
  lemma IncrementalIsBatch(chunks: seq<seq<byte>>, maxFrame: nat)
    requires NeverOverflows(chunks, maxFrame)
    ensures Run(chunks, maxFrame) == Parse(Concat(chunks), maxFrame)
  {
    hide Run, Parse, Concat, LastReset;
    NoReset(chunks, maxFrame);
    RunSinceReset(chunks, maxFrame);
    assert chunks[0..] == chunks;
    RunOfNothing(chunks, maxFrame);
  }

  lemma RunOfNothing(chunks: seq<seq<byte>>, maxFrame: nat)
    ensures Run(chunks[..0], maxFrame) == Parsing([], [])
  {
  }

  lemma {:induction false} NoReset(chunks: seq<seq<byte>>, maxFrame: nat)
    requires NeverOverflows(chunks, maxFrame)
    ensures LastReset(chunks, maxFrame) == 0 && Deliverable(chunks)
    decreases |chunks|
  {
    hide Run;
    forall i | 0 <= i < |chunks| ensures |chunks[i]| <= CAPACITY {
      assert !Overflows(chunks, i, maxFrame);
    }
    if chunks != [] {
      var n := |chunks| - 1;
      forall i | 0 <= i < n ensures !Overflows(chunks[..n], i, maxFrame) {
        assert chunks[..n][..i] == chunks[..i];
        assert !Overflows(chunks, i, maxFrame);
      }
      NoReset(chunks[..n], maxFrame);
      assert !Overflows(chunks, n, maxFrame);
    }
  }

  /** Bursts small enough for the buffer next to the longest possible leftover. */
  predicate SmallChunks(chunks: seq<seq<byte>>, maxFrame: nat) {
    forall i :: 0 <= i < |chunks| ==> |chunks[i]| + maxFrame + 13 <= CAPACITY
  }

  /** Such bursts never overflow, whatever they carry. */
  lemma {:induction false} SmallChunksFit(chunks: seq<seq<byte>>, maxFrame: nat)
    requires SmallChunks(chunks, maxFrame)
    ensures NeverOverflows(chunks, maxFrame)
    decreases |chunks|
  {
    hide Run, Parse, Concat;
    if chunks != [] {
      var n := |chunks| - 1;
      SmallChunksFit(chunks[..n], maxFrame);
      IncrementalIsBatch(chunks[..n], maxFrame);
      RestIsShort(Concat(chunks[..n]), maxFrame);
      forall i | 0 <= i < |chunks| ensures !Overflows(chunks, i, maxFrame) {
        if i < n {
          assert chunks[..n][..i] == chunks[..i];
          assert !Overflows(chunks[..n], i, maxFrame);
        }
      }
    }
  }

  /** Cutting does not matter. */
  lemma CutsDoNotMatter(a: seq<seq<byte>>, b: seq<seq<byte>>, maxFrame: nat)
    requires NeverOverflows(a, maxFrame) && NeverOverflows(b, maxFrame) && Concat(a) == Concat(b)
    ensures Run(a, maxFrame) == Run(b, maxFrame)
  {
    hide Run, Parse, Concat, NeverOverflows;
    IncrementalIsBatch(a, maxFrame);
    IncrementalIsBatch(b, maxFrame);
  }

  // ---- what the chip sends ----

  /** A frame as the QCA7000 wraps it: four bytes of its own, the marker, the length, two bytes reserved, the frame
      and the trailer. */
  predicate Envelope(e: seq<byte>, frame: seq<byte>) {
    && |e| == |frame| + OVERHEAD
    && |frame| < 0x1_0000
    && e[4] == 0xAA && e[5] == 0xAA && e[6] == 0xAA && e[7] == 0xAA
    && e[8] as nat + 0x100 * e[9] as nat == |frame|
    && e[12..|e| - 2] == frame
    && e[|e| - 2] == 0x55 && e[|e| - 1] == 0x55
  }

  predicate Acceptable(frame: seq<byte>, maxFrame: nat) {
    60 <= |frame| <= maxFrame && |frame| + OVERHEAD <= CAPACITY
  }

  predicate Envelopes(es: seq<seq<byte>>, frames: seq<seq<byte>>, maxFrame: nat) {
    && |es| == |frames|
    && (forall i :: 0 <= i < |es| ==> Envelope(es[i], frames[i]) && Acceptable(frames[i], maxFrame))
  }

  function Join(es: seq<seq<byte>>): seq<byte> { if es == [] then [] else es[0] + Join(es[1..]) }

  /** Wrapped frames sent back to back come out exactly, and nothing is left over. */
  lemma {:induction false} EnvelopesAreRecovered(es: seq<seq<byte>>, frames: seq<seq<byte>>, maxFrame: nat)
    requires Envelopes(es, frames, maxFrame)
    ensures Parse(Join(es), maxFrame) == Parsing(frames, [])
    decreases |es|
  {
    hide Parse;
    if es == [] {
      ParseStops([], maxFrame);
    } else {
      var b, e := Join(es), es[0];
      EnvelopesAreRecovered(es[1..], frames[1..], maxFrame);
      assert b[..|e|] == e && b[|e|..] == Join(es[1..]);
      assert b[12..|e| - 2] == e[12..|e| - 2];
      ParseOnce(b, maxFrame);
    }
  }

  /** The same through the buffer, in whatever bursts the bytes are read. */
  lemma FramesSurviveAnyCut(es: seq<seq<byte>>, frames: seq<seq<byte>>, chunks: seq<seq<byte>>, maxFrame: nat)
    requires Envelopes(es, frames, maxFrame) && NeverOverflows(chunks, maxFrame) && Concat(chunks) == Join(es)
    ensures Run(chunks, maxFrame) == Parsing(frames, [])
  {
    IncrementalIsBatch(chunks, maxFrame);
    EnvelopesAreRecovered(es, frames, maxFrame);
  }

  predicate EnvelopedAt(b: seq<byte>, at: nat, frame: seq<byte>) {
    at + |frame| + OVERHEAD <= |b| && Envelope(b[at..at + |frame| + OVERHEAD], frame)
  }

  lemma EnvelopedLater(b: seq<byte>, skip: nat, at: nat, frame: seq<byte>)
    requires skip <= |b| && EnvelopedAt(b[skip..], at, frame)
    ensures EnvelopedAt(b, skip + at, frame)
  {
    hide Envelope;
    assert b[skip..][at..at + |frame| + OVERHEAD] == b[skip + at..skip + at + |frame| + OVERHEAD];
  }

  lemma EnvelopedHere(b: seq<byte>, maxFrame: nat)
    requires |b| >= OVERHEAD && Plausible(b, maxFrame) && |b| >= FrameLength(b) + OVERHEAD
    requires var total := FrameLength(b) + OVERHEAD; b[total - 2] == 0x55 && b[total - 1] == 0x55
    ensures var f := b[12..FrameLength(b) + 12]; EnvelopedAt(b, 0, f) && Acceptable(f, maxFrame)
  {
    var total := FrameLength(b) + OVERHEAD;
    var e := b[0..total];
    assert e[12..total - 2] == b[12..total - 2];
  }

  /** Whatever the input, every frame dispatched stood in it inside an envelope of acceptable size. */
  lemma {:induction false} DispatchedWasEnveloped(b: seq<byte>, maxFrame: nat, k: nat)
    requires k < |Parse(b, maxFrame).frames|
    ensures var f := Parse(b, maxFrame).frames[k];
            Acceptable(f, maxFrame) && exists at: nat :: EnvelopedAt(b, at, f)
    decreases |b|
  {
    hide Parse, EnvelopedAt, Acceptable;
    ParseStops(b, maxFrame);
    ParseOnce(b, maxFrame);
    var f := Parse(b, maxFrame).frames[k];
    var total := FrameLength(b) + OVERHEAD;
    if Plausible(b, maxFrame) && |b| >= total && b[total - 2] == 0x55 && b[total - 1] == 0x55 {
      if k == 0 {
        EnvelopedHere(b, maxFrame);
      } else {
        DispatchedWasEnveloped(b[total..], maxFrame, k - 1);
        var at: nat :| EnvelopedAt(b[total..], at, f);
        EnvelopedLater(b, total, at, f);
      }
    } else {
      DispatchedWasEnveloped(b[1..], maxFrame, k);
      var at: nat :| EnvelopedAt(b[1..], at, f);
      EnvelopedLater(b, 1, at, f);
    }
  }

  // ---- what is cut out, said by positions ----

  function LengthAt(b: seq<byte>, at: nat): nat
    requires at + 14 <= |b|
  {
    b[at + 8] as nat + 0x100 * b[at + 9] as nat
  }

  /** A marker with an acceptable length stands here. */
  predicate HeaderAt(b: seq<byte>, at: nat, maxFrame: nat) {
    at + 14 <= |b| && b[at + 4] == 0xAA && b[at + 5] == 0xAA && b[at + 6] == 0xAA && b[at + 7] == 0xAA &&
    60 <= LengthAt(b, at) <= maxFrame && LengthAt(b, at) + 14 <= 4096
  }

  /** Its frame is still coming. */
  predicate WaitsAt(b: seq<byte>, at: nat, maxFrame: nat) {
    HeaderAt(b, at, maxFrame) && at + LengthAt(b, at) + 14 > |b|
  }

  /** Its frame is there, with the trailer. */
  predicate FrameAt(b: seq<byte>, at: nat, maxFrame: nat) {
    HeaderAt(b, at, maxFrame) && at + LengthAt(b, at) + 14 <= |b| &&
    b[at + LengthAt(b, at) + 12] == 0x55 && b[at + LengthAt(b, at) + 13] == 0x55
  }

  /** The scan stops here: too few bytes, a frame still coming, or a frame. */
  predicate StopsAt(b: seq<byte>, at: nat, maxFrame: nat) {
    |b| < at + 14 || WaitsAt(b, at, maxFrame) || FrameAt(b, at, maxFrame)
  }

  /** Everything before the first place to stop is skipped, and nothing else: a frame that starts there is dispatched
      and the scan goes on behind it, otherwise the rest is kept from there on. */
  lemma {:induction false} FirstPlaceDecides(b: seq<byte>, n: nat, maxFrame: nat)
    requires n <= |b| && StopsAt(b, n, maxFrame) && forall i: nat :: i < n ==> !StopsAt(b, i, maxFrame)
    ensures Parse(b, maxFrame) ==
            if !FrameAt(b, n, maxFrame) then Parsing([], b[n..])
            else
              var end := n + LengthAt(b, n) + 14;
              var q := Parse(b[end..], maxFrame);
              Parsing([b[n + 12..end - 2]] + q.frames, q.rest)
    decreases |b|
  {
    hide Parse, StopsAt, FrameAt;
    if n == 0 {
      FrontDecides(b, maxFrame);
    } else {
      assert !StopsAt(b, 0, maxFrame);
      SkipsOne(b, maxFrame);
      forall i: nat | i < n ensures StopsAt(b[1..], i, maxFrame) == StopsAt(b, i + 1, maxFrame) {
        OneOn(b, i, maxFrame);
      }
      OneOn(b, n - 1, maxFrame);
      FirstPlaceDecides(b[1..], n - 1, maxFrame);
      assert b[1..][n - 1..] == b[n..];
      if FrameAt(b, n, maxFrame) {
        FrameFits(b, n, maxFrame);
        var end := n + LengthAt(b, n) + 14;
        assert b[1..][end - 1..] == b[end..] && b[1..][n + 11..end - 3] == b[n + 12..end - 2];
      }
    }
  }

  lemma FrameFits(b: seq<byte>, at: nat, maxFrame: nat)
    requires FrameAt(b, at, maxFrame)
    ensures at + 14 <= |b| && 60 <= LengthAt(b, at) && at + LengthAt(b, at) + 14 <= |b|
  {
  }

  lemma SkipsOne(b: seq<byte>, maxFrame: nat)
    requires !StopsAt(b, 0, maxFrame)
    ensures |b| >= 14 && Parse(b, maxFrame) == Parse(b[1..], maxFrame)
  {
    hide Parse, Plausible, HeaderAt;
    StopsHere(b, maxFrame);
    ParseOnce(b, maxFrame);
  }

  lemma FrontDecides(b: seq<byte>, maxFrame: nat)
    requires StopsAt(b, 0, maxFrame)
    ensures FrameAt(b, 0, maxFrame) ==> LengthAt(b, 0) + 14 <= |b|
    ensures Parse(b, maxFrame) ==
            if !FrameAt(b, 0, maxFrame) then Parsing([], b[0..])
            else
              var end := LengthAt(b, 0) + 14;
              var q := Parse(b[end..], maxFrame);
              Parsing([b[12..end - 2]] + q.frames, q.rest)
  {
    hide Parse, Plausible, HeaderAt;
    StopsHere(b, maxFrame);
    ParseStops(b, maxFrame);
    if |b| >= 14 { ParseOnce(b, maxFrame); }
    assert b[0..] == b;
  }

  lemma OneOn(b: seq<byte>, i: nat, maxFrame: nat)
    requires i < |b|
    ensures StopsAt(b[1..], i, maxFrame) == StopsAt(b, i + 1, maxFrame)
    ensures FrameAt(b[1..], i, maxFrame) == FrameAt(b, i + 1, maxFrame)
    ensures i + 15 <= |b| ==> LengthAt(b[1..], i) == LengthAt(b, i + 1)
  {
  }

  /** At the front. */
  lemma StopsHere(b: seq<byte>, maxFrame: nat)
    ensures |b| >= 14 ==> FrameLength(b) == LengthAt(b, 0)
    ensures |b| >= 14 ==> (Plausible(b, maxFrame) <==> HeaderAt(b, 0, maxFrame))
    ensures StopsAt(b, 0, maxFrame) <==> |b| < 14 || WaitsAt(b, 0, maxFrame) || FrameAt(b, 0, maxFrame)
  {
  }

  // ---- the queue behind it ----

  /** Where the i-th waiting frame lies. */
  function Slot(head: nat, i: nat): (k: nat)
    ensures k < QUEUE_CAPACITY
  {
    (head + i) % QUEUE_CAPACITY
  }

  lemma SlotIsFree(head: nat, count: nat, i: nat)
    requires head < QUEUE_CAPACITY && i < count < QUEUE_CAPACITY
    ensures Slot(head, i) != Slot(head, count)
  {
  }

  /** The waiting frames of a ring, oldest first. */
  function Waiting(slots: seq<seq<byte>>, head: nat, count: nat): (w: seq<seq<byte>>)
    requires |slots| == QUEUE_CAPACITY
    ensures |w| == count
  {
    seq(count, i requires 0 <= i < count => slots[Slot(head, i)])
  }

  lemma WaitingAfterPush(slots: seq<seq<byte>>, head: nat, count: nat, frame: seq<byte>)
    requires |slots| == QUEUE_CAPACITY && head < QUEUE_CAPACITY && count < QUEUE_CAPACITY
    ensures (Slot(head, count) + 1) % QUEUE_CAPACITY == Slot(head, count + 1)
    ensures Waiting(slots[Slot(head, count) := frame], head, count + 1) == Waiting(slots, head, count) + [frame]
  {
    forall i: nat | i < count ensures Slot(head, i) != Slot(head, count) { SlotIsFree(head, count, i); }
  }

  lemma WaitingAfterPop(slots: seq<seq<byte>>, head: nat, count: nat)
    requires |slots| == QUEUE_CAPACITY && head < QUEUE_CAPACITY && 0 < count <= QUEUE_CAPACITY
    ensures Slot((head + 1) % QUEUE_CAPACITY, count - 1) == Slot(head, count)
    ensures Waiting(slots, head, count) == [slots[head]] + Waiting(slots, (head + 1) % QUEUE_CAPACITY, count - 1)
  {
    var h := (head + 1) % QUEUE_CAPACITY;
    assert Slot(head, 0) == head;
    forall i: nat | i < count ensures Slot(h, i) == Slot(head, i + 1) {}
  }

  /** The ring of frames waiting for the SLAC task. */
  class FrameQueue {
    const maxFrame: nat
    const slots: array<seq<byte>>
    var head: nat
    var tail: nat
    var count: nat

    ghost predicate Valid()
      reads this
    {
      && slots.Length == QUEUE_CAPACITY
      && head < QUEUE_CAPACITY && count <= QUEUE_CAPACITY
      && tail == Slot(head, count)
    }

    ghost function Contents(): (c: seq<seq<byte>>)
      requires Valid()
      reads this, slots
      ensures |c| == count
    {
      Waiting(slots[..], head, count)
    }

    constructor (maxFrame: nat)
      ensures Valid() && fresh(slots) && this.maxFrame == maxFrame && Contents() == []
    {
      this.maxFrame := maxFrame;
      slots := new seq<byte>[QUEUE_CAPACITY](i => []);
      head, tail, count := 0, 0, 0;
    }

    method Push(frame: seq<byte>) returns (ok: bool)
      requires Valid()
      modifies this, slots
      ensures Valid()
      ensures ok <==> |old(Contents())| < QUEUE_CAPACITY && |frame| <= maxFrame
      ensures Contents() == if ok then old(Contents()) + [frame] else old(Contents())
    {
      hide Slot, Waiting;
      if count >= QUEUE_CAPACITY || |frame| > maxFrame { return false; }
      WaitingAfterPush(slots[..], head, count, frame);
      ghost var was := slots[..];
      slots[tail] := frame;
      assert slots[..] == was[tail := frame];
      tail := (tail + 1) % QUEUE_CAPACITY;
      count := count + 1;
      return true;
    }

    method Pop() returns (frame: Option<seq<byte>>)
      requires Valid()
      modifies this
      ensures Valid()
      ensures old(Contents()) == [] <==> frame == None
      ensures old(Contents()) == (if frame.Some? then [frame.value] else []) + Contents()
    {
      hide Slot, Waiting;
      if count == 0 {
        assert Contents() == [];
        return None;
      }
      WaitingAfterPop(slots[..], head, count);
      frame := Some(slots[head]);
      head := (head + 1) % QUEUE_CAPACITY;
      count := count - 1;
    }
  }
}
