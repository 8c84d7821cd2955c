/** The control-pilot sampler (platformio/esp32s3_slac_hlc_precharge/src/main.cpp): the twelve largest of a series
    of readings are kept in an ascending array, and an average from its upper end is the measurement. */
module TopK {

  const KEPT: nat := 12
  const SAMPLE_COUNT: nat := 80

  predicate Ascending(s: seq<int>) { forall i, j :: 0 <= i < j < |s| ==> s[i] <= s[j] }

  predicate AllAtMost(low: multiset<int>, s: seq<int>) {
    forall x :: x in low ==> forall i :: 0 <= i < |s| ==> x <= s[i]
  }

  /** The k largest of the samples, ascending: nothing left out exceeds anything kept. */
  predicate IsLargest(kept: seq<int>, samples: seq<int>, k: nat) {
    && Ascending(kept)
    && |kept| == (if |samples| < k then |samples| else k)
    && multiset(kept) <= multiset(samples)
    && AllAtMost(multiset(samples) - multiset(kept), kept)
  }

  // ---- at most one answer ----

  lemma SubsetOfSameSize(a: multiset<int>, b: multiset<int>)
    requires a <= b && |a| == |b|
    ensures a == b
  {
    assert b == a + (b - a);
  }

  lemma BiggerSomewhere(a: multiset<int>, b: multiset<int>) returns (x: int)
    requires |a| == |b| && a != b
    ensures a[x] < b[x]
  {
    if forall x :: x in b ==> b[x] <= a[x] {
      SubsetOfSameSize(b, a);
    }
    x :| x in b && a[x] < b[x];
  }

  lemma LeftOutIsBelow(kept: seq<int>, samples: seq<int>, k: nat, x: int, y: int)
    requires IsLargest(kept, samples, k)
    requires multiset(kept)[x] < multiset(samples)[x] && y in multiset(kept)
    ensures x <= y
  {
    assert x in multiset(samples) - multiset(kept);
    assert y in kept;
  }

  lemma SameElements(a: seq<int>, b: seq<int>, samples: seq<int>, k: nat)
    requires IsLargest(a, samples, k) && IsLargest(b, samples, k)
    ensures multiset(a) == multiset(b)
  {
    var ma, mb, ms := multiset(a), multiset(b), multiset(samples);
    if ma != mb {
      var x := BiggerSomewhere(ma, mb);
      var y := BiggerSomewhere(mb, ma);
      LeftOutIsBelow(a, samples, k, x, y);
      LeftOutIsBelow(b, samples, k, y, x);
    }
  }

  lemma {:induction false} SortedIsUnique(a: seq<int>, b: seq<int>)
    requires Ascending(a) && Ascending(b) && multiset(a) == multiset(b)
    ensures a == b
    decreases |a|
  {
    assert |a| == |multiset(a)| == |multiset(b)| == |b|;
    if a != [] {
      var n := |a| - 1;
      LastIsSame(a, b);
      LastGoes(a);
      LastGoes(b);
      hide Ascending;
      assert multiset(a[..n]) == multiset(a) - multiset{a[n]};
      assert multiset(b[..n]) == multiset(b) - multiset{b[n]};
      FrontAscends(a);
      FrontAscends(b);
      SortedIsUnique(a[..n], b[..n]);
    }
  }

  lemma FrontAscends(s: seq<int>)
    requires Ascending(s) && s != []
    ensures Ascending(s[..|s| - 1])
  {
  }

  lemma LastIsSame(a: seq<int>, b: seq<int>)
    requires Ascending(a) && Ascending(b) && multiset(a) == multiset(b) && |a| == |b| > 0
    ensures a[|a| - 1] == b[|b| - 1]
  {
    var n := |a| - 1;
    assert a[n] in multiset(a) && b[n] in multiset(b);
    assert a[n] in b && b[n] in a;
  }

  lemma LastGoes(s: seq<int>)
    requires s != []
    ensures multiset(s) == multiset(s[..|s| - 1]) + multiset{s[|s| - 1]}
  {
    assert s == s[..|s| - 1] + [s[|s| - 1]];
  }

  lemma LargestIsUnique(a: seq<int>, b: seq<int>, samples: seq<int>, k: nat)
    requires IsLargest(a, samples, k) && IsLargest(b, samples, k)
    ensures a == b
  {
    SameElements(a, b, samples, k);
    SortedIsUnique(a, b);
  }

  // ---- one more sample ----

  /** v put in at place i of an ascending sequence. */
  function Inserted(s: seq<int>, i: nat, v: int): seq<int>
    requires i <= |s|
  {
    s[..i] + [v] + s[i..]
  }

  predicate Place(s: seq<int>, i: nat, v: int) {
    i <= |s| && (i > 0 ==> s[i - 1] <= v) && (i < |s| ==> v <= s[i])
  }

  lemma InsertedSorts(s: seq<int>, i: nat, v: int)
    requires Ascending(s) && Place(s, i, v)
    ensures Ascending(Inserted(s, i, v)) && multiset(Inserted(s, i, v)) == multiset(s) + multiset{v}
  {
    InsertedElements(s, i, v);
    hide Inserted;
    InsertedAscends(s, i, v);
  }

  lemma InsertedElements(s: seq<int>, i: nat, v: int)
    requires i <= |s|
    ensures multiset(Inserted(s, i, v)) == multiset(s) + multiset{v}
  {
    assert s == s[..i] + s[i..];
  }

  lemma InsertedAscends(s: seq<int>, i: nat, v: int)
    requires Ascending(s) && Place(s, i, v)
    ensures Ascending(Inserted(s, i, v))
  {
    var t := Inserted(s, i, v);
    forall j, k | 0 <= j < k < |t| ensures t[j] <= t[k] {
      var a, b := (if j < i then j else j - 1), (if k <= i then k else k - 1);
      if j != i { assert t[j] == s[a]; }
      if k != i { assert t[k] == if k < i then s[k] else s[k - 1]; }
    }
  }

  lemma FirstGoes(s: seq<int>)
    requires s != []
    ensures multiset(s) == multiset{s[0]} + multiset(s[1..])
  {
    assert s == [s[0]] + s[1..];
  }

  lemma KeepAll(kept: seq<int>, samples: seq<int>, i: nat, v: int)
    requires IsLargest(kept, samples, KEPT) && |kept| < KEPT && Place(kept, i, v)
    ensures IsLargest(Inserted(kept, i, v), samples + [v], KEPT)
  {
    InsertedSorts(kept, i, v);
    assert multiset(samples) == multiset(kept) + (multiset(samples) - multiset(kept));
    assert |multiset(samples) - multiset(kept)| == 0;
    assert multiset(samples + [v]) == multiset(samples) + multiset{v};
  }

  lemma KeepOut(kept: seq<int>, samples: seq<int>, v: int)
    requires IsLargest(kept, samples, KEPT) && |kept| == KEPT && v <= kept[0]
    ensures IsLargest(kept, samples + [v], KEPT)
  {
    var low := multiset(samples) - multiset(kept);
    assert multiset(samples + [v]) == multiset(samples) + multiset{v};
    assert multiset(samples + [v]) - multiset(kept) == low + multiset{v};
  }

  lemma Displace(kept: seq<int>, samples: seq<int>, i: nat, v: int)
    requires IsLargest(kept, samples, KEPT) && |kept| == KEPT && kept[0] < v && Place(kept[1..], i, v)
    ensures IsLargest(Inserted(kept[1..], i, v), samples + [v], KEPT)
  {
    var next := Inserted(kept[1..], i, v);
    var low := multiset(samples) - multiset(kept);
    InsertedSorts(kept[1..], i, v);
    FirstGoes(kept);
    assert multiset(samples + [v]) == multiset(samples) + multiset{v};
    hide Inserted, Ascending, AllAtMost;
    Exchanged(multiset(samples), multiset(kept), multiset(kept[1..]), kept[0], v);
    AboveFirst(kept, samples, next, v);
  }

  /** v comes in, x goes out. */
  lemma Exchanged(all: multiset<int>, kept: multiset<int>, rest: multiset<int>, x: int, v: int)
    requires kept <= all && kept == multiset{x} + rest
    ensures rest + multiset{v} <= all + multiset{v}
    ensures (all + multiset{v}) - (rest + multiset{v}) == all - kept + multiset{x}
  {
  }

  lemma AboveFirst(kept: seq<int>, samples: seq<int>, next: seq<int>, v: int)
    requires kept != [] && Ascending(kept) && kept[0] < v
    requires multiset(next) == multiset(kept[1..]) + multiset{v}
    requires AllAtMost(multiset(samples) - multiset(kept), kept)
    ensures AllAtMost(multiset(samples) - multiset(kept) + multiset{kept[0]}, next)
  {
    var low := multiset(samples) - multiset(kept);
    assert forall x :: x in low ==> x <= kept[0];
    forall j | 0 <= j < |next| ensures kept[0] <= next[j] {
      assert next[j] in multiset(next);
      if next[j] != v { assert next[j] in kept[1..]; }
    }
  }

  // ---- the array ----

  class Sampler {
    const topk: array<int>
    var tk: nat
    ghost var samples: seq<int>

    ghost function Kept(): seq<int>
      requires tk <= topk.Length
      reads this, topk
    {
      topk[..tk]
    }

    ghost predicate Valid()
      reads this, topk
    {
      topk.Length == KEPT && tk <= KEPT && IsLargest(Kept(), samples, KEPT)
    }

    constructor ()
      ensures Valid() && fresh(topk) && samples == []
    {
      topk := new int[KEPT];
      tk := 0;
      samples := [];
    }

    /** insert_topk. */
    method Insert(v: int)
      requires Valid()
      modifies this, topk
      ensures Valid() && samples == old(samples) + [v]
    {
      hide IsLargest, Ascending, Place, Inserted;
      ghost var kept := Kept();
      LargestSize(kept, samples);
      if tk < KEPT {
        var i := MakeRoom(v);
        KeepAll(kept, samples, i, v);
      } else if v > topk[0] {
        var i := Bubble(v);
        Displace(kept, samples, i, v);
      } else {
        KeepOut(kept, samples, v);
      }
      samples := samples + [v];
    }

    /** Room left: larger elements move up by one. */
    method MakeRoom(v: int) returns (i: nat)
      requires topk.Length == KEPT && tk < KEPT
      modifies this`tk, topk
      ensures tk == old(tk) + 1 && Place(old(Kept()), i, v) && Kept() == Inserted(old(Kept()), i, v)
    {
      ghost var was := topk[..tk];
      i := tk;
      tk := tk + 1;
      while i > 0 && topk[i - 1] > v
        invariant tk == |was| + 1 && 0 <= i < tk
        invariant forall k :: 0 <= k < i ==> topk[k] == was[k]
        invariant forall k :: i < k < tk ==> topk[k] == was[k - 1]
        invariant i < |was| ==> v <= was[i]
      {
        topk[i] := topk[i - 1];
        i := i - 1;
      }
      topk[i] := v;
      assert topk[..tk] == was[..i] + [v] + was[i..];
    }

    /** Full: the smallest is overwritten and the new value swaps its way up. */
    method Bubble(v: int) returns (i: nat)
      requires topk.Length == KEPT == tk && topk[0] < v
      modifies topk
      ensures Place(old(Kept())[1..], i, v) && Kept() == Inserted(old(Kept())[1..], i, v)
    {
      ghost var was := topk[..];
      topk[0] := v;
      i := 0;
      while i + 1 < tk && topk[i] > topk[i + 1]
        invariant 0 <= i < tk && topk[i] == v
        invariant forall k :: 0 <= k < i ==> topk[k] == was[k + 1]
        invariant forall k :: i < k < tk ==> topk[k] == was[k]
        invariant i > 0 ==> was[i] < v
      {
        topk[i], topk[i + 1] := topk[i + 1], topk[i];
        i := i + 1;
      }
      assert topk[..] == was[1..][..i] + [v] + was[1..][i..];
    }
  }

  lemma LargestSize(kept: seq<int>, samples: seq<int>)
    requires IsLargest(kept, samples, KEPT)
    ensures |kept| <= KEPT && (kept == [] <==> samples == [])
  {
  }

  // ---- the measurement ----

  function Abs(x: int): nat { if x < 0 then -x else x }

  /** The n-th part of a, cut off towards zero. */
  predicate Truncates(mv: int, a: int, n: int) {
    n * Abs(mv) <= Abs(a) < n * (Abs(mv) + 1) && (mv == 0 || (mv > 0 <==> a > 0))
  }

  /** C division. */
  function Quotient(a: int, b: int): (q: int)
    requires b > 0
    ensures Truncates(q, a, b)
  {
    Division(Abs(a), b);
    if a >= 0 then a / b else -(-a / b)
  }

  lemma Division(x: nat, n: int)
    requires n > 0
    ensures x / n >= 0 && n * (x / n) <= x < n * (x / n + 1)
    ensures x == 0 ==> x / n == 0
  {
    assert x == n * (x / n) + x % n;
    assert n * (x / n + 1) == n * (x / n) + n;
  }

  /** There is one such part. */
  lemma TruncatesOnce(x: int, y: int, a: int, n: int)
    requires n > 0 && Truncates(x, a, n) && Truncates(y, a, n)
    ensures x == y
  {
    if Abs(x) < Abs(y) { Beyond(n, Abs(x), Abs(y)); }
    if Abs(y) < Abs(x) { Beyond(n, Abs(y), Abs(x)); }
  }

  lemma Beyond(n: int, x: int, y: int)
    requires n > 0 && x < y
    ensures n * (x + 1) <= n * y
  {
  }

  function Sum(s: seq<int>): int { if s == [] then 0 else Sum(s[..|s| - 1]) + s[|s| - 1] }

  /** A sixth of the readings, but at least three, if there are as many. */
  function Start(n: nat): nat {
    var m := if n / 6 > 3 then n / 6 else 3;
    if n < m then 0 else n - m
  }

  function End(n: nat): nat { if n >= 6 then n - 1 else n }

  /** The mean of the kept readings from Start on, without the largest once there are at least six. */
  function Estimate(kept: seq<int>): int
    requires kept != []
  {
    Quotient(Sum(kept[Start(|kept|)..End(|kept|)]), End(|kept|) - Start(|kept|))
  }

  /** What the measurement is of the kept readings: from six on the mean of the second and the third largest, between
      three and five that of the three largest, otherwise that of all. */
  predicate Measures(mv: int, kept: seq<int>) {
    var n := |kept|;
    if n == 0 then mv == 0
    else if n == 1 then mv == kept[0]
    else if n == 2 then Truncates(mv, kept[0] + kept[1], 2)
    else if n < 6 then Truncates(mv, kept[n - 1] + kept[n - 2] + kept[n - 3], 3)
    else Truncates(mv, kept[n - 2] + kept[n - 3], 2) && kept[n - 3] <= mv <= kept[n - 2]
  }

  lemma EstimateMeasures(kept: seq<int>)
    requires 0 < |kept| <= KEPT && Ascending(kept)
    ensures Measures(Estimate(kept), kept)
  {
    hide Quotient;
    var n := |kept|;
    var used := kept[Start(n)..End(n)];
    if n < 3 {
      assert Start(n) == 0 && used == kept;
    } else {
      assert n / 6 <= 2 && Start(n) == n - 3;
    }
    if |used| == 1 { SumOfOne(used); } else if |used| == 2 { SumOfTwo(used); } else { SumOfThree(used); }
    assert Truncates(Estimate(kept), Sum(used), |used|);
    if n >= 6 { Between(Estimate(kept), kept[n - 3], kept[n - 2]); }
  }

  lemma SumOfOne(s: seq<int>)
    requires |s| == 1
    ensures Sum(s) == s[0]
  {
    assert s[..0] == [];
  }

  lemma SumOfTwo(s: seq<int>)
    requires |s| == 2
    ensures Sum(s) == s[1] + s[0]
  {
    SumOfOne(s[..1]);
  }

  lemma SumOfThree(s: seq<int>)
    requires |s| == 3
    ensures Sum(s) == s[2] + s[1] + s[0]
  {
    SumOfTwo(s[..2]);
  }

  /** The mean of two numbers lies between them. */
  lemma Between(mv: int, a: int, b: int)
    requires a <= b && Truncates(mv, a + b, 2)
    ensures a <= mv <= b
  {
  }

  /** read_cp_mv_robust on the readings it will take. */
  method ReadRobust(readings: seq<int>) returns (mv: int)
    ensures exists kept :: IsLargest(kept, readings, KEPT) && Measures(mv, kept)
  {
    hide Ascending, Estimate, Measures;
    var sampler := new Sampler();
    var peak := 0;
    var i := 0;
    while i < |readings|
      invariant 0 <= i <= |readings| && sampler.Valid() && fresh(sampler) && fresh(sampler.topk)
      invariant sampler.samples == readings[..i]
      invariant i == 0 ==> peak == 0
    {
      assert readings[..i + 1] == readings[..i] + [readings[i]];
      if readings[i] > peak { peak := readings[i]; }
      sampler.Insert(readings[i]);
      i := i + 1;
    }
    assert readings[..i] == readings;
    ghost var kept := sampler.Kept();
    LargestSize(kept, readings);
    if sampler.tk <= 0 {
      NothingMeasured(kept);
      return peak;
    }
    mv := Average(sampler.topk, sampler.tk);
    EstimateMeasures(kept);
  }

  lemma NothingMeasured(kept: seq<int>)
    requires kept == []
    ensures Measures(0, kept)
  {
  }

  lemma SumOneMore(s: seq<int>, a: nat, i: nat)
    requires a <= i < |s|
    ensures Sum(s[a..i + 1]) == Sum(s[a..i]) + s[i]
  {
    assert s[a..i + 1][..i - a] == s[a..i];
  }

  /** The averaging half of read_cp_mv_robust. */
  method Average(topk: array<int>, tk: nat) returns (mv: int)
    requires 0 < tk <= topk.Length
    ensures mv == Estimate(topk[..tk])
    ensures Truncates(mv, Sum(topk[..tk][Start(tk)..End(tk)]), End(tk) - Start(tk))
  {
    ghost var kept := topk[..tk];
    var start: int := tk - (if tk / 6 > 3 then tk / 6 else 3);
    var end: int := tk - (if tk >= 6 then 1 else 0);
    if start < 0 { start := 0; }
    if end <= start {
      start := if tk > 3 then tk - 3 else 0;
      end := tk;
    }
    assert start == Start(tk) && end == End(tk) && start < end <= tk;
    var sum, n := 0, 0;
    var i := start;
    while i < end
      invariant start <= i <= end && n == i - start
      invariant sum == Sum(kept[start..i])
    {
      SumOneMore(kept, start, i);
      sum := sum + topk[i];
      n := n + 1;
      i := i + 1;
    }
    // The source's fallback for an empty range is never taken: there is always something to average.
    mv := Quotient(sum, n);
  }

  /** With the eighty readings the firmware takes, s being the sum of the second and third largest: the measurement is
      half of s cut off towards zero, no other number is, and nothing left out exceeds either of the two. */
  lemma SecondAndThirdLargest(readings: seq<int>, kept: seq<int>, mv: int)
    requires IsLargest(kept, readings, KEPT) && |readings| == SAMPLE_COUNT
    ensures |kept| == 12
    ensures var s := kept[9] + kept[10];
      Measures(mv, kept) <==> if s >= 0 then 2 * mv <= s < 2 * mv + 2 else s <= 2 * mv < s + 2
    ensures Measures(mv, kept) ==> kept[9] <= mv <= kept[10]
    ensures forall x :: x in multiset(readings) - multiset(kept) ==> x <= kept[9] <= kept[10] <= kept[11]
  {
  }

  lemma {:induction false} ReplaceInMultiset(s: seq<int>, j: nat, v: int)
    requires j < |s|
    ensures multiset(s[j := v]) == multiset(s) - multiset{s[j]} + multiset{v}
  {
    assert s == s[..j] + [s[j]] + s[j + 1..];
    assert s[j := v] == s[..j] + [v] + s[j + 1..];
  }

  /** Raising the maximum raises the last kept reading and nothing else. */
  lemma RaisedMaximumStaysLast(readings: seq<int>, kept: seq<int>, j: nat, v: int)
    requires IsLargest(kept, readings, KEPT) && j < |readings| && kept != []
    requires readings[j] == kept[|kept| - 1] && v >= readings[j]
    ensures IsLargest(kept[|kept| - 1 := v], readings[j := v], KEPT)
  {
    var n := |kept| - 1;
    ReplaceInMultiset(kept, n, v);
    ReplaceInMultiset(readings, j, v);
    SameLeftOut(multiset(readings), multiset(kept), kept[n], v);
    LastRaised(kept, multiset(readings) - multiset(kept), v);
  }

  lemma SameLeftOut(all: multiset<int>, kept: multiset<int>, x: int, v: int)
    requires kept <= all && x in kept
    ensures kept - multiset{x} + multiset{v} <= all - multiset{x} + multiset{v}
    ensures (all - multiset{x} + multiset{v}) - (kept - multiset{x} + multiset{v}) == all - kept
  {
  }

  lemma LastRaised(kept: seq<int>, low: multiset<int>, v: int)
    requires kept != [] && Ascending(kept) && AllAtMost(low, kept) && v >= kept[|kept| - 1]
    ensures Ascending(kept[|kept| - 1 := v]) && AllAtMost(low, kept[|kept| - 1 := v])
  {
  }

  /** A reading that is already the largest can grow without changing the measurement. */
  lemma MaximumDoesNotMatter(readings: seq<int>, kept: seq<int>, mv: int, j: nat, v: int, kept': seq<int>, mv': int)
    requires IsLargest(kept, readings, KEPT) && |readings| >= 6 && j < |readings|
    requires (forall i :: 0 <= i < |readings| ==> readings[i] <= readings[j]) && v >= readings[j]
    requires IsLargest(kept', readings[j := v], KEPT)
    requires Measures(mv, kept) && Measures(mv', kept')
    ensures mv' == mv
  {
    hide IsLargest, Truncates;
    LastIsMaximum(readings, kept, j);
    RaisedMaximumStaysLast(readings, kept, j, v);
    LargestIsUnique(kept', kept[|kept| - 1 := v], readings[j := v], KEPT);
    AsManyAsFit(kept, readings);
    TruncatesOnce(mv, mv', kept[|kept| - 2] + kept[|kept| - 3], 2);
  }

  lemma AsManyAsFit(kept: seq<int>, readings: seq<int>)
    requires IsLargest(kept, readings, KEPT) && |readings| >= 6
    ensures |kept| >= 6
  {
  }

  lemma LastIsMaximum(readings: seq<int>, kept: seq<int>, j: nat)
    requires IsLargest(kept, readings, KEPT) && j < |readings|
    requires forall i :: 0 <= i < |readings| ==> readings[i] <= readings[j]
    ensures kept != [] && kept[|kept| - 1] == readings[j]
  {
    var n := |kept| - 1;
    var ms, mk := multiset(readings), multiset(kept);
    assert readings[j] in ms && kept[n] in mk;
    assert kept[n] in ms;
    assert kept[n] in readings;
    if readings[j] in mk {
      assert readings[j] in kept;
    } else {
      assert readings[j] in ms - mk;
    }
  }
}
