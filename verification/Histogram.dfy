/** Latency histograms and the percentiles read from them. */
module Histograms {
  import opened Basics

  /** Upper bounds in microseconds; the last bucket takes everything else. */
  const BOUNDS: seq<int> := [1000, 5000, 10000, 50000, 100000, 500000, MAX_INT]

  /** The bucket a sample is counted in. */
  function BucketOf(us: int): (i: nat)
    ensures i < 7
    ensures i < 6 ==> us < BOUNDS[i]
    ensures i > 0 ==> us >= BOUNDS[i - 1]
  {
    if us < 1000 then 0
    else if us < 5000 then 1
    else if us < 10000 then 2
    else if us < 50000 then 3
    else if us < 100000 then 4
    else if us < 500000 then 5
    else 6
  }

  function CountIn(samples: seq<int>, i: nat): nat {
    if samples == [] then 0
    else CountIn(samples[..|samples| - 1], i) + if BucketOf(samples[|samples| - 1]) == i then 1 else 0
  }

  /** How many samples lie in the first n buckets. */
  function CountBelow(samples: seq<int>, n: nat): nat {
    if n == 0 then 0 else CountBelow(samples, n - 1) + CountIn(samples, n - 1)
  }

  /** The least integer not below p * calls. */
  function Rank(p: real, calls: nat): int {
    -((-(p * calls as real)).Floor)
  }

  // ----- exact order statistics

  function Insert(x: int, s: seq<int>): (r: seq<int>)
    ensures |r| == |s| + 1
  {
    if s == [] || x <= s[0] then [x] + s else [s[0]] + Insert(x, s[1..])
  }

  function Sorted(s: seq<int>): (r: seq<int>)
    ensures |r| == |s|
  {
    if s == [] then [] else Insert(s[|s| - 1], Sorted(s[..|s| - 1]))
  }

  ghost predicate Ascending(s: seq<int>) {
    forall i, j :: 0 <= i < j < |s| ==> s[i] <= s[j]
  }

  /** How many leading samples of an ascending sequence lie in the first n buckets. */
  function Leading(s: seq<int>, n: nat): (k: nat)
    ensures k <= |s|
  {
    if s == [] || BucketOf(s[0]) >= n then 0 else 1 + Leading(s[1..], n)
  }

  lemma {:induction false} InsertIsSorted(x: int, s: seq<int>)
    requires Ascending(s)
    ensures Ascending(Insert(x, s)) && multiset(Insert(x, s)) == multiset{x} + multiset(s)
  {
    if s == [] {
    } else if x <= s[0] {
      assert multiset([x] + s) == multiset{x} + multiset(s);
    } else {
      var rest := Insert(x, s[1..]);
      InsertIsSorted(x, s[1..]);
      assert s == [s[0]] + s[1..];
      AllAbove(s[0], rest, x, s[1..]);
    }
  }

  lemma AllAbove(low: int, rest: seq<int>, x: int, s: seq<int>)
    requires multiset(rest) == multiset{x} + multiset(s) && low <= x && forall i :: 0 <= i < |s| ==> low <= s[i]
    ensures forall j :: 0 <= j < |rest| ==> low <= rest[j]
  {
    forall j | 0 <= j < |rest| ensures low <= rest[j] {
      assert rest[j] in multiset(rest);
    }
  }

  /** Sorted is the samples in ascending order. */
  lemma {:induction false} SortedSorts(s: seq<int>)
    ensures Ascending(Sorted(s)) && multiset(Sorted(s)) == multiset(s) 
  {
    if s != [] {
      var init, x := s[..|s| - 1], s[|s| - 1];
      SortedSorts(init);
      InsertIsSorted(x, Sorted(init));
      assert s == init + [x];
    }
  }

  lemma {:induction false} LeadingInsert(x: int, s: seq<int>, n: nat)
    requires Ascending(s)
    ensures Leading(Insert(x, s), n) == Leading(s, n) + if BucketOf(x) < n then 1 else 0
  {
    if s == [] {
    } else if x <= s[0] {
      if BucketOf(x) >= n { assert BucketOf(s[0]) >= n; }
    } else {
      LeadingInsert(x, s[1..], n);
    }
  }

  lemma {:induction false} CountBelowOne(init: seq<int>, x: int, n: nat)
    ensures CountBelow(init + [x], n) == CountBelow(init, n) + if BucketOf(x) < n then 1 else 0
  {
    if n > 0 {
      CountBelowOne(init, x, n - 1);
      assert (init + [x])[..|init|] == init;
    }
  }

  /** The counts of the first n buckets are the samples that sort first. */
  lemma {:induction false} CountsAreLeading(s: seq<int>, n: nat)
    ensures CountBelow(s, n) == Leading(Sorted(s), n)
  {
    if s == [] {
      NoneCounted(n);
    } else {
      var init, x := s[..|s| - 1], s[|s| - 1];
      assert s == init + [x];
      CountsAreLeading(init, n);
      SortedSorts(init);
      LeadingInsert(x, Sorted(init), n);
      CountBelowOne(init, x, n);
    }
  }

  lemma {:induction false} NoneCounted(n: nat)
    ensures CountBelow([], n) == 0
  {
    if n > 0 { NoneCounted(n - 1); }
  }

  /** A position is among the leading ones exactly when its bucket is. */
  lemma {:induction false} LeadingAt(s: seq<int>, n: nat, r: nat)
    requires Ascending(s) && r < |s|
    ensures r < Leading(s, n) <==> BucketOf(s[r]) < n
  {
    if BucketOf(s[0]) >= n {
      assert s[0] <= s[r];
    } else if r > 0 {
      LeadingAt(s[1..], n, r - 1);
    }
  }

  // ----- the percentile

  /** What percentile answers when bucket i is the first to reach the target. */
  function Bound(i: nat): int
    requires i < 7
  {
    if i == 6 then BOUNDS[5] else BOUNDS[i]
  }

  /** The seven buckets by their bounds in microseconds, and what each answers. */
  lemma BucketsMean(us: int)
    ensures us < 1000 ==> Bound(BucketOf(us)) == 1000
    ensures 1000 <= us < 5000 ==> Bound(BucketOf(us)) == 5000
    ensures 5000 <= us < 10_000 ==> Bound(BucketOf(us)) == 10_000
    ensures 10_000 <= us < 50_000 ==> Bound(BucketOf(us)) == 50_000
    ensures 50_000 <= us < 100_000 ==> Bound(BucketOf(us)) == 100_000
    ensures 100_000 <= us < 500_000 ==> Bound(BucketOf(us)) == 500_000 && BucketOf(us) == 5
    ensures 500_000 <= us ==> Bound(BucketOf(us)) == 500_000 && BucketOf(us) == 6
  {
  }

  /** The bucket of the sample of a rank is the first whose running count
      reaches the rank. */
  lemma RankBucket(samples: seq<int>, rank: nat, i: nat)
    requires 1 <= rank <= |samples| && i < 7
    ensures CountBelow(samples, i) < rank <= CountBelow(samples, i + 1)
      <==> BucketOf(Sorted(samples)[rank - 1]) == i
  {
    SortedSorts(samples);
    CountsAreLeading(samples, i);
    CountsAreLeading(samples, i + 1);
    LeadingAt(Sorted(samples), i, rank - 1);
    LeadingAt(Sorted(samples), i + 1, rank - 1);
  }

  lemma AllCounted(samples: seq<int>)
    ensures CountBelow(samples, 7) == |samples|
  {
    CountsAreLeading(samples, 7);
    SortedSorts(samples);
    if samples != [] { LeadingAt(Sorted(samples), 7, |samples| - 1); }
  }

  /** The least integer that is not below x. */
  predicate IsCeiling(n: int, x: real) {
    n as real - 1.0 < x <= n as real
  }

  lemma RankIsCeiling(p: real, calls: nat)
    ensures IsCeiling(Rank(p, calls), p * calls as real)
  {
  }

  lemma CountStarts(samples: seq<int>)
    ensures CountBelow(samples, 0) == 0
  {
  }

  lemma CountStep(samples: seq<int>, i: nat)
    ensures CountBelow(samples, i + 1) == CountBelow(samples, i) + CountIn(samples, i)
  {
  }

  /** At least p * calls samples lie in the buckets up to i, fewer in those before. */
  ghost predicate Reaches(samples: seq<int>, p: real, i: nat) {
    CountBelow(samples, i) as real < p * |samples| as real <= CountBelow(samples, i + 1) as real
  }

  lemma ReachesAtRank(samples: seq<int>, p: real, i: nat)
    requires CountBelow(samples, i) < Rank(p, |samples|) <= CountBelow(samples, i + 1)
    ensures Reaches(samples, p, i)
  {
    RankIsCeiling(p, |samples|);
    hide Rank, CountBelow;
  }

  lemma RankInRange(p: real, calls: nat)
    requires 0.0 < p <= 1.0 && calls > 0
    ensures 1 <= Rank(p, calls) <= calls
  {
    assert 0.0 < p * calls as real <= calls as real;
  }

  lemma RankOfZero(calls: nat)
    ensures Rank(0.0, calls) == 0
  {
    assert 0.0 * calls as real == 0.0;
  }

  lemma RankAscends(p: real, q: real, calls: nat)
    requires p <= q
    ensures Rank(p, calls) <= Rank(q, calls)
  {
    assert p * calls as real <= q * calls as real;
  }

  class Histogram {
    var calls: nat
    var totalUs: int
    const buckets: array<int>
    ghost var samples: seq<int>

    ghost predicate Valid()
      reads this, buckets
    {
      && buckets.Length == 7 && calls == |samples|
      && forall i :: 0 <= i < 7 ==> buckets[i] == CountIn(samples, i)
    }

    constructor ()
      ensures Valid() && fresh(buckets) && samples == []
    {
      calls, totalUs, samples := 0, 0, [];
      buckets := new int[7](_ => 0);
    }

    method Record(us: Int)
      requires Valid()
      modifies this, buckets
      ensures Valid() && samples == old(samples) + [us]
      ensures calls == old(calls) + 1 && totalUs == old(totalUs) + us
    {
      ghost var was := samples;
      calls := calls + 1;
      totalUs := totalUs + us;
      samples := samples + [us];
      assert samples[..|samples| - 1] == was;
      var i := 0;
      while i < 7
        invariant 0 <= i <= 7
        invariant forall j :: 0 <= j < i ==> us >= BOUNDS[j]
        invariant forall j :: 0 <= j < 7 ==> buckets[j] == CountIn(was, j)
        invariant samples == was + [us] && calls == |samples| && totalUs == old(totalUs) + us
      {
        if us < BOUNDS[i] {
          assert BucketOf(us) == i;
          buckets[i] := buckets[i] + 1;
          return;
        }
        i := i + 1;
      }
      assert BucketOf(us) == 6;
      buckets[6] := buckets[6] + 1;
    }

    /** The answer is the bound of the first bucket up to which at least p * calls
        samples lie, and the sample of rank ceil(p * calls) lies in that bucket:
        below the answer, or not below it for the overflow bucket. The return after
        the loop is never reached. A p of zero has no such sample, and is answered
        with the first bound. */
    method Percentile(p: real) returns (bound: int)
      requires Valid() && 0.0 <= p <= 1.0
      ensures calls == 0 ==> bound == 0
      ensures calls > 0 && p == 0.0 ==> bound == Bound(0)
      ensures calls > 0 && p > 0.0 ==>
        var rank := Rank(p, calls);
        && 1 <= rank <= |samples|
        && IsCeiling(rank, p * calls as real)
        && bound == Bound(BucketOf(Sorted(samples)[rank - 1]))
      ensures calls > 0 && p > 0.0 ==>
        exists i: nat :: i < 7 && bound == Bound(i) && Reaches(samples, p, i)
    {
      hide Rank, Sorted, CountIn, CountBelow, BucketOf, Reaches, IsCeiling;
      if calls == 0 { return 0; }
      var target := Rank(p, calls);
      RankIsCeiling(p, calls);
      if p > 0.0 { RankInRange(p, calls); } else { RankOfZero(calls); }
      AllCounted(samples);
      CountStarts(samples);
      var cum := 0;
      var i := 0;
      while i < 7
        invariant 0 <= i <= 7 && cum == CountBelow(samples, i) && (i > 0 ==> cum < target)
      {
        CountStep(samples, i);
        cum := cum + buckets[i];
        if cum >= target {
          if p > 0.0 {
            RankBucket(samples, target, i);
            ReachesAtRank(samples, p, i);
            assert Reaches(samples, p, i);
          }
          assert Bound(i) == if i == 6 then BOUNDS[i - 1] else BOUNDS[i];
          if i == 6 { return BOUNDS[i - 1]; }
          return BOUNDS[i];
        }
        i := i + 1;
      }
      assert false;
    }
  }

  /** The answer brackets the exact order statistic. */
  lemma BoundBrackets(x: int)
    ensures var i := BucketOf(x);
      && (i < 6 ==> x < Bound(i) && (i > 0 ==> Bound(i - 1) <= x))
      && (i == 6 ==> Bound(i) <= x)
  {
  }

  /** A higher percentile never answers less. */
  lemma PercentilesAscend(samples: seq<int>, p: real, q: real)
    requires samples != [] && 0.0 < p <= q <= 1.0
    ensures var n := |samples|;
      && 1 <= Rank(p, n) <= Rank(q, n) <= n
      && Bound(BucketOf(Sorted(samples)[Rank(p, n) - 1])) <= Bound(BucketOf(Sorted(samples)[Rank(q, n) - 1]))
  {
    hide Rank, Sorted, BucketOf;
    var n := |samples|;
    RankInRange(p, n);
    RankInRange(q, n);
    RankAscends(p, q, n);
    SortedAt(samples, Rank(p, n) - 1, Rank(q, n) - 1);
    BucketsAscend(Sorted(samples)[Rank(p, n) - 1], Sorted(samples)[Rank(q, n) - 1]);
  }

  lemma SortedAt(samples: seq<int>, i: nat, j: nat)
    requires i <= j < |samples|
    ensures Sorted(samples)[i] <= Sorted(samples)[j]
  {
    hide Sorted;
    SortedSorts(samples);
  }

  lemma BucketsAscend(a: int, b: int)
    requires a <= b
    ensures BucketOf(a) <= BucketOf(b) && Bound(BucketOf(a)) <= Bound(BucketOf(b))
  {
  }
}
