/** The rolling count of key accesses: a ring of 12 time slots. */
module HotKeys {
  import opened Basics

  const SLOTS: nat := 12

  /** One access: the index of the 5-second window it fell in, and the key. */
  datatype Access = Access(window: nat, key: Bytes)

  datatype HotKey = HotKey(key: Bytes, count: nat)

  /** Accesses of a key whose window lies in [lo, hi). */
  function Accesses(log: seq<Access>, key: Bytes, lo: int, hi: int): nat {
    if log == [] then 0
    else
      var a := log[|log| - 1];
      Accesses(log[..|log| - 1], key, lo, hi) + if a.key == key && lo <= a.window < hi then 1 else 0
  }

  /** Accesses of a key in one window. */
  function AccessesAt(log: seq<Access>, key: Bytes, window: int): nat {
    Accesses(log, key, window, window + 1)
  }

  /** Accesses of a key in the 12 windows that end at `current`. */
  function Rolling(log: seq<Access>, key: Bytes, current: nat): nat {
    Accesses(log, key, current - SLOTS + 1, current + 1)
  }

  function Latest(log: seq<Access>): nat {
    if log == [] then 0
    else
      var w := log[|log| - 1].window;
      var m := Latest(log[..|log| - 1]);
      if w > m then w else m
  }

  /** The positions of the accesses of a key in the last 12 windows. */
  ghost function Recent(log: seq<Access>, key: Bytes, current: nat): set<int> {
    set p | 0 <= p < |log| && log[p].key == key && current - 12 < log[p].window <= current
  }

  lemma RecentStep(log: seq<Access>, key: Bytes, current: nat)
    requires log != []
    ensures var n := |log| - 1;
      |Recent(log, key, current)| == |Recent(log[..n], key, current)|
        + if log[n].key == key && current - 12 < log[n].window <= current then 1 else 0
  {
    var n := |log| - 1;
    var here := log[n].key == key && current - 12 < log[n].window <= current;
    assert Recent(log, key, current) == Recent(log[..n], key, current) + if here then {n} else {};
  }

  /** The rolling count is their number. */
  lemma {:induction false} RollingMeans(log: seq<Access>, key: Bytes, current: nat)
    ensures Rolling(log, key, current) == |Recent(log, key, current)|
  {
    if log == [] {
      assert Recent(log, key, current) == {};
    } else {
      RecentStep(log, key, current);
      hide Recent;
      RollingMeans(log[..|log| - 1], key, current);
    }
  }

  /** The window among the 12 that end at `current` which uses slot i. */
  function WindowOf(current: nat, i: nat): (w: int)
    requires i < SLOTS
    ensures current - SLOTS < w <= current && w % SLOTS == i
  {
    current - (current - i) % SLOTS
  }

  function CountOf(bucket: map<Bytes, nat>, key: Bytes): nat {
    if key in bucket then bucket[key] else 0
  }

  predicate InSlot(a: Access, i: nat) {
    a.window % SLOTS == i
  }

  /** The window a slot was last reset for: that of the last access that used it. */
  function SlotTime(log: seq<Access>, i: nat): nat {
    if log == [] then 0
    else if InSlot(log[|log| - 1], i) then log[|log| - 1].window
    else SlotTime(log[..|log| - 1], i)
  }

  /** What a slot counts for a key: its accesses since the last reset. */
  function SlotCount(log: seq<Access>, i: nat, key: Bytes): nat {
    if log == [] then 0
    else
      var a, before := log[|log| - 1], log[..|log| - 1];
      if !InSlot(a, i) then SlotCount(before, i, key)
      else (if SlotTime(before, i) == a.window then SlotCount(before, i, key) else 0) + if a.key == key then 1 else 0
  }

  /** The newest window a slot was used for, -1 if none. */
  function Newest(log: seq<Access>, i: nat): int {
    if log == [] then -1
    else
      var a, n := log[|log| - 1], Newest(log[..|log| - 1], i);
      if InSlot(a, i) && a.window > n then a.window else n
  }

  /** Once a slot has been used for its newest window it is used for no other. */
  ghost predicate Settled(log: seq<Access>, i: nat) {
    forall p, q :: 0 <= p < q < |log| && InSlot(log[p], i) && InSlot(log[q], i) && log[p].window == Newest(log, i)
      ==> log[q].window == Newest(log, i)
  }

  ghost predicate SlotHolds(log: seq<Access>, i: nat, bucket: map<Bytes, nat>, time: nat) {
    && time == SlotTime(log, i)
    && (forall k :: k in bucket ==> bucket[k] > 0)
    && forall k :: CountOf(bucket, k) == SlotCount(log, i, k)
  }

  lemma {:induction false} LatestBounds(log: seq<Access>, a: Access)
    requires a in log
    ensures a.window <= Latest(log)
  {
    if log[|log| - 1] != a { LatestBounds(log[..|log| - 1], a); }
  }

  lemma {:induction false} NoAccesses(log: seq<Access>, key: Bytes, lo: int, hi: int)
    requires forall a :: a in log ==> !(lo <= a.window < hi)
    ensures Accesses(log, key, lo, hi) == 0
  {
    if log != [] { NoAccesses(log[..|log| - 1], key, lo, hi); }
  }

  /** Within 12 windows two that share a slot are the same. */
  lemma SameSlot(v: int, w: int)
    requires v % SLOTS == w % SLOTS && -12 < v - w < 12
    ensures v == w
  {
  }

  /** Accesses of a key in the windows of `current` that use slots below i. */
  function SlotSum(log: seq<Access>, key: Bytes, current: nat, i: nat): nat
    requires i <= SLOTS
  {
    if i == 0 then 0
    else SlotSum(log, key, current, i - 1) + AccessesAt(log, key, WindowOf(current, i - 1))
  }

  /** What the slots below i report: those not reset for a window 12 or more ago. */
  function ReportSum(log: seq<Access>, key: Bytes, current: nat, i: nat): nat {
    if i == 0 then 0
    else ReportSum(log, key, current, i - 1) + SlotReport(log, key, current, i - 1)
  }

  function SlotReport(log: seq<Access>, key: Bytes, current: nat, i: nat): nat {
    if current - SlotTime(log, i) < SLOTS then SlotCount(log, i, key) else 0
  }

  /** What a report at window `current` says of a key. */
  function Reported(log: seq<Access>, key: Bytes, current: nat): nat {
    ReportSum(log, key, current, SLOTS)
  }

  lemma {:induction false} SlotSumStep(log: seq<Access>, key: Bytes, current: nat, i: nat)
    requires i <= SLOTS && log != []
    ensures var a := log[|log| - 1];
      SlotSum(log, key, current, i) == SlotSum(log[..|log| - 1], key, current, i)
        + if a.key == key && current - SLOTS < a.window <= current && a.window % SLOTS < i then 1 else 0
  {
    if i > 0 {
      SlotSumStep(log, key, current, i - 1);
      var a, w := log[|log| - 1], WindowOf(current, i - 1);
      if a.window % SLOTS == i - 1 && current - SLOTS < a.window <= current { SameSlot(a.window, w); }
    }
  }

  /** The 12 slots cover the 12 windows, each once. */
  lemma {:induction false} SlotsCoverWindows(log: seq<Access>, key: Bytes, current: nat)
    ensures SlotSum(log, key, current, SLOTS) == Rolling(log, key, current)
  {
    if log == [] {
      EmptySlotSum(key, current, SLOTS);
    } else {
      SlotSumStep(log, key, current, SLOTS);
      SlotsCoverWindows(log[..|log| - 1], key, current);
    }
  }

  lemma {:induction false} EmptySlotSum(key: Bytes, current: nat, i: nat)
    requires i <= SLOTS
    ensures SlotSum([], key, current, i) == 0
  {
    if i > 0 { EmptySlotSum(key, current, i - 1); }
  }

  /** Adds every entry of a bucket to the running totals, in any order. */
  method AddBucket(totals: map<Bytes, nat>, bucket: map<Bytes, nat>) returns (sum: map<Bytes, nat>)
    requires forall k :: k in totals ==> totals[k] > 0
    requires forall k :: k in bucket ==> bucket[k] > 0
    ensures forall k :: CountOf(sum, k) == CountOf(totals, k) + CountOf(bucket, k)
    ensures forall k :: k in sum ==> sum[k] > 0
  {
    sum := totals;
    var left := bucket.Keys;
    while left != {}
      invariant left <= bucket.Keys
      invariant forall k :: CountOf(sum, k) == CountOf(totals, k) + if k in left then 0 else CountOf(bucket, k)
      invariant forall k :: k in sum ==> sum[k] > 0
    {
      var k :| k in left;
      sum := sum[k := CountOf(sum, k) + bucket[k]];
      left := left - {k};
    }
  }

  ghost predicate Descending(s: seq<HotKey>) {
    forall i, j :: 0 <= i < j < |s| ==> s[i].count >= s[j].count
  }

  /** Stands for the library sort: equal counts may come in any order, and
      callers know only this contract. */
  method SortByCount(s: seq<HotKey>) returns (sorted: seq<HotKey>)
    ensures Descending(sorted) && multiset(sorted) == multiset(s)
  {
    if s == [] { return []; }
    var rest := SortByCount(s[1..]);
    var at := 0;
    while at < |rest| && rest[at].count > s[0].count
      invariant at <= |rest| && forall i :: 0 <= i < at ==> rest[i].count > s[0].count
    {
      at := at + 1;
    }
    sorted := rest[..at] + [s[0]] + rest[at..];
    Inserted(rest, at, s[0]);
    assert s == [s[0]] + s[1..];
  }

  lemma Inserted(rest: seq<HotKey>, at: nat, h: HotKey)
    requires Descending(rest) && at <= |rest|
    requires forall i :: 0 <= i < at ==> rest[i].count > h.count
    requires at < |rest| ==> rest[at].count <= h.count
    ensures Descending(rest[..at] + [h] + rest[at..])
    ensures multiset(rest[..at] + [h] + rest[at..]) == multiset{h} + multiset(rest)
  {
    InsertedInOrder(rest, at, h);
    hide Descending;
    assert rest == rest[..at] + rest[at..];
  }

  lemma InsertedInOrder(rest: seq<HotKey>, at: nat, h: HotKey)
    requires Descending(rest) && at <= |rest|
    requires forall i :: 0 <= i < at ==> rest[i].count > h.count
    requires at < |rest| ==> rest[at].count <= h.count
    ensures Descending(rest[..at] + [h] + rest[at..])
  {
    var all := rest[..at] + [h] + rest[at..];
    assert forall i :: 0 <= i < at ==> all[i] == rest[i];
    assert forall i :: at < i < |all| ==> all[i] == rest[i - 1];
  }

  /** Lists a table's entries, each once, in any order. */
  method Entries(totals: map<Bytes, nat>) returns (out: seq<HotKey>)
    ensures forall h :: multiset(out)[h] == if h.key in totals && totals[h.key] == h.count then 1 else 0
  {
    out := [];
    var left := totals.Keys;
    while left != {}
      invariant left <= totals.Keys
      invariant forall h :: multiset(out)[h]
                         == if h.key in totals && h.key !in left && totals[h.key] == h.count then 1 else 0
    {
      var k :| k in left;
      out := out + [HotKey(k, totals[k])];
      left := left - {k};
    }
  }

  ghost predicate Listed(out: seq<HotKey>, key: Bytes) {
    exists h :: h in out && h.key == key
  }

  /** A top-n report: each listed key once, with what the slots report of it,
      largest first; a key with a count is left out only when n others with counts
      at least as large are listed. */
  ghost predicate TopOf(log: seq<Access>, current: nat, n: int, out: seq<HotKey>) {
    && (forall h :: h in out ==> h.count == Reported(log, h.key, current) > 0)
    && (forall i, j :: 0 <= i < j < |out| ==> out[i].key != out[j].key)
    && Descending(out)
    && (n > 0 ==> |out| <= n)
    && (forall k :: Reported(log, k, current) > 0 && !Listed(out, k) ==>
          n > 0 && |out| == n && forall h :: h in out ==> h.count >= Reported(log, k, current))
  }

  class Tracker {
    const buckets: array<map<Bytes, nat>>
    const slotTime: array<nat>
    ghost var log: seq<Access>

    ghost predicate Valid()
      reads this, buckets, slotTime
    {
      && buckets.Length == slotTime.Length == SLOTS
      && forall i :: 0 <= i < SLOTS ==> SlotHolds(log, i, buckets[i], slotTime[i])
    }

    constructor ()
      ensures Valid() && log == [] && fresh(buckets) && fresh(slotTime)
    {
      buckets := new map<Bytes, nat>[SLOTS](_ => map[]);
      slotTime := new nat[SLOTS](_ => 0);
      log := [];
    }

    /** Reusing a slot for another window drops what it held. */
    method Touch(key: Bytes, window: nat)
      requires Valid()
      modifies this, buckets, slotTime
      ensures Valid() && log == old(log) + [Access(window, key)]
    {
      hide SlotTime, SlotCount;
      ghost var was := log;
      var slot := window % SLOTS;
      log := log + [Access(window, key)];
      if slotTime[slot] != window {
        buckets[slot] := map[];
        slotTime[slot] := window;
      }
      buckets[slot] := buckets[slot][key := CountOf(buckets[slot], key) + 1];
      forall i | 0 <= i < SLOTS ensures SlotHolds(log, i, buckets[i], slotTime[i]) {
        TouchSlot(was, Access(window, key), i, old(buckets[i]), old(slotTime[i]));
      }
    }

    /** The keys the slots report, most used first; a positive n keeps n of the
        largest. What the report has to do with the log is ReportIsExact. */
    method Top(n: int, current: nat) returns (out: seq<HotKey>)
      requires Valid()
      ensures TopOf(log, current, n, out)
    {
      hide Reported, SlotHolds, TopOf;
      var totals := Totals(current);
      var all := Entries(totals);
      all := SortByCount(all);
      out := if n > 0 && |all| > n then all[..n] else all;
      SortedEntries(totals, all);
      Ranked(log, current, n, totals, all);
    }

    method Totals(current: nat) returns (totals: map<Bytes, nat>)
      requires Valid()
      ensures forall k :: CountOf(totals, k) == Reported(log, k, current)
      ensures forall k :: k in totals ==> totals[k] > 0
    {
      hide SlotTime, SlotCount;
      totals := map[];
      for i := 0 to SLOTS
        invariant forall k :: k in totals ==> totals[k] > 0
        invariant forall k :: CountOf(totals, k) == ReportSum(log, k, current, i)
      {
        assert SlotHolds(log, i, buckets[i], slotTime[i]);
        if current - slotTime[i] < SLOTS {
          totals := AddBucket(totals, buckets[i]);
        }
      }
    }
  }

  /** A sorted listing of a table names each of its keys once. */
  lemma SortedEntries(totals: map<Bytes, nat>, out: seq<HotKey>)
    requires forall h :: multiset(out)[h] == if h.key in totals && totals[h.key] == h.count then 1 else 0
    ensures forall h :: h in out <==> h.key in totals && totals[h.key] == h.count
    ensures forall i, j :: 0 <= i < j < |out| ==> out[i].key != out[j].key
  {
    forall h ensures h in out <==> h.key in totals && totals[h.key] == h.count {
      assert h in out <==> h in multiset(out);
    }
    forall i, j | 0 <= i < j < |out| ensures out[i].key != out[j].key {
      if out[i].key == out[j].key {
        assert out[i] in out && out[j] in out;
        TwiceInside(out, i, j);
      }
    }
  }

  lemma TwiceInside<T>(s: seq<T>, i: nat, j: nat)
    requires i < j < |s| && s[i] == s[j]
    ensures multiset(s)[s[i]] >= 2
  {
    assert s == s[..j] + s[j..] && s[..j][i] == s[i] && s[j..][0] == s[j];
    assert s[i] in multiset(s[..j]) && s[i] in multiset(s[j..]);
  }

  lemma DroppedAt<T>(s: seq<T>, n: nat, x: T)
    requires n <= |s| && x in s && x !in s[..n]
    ensures exists i :: n <= i < |s| && s[i] == x
  {
    assert s == s[..n] + s[n..];
    var i :| 0 <= i < |s[n..]| && s[n..][i] == x;
    assert s[n + i] == x;
  }

  /** An entry dropped by keeping the first n is no larger than those kept. */
  lemma Truncated(all: seq<HotKey>, n: nat, dropped: HotKey)
    requires n <= |all| && Descending(all) && dropped in all && dropped !in all[..n]
    ensures forall h :: h in all[..n] ==> h.count >= dropped.count
  {
    DroppedAt(all, n, dropped);
  }

  /** Sorting the exact totals and keeping the first n gives the top n. */
  lemma Ranked(log: seq<Access>, current: nat, n: int, totals: map<Bytes, nat>, all: seq<HotKey>)
    requires forall k :: CountOf(totals, k) == Reported(log, k, current)
    requires forall k :: k in totals ==> totals[k] > 0
    requires forall h :: h in all <==> h.key in totals && totals[h.key] == h.count
    requires forall i, j :: 0 <= i < j < |all| ==> all[i].key != all[j].key
    requires Descending(all)
    ensures TopOf(log, current, n, if n > 0 && |all| > n then all[..n] else all)
  {
    hide Reported;
    var out := if n > 0 && |all| > n then all[..n] else all;
    forall k | Reported(log, k, current) > 0 && !Listed(out, k)
      ensures n > 0 && |out| == n && forall h :: h in out ==> h.count >= Reported(log, k, current)
    {
      var dropped := HotKey(k, totals[k]);
      assert dropped in all && dropped !in out;
      Truncated(all, |out|, dropped);
    }
  }

  /** One slot after one more access, of any window. */
  lemma TouchSlot(log: seq<Access>, a: Access, i: nat, bucket: map<Bytes, nat>, time: nat)
    requires i < SLOTS && SlotHolds(log, i, bucket, time)
    ensures var more := log + [a];
      if a.window % SLOTS != i then SlotHolds(more, i, bucket, time)
      else
        var kept := if time != a.window then map[] else bucket;
        SlotHolds(more, i, kept[a.key := CountOf(kept, a.key) + 1], a.window)
  {
    var more := log + [a];
    assert more[..|more| - 1] == log;
    forall k
      ensures SlotCount(more, i, k) ==
        if !InSlot(a, i) then SlotCount(log, i, k)
        else (if SlotTime(log, i) == a.window then SlotCount(log, i, k) else 0) + if a.key == k then 1 else 0
    {
    }
  }

  // ----- when the report is exact

  lemma {:induction false} NewestBounds(log: seq<Access>, i: nat, p: nat)
    requires p < |log| && InSlot(log[p], i)
    ensures log[p].window <= Newest(log, i)
  {
    if p < |log| - 1 { NewestBounds(log[..|log| - 1], i, p); }
  }

  lemma {:induction false} NewestUsed(log: seq<Access>, i: nat) returns (p: nat)
    requires Newest(log, i) >= 0
    ensures p < |log| && InSlot(log[p], i) && log[p].window == Newest(log, i)
  {
    var before := log[..|log| - 1];
    p := |log| - 1;
    if Newest(log, i) == Newest(before, i) {
      p := NewestUsed(before, i);
      assert before[p] == log[p];
    }
  }

  lemma {:induction false} NewestNotAfter(log: seq<Access>, i: nat)
    ensures -1 <= Newest(log, i) <= Latest(log)
    ensures SlotTime(log, i) <= Latest(log)
    ensures SlotTime(log, i) == 0 || SlotTime(log, i) <= Newest(log, i)
    ensures Newest(log, i) >= 0 ==> Newest(log, i) % SLOTS == i
    ensures Newest(log, i) >= 0 ==> SlotTime(log, i) % SLOTS == i
  {
    if log != [] { NewestNotAfter(log[..|log| - 1], i); }
  }

  /** A slot never used counts nothing. */
  lemma {:induction false} UnusedSlot(log: seq<Access>, i: nat, key: Bytes)
    requires Newest(log, i) < 0
    ensures SlotCount(log, i, key) == 0 && SlotTime(log, i) == 0
  {
    if log != [] { UnusedSlot(log[..|log| - 1], i, key); }
  }

  /** A slot never counts more than its window had. */
  lemma {:induction false} CountAtMost(log: seq<Access>, i: nat, key: Bytes)
    ensures SlotCount(log, i, key) <= AccessesAt(log, key, SlotTime(log, i))
  {
    if log != [] { CountAtMost(log[..|log| - 1], i, key); }
  }

  /** How one access changes whether a slot is settled: a newer window settles it,
      its newest window leaves it as it is, an older one unsettles it. */
  lemma SettledStep(log: seq<Access>, i: nat)
    requires log != []
    ensures var a, before := log[|log| - 1], log[..|log| - 1];
      Settled(log, i) <==>
        if !InSlot(a, i) || a.window == Newest(before, i) then Settled(before, i)
        else a.window > Newest(before, i)
  {
    var a, before := log[|log| - 1], log[..|log| - 1];
    var n := |log| - 1;
    assert forall p :: 0 <= p < n ==> before[p] == log[p];
    if InSlot(a, i) && a.window > Newest(before, i) {
      forall p | 0 <= p < n && InSlot(log[p], i) ensures log[p].window < a.window {
        NewestBounds(before, i, p);
      }
    } else if InSlot(a, i) && a.window < Newest(before, i) {
      var p := NewestUsed(before, i);
      assert log[p].window == Newest(log, i) && log[n].window != Newest(log, i);
    }
  }

  /** A settled slot holds exactly the accesses of its newest window. */
  lemma {:induction false} SettledHolds(log: seq<Access>, i: nat, key: Bytes)
    requires Settled(log, i) && Newest(log, i) >= 0
    ensures SlotTime(log, i) == Newest(log, i)
    ensures SlotCount(log, i, key) == AccessesAt(log, key, Newest(log, i))
  {
    var a, before := log[|log| - 1], log[..|log| - 1];
    SettledStep(log, i);
    NewestNotAfter(before, i);
    if !InSlot(a, i) || a.window == Newest(before, i) {
      SettledHolds(before, i, key);
    } else {
      if Newest(before, i) < 0 { UnusedSlot(before, i, key); }
      forall x | x in before ensures x.window != a.window {
        var p :| 0 <= p < |before| && before[p] == x;
        if InSlot(x, i) { NewestBounds(before, i, p); }
      }
      NoAccesses(before, key, a.window, a.window + 1);
    }
  }

  /** An unsettled slot has lost an access of its newest window. */
  lemma {:induction false} UnsettledLoses(log: seq<Access>, i: nat) returns (key: Bytes)
    requires !Settled(log, i)
    ensures Newest(log, i) >= 0
    ensures AccessesAt(log, key, Newest(log, i)) > 0
    ensures SlotTime(log, i) == Newest(log, i) ==> SlotCount(log, i, key) < AccessesAt(log, key, Newest(log, i))
  {
    var a, before := log[|log| - 1], log[..|log| - 1];
    SettledStep(log, i);
    if !InSlot(a, i) || a.window == Newest(before, i) {
      key := UnsettledLoses(before, i);
      CountAtMost(before, i, key);
    } else {
      var p := NewestUsed(before, i);
      key := before[p].key;
      SomeAccess(before, p);
    }
  }

  lemma {:induction false} SomeAccess(log: seq<Access>, p: nat)
    requires p < |log|
    ensures AccessesAt(log, log[p].key, log[p].window) > 0
  {
    if p < |log| - 1 { SomeAccess(log[..|log| - 1], p); }
  }

  /** What one slot reports is never more than its share of the 12 windows, and
      for every key exactly that if the slot is settled or its newest window is
      out of the report. */
  lemma SlotReports(log: seq<Access>, key: Bytes, current: nat, i: nat)
    requires i < SLOTS && Latest(log) <= current
    ensures SlotReport(log, key, current, i) <= AccessesAt(log, key, WindowOf(current, i))
    ensures Settled(log, i) || Newest(log, i) <= current - SLOTS ==>
      SlotReport(log, key, current, i) == AccessesAt(log, key, WindowOf(current, i))
  {
    hide SlotTime, SlotCount, AccessesAt, Accesses, Latest, Newest, Settled;
    var w := WindowOf(current, i);
    NewestNotAfter(log, i);
    CountAtMost(log, i, key);
    if Newest(log, i) < 0 { UnusedSlot(log, i, key); }
    if Newest(log, i) < w || Newest(log, i) < 0 { NoneAt(log, i, key, w); }
    if Newest(log, i) >= 0 {
      if current - SlotTime(log, i) < SLOTS { SameSlot(SlotTime(log, i), w); }
      if Newest(log, i) > current - SLOTS { SameSlot(Newest(log, i), w); }
      if Settled(log, i) { SettledHolds(log, i, key); }
    }
  }

  lemma NoneAt(log: seq<Access>, i: nat, key: Bytes, w: int)
    requires w % SLOTS == i && (Newest(log, i) < w || Newest(log, i) < 0)
    ensures AccessesAt(log, key, w) == 0
  {
    forall x | x in log ensures x.window != w {
      var p :| 0 <= p < |log| && log[p] == x;
      if InSlot(x, i) { NewestBounds(log, i, p); }
    }
    NoAccesses(log, key, w, w + 1);
  }

  lemma {:induction false} SumsAgree(log: seq<Access>, key: Bytes, current: nat, i: nat)
    requires i <= SLOTS && Latest(log) <= current
    ensures ReportSum(log, key, current, i) <= SlotSum(log, key, current, i)
    ensures (forall j :: 0 <= j < i ==> Settled(log, j) || Newest(log, j) <= current - SLOTS) ==>
      ReportSum(log, key, current, i) == SlotSum(log, key, current, i)
  {
    hide SlotReport, AccessesAt, Settled, Newest, Latest;
    if i > 0 {
      SumsAgree(log, key, current, i - 1);
      SlotReports(log, key, current, i - 1);
    }
  }

  lemma {:induction false} SumsDiffer(log: seq<Access>, key: Bytes, current: nat, j: nat, i: nat)
    requires j < i <= SLOTS && Latest(log) <= current
    requires SlotReport(log, key, current, j) < AccessesAt(log, key, WindowOf(current, j))
    ensures ReportSum(log, key, current, i) < SlotSum(log, key, current, i)
  {
    hide SlotReport, AccessesAt, Latest, Settled, Newest;
    if i == j + 1 {
      SumsAgree(log, key, current, j);
    } else {
      SumsDiffer(log, key, current, j, i - 1);
      SlotReports(log, key, current, i - 1);
    }
  }

  /** Exactly when the report is right. At any window not before the latest access,
      it gives every key its number of accesses in the last 12 windows of the whole
      log if and only if no slot whose newest window is among them was used for an
      older window after it. It never gives more. */
  lemma ReportIsExact(log: seq<Access>, current: nat)
    requires Latest(log) <= current
    ensures forall k :: Reported(log, k, current) <= Rolling(log, k, current)
    ensures (forall k :: Reported(log, k, current) == Rolling(log, k, current))
      <==> forall i :: 0 <= i < SLOTS ==> Settled(log, i) || Newest(log, i) <= current - SLOTS
  {
    hide ReportSum, SlotSum, Rolling, Settled, Newest, Latest, SlotReport, AccessesAt;
    forall k
      ensures Reported(log, k, current) <= Rolling(log, k, current)
      ensures (forall i :: 0 <= i < SLOTS ==> Settled(log, i) || Newest(log, i) <= current - SLOTS) ==>
        Reported(log, k, current) == Rolling(log, k, current)
    {
      SumsAgree(log, k, current, SLOTS);
      SlotsCoverWindows(log, k, current);
    }
    if i :| 0 <= i < SLOTS && !Settled(log, i) && Newest(log, i) > current - SLOTS {
      var key := SlotLoses(log, current, i);
      SumsDiffer(log, key, current, i, SLOTS);
      SlotsCoverWindows(log, key, current);
      assert Reported(log, key, current) != Rolling(log, key, current);
    }
  }

  lemma SlotLoses(log: seq<Access>, current: nat, i: nat) returns (key: Bytes)
    requires i < SLOTS && Latest(log) <= current && !Settled(log, i) && Newest(log, i) > current - SLOTS
    ensures SlotReport(log, key, current, i) < AccessesAt(log, key, WindowOf(current, i))
  {
    hide SlotTime, SlotCount, AccessesAt, Accesses, Latest, Newest, Settled;
    key := UnsettledLoses(log, i);
    NewestNotAfter(log, i);
    var w := WindowOf(current, i);
    SameSlot(Newest(log, i), w);
    if current - SlotTime(log, i) < SLOTS { SameSlot(SlotTime(log, i), w); }
  }

  // ----- accesses less than 12 windows late

  /** No access is 12 windows or more older than one logged before it. */
  ghost predicate Timely(log: seq<Access>) {
    log == [] || (Timely(log[..|log| - 1]) && log[|log| - 1].window + SLOTS > Latest(log[..|log| - 1]))
  }

  /** Accesses out of order by fewer than 12 windows leave every slot settled. */
  lemma {:induction false} TimelyIsSettled(log: seq<Access>, i: nat)
    requires Timely(log) && i < SLOTS
    ensures Settled(log, i)
  {
    if log != [] {
      var a, before := log[|log| - 1], log[..|log| - 1];
      SettledStep(log, i);
      NewestNotAfter(before, i);
      TimelyIsSettled(before, i);
      if InSlot(a, i) && a.window < Newest(before, i) { SameSlot(a.window, Newest(before, i)); }
    }
  }

  /** So the report is exact when accesses come less than 12 windows late. */
  lemma TimelyReportIsExact(log: seq<Access>, key: Bytes, current: nat)
    requires Timely(log) && Latest(log) <= current
    ensures Reported(log, key, current) == Rolling(log, key, current)
  {
    hide Reported, Rolling, Settled, Newest, Latest, Timely;
    forall i | 0 <= i < SLOTS ensures Settled(log, i) {
      TimelyIsSettled(log, i);
    }
    ReportIsExact(log, current);
  }

  /** An access 12 windows late loses the count of the newer window. */
  lemma LateAccessLoses()
    ensures var log := [Access(12, "k"), Access(0, "k")];
      Rolling(log, "k", 12) == 1 && Reported(log, "k", 12) == 0
  {
    var one := [Access(12, "k")];
    var log := [Access(12, "k"), Access(0, "k")];
    assert log[..1] == one && one[..0] == [];
    assert Accesses(one, "k", 1, 13) == 1;
    assert SlotTime(log, 0) == 0;
    forall i | 1 <= i < SLOTS ensures SlotCount(log, i, "k") == 0 {
      assert !InSlot(Access(12, "k"), i) && !InSlot(Access(0, "k"), i);
      assert SlotCount(one, i, "k") == 0;
    }
    NothingReported(log, "k", 12, SLOTS);
  }

  lemma {:induction false} NothingReported(log: seq<Access>, key: Bytes, current: nat, i: nat)
    requires i <= SLOTS && forall j :: 0 <= j < i ==> SlotReport(log, key, current, j) == 0
    ensures ReportSum(log, key, current, i) == 0
  {
    if i > 0 { NothingReported(log, key, current, i - 1); }
  }

  /** A late access to a slot with no newer window loses nothing. */
  lemma LateAccessKept()
    ensures var log := [Access(5, "k"), Access(24, "k"), Access(5, "k")];
      !Timely(log) && Settled(log, 5) && Settled(log, 0)
  {
    var one := [Access(5, "k")];
    var two := [Access(5, "k"), Access(24, "k")];
    var log := [Access(5, "k"), Access(24, "k"), Access(5, "k")];
    assert log[..2] == two && two[..1] == one && one[..0] == [];
    assert Newest(one, 5) == 5 && Newest(two, 5) == 5 && Newest(log, 5) == 5;
    assert Newest(one, 0) == -1 && Newest(two, 0) == 24 && Newest(log, 0) == 24;
    assert Latest(one) == 5 && Latest(two) == 24;
  }
}
