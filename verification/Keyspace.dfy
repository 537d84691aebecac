/** KEYS and the cursor iteration of SCAN. */
module Keyspace {
  import opened Basics
  import opened Ordering
  import opened StoreSpec

  /** "*" matches everything, "prefix*" a prefix, anything else exactly itself. */
  predicate MatchGlob(pattern: Bytes, key: Bytes) {
    if pattern == "*" then true
    else if pattern != "" && pattern[|pattern| - 1] == '*' then pattern[..|pattern| - 1] <= key
    else pattern == key
  }

  function Matching(pattern: Bytes, keys: seq<Bytes>): seq<Bytes> {
    if keys == [] then []
    else (if MatchGlob(pattern, keys[0]) then [keys[0]] else []) + Matching(pattern, keys[1..])
  }

  /** KEYS passes over a string that is due. */
  ghost function KeysBag(st: State, now: int): multiset<Bytes> {
    multiset(set k | k in st.data && !Due(st.data[k], now)) + multiset(st.lists.Keys) + multiset(st.hashes.Keys)
  }

  /** SCAN passes over a string whose deadline is not in the future. */
  ghost function ScanBag(st: State, now: int): multiset<Bytes> {
    multiset(set k | k in st.data && (st.data[k].expiresAt.None? || now < st.data[k].expiresAt.value))
    + multiset(st.lists.Keys) + multiset(st.hashes.Keys)
  }

  ghost function SortedOf(b: multiset<Bytes>): (s: seq<Bytes>)
    ensures multiset(s) == b && IsSorted(s)
    decreases |b|
  {
    if b == multiset{} then []
    else
      var k :| k in b;
      var rest := SortedOf(b - multiset{k});
      InsertSorted(k, rest);
      Insert(k, rest)
  }

  lemma SortedLength(b: multiset<Bytes>)
    ensures |SortedOf(b)| == |b|
  {
    hide IsSorted;
    assert |multiset(SortedOf(b))| == |SortedOf(b)|;
  }

  lemma SortedMember(b: multiset<Bytes>, x: Bytes)
    requires x in b
    ensures x in SortedOf(b)
  {
    hide IsSorted;
    assert x in multiset(SortedOf(b));
  }

  lemma SortedIs(b: multiset<Bytes>, s: seq<Bytes>)
    requires multiset(s) == b && IsSorted(s)
    ensures SortedOf(b) == s
  {
    hide IsSorted;
    SortedUnique(SortedOf(b), s);
  }

  datatype Page = Page(next: int, keys: seq<Bytes>) | OutOfRange

  /** One SCAN over the sorted keys. A count so large that the end of the page
      does not fit an int makes the slice expression panic. */
  function ScanPage(all: seq<Bytes>, cursor: Int, pattern: Bytes, count: Int): Page {
    var n := EffectiveCount(count);
    if cursor < 0 || cursor >= |all| then Page(0, [])
    else
      var sum: int := cursor + n;
      var end := Min(Wrap(sum), |all|);
      if end < cursor then OutOfRange
      else Page(if end >= |all| then 0 else end, Matching(pattern, all[cursor..end]))
  }

  /** SCAN answers unless the cursor is inside the keyspace and the sum overflows. */
  lemma ScanAnswers(all: seq<Bytes>, cursor: Int, pattern: Bytes, count: Int)
    ensures var n := EffectiveCount(count);
      ScanPage(all, cursor, pattern, count).OutOfRange? <==> 0 <= cursor < |all| && cursor as int + n > MAX_INT
  {
  }

  /** Only strings, none with a deadline. */
  ghost predicate Plain(st: State) {
    st.lists == map[] && st.hashes == map[] && forall k :: k in st.data ==> st.data[k].expiresAt.None?
  }

  lemma PlainBag(st: State, now: int)
    requires Plain(st)
    ensures ScanBag(st, now) == multiset(st.data.Keys)
  {
    ScanSeesKeys(st, now);
    assert (set k | k in st.data && !Due(st.data[k], now)) == st.data.Keys;
  }

  lemma PlainSet(st: State, key: Bytes, value: Bytes, now: int)
    requires Plain(st) && key !in ScanBag(st, now)
    ensures Plain(Stored(st, key, value, 0, now))
    ensures ScanBag(Stored(st, key, value, 0, now), now) == ScanBag(st, now) + multiset{key}
  {
    hide ScanBag;
    PlainBag(st, now);
    var more := Stored(st, key, value, 0, now);
    PlainBag(more, now);
    assert key !in multiset(st.data.Keys);
    assert more.data.Keys == st.data.Keys + {key};
  }

  lemma PlainDel(st: State, key: Bytes, now: int)
    requires Plain(st)
    ensures ScanBag(Removed(st, {key}), now) == ScanBag(st, now) - multiset{key}
  {
    hide ScanBag;
    PlainBag(st, now);
    PlainBag(Removed(st, {key}), now);
    assert Removed(st, {key}).data.Keys == st.data.Keys - {key};
  }

  lemma NothingIsPlain(now: int)
    ensures Plain(Empty(0)) && ScanBag(Empty(0), now) == multiset{}
  {
  }

  /** After SET a 1 and SET b 2, SCAN 1 with the largest count slices out of range. */
  lemma ScanOverflows(now: int)
    ensures var st := Stored(Stored(Empty(0), "a", "1", 0, now), "b", "2", 0, now);
      ScanPage(SortedOf(ScanBag(st, now)), 1, "*", MAX_INT).OutOfRange?
  {
    hide SortedOf, IsSorted, ScanBag, Stored, Plain;
    var one := Stored(Empty(0), "a", "1", 0, now);
    NothingIsPlain(now);
    PlainSet(Empty(0), "a", "1", now);
    PlainSet(one, "b", "2", now);
    assert |ScanBag(Stored(one, "b", "2", 0, now), now)| == 2;
    SortedLength(ScanBag(Stored(one, "b", "2", 0, now), now));
  }

  /** A count that is not positive stands for 10. */
  function EffectiveCount(count: Int): int {
    if count <= 0 then 10 else count
  }

  /** Where the page that starts inside the keyspace ends. */
  function EndOf(length: nat, cursor: Int, count: Int): (end: int)
    requires 0 <= cursor < length
    ensures cursor < end <= length
  {
    Min(cursor + EffectiveCount(count), length)
  }

  lemma PageIs(all: seq<Bytes>, cursor: Int, pattern: Bytes, count: Int)
    requires 0 <= cursor < |all| && ScanPage(all, cursor, pattern, count).Page?
    ensures var end := EndOf(|all|, cursor, count);
      ScanPage(all, cursor, pattern, count)
      == Page(if end >= |all| then 0 else end, Matching(pattern, all[cursor..end]))
  {
    ScanAnswers(all, cursor, pattern, count);
    hide Matching;
  }

  // ----- a whole iteration

  /** One call of an iteration: the keys at the time, and the count asked for. */
  datatype Call = Call(bag: multiset<Bytes>, count: Int)

  ghost function CallPage(c: Call, cursor: Int, pattern: Bytes): Page {
    ScanPage(SortedOf(c.bag), cursor, pattern, c.count)
  }

  /** Calls that follow the returned cursors from `cursor` until it is 0 again. */
  ghost predicate Iteration(calls: seq<Call>, cursor: Int, pattern: Bytes)
    decreases |calls|
  {
    && calls != []
    && var p := CallPage(calls[0], cursor, pattern);
    && p.Page? && p.next <= MAX_INT
    && if p.next == 0 then |calls| == 1 else p.next > 0 && Iteration(calls[1..], p.next, pattern)
  }

  ghost function Yield(calls: seq<Call>, cursor: Int, pattern: Bytes): seq<Bytes>
    requires Iteration(calls, cursor, pattern)
    decreases |calls|
  {
    var p := CallPage(calls[0], cursor, pattern);
    if p.next == 0 then p.keys else p.keys + Yield(calls[1..], p.next, pattern)
  }

  lemma {:induction false} MatchingAppend(pattern: Bytes, a: seq<Bytes>, b: seq<Bytes>)
    ensures Matching(pattern, a + b) == Matching(pattern, a) + Matching(pattern, b)
  {
    if a == [] {
      assert a + b == b;
    } else {
      assert (a + b)[1..] == a[1..] + b;
      MatchingAppend(pattern, a[1..], b);
    }
  }

  lemma PageSplits(all: seq<Bytes>, cursor: Int, pattern: Bytes, count: Int)
    requires 0 <= cursor < |all| && ScanPage(all, cursor, pattern, count).Page?
    ensures var p := ScanPage(all, cursor, pattern, count);
      && (p.next == 0 ==> p.keys == Matching(pattern, all[cursor..]))
      && (p.next != 0 ==>
           cursor < p.next < |all|
           && Matching(pattern, all[cursor..]) == p.keys + Matching(pattern, all[p.next..]))
  {
    hide ScanPage, Matching;
    var end := EndOf(|all|, cursor, count);
    PageIs(all, cursor, pattern, count);
    if end == |all| {
      assert all[cursor..end] == all[cursor..];
    } else {
      MatchingAppend(pattern, all[cursor..end], all[end..]);
      assert all[cursor..] == all[cursor..end] + all[end..];
    }
  }

  /** A page and the pages after it cover the keys from the cursor on. */
  lemma PageCovers(c: Call, cursor: Int, pattern: Bytes)
    requires 0 <= cursor && (cursor == 0 || cursor < |c.bag|)
    requires CallPage(c, cursor, pattern).Page?
    ensures var all := SortedOf(c.bag);
      var p := CallPage(c, cursor, pattern);
      && |all| == |c.bag| && cursor <= |all|
      && (p.next == 0 ==> p.keys == Matching(pattern, all[cursor..]))
      && (p.next != 0 ==>
           cursor < p.next < |all|
           && Matching(pattern, all[cursor..]) == p.keys + Matching(pattern, all[p.next..]))
  {
    hide IsSorted, SortedOf;
    SortedLength(c.bag);
    var all := SortedOf(c.bag);
    if cursor < |all| {
      hide ScanPage, Matching;
      PageSplits(all, cursor, pattern, c.count);
    } else {
      assert all[cursor..] == [];
    }
  }

  /** On an unchanged keyspace the pages of an iteration partition the sorted
      keys, so what it yields is what matches, each key as often as it is there,
      and it takes at most one call per key. */
  lemma {:induction false} StaticIteration(calls: seq<Call>, cursor: Int, pattern: Bytes, bag: multiset<Bytes>)
    requires Iteration(calls, cursor, pattern)
    requires forall i :: 0 <= i < |calls| ==> calls[i].bag == bag
    requires 0 <= cursor && (cursor == 0 || cursor < |bag|)
    ensures var all := SortedOf(bag);
      cursor <= |all| && Yield(calls, cursor, pattern) == Matching(pattern, all[cursor..])
    ensures |calls| <= if bag == multiset{} then 1 else |bag| - cursor
    decreases |calls|
  {
    PageCovers(calls[0], cursor, pattern);
    hide IsSorted, CallPage, SortedOf, Matching;
    var p := CallPage(calls[0], cursor, pattern);
    if p.next != 0 {
      StaticIteration(calls[1..], p.next, pattern, bag);
    } else if bag != multiset{} {
      assert |bag| > 0;
    }
  }

  /** SCAN and KEYS see the same keys unless the clock is exactly on a deadline. */
  lemma ScanSeesKeys(st: State, now: int)
    ensures ScanBag(st, now) == KeysBag(st, now)
      <==> forall k :: k in st.data ==> st.data[k].expiresAt != Some(now)
  {
    var a := set k | k in st.data && (st.data[k].expiresAt.None? || now < st.data[k].expiresAt.value);
    var b := set k | k in st.data && !Due(st.data[k], now);
    if k :| k in st.data && st.data[k].expiresAt == Some(now) {
      assert k in b && k !in a;
      assert KeysBag(st, now)[k] == ScanBag(st, now)[k] + 1;
    } else {
      assert a == b;
    }
  }

  lemma {:induction false} MatchingBag(pattern: Bytes, keys: seq<Bytes>, k: Bytes)
    ensures multiset(Matching(pattern, keys))[k] == if MatchGlob(pattern, k) then multiset(keys)[k] else 0
  {
    if keys != [] {
      hide MatchGlob;
      MatchingBag(pattern, keys[1..], k);
      assert keys == [keys[0]] + keys[1..];
    }
  }

  /** A complete SCAN of an unchanged store, with any counts, yields what KEYS
      lists, each key as often, when no string has its deadline right now. */
  lemma CompleteScanIsKeys(st: State, now: int, calls: seq<Call>, pattern: Bytes, k: Bytes)
    requires Iteration(calls, 0, pattern)
    requires forall i :: 0 <= i < |calls| ==> calls[i].bag == ScanBag(st, now)
    requires forall x :: x in st.data ==> st.data[x].expiresAt != Some(now)
    ensures multiset(Yield(calls, 0, pattern))[k] == if MatchGlob(pattern, k) then KeysBag(st, now)[k] else 0
  {
    hide Iteration, Yield, Matching, MatchGlob, SortedOf, ScanBag, KeysBag, IsSorted;
    var all := SortedOf(ScanBag(st, now));
    ScanSeesKeys(st, now);
    StaticIteration(calls, 0, pattern, ScanBag(st, now));
    assert all[0..] == all;
    MatchingBag(pattern, all, k);
  }

  /** Following the cursors does end: from any cursor, and for any counts whose
      pages do not overflow, there are calls that complete an iteration. */
  lemma {:induction false} IterationEnds(bag: multiset<Bytes>, cursor: Int, pattern: Bytes, counts: nat -> Int,
                                           from: nat)
    returns (calls: seq<Call>)
    requires 0 <= cursor && (cursor == 0 || cursor < |bag|)
    requires forall i :: i >= from ==> |bag| + EffectiveCount(counts(i)) <= MAX_INT
    ensures Iteration(calls, cursor, pattern)
    ensures forall i :: 0 <= i < |calls| ==> calls[i] == Call(bag, counts(from + i))
    decreases |bag| - cursor
  {
    hide CallPage, SortedOf, Matching, IsSorted;
    var first := Call(bag, counts(from));
    PageMovesOn(first, cursor, pattern);
    var p := CallPage(first, cursor, pattern);
    calls := [first];
    if p.next != 0 {
      var rest := IterationEnds(bag, p.next, pattern, counts, from + 1);
      calls := calls + rest;
      assert forall i :: 0 < i < |calls| ==> calls[i] == rest[i - 1];
      assert calls[1..] == rest;
    }
  }

  lemma PageMovesOn(c: Call, cursor: Int, pattern: Bytes)
    requires 0 <= cursor && (cursor == 0 || cursor < |c.bag|) && |c.bag| + EffectiveCount(c.count) <= MAX_INT
    ensures var p := CallPage(c, cursor, pattern);
      p.Page? && (p.next == 0 || cursor < p.next < |c.bag|)
  {
    hide SortedOf, Matching, IsSorted;
    SortedLength(c.bag);
  }

  // ----- ranks

  ghost function CountBelow(s: seq<Bytes>, x: Bytes): nat {
    if s == [] then 0 else (if Leq(x, s[0]) then 0 else 1) + CountBelow(s[1..], x)
  }

  lemma {:induction false} CountBelowAppend(a: seq<Bytes>, b: seq<Bytes>, x: Bytes)
    ensures CountBelow(a + b, x) == CountBelow(a, x) + CountBelow(b, x)
  {
    hide Leq;
    if a == [] {
      assert a + b == b;
    } else {
      assert (a + b)[1..] == a[1..] + b;
      CountBelowAppend(a[1..], b, x);
    }
  }

  lemma WithoutOne(s: seq<Bytes>, i: nat)
    requires i < |s|
    ensures s == s[..i] + ([s[i]] + s[i + 1..])
    ensures multiset(s[..i] + s[i + 1..]) == multiset(s) - multiset{s[i]}
  {
    assert s == s[..i] + ([s[i]] + s[i + 1..]);
    assert multiset(s) == multiset(s[..i]) + (multiset{s[i]} + multiset(s[i + 1..]));
  }

  /** The rank of a key does not go down when keys are added. */
  lemma {:induction false} RankGrows(a: seq<Bytes>, b: seq<Bytes>, x: Bytes)
    requires multiset(a) <= multiset(b)
    ensures CountBelow(a, x) <= CountBelow(b, x)
    decreases |a|
  {
    if a != [] {
      assert a[0] in multiset(a);
      var i :| 0 <= i < |b| && b[i] == a[0];
      var rest := b[..i] + b[i + 1..];
      WithoutOne(a, 0);
      WithoutOne(b, i);
      assert a[..0] + a[1..] == a[1..];
      assert multiset(a[1..]) <= multiset(rest);
      hide Leq;
      RankGrows(a[1..], rest, x);
      CountBelowAppend(b[..i], b[i + 1..], x);
      CountBelowAppend(b[..i], [b[i]] + b[i + 1..], x);
      assert ([b[i]] + b[i + 1..])[1..] == b[i + 1..];
    }
  }

  /** In a sorted sequence the rank of a key is a position it stands at. */
  lemma {:induction false} RankIsPosition(s: seq<Bytes>, x: Bytes)
    requires IsSorted(s) && x in s
    ensures CountBelow(s, x) < |s| && s[CountBelow(s, x)] == x
  {
    if Leq(x, s[0]) {
      SortedHead(s, x);
      LeqAntisymmetric(x, s[0]);
      NoneBelow(s, x);
    } else {
      LeqRefl(x);
      RankIsPosition(s[1..], x);
    }
  }

  lemma {:induction false} NoneBelow(s: seq<Bytes>, x: Bytes)
    requires IsSorted(s) && (s == [] || Leq(x, s[0]))
    ensures CountBelow(s, x) == 0
  {
    if |s| > 1 {
      LeqTransitive(x, s[0], s[1]);
      NoneBelow(s[1..], x);
    }
  }

  lemma {:induction false} MatchingHas(pattern: Bytes, keys: seq<Bytes>, x: Bytes)
    requires MatchGlob(pattern, x)
    ensures x in Matching(pattern, keys) <==> x in keys
  {
    hide MatchGlob;
    if keys != [] { MatchingHas(pattern, keys[1..], x); }
  }

  // ----- while the keys change

  /** The first place of a key among the sorted keys, and the place after its last. */
  ghost function First(bag: multiset<Bytes>, x: Bytes): nat {
    CountBelow(SortedOf(bag), x)
  }

  ghost function Past(bag: multiset<Bytes>, x: Bytes): nat {
    First(bag, x) + bag[x]
  }

  lemma {:induction false} PlacesInSorted(s: seq<Bytes>, i: nat, x: Bytes)
    requires IsSorted(s) && i < |s| && x in s
    ensures s[i] == x <==> CountBelow(s, x) <= i < CountBelow(s, x) + multiset(s)[x]
  {
    var rest := s[1..];
    SortedTail(s);
    LeqRefl(x);
    assert x in rest <==> x in multiset(rest);
    if Leq(x, s[0]) {
      SortedHead(s, x);
      LeqAntisymmetric(x, s[0]);
      NoneBelow(s, x);
      NoneBelowTail(s, x);
    }
    if i > 0 {
      assert s[i] == rest[i - 1];
      if x in rest { PlacesInSorted(rest, i - 1, x); }
    }
  }

  lemma NoneBelowTail(s: seq<Bytes>, x: Bytes)
    requires IsSorted(s) && s != [] && Leq(x, s[0])
    ensures CountBelow(s[1..], x) == 0
  {
    if |s| > 1 { LeqTransitive(x, s[0], s[1]); }
    NoneBelow(s[1..], x);
  }

  /** The places of a key are those from its first to its last. */
  lemma Places(bag: multiset<Bytes>, x: Bytes)
    requires x in bag
    ensures First(bag, x) < Past(bag, x) <= |SortedOf(bag)|
    ensures forall i :: 0 <= i < |SortedOf(bag)| ==> (SortedOf(bag)[i] == x <==> First(bag, x) <= i < Past(bag, x))
  {
    hide IsSorted, CountBelow;
    var all := SortedOf(bag);
    SortedMember(bag, x);
    RankAndCount(all, x);
    forall i | 0 <= i < |all| ensures all[i] == x <==> First(bag, x) <= i < Past(bag, x) {
      PlacesInSorted(all, i, x);
    }
  }

  lemma {:induction false} RankAndCount(s: seq<Bytes>, x: Bytes)
    ensures CountBelow(s, x) + multiset(s)[x] <= |s|
  {
    if s != [] {
      LeqRefl(x);
      hide Leq;
      RankAndCount(s[1..], x);
      assert s == [s[0]] + s[1..];
    }
  }

  /** A call whose page, by its cursor and count, reaches a place of the key. */
  ghost predicate Covers(c: Call, cursor: Int, x: Bytes) {
    cursor < Past(c.bag, x) && First(c.bag, x) < cursor + EffectiveCount(c.count)
  }

  /** One page yields a key exactly when it covers it; an iteration that goes on
      does so at the end of the page. */
  lemma PageYields(c: Call, cursor: Int, pattern: Bytes, x: Bytes)
    requires x in c.bag && MatchGlob(pattern, x) && 0 <= cursor && CallPage(c, cursor, pattern).Page?
    ensures var p := CallPage(c, cursor, pattern);
      && (x in p.keys <==> Covers(c, cursor, x))
      && (p.next != 0 ==> p.next == cursor + EffectiveCount(c.count))
      && (p.next == 0 && cursor < Past(c.bag, x) ==> Covers(c, cursor, x))
  {
    hide IsSorted, Matching, SortedOf, MatchGlob, First, Past;
    Places(c.bag, x);
    var all := SortedOf(c.bag);
    if cursor < |all| {
      PageIs(all, cursor, pattern, c.count);
      var end := EndOf(|all|, cursor, c.count);
      MatchingHas(pattern, all[cursor..end], x);
      if Covers(c, cursor, x) {
        var i := if cursor < First(c.bag, x) then First(c.bag, x) else cursor;
        assert all[cursor..end][i - cursor] == x;
      }
    }
  }

  /** Some call on the way, from cursor to returned cursor, covers the key. */
  ghost predicate SomeCovers(calls: seq<Call>, cursor: Int, pattern: Bytes, x: Bytes)
    requires Iteration(calls, cursor, pattern)
    decreases |calls|
  {
    var p := CallPage(calls[0], cursor, pattern);
    Covers(calls[0], cursor, x) || (p.next != 0 && SomeCovers(calls[1..], p.next, pattern, x))
  }

  /** Exactly what an iteration yields, whatever is added or deleted between its
      calls: a key present throughout is yielded if and only if some call covers
      one of its places. */
  lemma {:induction false} YieldsExactly(calls: seq<Call>, cursor: Int, pattern: Bytes, x: Bytes)
    requires Iteration(calls, cursor, pattern) && MatchGlob(pattern, x) && 0 <= cursor
    requires forall i :: 0 <= i < |calls| ==> x in calls[i].bag
    ensures x in Yield(calls, cursor, pattern) <==> SomeCovers(calls, cursor, pattern, x)
    decreases |calls|
  {
    hide CallPage, MatchGlob, Covers;
    PageYields(calls[0], cursor, pattern, x);
    var p := CallPage(calls[0], cursor, pattern);
    if p.next != 0 { YieldsExactly(calls[1..], p.next, pattern, x); }
  }

  /** Between two calls the key falls from wholly at or after the cursor to wholly
      before it. */
  ghost predicate Overtaken(calls: seq<Call>, cursor: Int, pattern: Bytes, x: Bytes)
    requires Iteration(calls, cursor, pattern)
    decreases |calls|
  {
    var n := CallPage(calls[0], cursor, pattern).next;
    n != 0 &&
    (var rest := calls[1..];
     assert Iteration(rest, n, pattern);
     Past(rest[0].bag, x) <= n <= First(calls[0].bag, x) || Overtaken(rest, n, pattern, x))
  }

  /** A key not yet passed that is never overtaken is covered. */
  lemma {:induction false} NotOvertaken(calls: seq<Call>, cursor: Int, pattern: Bytes, x: Bytes)
    requires Iteration(calls, cursor, pattern) && MatchGlob(pattern, x) && 0 <= cursor
    requires forall i :: 0 <= i < |calls| ==> x in calls[i].bag
    requires cursor < Past(calls[0].bag, x) && !Overtaken(calls, cursor, pattern, x)
    ensures SomeCovers(calls, cursor, pattern, x)
    decreases |calls|
  {
    hide CallPage, MatchGlob, First, Past;
    PageYields(calls[0], cursor, pattern, x);
    var n := CallPage(calls[0], cursor, pattern).next;
    if n != 0 && !Covers(calls[0], cursor, x) { NotOvertaken(calls[1..], n, pattern, x); }
  }

  ghost predicate Growing(calls: seq<Call>) {
    |calls| <= 1 || (calls[0].bag <= calls[1].bag && Growing(calls[1..]))
  }

  ghost predicate Shrinking(calls: seq<Call>) {
    |calls| <= 1 || (calls[1].bag <= calls[0].bag && Shrinking(calls[1..]))
  }

  lemma PlacesGrow(a: multiset<Bytes>, b: multiset<Bytes>, x: Bytes)
    requires a <= b
    ensures First(a, x) <= First(b, x) && Past(a, x) <= Past(b, x)
  {
    hide CountBelow, IsSorted;
    RankGrows(SortedOf(a), SortedOf(b), x);
  }

  /** A key that is passed stays passed when keys are only deleted. */
  lemma {:induction false} PassedStaysPassed(calls: seq<Call>, cursor: Int, pattern: Bytes, x: Bytes)
    requires Iteration(calls, cursor, pattern) && Shrinking(calls) && 0 <= cursor
    requires Past(calls[0].bag, x) <= cursor && MatchGlob(pattern, x)
    requires forall i :: 0 <= i < |calls| ==> x in calls[i].bag
    ensures !SomeCovers(calls, cursor, pattern, x)
    decreases |calls|
  {
    hide CallPage, First, Past, MatchGlob, EffectiveCount;
    PageYields(calls[0], cursor, pattern, x);
    CountIsPositive(calls[0].count);
    var n := CallPage(calls[0], cursor, pattern).next;
    if n != 0 {
      PlacesGrow(calls[1].bag, calls[0].bag, x);
      PassedStaysPassed(calls[1..], n, pattern, x);
    }
  }

  lemma CountIsPositive(count: Int)
    ensures EffectiveCount(count) > 0
  {
  }

  /** One that a page has reached cannot be overtaken any more. */
  lemma {:induction false} ReachedIsNotOvertaken(calls: seq<Call>, cursor: Int, pattern: Bytes, x: Bytes)
    requires Iteration(calls, cursor, pattern) && Shrinking(calls) && 0 <= cursor
    requires First(calls[0].bag, x) < cursor + EffectiveCount(calls[0].count) && MatchGlob(pattern, x)
    requires forall i :: 0 <= i < |calls| ==> x in calls[i].bag
    ensures !Overtaken(calls, cursor, pattern, x)
    decreases |calls|
  {
    hide CallPage, First, Past, MatchGlob, EffectiveCount;
    PageYields(calls[0], cursor, pattern, x);
    var n := CallPage(calls[0], cursor, pattern).next;
    if n != 0 {
      PlacesGrow(calls[1].bag, calls[0].bag, x);
      CountIsPositive(calls[1].count);
      ReachedIsNotOvertaken(calls[1..], n, pattern, x);
    }
  }

  /** When keys are only deleted between the calls, an iteration misses a key that
      was there throughout, and that it had not yet passed, if and only if between
      two calls the key falls from at or after the cursor to before it. */
  lemma {:induction false} DeletionsMissExactly(calls: seq<Call>, cursor: Int, pattern: Bytes, x: Bytes)
    requires Iteration(calls, cursor, pattern) && Shrinking(calls) && MatchGlob(pattern, x)
    requires forall i :: 0 <= i < |calls| ==> x in calls[i].bag
    requires 0 <= cursor < Past(calls[0].bag, x)
    ensures x !in Yield(calls, cursor, pattern) <==> Overtaken(calls, cursor, pattern, x)
    decreases |calls|
  {
    hide CallPage, First, Past, MatchGlob, EffectiveCount, Yield;
    YieldsExactly(calls, cursor, pattern, x);
    if !Overtaken(calls, cursor, pattern, x) {
      NotOvertaken(calls, cursor, pattern, x);
    } else if Covers(calls[0], cursor, x) {
      ReachedIsNotOvertaken(calls, cursor, pattern, x);
    } else {
      var n := CallPage(calls[0], cursor, pattern).next;
      if Past(calls[1].bag, x) <= n {
        PassedStaysPassed(calls[1..], n, pattern, x);
      } else {
        DeletionsMissExactly(calls[1..], n, pattern, x);
        YieldsExactly(calls[1..], n, pattern, x);
      }
    }
  }

  /** A key stays, and no call finds fewer keys before it than the call before did. */
  ghost predicate KeepsPlace(calls: seq<Call>, x: Bytes) {
    |calls| <= 1
    || (x in calls[1].bag && First(calls[0].bag, x) <= First(calls[1].bag, x) && KeepsPlace(calls[1..], x))
  }

  lemma {:induction false} PlaceKept(calls: seq<Call>, cursor: Int, pattern: Bytes, x: Bytes)
    requires Iteration(calls, cursor, pattern) && KeepsPlace(calls, x) && x in calls[0].bag
    ensures forall i :: 0 <= i < |calls| ==> x in calls[i].bag
    ensures !Overtaken(calls, cursor, pattern, x)
    decreases |calls|
  {
    hide CallPage, First;
    var n := CallPage(calls[0], cursor, pattern).next;
    if n != 0 {
      PlaceKept(calls[1..], n, pattern, x);
      assert forall i :: 0 < i < |calls| ==> calls[i] == calls[1..][i - 1];
    }
  }

  /** At least once: an iteration yields every matching key it had not yet passed
      when it began and that keeps its place, whatever counts it asks for and
      whatever else is added or deleted. */
  lemma PlaceKeptIteration(calls: seq<Call>, cursor: Int, pattern: Bytes, x: Bytes)
    requires Iteration(calls, cursor, pattern) && KeepsPlace(calls, x)
    requires x in calls[0].bag && MatchGlob(pattern, x)
    requires 0 <= cursor < Past(calls[0].bag, x)
    ensures x in Yield(calls, cursor, pattern)
  {
    hide Iteration, CallPage, First, Past, MatchGlob, Yield, SomeCovers, Overtaken;
    PlaceKept(calls, cursor, pattern, x);
    NotOvertaken(calls, cursor, pattern, x);
    YieldsExactly(calls, cursor, pattern, x);
  }

  /** If keys are only added between the calls, every key keeps its place. */
  lemma {:induction false} GrowingKeepsPlace(calls: seq<Call>, x: Bytes)
    requires Growing(calls) && calls != [] && x in calls[0].bag
    ensures KeepsPlace(calls, x)
  {
    hide First, Past;
    if |calls| > 1 {
      PlacesGrow(calls[0].bag, calls[1].bag, x);
      GrowingKeepsPlace(calls[1..], x);
    }
  }

  /** An insert-only iteration started at cursor 0 yields every key present at
      the start. */
  lemma AtLeastOnce(calls: seq<Call>, pattern: Bytes, x: Bytes)
    requires Iteration(calls, 0, pattern) && Growing(calls)
    requires x in calls[0].bag && MatchGlob(pattern, x)
    ensures x in Yield(calls, 0, pattern)
  {
    hide CallPage, MatchGlob, Yield, KeepsPlace;
    Places(calls[0].bag, x);
    GrowingKeepsPlace(calls, x);
    PlaceKeptIteration(calls, 0, pattern, x);
  }

  lemma {:induction false} UnchangedIsBoth(calls: seq<Call>, bag: multiset<Bytes>, x: Bytes)
    requires forall i :: 0 <= i < |calls| ==> calls[i].bag == bag
    requires x in bag
    ensures KeepsPlace(calls, x) && Shrinking(calls)
  {
    hide First;
    if |calls| > 1 {
      assert calls[0].bag == bag && calls[1].bag == bag;
      UnchangedIsBoth(calls[1..], bag, x);
    }
  }

  /** From a cursor on, over keys that change no more, an iteration yields a key if
      and only if the cursor is not past the last place of that key. */
  lemma CursorMisses(calls: seq<Call>, cursor: Int, pattern: Bytes, bag: multiset<Bytes>, x: Bytes)
    requires Iteration(calls, cursor, pattern) && 0 <= cursor
    requires forall i :: 0 <= i < |calls| ==> calls[i].bag == bag
    requires x in bag && MatchGlob(pattern, x)
    ensures x in Yield(calls, cursor, pattern) <==> cursor < Past(bag, x)
  {
    hide CallPage, First, Past, MatchGlob, Yield, KeepsPlace, Shrinking, SomeCovers;
    UnchangedIsBoth(calls, bag, x);
    assert calls[0].bag == bag;
    if cursor < Past(bag, x) {
      PlaceKeptIteration(calls, cursor, pattern, x);
    } else {
      YieldsExactly(calls, cursor, pattern, x);
      PassedStaysPassed(calls, cursor, pattern, x);
    }
  }

  // ----- a key that is missed

  /** What SET a, SET b and SET c leave. */
  function ThreeKeys(now: int): State {
    Stored(Stored(Stored(Empty(0), "a", "1", 0, now), "b", "2", 0, now), "c", "3", 0, now)
  }

  ghost function BeforeDel(now: int): Call {
    Call(ScanBag(ThreeKeys(now), now), 1)
  }

  ghost function AfterDel(now: int): Call {
    Call(ScanBag(Removed(ThreeKeys(now), {"a"}), now), 1)
  }

  /** SET a, SET b, SET c, SCAN 0 COUNT 1, DEL a, SCAN 1 COUNT 1: the second page is
      the last and b, there throughout, is on neither. */
  lemma DeletionSkipsAKey(now: int)
    ensures "b" in BeforeDel(now).bag && "b" in AfterDel(now).bag
    ensures CallPage(BeforeDel(now), 0, "*") == Page(1, ["a"]) && CallPage(AfterDel(now), 1, "*") == Page(0, ["c"])
    ensures var calls := [BeforeDel(now), AfterDel(now)];
      Iteration(calls, 0, "*") && Yield(calls, 0, "*") == ["a", "c"]
  {
    hide Iteration, Yield, CallPage, ScanBag, Removed, ThreeKeys;
    ThreeKeyBags(now);
    FirstPage();
    SecondPage();
    TwoPages(BeforeDel(now), AfterDel(now), "*", 1, ["a"], ["c"]);
  }

  lemma ThreeKeyBags(now: int)
    ensures ScanBag(ThreeKeys(now), now) == multiset{"a", "b", "c"}
    ensures ScanBag(Removed(ThreeKeys(now), {"a"}), now) == multiset{"b", "c"}
  {
    hide ScanBag, Stored, Removed, Plain;
    var one := Stored(Empty(0), "a", "1", 0, now);
    var two := Stored(one, "b", "2", 0, now);
    NothingIsPlain(now);
    PlainSet(Empty(0), "a", "1", now);
    PlainSet(one, "b", "2", now);
    PlainSet(two, "c", "3", now);
    PlainDel(ThreeKeys(now), "a", now);
  }

  lemma TwoPages(a: Call, b: Call, pattern: Bytes, next: Int, first: seq<Bytes>, second: seq<Bytes>)
    requires next > 0 && CallPage(a, 0, pattern) == Page(next, first)
    requires CallPage(b, next, pattern) == Page(0, second)
    ensures Iteration([a, b], 0, pattern) && Yield([a, b], 0, pattern) == first + second
  {
    hide CallPage;
    var rest := [a, b][1..];
    assert rest == [b];
    assert Iteration(rest, next, pattern) && Yield(rest, next, pattern) == second;
  }

  lemma Letters()
    ensures IsSorted(["a", "b", "c"]) && IsSorted(["b", "c"])
  {
    assert Leq("a", "b") && Leq("b", "c") && Leq("a", "c");
  }

  lemma FirstPage()
    ensures CallPage(Call(multiset{"a", "b", "c"}, 1), 0, "*") == Page(1, ["a"])
  {
    hide IsSorted, SortedOf;
    Letters();
    var s: seq<Bytes> := ["a", "b", "c"];
    SortedIs(multiset{"a", "b", "c"}, s);
    assert s[0..1] == ["a"] && Matching("*", ["a"]) == ["a"];
  }

  lemma SecondPage()
    ensures CallPage(Call(multiset{"b", "c"}, 1), 1, "*") == Page(0, ["c"])
  {
    hide IsSorted, SortedOf;
    Letters();
    var s: seq<Bytes> := ["b", "c"];
    SortedIs(multiset{"b", "c"}, s);
    assert s[1..2] == ["c"] && Matching("*", ["c"]) == ["c"];
  }
}
