/** The store itself: maps updated in place, each method tied to StoreSpec. */
module Stores {
  import opened Basics
  import opened Strconv
  import opened Sums
  import opened Ordering
  import opened StoreSpec
  import opened Keyspace
  import opened Commands

  const SAMPLE_SIZE: int := 20
  const MAX_ROUNDS: int := 10

  class Store {
    var data: map<Bytes, Entry>
    var lists: map<Bytes, seq<Bytes>>
    var hashes: map<Bytes, Hash>
    var expiryKeys: set<Bytes>
    var maxMemoryBytes: int

    ghost function Contents(): State
      reads this
    {
      State(data, lists, hashes, expiryKeys, maxMemoryBytes)
    }

    constructor ()
      ensures Contents() == Empty(0)
    {
      data, lists, hashes, expiryKeys, maxMemoryBytes := map[], map[], map[], {}, 0;
    }

    method SetMaxMemory(bytes: int)
      modifies this`maxMemoryBytes
      ensures Contents() == old(Contents()).(maxMemory := bytes)
    {
      maxMemoryBytes := bytes;
    }

    // ----- memory

    method ApproxMemoryBytes() returns (total: nat)
      ensures total == Memory(Contents())
    {
      total := 0;
      var strings := data;
      while strings != map[]
        invariant total + Total(strings, EntryLen) == Total(data, EntryLen)
        decreases |strings|
      {
        var k :| k in strings;
        TotalPick(strings, EntryLen, k);
        total, strings := total + |k| + |strings[k].value|, strings - {k};
      }
      TotalEmpty(EntryLen);
      var ls := lists;
      while ls != map[]
        invariant total + Total(ls, SumLen) == Total(data, EntryLen) + Total(lists, SumLen)
        decreases |ls|
      {
        var k :| k in ls;
        TotalPick(ls, SumLen, k);
        var length := Length(ls[k]);
        total, ls := total + |k| + length, ls - {k};
      }
      TotalEmpty(SumLen);
      var hs := hashes;
      while hs != map[]
        invariant total + Total(hs, HashLen) == Memory(Contents())
        decreases |hs|
      {
        var k :| k in hs;
        TotalPick(hs, HashLen, k);
        var length := FieldsLength(hs[k]);
        total, hs := total + |k| + length, hs - {k};
      }
      TotalEmpty(HashLen);
    }

    method CheckMemory(additional: int) returns (ok: bool)
      ensures ok == Fits(Contents(), additional)
    {
      if maxMemoryBytes <= 0 { return true; }
      var used := ApproxMemoryBytes();
      ok := used + additional <= maxMemoryBytes;
    }

    // ----- strings

    method Set(key: Bytes, value: Bytes, ttl: Int, now: int) returns (ok: bool)
      modifies this
      ensures ok == Fits(old(Contents()), |key| + |value|)
      ensures Contents() == if ok then Stored(old(Contents()), key, value, ttl, now) else old(Contents())
    {
      var expiresAt := if ttl > 0 then Some(now + ttl) else None;
      ok := CheckMemory(|key| + |value|);
      if !ok { return; }
      data := data[key := Entry(value, expiresAt)];
      if expiresAt.None? {
        expiryKeys := expiryKeys - {key};
      } else {
        expiryKeys := expiryKeys + {key};
      }
    }

    method Get(key: Bytes, now: int) returns (value: Option<Bytes>)
      modifies this
      ensures value == Lookup(old(Contents()), key, now)
      ensures Contents() == AfterRead(old(Contents()), key, now)
    {
      if key !in data { return None; }
      var entry := data[key];
      if Due(entry, now) {
        DeleteExpired(key);
        return None;
      }
      value := Some(entry.value);
    }

    method DeleteExpired(key: Bytes)
      modifies this
      ensures Contents() == Reaped(old(Contents()), {key})
    {
      data := data - {key};
      expiryKeys := expiryKeys - {key};
    }

    method Del(keys: seq<Bytes>) returns (count: nat)
      requires IndexExact(Contents())
      modifies this
      ensures Contents() == Removed(old(Contents()), ToSet(keys))
      ensures count == |Hits(old(Contents()), keys)|
    {
      ghost var st := Contents();
      count := 0;
      var i := 0;
      while i < |keys|
        invariant 0 <= i <= |keys|
        invariant Contents() == Removed(st, ToSet(keys[..i]))
        invariant count == |Hits(st, keys[..i])|
      {
        var k := keys[i];
        var found := false;
        ghost var before := Contents();
        assert k !in data ==> k !in expiryKeys;
        if k in data {
          data, expiryKeys := data - {k}, expiryKeys - {k};
          found := true;
        }
        if k in lists {
          lists := lists - {k};
          found := true;
        }
        if k in hashes {
          hashes := hashes - {k};
          found := true;
        }
        RemovedParts(before, k, Contents());
        RemoveOneMore(st, keys, i);
        HitOneMore(st, keys, i);
        assert found <==> Holds(before, k);
        if found {
          count := count + 1;
        }
        i := i + 1;
      }
      assert keys[..i] == keys;
    }

    /** Counts an argument each time it is given; drops the strings found due. */
    method Exists(keys: seq<Bytes>, now: int) returns (count: nat)
      modifies this
      ensures count == CountPresent(old(Contents()), keys, now)
      ensures Contents() == Reaped(old(Contents()), DueAmong(old(Contents()), keys, now))
    {
      ghost var st := Contents();
      count := 0;
      var i := 0;
      while i < |keys|
        invariant 0 <= i <= |keys|
        invariant count == CountPresent(st, keys[..i], now)
        invariant Contents() == Reaped(st, DueAmong(st, keys[..i], now))
      {
        var k := keys[i];
        ReadOneMore(st, keys, i, now);
        var value := Get(k, now);
        if value.Some? {
          count := count + 1;
        } else if k in lists || k in hashes {
          count := count + 1;
        }
        i := i + 1;
      }
      assert keys[..i] == keys;
    }

    method Expire(key: Bytes, seconds: Int, now: int) returns (existed: bool)
      modifies this
      ensures existed == (key in old(Contents()).data)
      ensures Contents() == if existed then WithDeadline(old(Contents()), key, now + Wrap(seconds * SECOND))
                            else old(Contents())
    {
      if key !in data { return false; }
      var entry := data[key].(expiresAt := Some(now + Wrap(seconds * SECOND)));
      data := data[key := entry];
      expiryKeys := expiryKeys + {key};
      existed := true;
    }

    method TTL(key: Bytes, now: int) returns (seconds: int)
      modifies this
      ensures seconds == RemainingSeconds(old(Contents()), key, now)
      ensures Contents() == AfterRead(old(Contents()), key, now)
    {
      if key !in data { return -2; }
      var entry := data[key];
      if Due(entry, now) {
        DeleteExpired(key);
        return -2;
      }
      if entry.expiresAt.None? { return -1; }
      seconds := (entry.expiresAt.value - now + SECOND / 2) / SECOND;
    }

    method FlushAll()
      modifies this
      ensures Contents() == Empty(old(Contents()).maxMemory)
    {
      data, lists, hashes, expiryKeys := map[], map[], map[], {};
    }

    method IncrBy(key: Bytes, delta: Int, now: int) returns (result: Int, err: Option<Complaint>)
      modifies this
      ensures match Counter(old(Contents()), key, now)
              case None => err == Some(NotAnInteger) && Contents() == old(Contents())
              case Some(n) =>
                if Fits(old(Contents()), |key| + |Itoa(Wrap(n + delta))|) then
                  err.None? && result == Wrap(n + delta) && Contents() == Counted(old(Contents()), key, result)
                else err == Some(OutOfMemory) && Contents() == old(Contents())
    {
      hide Fits, Itoa, Atoi, Wrap;
      var ok := key in data;
      var expiresAt := if ok then data[key].expiresAt else None;
      if ok && Due(data[key], now) {
        ok := false;
      }
      var cur: Int := 0;
      if ok {
        var n := Atoi(data[key].value);
        if n.None? { return 0, Some(NotAnInteger); }
        cur := n.value;
      }
      result := Wrap(cur + delta);
      var newVal := Itoa(result);
      var fits := CheckMemory(|key| + |newVal|);
      if !fits { return 0, Some(OutOfMemory); }
      data := data[key := Entry(newVal, expiresAt)];
      err := None;
    }

    // ----- lists and hashes

    method LPush(key: Bytes, values: seq<Bytes>) returns (n: nat, err: Option<Complaint>)
      modifies this
      ensures err == if Fits(old(Contents()), |key| + SumLen(values)) then None else Some(OutOfMemory)
      ensures Contents() == if err.None? then PushedLeft(old(Contents()), key, values) else old(Contents())
      ensures err.None? ==> n == |lists[key]|
    {
      hide Fits, SumLen, Reverse;
      var length := Length(values);
      var fits := CheckMemory(|key| + length);
      if !fits { return 0, Some(OutOfMemory); }
      EmptyReverse();
      var lst := if key in lists then lists[key] else [];
      ghost var was := lst;
      var i := 0;
      while i < |values|
        invariant Contents() == old(Contents())
        invariant 0 <= i <= |values| && lst == Reverse(values[..i]) + was
      {
        ReverseOneMore(values, i);
        lst := [values[i]] + lst;
        i := i + 1;
      }
      assert values[..i] == values;
      assert lst == Reverse(values) + ListAt(old(Contents()), key);
      lists := lists[key := lst];
      n, err := |lst|, None;
    }

    method RPush(key: Bytes, values: seq<Bytes>) returns (n: nat, err: Option<Complaint>)
      modifies this
      ensures err == if Fits(old(Contents()), |key| + SumLen(values)) then None else Some(OutOfMemory)
      ensures Contents() == if err.None? then PushedRight(old(Contents()), key, values) else old(Contents())
      ensures err.None? ==> n == |lists[key]|
    {
      hide Fits, SumLen, Memory;
      var length := Length(values);
      var fits := CheckMemory(|key| + length);
      if !fits { return 0, Some(OutOfMemory); }
      lists := lists[key := (if key in lists then lists[key] else []) + values];
      n, err := |lists[key]|, None;
    }

    method HSet(key: Bytes, pairs: seq<Bytes>) returns (added: int, err: Option<Complaint>)
      modifies this
      ensures err == if Fits(old(Contents()), |key| + SumLen(pairs)) then None else Some(OutOfMemory)
      ensures Contents() == if err.None? then FieldsSet(old(Contents()), key, pairs) else old(Contents())
      ensures err.None? ==> added == |hashes[key]| - |HashAt(old(Contents()), key)|
    {
      hide Fits, SumLen, Memory;
      var length := Length(pairs);
      var fits := CheckMemory(|key| + length);
      if !fits { return 0, Some(OutOfMemory); }
      var h := if key in hashes then hashes[key] else map[];
      ghost var was := h;
      added := 0;
      var i := 0;
      while i + 1 < |pairs|
        invariant 0 <= i <= |pairs| && SetFields(h, pairs[i..]) == SetFields(was, pairs)
        invariant added == |h| - |was|
      {
        var field, val := pairs[i], pairs[i + 1];
        if field !in h {
          added := added + 1;
        }
        assert pairs[i..][2..] == pairs[i + 2..];
        h := h[field := val];
        i := i + 2;
      }
      hashes := hashes[key := h];
      err := None;
    }

    method HDel(key: Bytes, fields: seq<Bytes>) returns (count: nat)
      modifies this
      ensures Contents() == FieldsDeleted(old(Contents()), key, ToSet(fields))
      ensures count == |HashAt(old(Contents()), key).Keys * ToSet(fields)|
    {
      hide ToSet, HashAt, FieldsDeleted;
      FieldsGone(Contents(), key, fields);
      if key !in hashes { return 0; }
      NoFields(hashes[key], fields);
      var h := hashes[key];
      ghost var was := h;
      count := 0;
      var i := 0;
      while i < |fields|
        invariant Contents() == old(Contents())
        invariant 0 <= i <= |fields|
        invariant h == was - ToSet(fields[..i]) && count == |was.Keys * ToSet(fields[..i])|
      {
        FieldOneMore(was, fields, i);
        if fields[i] in h {
          h := h - {fields[i]};
          count := count + 1;
        }
        i := i + 1;
      }
      assert fields[..i] == fields;
      if h == map[] {
        hashes := hashes - {key};
      } else {
        hashes := hashes[key := h];
      }
    }

    /** Copies the three maps entry by entry, and each hash field by field. */
    method Snapshot() returns (snap: State)
      ensures snap == Contents()
    {
      var strs := CopyMap(data);
      var ls := CopyMap(lists);
      var hs: map<Bytes, Hash> := map[];
      var left := hashes.Keys;
      while left != {}
        invariant left <= hashes.Keys && hs.Keys == hashes.Keys - left
        invariant forall k :: k in hs ==> hs[k] == hashes[k]
      {
        var k :| k in left;
        var cp := CopyMap(hashes[k]);
        hs, left := hs[k := cp], left - {k};
      }
      assert hs == hashes;
      snap := State(strs, ls, hs, expiryKeys, maxMemoryBytes);
    }

    // ----- the sampling expirer

    /** One round under the lock: look at up to 20 tracked keys, in any order, and
        drop every one of them that is due. */
    method SampleRound(now: int)
      returns (sampled: nat, expired: nat,
               ghost looked: set<Bytes>, ghost removed: set<Bytes>, ghost drifted: set<Bytes>)
      modifies this
      ensures looked <= old(expiryKeys) && |looked| == sampled == Min(20, |old(expiryKeys)|)
      ensures removed == (set k | k in looked && k in old(data) && Due(old(data)[k], now)) && expired == |removed|
      ensures drifted == set k | k in looked && k !in old(data)
      ensures Dropped(old(Contents()), Contents(), removed, drifted, now)
    {
      hide RoundSoFar, Dropped;
      ghost var st := Contents();
      sampled, expired, looked, removed, drifted := 0, 0, {}, {}, {};
      var todo := expiryKeys;
      RoundStarts(st, now);
      while todo != {} && sampled < SAMPLE_SIZE
        invariant sampled <= SAMPLE_SIZE
        invariant RoundSoFar(st, Contents(), looked, todo, removed, drifted, sampled, expired, now)
        decreases |todo|
      {
        var k :| k in todo;
        RoundStep(st, Contents(), looked, todo, removed, drifted, sampled, expired, now, k);
        todo := todo - {k};
        sampled := sampled + 1;
        looked := looked + {k};
        if k in data && Due(data[k], now) {
          DeleteExpired(k);
          expired := expired + 1;
          removed := removed + {k};
        } else if k !in data {
          expiryKeys := expiryKeys - {k};
          drifted := drifted + {k};
        }
      }
      RoundEnds(st, Contents(), looked, todo, removed, drifted, sampled, expired, now);
    }

    /** A tick removes only due strings, and index entries without a string, and
        goes from round to round as RoundsOf says: it goes on exactly while a
        quarter of what it looked at was due, there is more to look at, and it has
        made fewer than ten rounds. It looks at no more than 200 keys, and when
        every tracked key is due it removes as many as there are, up to 200. */
    method SampleExpire(now: int)
      returns (ghost rounds: seq<Round>, ghost removed: set<Bytes>, ghost drifted: set<Bytes>)
      modifies this
      ensures Dropped(old(Contents()), Contents(), removed, drifted, now)
      ensures RoundsOf(|old(expiryKeys)|, rounds) && Stopped(rounds, |expiryKeys|)
      ensures |removed| == Expired(rounds) && Inspected(rounds) <= 200
      ensures AllTrackedDue(old(Contents()), now) ==>
        |removed| == Min(200, |old(expiryKeys)|)
    {
      hide TickSoFar, Dropped, AllTrackedDue, RoundsOf, Expired, Inspected;
      ghost var st := Contents();
      rounds, removed, drifted := [], {}, {};
      TickStarts(st, now);
      var round := 0;
      while round < MAX_ROUNDS
        invariant 0 <= round <= MAX_ROUNDS && TickSoFar(st, Contents(), removed, drifted, rounds, round, now)
        invariant forall i :: 0 <= i < |rounds| ==> rounds[i].GoesOn()
      {
        TickEnds(st, Contents(), removed, drifted, rounds, round, now);
        if expiryKeys == {} { return; }
        ghost var before := Contents();
        var sampled, expired, looked, r, d := SampleRound(now);
        AllLookedDue(before, looked, r, now);
        ghost var next := Round(|before.expiryKeys|, sampled, expired, |d|);
        TickRound(st, before, Contents(), removed, drifted, r, d, next, rounds, round, now);
        rounds, removed, drifted := rounds + [next], removed + r, drifted + d;
        round := round + 1;
        TickEnds(st, Contents(), removed, drifted, rounds, round, now);
        if sampled == 0 || 4 * expired < sampled { return; }
      }
      TickEnds(st, Contents(), removed, drifted, rounds, round, now);
    }

    // ----- iterating over keys

    /** One loop over the keys of a map, in any order. */
    method Collect(pattern: Bytes, keys: set<Bytes>, found: seq<Bytes>) returns (all: seq<Bytes>)
      ensures forall k ::
        multiset(all)[k] == multiset(found)[k] + if k in keys && MatchGlob(pattern, k) then 1 else 0
    {
      all := found;
      var rest := keys;
      while rest != {}
        invariant rest <= keys
        invariant forall k ::
          multiset(all)[k] == multiset(found)[k] + if k in keys && k !in rest && MatchGlob(pattern, k) then 1 else 0
        decreases |rest|
      {
        var k :| k in rest;
        if MatchGlob(pattern, k) {
          all := all + [k];
        }
        rest := rest - {k};
      }
    }

    /** Every matching key as often as KEYS sees it, in no particular order. */
    method Keys(pattern: Bytes, now: int) returns (result: seq<Bytes>)
      ensures forall k ::
        multiset(result)[k] == if MatchGlob(pattern, k) then KeysBag(Contents(), now)[k] else 0
    {
      var live := set k | k in data && !Due(data[k], now);
      result := Collect(pattern, live, []);
      result := Collect(pattern, lists.Keys, result);
      result := Collect(pattern, hashes.Keys, result);
    }

    /** The copy of the key names that SCAN takes under the lock, sorted outside it. */
    method SortedKeys(now: int) returns (all: seq<Bytes>)
      ensures all == SortedOf(ScanBag(Contents(), now))
    {
      hide IsSorted, Leq, Sort, SortedOf;
      var live := set k | k in data && (data[k].expiresAt.None? || now < data[k].expiresAt.value);
      all := Collect("*", live, []);
      all := Collect("*", lists.Keys, all);
      all := Collect("*", hashes.Keys, all);
      ThreeSets(all, live, lists.Keys, hashes.Keys);
      SortSorts(all);
      all := Sort(all);
      SortedIs(ScanBag(Contents(), now), all);
    }

    /** The loop over one page. */
    method MatchKeys(pattern: Bytes, page: seq<Bytes>) returns (matched: seq<Bytes>)
      ensures matched == Matching(pattern, page)
    {
      hide MatchGlob;
      matched := [];
      var i := 0;
      while i < |page|
        invariant 0 <= i <= |page| && matched == Matching(pattern, page[..i])
      {
        assert page[..i + 1] == page[..i] + [page[i]];
        MatchingAppend(pattern, page[..i], [page[i]]);
        if MatchGlob(pattern, page[i]) {
          matched := matched + [page[i]];
        }
        i := i + 1;
      }
      assert page[..i] == page;
    }

    method Scan(cursor: Int, pattern: Bytes, count: Int, now: int) returns (page: Page)
      ensures page == ScanPage(SortedOf(ScanBag(Contents(), now)), cursor, pattern, count)
    {
      hide SortedOf, IsSorted, ScanBag, Matching;
      var n := if count <= 0 then 10 else count;
      var all := SortedKeys(now);
      if cursor < 0 || cursor >= |all| { return Page(0, []); }
      var sum: int := cursor + n;
      var end: int := Wrap(sum);
      if end > |all| {
        end := |all|;
      }
      if end < cursor { return OutOfRange; }
      var matched := MatchKeys(pattern, all[cursor..end]);
      page := Page(if end >= |all| then 0 else end, matched);
    }
  }

  // ----- helpers

  lemma TotalPick<V>(m: map<Bytes, V>, w: V -> nat, k: Bytes)
    requires k in m
    ensures Total(m, w) == |k| + w(m[k]) + Total(m - {k}, w)
    ensures |m - {k}| < |m|
  {
    assert Weigh(m - {k}, w) == Weigh(m, w) - {k};
    SumRemove(Weigh(m, w), k);
    assert m.Keys == (m - {k}).Keys + {k};
  }

  method Length(ss: seq<Bytes>) returns (n: nat)
    ensures n == SumLen(ss)
  {
    n := 0;
    var i := 0;
    while i < |ss|
      invariant 0 <= i <= |ss| && n == SumLen(ss[..i])
    {
      assert ss[..i + 1] == ss[..i] + [ss[i]];
      SumLenAppend(ss[..i], [ss[i]]);
      assert [ss[i]][1..] == [];
      n := n + |ss[i]|;
      i := i + 1;
    }
    assert ss[..i] == ss;
  }

  method CopyMap<V>(m: map<Bytes, V>) returns (cp: map<Bytes, V>)
    ensures cp == m
  {
    cp := map[];
    var left := m.Keys;
    while left != {}
      invariant left <= m.Keys && cp.Keys == m.Keys - left
      invariant forall k :: k in cp ==> cp[k] == m[k]
    {
      var k :| k in left;
      cp, left := cp[k := m[k]], left - {k};
    }
    assert cp == m;
  }

  method FieldsLength(h: Hash) returns (n: nat)
    ensures n == HashLen(h)
  {
    n := 0;
    var rest := h;
    while rest != map[]
      invariant n + Total(rest, ValueLen) == HashLen(h)
      decreases |rest|
    {
      var f :| f in rest;
      TotalPick(rest, ValueLen, f);
      n, rest := n + |f| + |rest[f]|, rest - {f};
    }
    TotalEmpty(ValueLen);
  }

  /** What the sampler did: dropped due strings and index entries that drifted. */
  ghost predicate Dropped(st: State, st': State, removed: set<Bytes>, drifted: set<Bytes>, now: int) {
    && (forall k :: k in removed ==> k in st.expiryKeys && k in st.data && Due(st.data[k], now))
    && (forall k :: k in drifted ==> k in st.expiryKeys && k !in st.data)
    && st' == Reaped(st, removed).(expiryKeys := st.expiryKeys - removed - drifted)
  }

  ghost predicate AllTrackedDue(st: State, now: int) {
    forall k :: k in st.expiryKeys ==> k in st.data && Due(st.data[k], now)
  }

  lemma NoneDropped(st: State, now: int)
    ensures Dropped(st, st, {}, {}, now)
  {
  }

  /** Dropping one more tracked key, due or without a string. */
  lemma DropOne(st: State, st': State, removed: set<Bytes>, drifted: set<Bytes>, k: Bytes, now: int)
    requires Dropped(st, st', removed, drifted, now) && k in st'.expiryKeys
    ensures k !in removed
    ensures k in st'.data && Due(st'.data[k], now) ==> Dropped(st, Reaped(st', {k}), removed + {k}, drifted, now)
    ensures k !in st'.data ==>
      Dropped(st, st'.(expiryKeys := st'.expiryKeys - {k}), removed, drifted + {k}, now)
    ensures AllTrackedDue(st, now) ==> k in st'.data && Due(st'.data[k], now)
  {
    assert st.data - removed - {k} == st.data - (removed + {k});
    assert st.expiryKeys - removed - drifted - {k} == st.expiryKeys - (removed + {k}) - drifted;
    assert st.expiryKeys - removed - drifted - {k} == st.expiryKeys - removed - (drifted + {k});
  }

  lemma TrackedLeft(st: State, st': State, removed: set<Bytes>, drifted: set<Bytes>, now: int)
    requires Dropped(st, st', removed, drifted, now)
    ensures |st'.expiryKeys| + |removed| + |drifted| == |st.expiryKeys|
    ensures AllTrackedDue(st, now) ==> AllTrackedDue(st', now) && drifted == {}
  {
    assert removed <= st.expiryKeys && drifted <= st.expiryKeys && removed !! drifted;
    ThreeParts(st.expiryKeys, removed, drifted);
  }

  /** What a round has looked at, sorted by what it did. */
  ghost predicate Looked(st: State, looked: set<Bytes>, removed: set<Bytes>, drifted: set<Bytes>, now: int) {
    && (forall k :: k in removed <==> k in looked && k in st.data && Due(st.data[k], now))
    && (forall k :: k in drifted <==> k in looked && k !in st.data)
  }

  ghost predicate RoundSoFar(st: State, st': State, looked: set<Bytes>, todo: set<Bytes>, removed: set<Bytes>,
                             drifted: set<Bytes>, sampled: nat, expired: nat, now: int) {
    && Dropped(st, st', removed, drifted, now) && Looked(st, looked, removed, drifted, now)
    && looked !! todo && looked + todo == st.expiryKeys && todo <= st'.expiryKeys
    && |looked| == sampled && |removed| == expired
  }

  lemma RoundStarts(st: State, now: int)
    ensures RoundSoFar(st, st, {}, st.expiryKeys, {}, {}, 0, 0, now)
  {
    NoneDropped(st, now);
  }

  lemma RoundStep(st: State, st': State, looked: set<Bytes>, todo: set<Bytes>, removed: set<Bytes>,
                  drifted: set<Bytes>, sampled: nat, expired: nat, now: int, k: Bytes)
    requires RoundSoFar(st, st', looked, todo, removed, drifted, sampled, expired, now) && k in todo
    ensures k in st'.data && Due(st'.data[k], now) ==>
      RoundSoFar(st, Reaped(st', {k}), looked + {k}, todo - {k}, removed + {k}, drifted, sampled + 1, expired + 1, now)
    ensures k in st'.data && !Due(st'.data[k], now) ==>
      RoundSoFar(st, st', looked + {k}, todo - {k}, removed, drifted, sampled + 1, expired, now)
    ensures k !in st'.data ==>
      RoundSoFar(st, st'.(expiryKeys := st'.expiryKeys - {k}), looked + {k}, todo - {k}, removed, drifted + {k},
                 sampled + 1, expired, now)
    ensures |todo - {k}| < |todo|
  {
    DropOne(st, st', removed, drifted, k, now);
    LookOne(st, st', looked, removed, drifted, k, now);
    hide Dropped, Looked;
    assert (looked + {k}) + (todo - {k}) == looked + todo;
    assert todo == (todo - {k}) + {k};
  }

  lemma LookOne(st: State, st': State, looked: set<Bytes>, removed: set<Bytes>, drifted: set<Bytes>, k: Bytes, now: int)
    requires Dropped(st, st', removed, drifted, now) && Looked(st, looked, removed, drifted, now) && k !in looked
    ensures k in st'.data && Due(st'.data[k], now) ==> Looked(st, looked + {k}, removed + {k}, drifted, now)
    ensures k in st'.data && !Due(st'.data[k], now) ==> Looked(st, looked + {k}, removed, drifted, now)
    ensures k !in st'.data ==> Looked(st, looked + {k}, removed, drifted + {k}, now)
  {
  }

  lemma RoundEnds(st: State, st': State, looked: set<Bytes>, todo: set<Bytes>, removed: set<Bytes>,
                  drifted: set<Bytes>, sampled: nat, expired: nat, now: int)
    requires RoundSoFar(st, st', looked, todo, removed, drifted, sampled, expired, now)
    requires sampled <= 20 && (todo == {} || sampled == 20)
    ensures looked <= st.expiryKeys && |looked| == sampled == Min(20, |st.expiryKeys|)
    ensures removed == (set k | k in looked && k in st.data && Due(st.data[k], now)) && expired == |removed|
    ensures drifted == set k | k in looked && k !in st.data
    ensures Dropped(st, st', removed, drifted, now)
  {
    hide Dropped;
    assert |looked + todo| == |looked| + |todo|;
  }

  lemma AllLookedDue(st: State, looked: set<Bytes>, removed: set<Bytes>, now: int)
    requires looked <= st.expiryKeys
    requires removed == set k | k in looked && k in st.data && Due(st.data[k], now)
    ensures AllTrackedDue(st, now) ==> removed == looked
  {
  }

  /** One round: how many keys were tracked, looked at, due, and without a string. */
  datatype Round = Round(tracked: nat, sampled: nat, expired: nat, drifted: nat)
  {
    /** At least a quarter of what was looked at was due. */
    predicate GoesOn() {
      4 * expired >= sampled
    }
  }

  ghost function Expired(rounds: seq<Round>): nat {
    if rounds == [] then 0 else Expired(rounds[..|rounds| - 1]) + rounds[|rounds| - 1].expired
  }

  ghost function Inspected(rounds: seq<Round>): nat {
    if rounds == [] then 0 else Inspected(rounds[..|rounds| - 1]) + rounds[|rounds| - 1].sampled
  }

  /** How many keys the rounds leave tracked. */
  ghost function TrackedAfter(tracked: int, rounds: seq<Round>): int {
    if rounds == [] then tracked
    else
      var last := rounds[|rounds| - 1];
      TrackedAfter(tracked, rounds[..|rounds| - 1]) - last.expired - last.drifted
  }

  /** Each round looks at up to 20 of the keys the ones before left tracked, and
      another follows only when a quarter of them was due. */
  ghost predicate RoundsOf(tracked: int, rounds: seq<Round>) {
    |rounds| <= 10 && forall i :: 0 <= i < |rounds| ==>
      && rounds[i].tracked == TrackedAfter(tracked, rounds[..i]) > 0
      && rounds[i].sampled == Min(20, rounds[i].tracked)
      && (i < |rounds| - 1 ==> rounds[i].GoesOn())
  }

  /** Why there was no other round. */
  ghost predicate Stopped(rounds: seq<Round>, tracked: nat) {
    |rounds| == 10 || tracked == 0 || (rounds != [] && !rounds[|rounds| - 1].GoesOn())
  }

  ghost predicate TickSoFar(st: State, st': State, removed: set<Bytes>, drifted: set<Bytes>,
                            rounds: seq<Round>, round: nat, now: int) {
    && Dropped(st, st', removed, drifted, now)
    && |rounds| == round && RoundsOf(|st.expiryKeys|, rounds)
    && TrackedAfter(|st.expiryKeys|, rounds) == |st'.expiryKeys|
    && Inspected(rounds) <= 20 * round && Expired(rounds) == |removed|
    && (AllTrackedDue(st, now) ==> |removed| == Min(20 * round, |st.expiryKeys|))
  }

  lemma TickStarts(st: State, now: int)
    ensures TickSoFar(st, st, {}, {}, [], 0, now)
  {
  }

  /** One round more, after rounds that all went on. */
  lemma RoundMore(tracked: int, rounds: seq<Round>, next: Round)
    requires RoundsOf(tracked, rounds) && |rounds| < 10
    requires forall i :: 0 <= i < |rounds| ==> rounds[i].GoesOn()
    requires next.tracked == TrackedAfter(tracked, rounds) > 0 && next.sampled == Min(20, next.tracked)
    ensures RoundsOf(tracked, rounds + [next])
    ensures TrackedAfter(tracked, rounds + [next]) == TrackedAfter(tracked, rounds) - next.expired - next.drifted
    ensures Expired(rounds + [next]) == Expired(rounds) + next.expired
    ensures Inspected(rounds + [next]) == Inspected(rounds) + next.sampled
  {
    var more := rounds + [next];
    assert more[..|more| - 1] == rounds;
    forall i | 0 <= i < |more| ensures more[..i] == rounds[..i] {
    }
    assert rounds[..|rounds|] == rounds;
  }

  lemma TickRound(st: State, before: State, after: State, removed: set<Bytes>, drifted: set<Bytes>,
                  r: set<Bytes>, d: set<Bytes>, next: Round, rounds: seq<Round>, round: nat, now: int)
    requires TickSoFar(st, before, removed, drifted, rounds, round, now) && round < 10
    requires forall i :: 0 <= i < |rounds| ==> rounds[i].GoesOn()
    requires before.expiryKeys != {} && Dropped(before, after, r, d, now)
    requires next == Round(|before.expiryKeys|, Min(20, |before.expiryKeys|), |r|, |d|)
    requires AllTrackedDue(before, now) ==> |r| == next.sampled
    ensures TickSoFar(st, after, removed + r, drifted + d, rounds + [next], round + 1, now)
    ensures next.sampled > 0 && (AllTrackedDue(st, now) ==> |r| == next.sampled)
  {
    hide RoundsOf, Expired, Inspected, TrackedAfter, Dropped, AllTrackedDue;
    TrackedLeft(st, before, removed, drifted, now);
    TrackedLeft(before, after, r, d, now);
    DroppedTwice(st, before, after, removed, drifted, r, d, now);
    RoundMore(|st.expiryKeys|, rounds, next);
    SomeTracked(before.expiryKeys);
    if AllTrackedDue(st, now) { RoundAdds(round, |st.expiryKeys|, |removed|, |r|); }
  }

  lemma SomeTracked(keys: set<Bytes>)
    requires keys != {}
    ensures |keys| > 0
  {
  }

  lemma TickEnds(st: State, st': State, removed: set<Bytes>, drifted: set<Bytes>,
                 rounds: seq<Round>, round: nat, now: int)
    requires TickSoFar(st, st', removed, drifted, rounds, round, now) && round <= MAX_ROUNDS
    ensures Dropped(st, st', removed, drifted, now) && Inspected(rounds) <= 20 * round && |rounds| == round
    ensures RoundsOf(|st.expiryKeys|, rounds) && |removed| == Expired(rounds)
    ensures AllTrackedDue(st, now) && (st'.expiryKeys == {} || round == MAX_ROUNDS) ==>
      |removed| == Min(200, |st.expiryKeys|)
  {
    TrackedLeft(st, st', removed, drifted, now);
    hide Dropped, AllTrackedDue, RoundsOf, Expired, Inspected, TrackedAfter;
  }

  lemma RoundAdds(round: nat, n: nat, removed: nat, r: nat)
    requires removed == Min(20 * round, n) && r == Min(SAMPLE_SIZE, n - removed)
    ensures removed + r == Min(20 * (round + 1), n)
  {
  }

  lemma ThreeParts(all: set<Bytes>, a: set<Bytes>, b: set<Bytes>)
    requires a <= all && b <= all && a !! b
    ensures |all - a - b| + |a| + |b| == |all|
  {
    assert all == (all - a - b) + (a + b);
  }

  lemma DroppedTwice(a: State, b: State, c: State, removed: set<Bytes>, drifted: set<Bytes>,
                     r: set<Bytes>, d: set<Bytes>, now: int)
    requires Dropped(a, b, removed, drifted, now) && Dropped(b, c, r, d, now)
    ensures Dropped(a, c, removed + r, drifted + d, now) && |removed + r| == |removed| + |r|
  {
    assert removed !! r;
    assert a.data - removed - r == a.data - (removed + r);
  }

  /** In a store whose index is exact nothing has drifted: the sampler's repair
      branch is dead, and a tick is the removal of some due strings. */
  lemma NothingDrifts(st: State, st': State, removed: set<Bytes>, drifted: set<Bytes>, now: int)
    requires Consistent(st) && Dropped(st, st', removed, drifted, now)
    ensures drifted == {} && st' == Reaped(st, removed) && Consistent(st')
  {
  }

  lemma ThreeSets(all: seq<Bytes>, a: set<Bytes>, b: set<Bytes>, c: set<Bytes>)
    requires forall k ::
      multiset(all)[k] == (if k in a then 1 else 0) + (if k in b then 1 else 0) + (if k in c then 1 else 0)
    ensures multiset(all) == multiset(a) + multiset(b) + multiset(c)
  {
  }

  ghost function Hits(st: State, keys: seq<Bytes>): set<Bytes> {
    set k | k in keys && Holds(st, k)
  }

  /** A key counts where it first occurs, when it is still there. */
  lemma HitOneMore(st: State, keys: seq<Bytes>, i: nat)
    requires i < |keys|
    ensures |Hits(st, keys[..i + 1])|
      == |Hits(st, keys[..i])| + if Holds(Removed(st, ToSet(keys[..i])), keys[i]) then 1 else 0
  {
    var k := keys[i];
    assert keys[..i + 1] == keys[..i] + [k];
    if Holds(Removed(st, ToSet(keys[..i])), k) {
      assert Hits(st, keys[..i + 1]) == Hits(st, keys[..i]) + {k};
    } else {
      assert Hits(st, keys[..i + 1]) == Hits(st, keys[..i]);
    }
  }

  predicate Present(st: State, key: Bytes, now: int) {
    Lookup(st, key, now).Some? || key in st.lists || key in st.hashes
  }

  function CountPresent(st: State, keys: seq<Bytes>, now: int): nat {
    if keys == [] then 0
    else CountPresent(st, keys[..|keys| - 1], now) + if Present(st, keys[|keys| - 1], now) then 1 else 0
  }

  ghost function DueAmong(st: State, keys: seq<Bytes>, now: int): set<Bytes> {
    set k | k in keys && k in st.data && Due(st.data[k], now)
  }

  /** Rounded to the nearest second; -1 without a deadline, -2 without a value. */
  function RemainingSeconds(st: State, key: Bytes, now: int): int {
    if Lookup(st, key, now).None? then -2
    else
      match st.data[key].expiresAt
      case None => -1
      case Some(deadline) => (deadline - now + SECOND / 2) / SECOND
  }

  lemma ReadOneMore(st: State, keys: seq<Bytes>, i: nat, now: int)
    requires i < |keys|
    ensures CountPresent(st, keys[..i + 1], now)
      == CountPresent(st, keys[..i], now) + if Present(st, keys[i], now) then 1 else 0
    ensures var before := Reaped(st, DueAmong(st, keys[..i], now));
      && Lookup(before, keys[i], now) == Lookup(st, keys[i], now)
      && AfterRead(before, keys[i], now) == Reaped(st, DueAmong(st, keys[..i + 1], now))
  {
    assert keys[..i + 1][..i] == keys[..i];
    var a, b := DueAmong(st, keys[..i], now), DueAmong(st, keys[..i + 1], now);
    if keys[i] in st.data && Due(st.data[keys[i]], now) {
      assert b == a + {keys[i]};
    } else {
      assert b == a;
    }
  }

  lemma EmptyReverse()
    ensures Reverse([]) == []
  {
  }

  lemma ReverseOneMore(s: seq<Bytes>, i: nat)
    requires i < |s|
    ensures Reverse(s[..i + 1]) == [s[i]] + Reverse(s[..i])
  {
  }

  lemma FieldsGone(st: State, key: Bytes, fields: seq<Bytes>)
    ensures key !in st.hashes ==>
      FieldsDeleted(st, key, ToSet(fields)) == st && |HashAt(st, key).Keys * ToSet(fields)| == 0
    ensures key in st.hashes ==>
      var h := st.hashes[key] - ToSet(fields);
      && HashAt(st, key) == st.hashes[key]
      && FieldsDeleted(st, key, ToSet(fields))
         == st.(hashes := if h == map[] then st.hashes - {key} else st.hashes[key := h])
  {
    assert key !in st.hashes ==> HashAt(st, key).Keys * ToSet(fields) == {};
  }

  lemma NoFields(h: Hash, fields: seq<Bytes>)
    ensures h - ToSet(fields[..0]) == h && h.Keys * ToSet(fields[..0]) == {}
  {
  }

  lemma FieldOneMore(h: Hash, fields: seq<Bytes>, i: nat)
    requires i < |fields|
    ensures h - ToSet(fields[..i + 1]) == h - ToSet(fields[..i]) - {fields[i]}
    ensures |h.Keys * ToSet(fields[..i + 1])|
      == |h.Keys * ToSet(fields[..i])| + if fields[i] in h - ToSet(fields[..i]) then 1 else 0
  {
    var f, gone := fields[i], ToSet(fields[..i]);
    assert ToSet(fields[..i + 1]) == gone + {f};
    hide ToSet;
    assert h - (gone + {f}) == h - gone - {f};
    if f in h - gone {
      assert h.Keys * (gone + {f}) == h.Keys * gone + {f};
    } else {
      assert h.Keys * (gone + {f}) == h.Keys * gone;
    }
  }

  lemma RemovedParts(st: State, k: Bytes, st': State)
    requires k !in st.data ==> k !in st.expiryKeys
    requires st'.maxMemory == st.maxMemory
    requires st'.data == (if k in st.data then st.data - {k} else st.data)
    requires st'.expiryKeys == (if k in st.data then st.expiryKeys - {k} else st.expiryKeys)
    requires st'.lists == (if k in st.lists then st.lists - {k} else st.lists)
    requires st'.hashes == (if k in st.hashes then st.hashes - {k} else st.hashes)
    ensures st' == Removed(st, {k})
  {
  }

  lemma RemoveOneMore(st: State, keys: seq<Bytes>, i: nat)
    requires i < |keys|
    ensures Removed(Removed(st, ToSet(keys[..i])), {keys[i]}) == Removed(st, ToSet(keys[..i + 1]))
  {
    assert ToSet(keys[..i + 1]) == ToSet(keys[..i]) + {keys[i]};
  }
}
