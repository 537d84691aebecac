/** Replaying a compacted log rebuilds the store it was taken from. */
module SnapshotProofs {
  import opened Basics
  import opened Strconv
  import opened Sums
  import opened StoreSpec
  import opened StoreProofs
  import opened Commands
  import opened Snapshot

  // ----- replaying several lines

  lemma {:induction false} ReplayAppend(st: State, a: seq<seq<Bytes>>, b: seq<seq<Bytes>>, at: int)
    ensures ReplayLines(st, a + b, at) == ReplayLines(ReplayLines(st, a, at), b, at)
    decreases |a|
  {
    hide ReplayLine;
    if a == [] {
      assert a + b == b;
    } else {
      assert (a + b)[1..] == a[1..] + b;
      ReplayAppend(if a[0] == [] then st else ReplayLine(st, a[0], at).state, a[1..], b, at);
    }
  }

  lemma ReplayCons(st: State, op: Op, args: seq<Bytes>, rest: seq<seq<Bytes>>, at: int)
    ensures ReplayLines(st, [LogLine(op, args)] + rest, at)
      == ReplayLines(ReplayEffect(st, op, args, at).state, rest, at)
  {
    ReplayLogLine(st, op, args, at);
    hide ReplayEffect, ReplayLine;
    assert ([LogLine(op, args)] + rest)[1..] == rest;
  }

  // ----- strings

  /** The entry a replay at clock `at` makes of one written at clock `now`. */
  function Restored(e: Entry, now: int, at: int): Option<Entry> {
    match e.expiresAt
    case None => Some(e)
    case Some(deadline) =>
      if deadline <= now then None
      else
        var ms := RemainingMs(deadline, now);
        Some(Entry(e.value, if ms > 0 then Some(at + ms * MILLISECOND) else None))
  }

  ghost function RestoredOn(data: map<Bytes, Entry>, keys: set<Bytes>, now: int, at: int): map<Bytes, Entry> {
    map k | k in keys && k in data && Restored(data[k], now, at).Some? :: Restored(data[k], now, at).value
  }

  ghost function Tracked(data: map<Bytes, Entry>): set<Bytes> {
    set k | k in data && data[k].expiresAt.Some?
  }

  ghost function WithStrings(st: State, m: map<Bytes, Entry>): State {
    st.(data := st.data + m, expiryKeys := st.expiryKeys + Tracked(m))
  }

  lemma PXOption(ms: Int)
    requires 0 <= ms <= MAX_INT / MILLISECOND
    ensures SetTTL(0, ["PX", Itoa(ms)]) == TTL(ms * MILLISECOND)
  {
    AtoiItoa(ms);
    assert Upper("PX") == "PX";
    var rest := ["PX", Itoa(ms)];
    assert rest[2..] == [];
    hide Itoa, Atoi;
  }

  /** What SET k 5 PX 1 leaves at clock 0. */
  function BriefStore(ceiling: int): State {
    State(map["k" := Entry("5", Some(MILLISECOND))], map[], map[], {"k"}, ceiling)
  }

  lemma BriefSet(ceiling: int)
    requires Within(ceiling, 2)
    ensures Handle(Empty(ceiling), SET, ["k", "5", "PX", Itoa(1)], 0).state == BriefStore(ceiling)
  {
    hide SetTTL, Itoa, Memory;
    PXOption(1);
    EmptyMemory(ceiling);
    assert ["k", "5", "PX", Itoa(1)][2..] == ["PX", Itoa(1)];
  }

  lemma WrittenTTL(key: Bytes, e: Entry, now: int)
    requires SetArgs(key, e, now).Some?
    ensures |SetArgs(key, e, now).value| >= 2
    ensures SetArgs(key, e, now).value[..2] == [key, e.value]
    ensures SetTTL(0, SetArgs(key, e, now).value[2..])
      == TTL(if e.expiresAt.None? then 0 else RemainingMs(e.expiresAt.value, now) * MILLISECOND)
  {
    var args := SetArgs(key, e, now).value;
    if e.expiresAt.Some? {
      var ms := RemainingMs(e.expiresAt.value, now);
      PXOption(ms);
      assert args[2..] == ["PX", Itoa(ms)];
    } else {
      assert args[2..] == [];
    }
  }

  lemma StoredIsWithStrings(st: State, key: Bytes, e: Entry, ttl: int, at: int)
    requires key !in st.data && key !in st.expiryKeys
    requires e.expiresAt == if ttl > 0 then Some(at + ttl) else None
    ensures Stored(st, key, e.value, ttl, at) == WithStrings(st, map[key := e])
  {
    assert Tracked(map[key := e]) == if ttl > 0 then {key} else {};
  }

  /** One written SET recreates the entry it was written from. */
  lemma ReplaySet(st: State, key: Bytes, e: Entry, now: int, at: int)
    requires Fits(st, |key| + |e.value|)
    requires key !in st.data && key !in st.expiryKeys
    requires SetArgs(key, e, now).Some?
    ensures Restored(e, now, at).Some?
    ensures ReplayEffect(st, SET, SetArgs(key, e, now).value, at)
      == Effect(WithStrings(st, map[key := Restored(e, now, at).value]), true)
  {
    hide SetTTL, Itoa, Wrap, Atoi, Upper, RemainingMs, WithStrings, Stored, Fits;
    WrittenTTL(key, e, now);
    var args := SetArgs(key, e, now).value;
    assert args[0] == args[..2][0] && args[1] == args[..2][1];
    StoredIsWithStrings(st, key, Restored(e, now, at).value, SetTTL(0, args[2..]).ttl, at);
  }

  lemma RestoredCons(data: map<Bytes, Entry>, keys: seq<Bytes>, now: int, at: int)
    requires keys != [] && keys[0] !in keys[1..] && keys[0] in data
    ensures RestoredOn(data, ToSet(keys), now, at)
      == (match Restored(data[keys[0]], now, at)
          case None => map[]
          case Some(e) => map[keys[0] := e])
         + RestoredOn(data, ToSet(keys[1..]), now, at)
    ensures Restored(data[keys[0]], now, at).Some? <==> SetArgs(keys[0], data[keys[0]], now).Some?
  {
    hide RemainingMs;
    assert ToSet(keys) == {keys[0]} + ToSet(keys[1..]);
  }

  lemma StringsStayApart(st: State, one: map<Bytes, Entry>, keys: seq<Bytes>)
    requires forall k :: k in keys ==> k !in st.data && k !in st.expiryKeys && k !in one
    ensures forall k :: k in keys ==> k !in WithStrings(st, one).data && k !in WithStrings(st, one).expiryKeys
  {
  }

  lemma SameValue(e: Entry, now: int, at: int)
    ensures Restored(e, now, at).Some? ==> Restored(e, now, at).value.value == e.value
  {
  }

  lemma RestoredOnly(data: map<Bytes, Entry>, keys: seq<Bytes>, now: int, at: int)
    ensures forall k :: k in RestoredOn(data, ToSet(keys), now, at) ==> k in keys
  {
  }

  lemma MembersOfRest(keys: seq<Bytes>)
    requires keys != []
    ensures forall k :: k in keys[1..] ==> k in keys
  {
  }

  lemma WithStringsTwice(st: State, a: map<Bytes, Entry>, b: map<Bytes, Entry>)
    requires a.Keys !! b.Keys
    ensures WithStrings(WithStrings(st, a), b) == WithStrings(st, a + b)
  {
    assert st.data + a + b == st.data + (a + b);
    assert Tracked(a + b) == Tracked(a) + Tracked(b);
  }

  ghost predicate StringsFit(st: State, m: map<Bytes, Entry>) {
    Within(st.maxMemory, Memory(WithStrings(st, m)))
  }

  lemma OneStringMemory(st: State, key: Bytes, e: Entry, others: map<Bytes, Entry>)
    requires key !in st.data && key !in others
    requires forall k :: k in others ==> k !in st.data
    ensures Memory(st) + |key| + |e.value| <= Memory(WithStrings(st, map[key := e] + others))
  {
    TotalPut(st.data, EntryLen, key, e);
    TotalSubmap(st.data[key := e], st.data + (map[key := e] + others), EntryLen);
  }

  /** A string fits when the strings still to come fit with it. */
  lemma OneStringFits(st: State, key: Bytes, e: Entry, others: map<Bytes, Entry>)
    requires key !in st.data && key !in others
    requires forall k :: k in others ==> k !in st.data
    requires StringsFit(st, map[key := e] + others)
    ensures Fits(st, |key| + |e.value|) && StringsFit(WithStrings(st, map[key := e]), others)
  {
    hide Memory, Tracked;
    OneStringMemory(st, key, e, others);
    WithStringsTwice(st, map[key := e], others);
  }

  /** Strings left out because they were due aside, the SET commands add each
      string once with its restored deadline. */
  lemma {:induction false} ReplayStrings(st: State, data: map<Bytes, Entry>, keys: seq<Bytes>, now: int, at: int)
    requires Enumerates(keys, ToSet(keys))
    requires forall k :: k in keys ==> k in data && k !in st.data && k !in st.expiryKeys
    requires StringsFit(st, RestoredOn(data, ToSet(keys), now, at))
    ensures ReplayLines(st, StringLines(data, keys, now), at)
      == WithStrings(st, RestoredOn(data, ToSet(keys), now, at))
    decreases |keys|
  {
    hide ReplayEffect, Restored, SetArgs, ReplayLine, LogLine, RestoredOn, Enumerates, ToSet, ReplayLines,
      StringsFit, Fits, WithStrings;
    ReplayNone(st, at);
    NoStrings(st, data, now, at);
    if keys != [] {
      var k, rest := keys[0], keys[1..];
      RestEnumerates(keys);
      RestoredCons(data, keys, now, at);
      MembersOfRest(keys);
      if SetArgs(k, data[k], now).None? {
        NothingFirst(RestoredOn(data, ToSet(rest), now, at));
        ReplayStrings(st, data, rest, now, at);
      } else {
        var e := Restored(data[k], now, at).value;
        var one, others := map[k := e], RestoredOn(data, ToSet(rest), now, at);
        RestoredOnly(data, rest, now, at);
        SameValue(data[k], now, at);
        OneStringFits(st, k, e, others);
        StringsStayApart(st, one, rest);
        ReplaySet(st, k, data[k], now, at);
        ReplayCons(st, SET, SetArgs(k, data[k], now).value, StringLines(data, rest, now), at);
        WithStringsTwice(st, one, others);
        ReplayStrings(WithStrings(st, one), data, rest, now, at);
      }
    }
  }

  lemma ReplayNone(st: State, at: int)
    ensures ReplayLines(st, [], at) == st
  {
  }

  lemma NoStrings(st: State, data: map<Bytes, Entry>, now: int, at: int)
    ensures WithStrings(st, RestoredOn(data, ToSet([]), now, at)) == st
  {
    assert RestoredOn(data, ToSet([]), now, at) == map[];
  }

  lemma NothingFirst(m: map<Bytes, Entry>)
    ensures map[] + m == m
  {
  }

  // ----- lists

  lemma PushedTwice(st: State, key: Bytes, a: seq<Bytes>, b: seq<Bytes>)
    ensures PushedRight(PushedRight(st, key, a), key, b) == PushedRight(st, key, a + b)
  {
    assert ListAt(st, key) + a + b == ListAt(st, key) + (a + b);
  }

  /** What a chunked push may need: every chunk after the first is checked as
      if it brought the key again. */
  ghost function ChunkNeed(known: bool, key: Bytes, values: seq<Bytes>, size: nat): nat {
    |key| + SumLen(values) + if !known && |values| > size then |key| else 0
  }

  lemma ReplayPush(st: State, key: Bytes, values: seq<Bytes>, at: int)
    requires values != [] && Fits(st, |key| + SumLen(values))
    ensures ReplayEffect(st, RPUSH, [key] + values, at) == Effect(PushedRight(st, key, values), true)
  {
    hide Fits, SumLen, PushedRight;
    assert ([key] + values)[1..] == values;
  }

  lemma Frames(st: State, key: Bytes, values: seq<Bytes>)
    ensures PushedRight(st, key, values).maxMemory == FieldsSet(st, key, values).maxMemory == st.maxMemory
    ensures key in PushedRight(st, key, values).lists && key in FieldsSet(st, key, values).hashes
  {
    hide SetFields;
  }

  lemma ChunkNeedSplit(known: bool, key: Bytes, values: seq<Bytes>, size: nat)
    requires values != [] && size > 0
    ensures var n := Min(size, |values|);
      ChunkNeed(known, key, values, size)
      == |key| + SumLen(values[..n]) + SumLen(values[n..]) + if !known && values[n..] != [] then |key| else 0
  {
    hide SumLen;
    var n := Min(size, |values|);
    SumLenAppend(values[..n], values[n..]);
    assert values[..n] + values[n..] == values;
  }

  lemma NeedAfterFirst(key: Bytes, values: seq<Bytes>, size: nat)
    ensures ChunkNeed(true, key, values, size) == |key| + SumLen(values)
  {
  }

  /** When all values fit in chunks, the first chunk fits and so does the rest after it. */
  lemma PushesFit(st: State, key: Bytes, a: seq<Bytes>, b: seq<Bytes>)
    requires Fits(st, |key| + SumLen(a) + SumLen(b) + if key !in st.lists && b != [] then |key| else 0)
    ensures Fits(st, |key| + SumLen(a)) && key in PushedRight(st, key, a).lists
    ensures b != [] ==> Fits(PushedRight(st, key, a), |key| + SumLen(b))
  {
    hide Memory, SumLen, PushedRight;
    PushedRightAtMost(st, key, a);
    Frames(st, key, a);
  }

  /** The chunks of a list push its values in order. */
  lemma {:induction false} ReplayPushes(st: State, key: Bytes, values: seq<Bytes>, size: nat, at: int)
    requires 0 < size <= 2 * CHUNK_SIZE
    requires values != [] ==> Fits(st, ChunkNeed(key in st.lists, key, values, size))
    ensures ReplayLines(st, Chunks(RPUSH, key, values, size), at)
      == if values == [] then st else PushedRight(st, key, values)
    decreases |values|
  {
    hide ReplayEffect, LogLine, ReplayLine, PushedRight, ReplayLines, Fits, ChunkNeed, Chunks;
    ReplayNone(st, at);
    ChunksStep(RPUSH, key, values, size);
    if values != [] {
      var n := Min(size, |values|);
      var a, b := values[..n], values[n..];
      assert a + b == values && (b == [] ==> a == values);
      ChunkNeedSplit(key in st.lists, key, values, size);
      NeedAfterFirst(key, b, size);
      PushesFit(st, key, a, b);
      ReplayPush(st, key, a, at);
      ReplayCons(st, RPUSH, [key] + a, Chunks(RPUSH, key, b, size), at);
      ReplayPushes(PushedRight(st, key, a), key, b, size, at);
      PushedTwice(st, key, a, b);
    }
  }

  lemma ChunksStep(op: Op, key: Bytes, values: seq<Bytes>, size: nat)
    requires 0 < size <= 2 * CHUNK_SIZE
    ensures values == [] ==> Chunks(op, key, values, size) == []
    ensures values != [] ==>
      var n := Min(size, |values|);
      Chunks(op, key, values, size) == [LogLine(op, [key] + values[..n])] + Chunks(op, key, values[n..], size)
  {
    hide LogLine;
  }

  lemma PickedCons<V>(m: map<Bytes, V>, from: map<Bytes, V>, keys: seq<Bytes>)
    requires keys != [] && keys[0] in from
    ensures m[keys[0] := from[keys[0]]] + Picked(from, ToSet(keys[1..])) == m + Picked(from, ToSet(keys))
  {
    assert ToSet(keys) == {keys[0]} + ToSet(keys[1..]);
  }

  lemma PickedAll<V>(m: map<Bytes, V>)
    ensures map[] + Picked(m, m.Keys) == m
  {
  }

  predicate LongList(values: seq<Bytes>) {
    |values| > CHUNK_SIZE
  }

  predicate LongHash(h: Hash) {
    |h| > CHUNK_SIZE
  }

  /** Values put one after the other, on top of `used` bytes, pass every check:
      the bytes so far, and the key of a value of several chunks once more. */
  ghost predicate Room<V>(ceiling: int, used: nat, m: map<Bytes, V>, w: V -> nat, long: V -> bool, keys: seq<Bytes>)
    requires forall k :: k in keys ==> k in m
    decreases |keys|
  {
    keys == [] ||
    (var k := keys[0];
     var after := used + |k| + w(m[k]);
     && Within(ceiling, after + if long(m[k]) then |k| else 0)
     && Room(ceiling, after, m, w, long, keys[1..]))
  }

  lemma ListPut(st: State, key: Bytes, values: seq<Bytes>)
    requires key !in st.lists
    ensures Memory(st.(lists := st.lists[key := values])) == Memory(st) + |key| + SumLen(values)
  {
    TotalPut(st.lists, SumLen, key, values);
  }

  lemma ListFits(st: State, key: Bytes, values: seq<Bytes>)
    requires key !in st.lists
    ensures Fits(st, ChunkNeed(false, key, values, CHUNK_SIZE))
      <==> Within(st.maxMemory, Memory(st) + |key| + SumLen(values) + if LongList(values) then |key| else 0)
  {
    hide Memory, SumLen;
  }

  lemma {:induction false} ReplayLists(st: State, lists: map<Bytes, seq<Bytes>>, keys: seq<Bytes>, at: int)
    requires Enumerates(keys, ToSet(keys))
    requires forall k :: k in keys ==> k in lists && lists[k] != [] && k !in st.lists
    requires Room(st.maxMemory, Memory(st), lists, SumLen, LongList, keys)
    ensures ReplayLines(st, ListLines(lists, keys), at)
      == st.(lists := st.lists + Picked(lists, ToSet(keys)))
    decreases |keys|
  {
    hide Chunks, ReplayLines, Enumerates, Picked, ToSet, Memory, SumLen, Fits, ChunkNeed, PushedRight, LongList;
    ReplayNone(st, at);
    PickedNone(st.lists, lists);
    if keys != [] {
      var k, rest := keys[0], keys[1..];
      var st' := st.(lists := st.lists[k := lists[k]]);
      OneList(st, k, lists[k]);
      RestEnumerates(keys);
      MembersOfRest(keys);
      ListPut(st, k, lists[k]);
      ListFits(st, k, lists[k]);
      PickedCons(st.lists, lists, keys);
      ReplayPushes(st, k, lists[k], CHUNK_SIZE, at);
      ReplayAppend(st, Chunks(RPUSH, k, lists[k], CHUNK_SIZE), ListLines(lists, rest), at);
      ReplayLists(st', lists, rest, at);
    }
  }

  lemma OneList(st: State, key: Bytes, values: seq<Bytes>)
    requires key !in st.lists
    ensures PushedRight(st, key, values) == st.(lists := st.lists[key := values])
  {
    assert [] + values == values;
  }

  lemma PickedNone<V>(m: map<Bytes, V>, from: map<Bytes, V>)
    ensures m + Picked(from, ToSet([])) == m
  {
  }

  // ----- hashes

  lemma {:induction false} SetFieldsAppend(h: Hash, a: seq<Bytes>, b: seq<Bytes>)
    requires |a| % 2 == 0
    ensures SetFields(h, a + b) == SetFields(SetFields(h, a), b)
    decreases |a|
  {
    if a == [] {
      assert a + b == b;
    } else {
      assert (a + b)[2..] == a[2..] + b;
      SetFieldsAppend(h[a[0] := a[1]], a[2..], b);
    }
  }

  lemma ReplayHSet(st: State, key: Bytes, pairs: seq<Bytes>, at: int)
    requires |pairs| % 2 == 0 && pairs != [] && Fits(st, |key| + SumLen(pairs))
    ensures ReplayEffect(st, HSET, [key] + pairs, at) == Effect(FieldsSet(st, key, pairs), true)
  {
    hide Fits, SumLen, FieldsSet;
    assert ([key] + pairs)[1..] == pairs;
  }

  lemma FieldsSetTwice(st: State, key: Bytes, a: seq<Bytes>, b: seq<Bytes>)
    requires |a| % 2 == 0
    ensures FieldsSet(FieldsSet(st, key, a), key, b) == FieldsSet(st, key, a + b)
  {
    SetFieldsAppend(HashAt(st, key), a, b);
  }

  lemma HSetsFit(st: State, key: Bytes, a: seq<Bytes>, b: seq<Bytes>)
    requires Fits(st, |key| + SumLen(a) + SumLen(b) + if key !in st.hashes && b != [] then |key| else 0)
    ensures Fits(st, |key| + SumLen(a)) && key in FieldsSet(st, key, a).hashes
    ensures b != [] ==> Fits(FieldsSet(st, key, a), |key| + SumLen(b))
  {
    hide Memory, SumLen, FieldsSet;
    FieldsSetAtMost(st, key, a);
    Frames(st, key, a);
  }

  /** The chunks of a hash set the same fields as one HSET would. */
  lemma {:induction false} ReplayHSets(st: State, key: Bytes, pairs: seq<Bytes>, at: int)
    requires |pairs| % 2 == 0
    requires pairs != [] ==> Fits(st, ChunkNeed(key in st.hashes, key, pairs, 2 * CHUNK_SIZE))
    ensures ReplayLines(st, Chunks(HSET, key, pairs, 2 * CHUNK_SIZE), at)
      == if pairs == [] then st else FieldsSet(st, key, pairs)
    decreases |pairs|
  {
    hide ReplayLines, FieldsSet, Chunks, Fits, ChunkNeed;
    if pairs == [] {
      ReplayNone(st, at);
      ChunksStep(HSET, key, pairs, 2 * CHUNK_SIZE);
      return;
    }
    var n := Min(2 * CHUNK_SIZE, |pairs|);
    SplitPairs(pairs, n);
    FirstHSet(st, key, pairs, n, at);
    ReplayHSets(FieldsSet(st, key, pairs[..n]), key, pairs[n..], at);
    FieldsSetTwice(st, key, pairs[..n], pairs[n..]);
  }

  /** The first chunk of a hash, and room for the others after it. */
  lemma FirstHSet(st: State, key: Bytes, pairs: seq<Bytes>, n: nat, at: int)
    requires |pairs| % 2 == 0 && pairs != [] && n == Min(2 * CHUNK_SIZE, |pairs|)
    requires Fits(st, ChunkNeed(key in st.hashes, key, pairs, 2 * CHUNK_SIZE))
    ensures var next := FieldsSet(st, key, pairs[..n]);
      && ReplayLines(st, Chunks(HSET, key, pairs, 2 * CHUNK_SIZE), at)
         == ReplayLines(next, Chunks(HSET, key, pairs[n..], 2 * CHUNK_SIZE), at)
      && (pairs[n..] != [] ==> Fits(next, ChunkNeed(key in next.hashes, key, pairs[n..], 2 * CHUNK_SIZE)))
  {
    hide ReplayEffect, LogLine, ReplayLine, ReplayLines, FieldsSet, SetFields, Chunks, Fits, ChunkNeed, SumLen, Memory;
    var a, b := pairs[..n], pairs[n..];
    ChunksStep(HSET, key, pairs, 2 * CHUNK_SIZE);
    ChunkNeedSplit(key in st.hashes, key, pairs, 2 * CHUNK_SIZE);
    NeedAfterFirst(key, b, 2 * CHUNK_SIZE);
    HSetsFit(st, key, a, b);
    ReplayHSet(st, key, a, at);
    ReplayCons(st, HSET, [key] + a, Chunks(HSET, key, b, 2 * CHUNK_SIZE), at);
  }

  lemma SplitPairs(pairs: seq<Bytes>, n: nat)
    requires n <= |pairs| && |pairs| % 2 == 0 && n % 2 == 0
    ensures pairs[..n] + pairs[n..] == pairs && |pairs[n..]| % 2 == 0
    ensures pairs[n..] == [] ==> pairs[..n] == pairs
  {
  }

  lemma {:induction false} SetFieldsPairs(h0: Hash, h: Hash, fields: seq<Bytes>)
    requires forall f :: f in fields ==> f in h
    ensures SetFields(h0, Pairs(h, fields)) == h0 + Picked(h, ToSet(fields))
    decreases |fields|
  {
    hide Picked, ToSet;
    if fields == [] {
      PickedNone(h0, h);
    } else {
      var f, rest := fields[0], fields[1..];
      assert Pairs(h, fields)[2..] == Pairs(h, rest);
      SetFieldsPairs(h0[f := h[f]], h, rest);
      PickedCons(h0, h, fields);
    }
  }

  lemma AllPairs(h: Hash, fields: seq<Bytes>)
    requires Enumerates(fields, h.Keys)
    ensures forall f :: f in fields ==> f in h
    ensures SetFields(map[], Pairs(h, fields)) == h
    ensures h != map[] ==> fields != []
  {
    assert forall f :: f in fields ==> f in ToSet(fields);
    SetFieldsPairs(map[], h, fields);
    assert Picked(h, ToSet(fields)) == h;
  }

  /** The pairs of a hash are as long as the hash. */
  lemma {:induction false} PairsLength(h: Hash, g: Hash, fields: seq<Bytes>)
    requires Enumerates(fields, g.Keys) && forall f :: f in g ==> f in h && g[f] == h[f]
    requires forall f :: f in fields ==> f in h
    ensures SumLen(Pairs(h, fields)) == HashLen(g) && |fields| == |g|
    decreases |fields|
  {
    hide Enumerates, ToSet, HashLen;
    NoFieldsLength(g, fields);
    if fields != [] {
      var f, rest := fields[0], fields[1..];
      FirstField(fields, g.Keys);
      OneFieldLength(g, f);
      PairsLength(h, g - {f}, rest);
      assert Pairs(h, fields)[1..][1..] == Pairs(h, rest);
    }
  }

  lemma NoFieldsLength(g: Hash, fields: seq<Bytes>)
    requires Enumerates(fields, g.Keys)
    ensures fields == [] ==> g == map[] && HashLen(g) == 0
  {
    TotalEmpty(ValueLen);
    assert fields == [] ==> ToSet(fields) == {};
  }

  lemma OneFieldLength(g: Hash, f: Bytes)
    requires f in g
    ensures HashLen(g) == |f| + |g[f]| + HashLen(g - {f}) && |g| == 1 + |g - {f}|
  {
    TotalPut(g - {f}, ValueLen, f, g[f]);
    assert (g - {f})[f := g[f]] == g;
    assert g.Keys == (g - {f}).Keys + {f};
  }

  lemma FirstField(fields: seq<Bytes>, keys: set<Bytes>)
    requires fields != [] && Enumerates(fields, keys)
    ensures fields[0] in keys && Enumerates(fields[1..], keys - {fields[0]})
  {
    assert fields[0] in ToSet(fields);
    assert ToSet(fields[1..]) == ToSet(fields) - {fields[0]};
  }

  lemma OneHash(st: State, key: Bytes, h: Hash, fields: seq<Bytes>)
    requires key !in st.hashes && h != map[] && Enumerates(fields, h.Keys) && forall f :: f in fields ==> f in h
    ensures FieldsSet(st, key, Pairs(h, fields)) == st.(hashes := st.hashes[key := h]) && Pairs(h, fields) != []
  {
    hide SetFields, Enumerates;
    AllPairs(h, fields);
  }

  lemma HashPut(st: State, key: Bytes, h: Hash)
    requires key !in st.hashes
    ensures Memory(st.(hashes := st.hashes[key := h])) == Memory(st) + |key| + HashLen(h)
  {
    TotalPut(st.hashes, HashLen, key, h);
  }

  lemma HashFits(st: State, key: Bytes, h: Hash, fs: seq<Bytes>)
    requires key !in st.hashes && Enumerates(fs, h.Keys) && forall f :: f in fs ==> f in h
    ensures Fits(st, ChunkNeed(false, key, Pairs(h, fs), 2 * CHUNK_SIZE))
      <==> Within(st.maxMemory, Memory(st) + |key| + HashLen(h) + if LongHash(h) then |key| else 0)
  {
    hide Memory, SumLen, HashLen, Pairs, Enumerates;
    PairsLength(h, h, fs);
  }

  lemma {:induction false} ReplayHashes(st: State, hashes: map<Bytes, Hash>, keys: seq<Bytes>,
                                        fields: map<Bytes, seq<Bytes>>, at: int)
    requires Enumerates(keys, ToSet(keys))
    requires forall k :: k in keys ==> k in hashes && hashes[k] != map[] && k !in st.hashes
    requires forall k :: k in keys ==> k in fields && Enumerates(fields[k], hashes[k].Keys)
    requires FieldsOf(hashes, keys, fields)
    requires Room(st.maxMemory, Memory(st), hashes, HashLen, LongHash, keys)
    ensures ReplayLines(st, HashLines(hashes, keys, fields), at)
      == st.(hashes := st.hashes + Picked(hashes, ToSet(keys)))
    decreases |keys|
  {
    hide Chunks, ReplayLines, Enumerates, Picked, ToSet, Memory, HashLen, Fits, ChunkNeed, FieldsSet, FieldsOf, Pairs,
      SetFields, LongHash;
    ReplayNone(st, at);
    PickedNone(st.hashes, hashes);
    if keys != [] {
      var k, rest := keys[0], keys[1..];
      FieldsOfRest(hashes, keys, fields);
      var pairs := Pairs(hashes[k], fields[k]);
      var st' := st.(hashes := st.hashes[k := hashes[k]]);
      MembersOfRest(keys);
      OneHash(st, k, hashes[k], fields[k]);
      RestEnumerates(keys);
      HashPut(st, k, hashes[k]);
      HashFits(st, k, hashes[k], fields[k]);
      PickedCons(st.hashes, hashes, keys);
      ReplayHSets(st, k, pairs, at);
      ReplayAppend(st, Chunks(HSET, k, pairs, 2 * CHUNK_SIZE), HashLines(hashes, rest, fields), at);
      ReplayHashes(st', hashes, rest, fields, at);
    }
  }

  lemma FieldsOfRest(hashes: map<Bytes, Hash>, keys: seq<Bytes>, fields: map<Bytes, seq<Bytes>>)
    requires keys != [] && FieldsOf(hashes, keys, fields)
    ensures FieldsOf(hashes, keys[1..], fields)
    ensures keys[0] in hashes && keys[0] in fields && forall f :: f in fields[keys[0]] ==> f in hashes[keys[0]]
  {
  }

  lemma RestEnumerates(keys: seq<Bytes>)
    requires keys != [] && Enumerates(keys, ToSet(keys))
    ensures Enumerates(keys[1..], ToSet(keys[1..])) && keys[0] !in keys[1..]
  {
  }

  // ----- the whole snapshot

  /** What a replay at clock `at` rebuilds from a snapshot written at clock `now`. */
  ghost function Rebuilt(snap: State, now: int, at: int): State {
    var strings := RestoredOn(snap.data, snap.data.Keys, now, at);
    State(strings, snap.lists, snap.hashes, Tracked(strings), 0)
  }

  /** The store that replaying the strings alone rebuilds. */
  ghost function StringsOnly(snap: State, now: int, at: int, ceiling: int): State {
    WithStrings(Empty(ceiling), RestoredOn(snap.data, snap.data.Keys, now, at))
  }

  lemma StringsOnlyLess(snap: State, now: int, at: int, ceiling: int)
    ensures Total(StringsOnly(snap, now, at, ceiling).data, EntryLen) <= Total(snap.data, EntryLen)
  {
    var a := StringsOnly(snap, now, at, ceiling);
    assert a.data == RestoredOn(snap.data, snap.data.Keys, now, at);
    forall k | k in a.data ensures k in snap.data && EntryLen(a.data[k]) == EntryLen(snap.data[k]) {
      SameValue(snap.data[k], now, at);
    }
    TotalSubmap(a.data, snap.data, EntryLen);
  }

  lemma ReplayAllStrings(snap: State, keys: seq<Bytes>, now: int, at: int, ceiling: int)
    requires Within(ceiling, Memory(StringsOnly(snap, now, at, ceiling)))
    requires Enumerates(keys, snap.data.Keys) && forall k :: k in keys ==> k in snap.data
    ensures ReplayLines(Empty(ceiling), StringLines(snap.data, keys, now), at) == StringsOnly(snap, now, at, ceiling)
  {
    hide ReplayLines, StringLines, Memory, RestoredOn;
    ReplayStrings(Empty(ceiling), snap.data, keys, now, at);
  }

  lemma ReplayAllLists(snap: State, st: State, keys: seq<Bytes>, at: int)
    requires Consistent(snap) && st.lists == map[]
    requires Enumerates(keys, snap.lists.Keys) && forall k :: k in keys ==> k in snap.lists
    requires Room(st.maxMemory, Memory(st), snap.lists, SumLen, LongList, keys)
    ensures ReplayLines(st, ListLines(snap.lists, keys), at) == st.(lists := snap.lists)
  {
    hide ReplayLines, ListLines, Memory, Picked, Room;
    PickedAll(snap.lists);
    ReplayLists(st, snap.lists, keys, at);
  }

  lemma ReplayAllHashes(snap: State, st: State, keys: seq<Bytes>, fields: map<Bytes, seq<Bytes>>, at: int)
    requires Consistent(snap) && st.hashes == map[]
    requires Enumerates(keys, snap.hashes.Keys) && FieldsOf(snap.hashes, keys, fields)
    requires forall k :: k in keys ==> Enumerates(fields[k], snap.hashes[k].Keys)
    requires Room(st.maxMemory, Memory(st), snap.hashes, HashLen, LongHash, keys)
    ensures ReplayLines(st, HashLines(snap.hashes, keys, fields), at) == st.(hashes := snap.hashes)
  {
    hide ReplayLines, HashLines, Memory, Picked, Room;
    PickedAll(snap.hashes);
    ReplayHashes(st, snap.hashes, keys, fields, at);
  }

  /** The lines of a snapshot replay one map after the other. */
  lemma ReplayParts(snap: State, o: Order, now: int, at: int, ceiling: int)
    requires ValidOrder(o, snap) && Within(ceiling, Memory(StringsOnly(snap, now, at, ceiling)))
    ensures forall k :: k in o.lists ==> k in snap.lists
    ensures FieldsOf(snap.hashes, o.hashes, o.fields)
    ensures var lists := ReplayLines(StringsOnly(snap, now, at, ceiling), ListLines(snap.lists, o.lists), at);
      ReplayLines(Empty(ceiling), SnapshotLines(snap, o, now), at)
      == ReplayLines(lists, HashLines(snap.hashes, o.hashes, o.fields), at)
  {
    hide ReplayLines, StringLines, ListLines, HashLines, StringsOnly, Memory, Enumerates, FieldsOf, SnapshotLines;
    OrderMembers(o, snap);
    var a := StringLines(snap.data, o.strings, now);
    var b := ListLines(snap.lists, o.lists);
    var c := HashLines(snap.hashes, o.hashes, o.fields);
    SnapshotParts(snap, o, now);
    ReplayAppend(Empty(ceiling), a + b, c, at);
    ReplayAppend(Empty(ceiling), a, b, at);
    ReplayAllStrings(snap, o.strings, now, at, ceiling);
  }

  lemma SnapshotParts(snap: State, o: Order, now: int)
    requires ValidOrder(o, snap)
    requires (forall k :: k in o.strings ==> k in snap.data) && (forall k :: k in o.lists ==> k in snap.lists)
    requires FieldsOf(snap.hashes, o.hashes, o.fields)
    ensures SnapshotLines(snap, o, now)
      == StringLines(snap.data, o.strings, now) + ListLines(snap.lists, o.lists)
         + HashLines(snap.hashes, o.hashes, o.fields)
  {
    hide StringLines, ListLines, HashLines;
  }

  lemma PartsMakeWhole(snap: State, now: int, at: int, ceiling: int)
    ensures var st := StringsOnly(snap, now, at, ceiling);
      && st.maxMemory == ceiling && st.lists == map[] && st.hashes == map[]
      && st.(lists := snap.lists, hashes := snap.hashes) == Rebuilt(snap, now, at).(maxMemory := ceiling)
  {
    hide RestoredOn, Tracked;
  }

  lemma OrderMembers(o: Order, snap: State)
    requires ValidOrder(o, snap)
    ensures forall k :: k in o.strings ==> k in snap.data
    ensures forall k :: k in o.lists ==> k in snap.lists
    ensures forall k :: k in o.hashes ==> k in snap.hashes
    ensures FieldsOf(snap.hashes, o.hashes, o.fields)
    ensures forall k :: k in o.hashes ==> Enumerates(o.fields[k], snap.hashes[k].Keys)
  {
    assert forall k :: k in o.strings ==> k in ToSet(o.strings);
    assert forall k :: k in o.lists ==> k in ToSet(o.lists);
    assert forall k :: k in o.hashes ==> k in ToSet(o.hashes);
    assert forall k, f :: k in snap.hashes && f in o.fields[k] ==> f in ToSet(o.fields[k]);
  }

  ghost predicate NoDeadlines(st: State) {
    forall k :: k in st.data ==> st.data[k].expiresAt.None?
  }

  lemma RestoredAll(snap: State, now: int, at: int)
    requires NoDeadlines(snap) && IndexExact(snap)
    ensures RestoredOn(snap.data, snap.data.Keys, now, at) == snap.data
    ensures Tracked(snap.data) == snap.expiryKeys
  {
  }

  /** Compacted deadlines never grow. A string with a deadline, replayed at the
      clock it was written at, keeps a deadline, no later and less than a
      millisecond earlier, exactly when at least a millisecond was left. With
      less left it comes back without a deadline. */
  lemma DeadlineRounding(e: Entry, now: int)
    requires e.expiresAt.Some? && now < e.expiresAt.value <= now + MAX_INT
    ensures Restored(e, now, now).Some? && Restored(e, now, now).value.value == e.value
    ensures var r := Restored(e, now, now).value.expiresAt;
      && (r.Some? <==> e.expiresAt.value - now >= MILLISECOND)
      && (r.Some? ==> e.expiresAt.value - MILLISECOND < r.value <= e.expiresAt.value)
  {
    var d := e.expiresAt.value - now;
    assert RemainingMs(e.expiresAt.value, now) == d / MILLISECOND;
  }

  // ----- no line is long

  /** A command name, a key and at most 500 values or pairs. */
  predicate Bounded(line: seq<Bytes>) {
    line != [] && |line| <= if line[0] == "HSET" then 2 + 2 * 500 else 2 + 500
  }

  lemma {:induction false} ChunksBounded(op: Op, key: Bytes, values: seq<Bytes>, size: nat)
    requires 0 < size <= 2 * CHUNK_SIZE && (op == HSET || (op == RPUSH && size <= CHUNK_SIZE))
    ensures forall l :: l in Chunks(op, key, values, size) ==> Bounded(l)
    decreases |values|
  {
    if values != [] { ChunksBounded(op, key, values[Min(size, |values|)..], size); }
  }

  lemma {:induction false} ListLinesBounded(lists: map<Bytes, seq<Bytes>>, keys: seq<Bytes>)
    requires forall k :: k in keys ==> k in lists
    ensures forall l :: l in ListLines(lists, keys) ==> Bounded(l)
  {
    hide Bounded;
    if keys != [] {
      ChunksBounded(RPUSH, keys[0], lists[keys[0]], CHUNK_SIZE);
      ListLinesBounded(lists, keys[1..]);
    }
  }

  lemma {:induction false} HashLinesBounded(hashes: map<Bytes, Hash>, keys: seq<Bytes>, fields: map<Bytes, seq<Bytes>>)
    requires FieldsOf(hashes, keys, fields)
    ensures forall l :: l in HashLines(hashes, keys, fields) ==> Bounded(l)
  {
    hide Bounded;
    if keys != [] {
      FieldsOfRest(hashes, keys, fields);
      ChunksBounded(HSET, keys[0], Pairs(hashes[keys[0]], fields[keys[0]]), 2 * CHUNK_SIZE);
      HashLinesBounded(hashes, keys[1..], fields);
    }
  }

  lemma {:induction false} StringLinesBounded(data: map<Bytes, Entry>, keys: seq<Bytes>, now: int)
    requires forall k :: k in keys ==> k in data
    ensures forall l :: l in StringLines(data, keys, now) ==> Bounded(l)
  {
    hide RemainingMs, Itoa;
    if keys != [] { StringLinesBounded(data, keys[1..], now); }
  }

  /** However large a list or a hash is, no command of the compacted log holds more than
      500 of its values or pairs. */
  lemma NoLineIsLong(snap: State, o: Order, now: int)
    requires ValidOrder(o, snap)
    ensures forall l :: l in SnapshotLines(snap, o, now) ==> Bounded(l)
  {
    hide Bounded, StringLines, ListLines, HashLines, FieldsOf;
    OrderMembers(o, snap);
    SnapshotParts(snap, o, now);
    StringLinesBounded(snap.data, o.strings, now);
    ListLinesBounded(snap.lists, o.lists);
    HashLinesBounded(snap.hashes, o.hashes, o.fields);
  }

  /** Up to 500 values, or pairs, are one command. */
  lemma ShortIsOneLine(key: Bytes, values: seq<Bytes>)
    requires values != []
    ensures |values| <= 500 ==> Chunks(RPUSH, key, values, CHUNK_SIZE) == [LogLine(RPUSH, [key] + values)]
    ensures |values| <= 2 * 500 ==> Chunks(HSET, key, values, 2 * CHUNK_SIZE) == [LogLine(HSET, [key] + values)]
  {
    hide LogLine;
    assert values[..|values|] == values && values[|values|..] == [];
  }

  /** What a snapshot brings back of the strings: those without a deadline as they are,
      those with one still ahead with their values, and none that is due. */
  lemma RebuiltStrings(snap: State, now: int, at: int, k: Bytes)
    ensures k in Rebuilt(snap, now, at).data <==>
      k in snap.data && (snap.data[k].expiresAt == None || snap.data[k].expiresAt.value > now)
    ensures k in Rebuilt(snap, now, at).data ==>
      && Rebuilt(snap, now, at).data[k].value == snap.data[k].value
      && (snap.data[k].expiresAt == None ==> Rebuilt(snap, now, at).data[k] == snap.data[k])
  {
    hide RemainingMs;
  }
}
