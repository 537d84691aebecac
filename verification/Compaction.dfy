/** What a compacted log brings back under a memory ceiling: exactly when all of it. */
module Compaction {
  import opened Basics
  import opened Strconv
  import opened Sums
  import opened StoreSpec
  import opened StoreProofs
  import opened Commands
  import opened Resp
  import opened Snapshot
  import opened SnapshotProofs

  // ----- a list one of whose chunks is refused

  lemma PushEffect(st: State, key: Bytes, values: seq<Bytes>, at: int)
    requires values != []
    ensures ReplayEffect(st, RPUSH, [key] + values, at).state
      == if Fits(st, |key| + SumLen(values)) then PushedRight(st, key, values) else st
  {
    hide Fits, SumLen, PushedRight, SetTTL, IncrEffect, Atoi, Stored, Removed, PushedLeft, FieldsSet, FieldsDeleted;
    assert ([key] + values)[1..] == values;
  }

  lemma PushedLength(st: State, key: Bytes, values: seq<Bytes>)
    ensures |ListAt(PushedRight(st, key, values), key)| == |ListAt(st, key)| + |values|
  {
  }

  /** Replaying the chunks of a list never makes it longer than its values allow. */
  lemma {:induction false} PushesAtMost(st: State, key: Bytes, values: seq<Bytes>, at: int)
    ensures |ListAt(ReplayLines(st, Chunks(RPUSH, key, values, CHUNK_SIZE), at), key)| <= |ListAt(st, key)| + |values|
    decreases |values|
  {
    hide Fits, ReplayLines, Chunks, PushedRight, ReplayEffect, LogLine, SumLen, ListAt;
    ReplayNone(st, at);
    ChunksStep(RPUSH, key, values, CHUNK_SIZE);
    if values != [] {
      var n := Min(CHUNK_SIZE, |values|);
      var a, b := values[..n], values[n..];
      PushEffect(st, key, a, at);
      PushedLength(st, key, a);
      ReplayCons(st, RPUSH, [key] + a, Chunks(RPUSH, key, b, CHUNK_SIZE), at);
      PushesAtMost(st, key, b, at);
      PushesAtMost(PushedRight(st, key, a), key, b, at);
    }
  }

  /** When the first chunk fits but not all of them do, it is the rest that does not. */
  lemma PushesTooMuch(st: State, key: Bytes, a: seq<Bytes>, b: seq<Bytes>)
    requires !Fits(st, |key| + SumLen(a) + SumLen(b) + if key !in st.lists && b != [] then |key| else 0)
    requires Fits(st, |key| + SumLen(a)) && (b == [] ==> SumLen(b) == 0)
    ensures b != [] && key in PushedRight(st, key, a).lists && !Fits(PushedRight(st, key, a), |key| + SumLen(b))
  {
    hide Memory, SumLen, PushedRight;
    PushedRightAtMost(st, key, a);
    Frames(st, key, a);
  }

  /** When they do not all fit, the list stays too short. */
  lemma {:induction false} PushesShort(st: State, key: Bytes, values: seq<Bytes>, at: int)
    requires values != [] && !Fits(st, ChunkNeed(key in st.lists, key, values, CHUNK_SIZE))
    ensures |ListAt(ReplayLines(st, Chunks(RPUSH, key, values, CHUNK_SIZE), at), key)| < |ListAt(st, key)| + |values|
    decreases |values|
  {
    hide Fits, ReplayLines, Chunks, PushedRight, ReplayEffect, LogLine, SumLen, ListAt, ChunkNeed;
    ChunksStep(RPUSH, key, values, CHUNK_SIZE);
    var n := Min(CHUNK_SIZE, |values|);
    var a, b := values[..n], values[n..];
    ChunkNeedSplit(key in st.lists, key, values, CHUNK_SIZE);
    NeedAfterFirst(key, b, CHUNK_SIZE);
    PushEffect(st, key, a, at);
    PushedLength(st, key, a);
    ReplayCons(st, RPUSH, [key] + a, Chunks(RPUSH, key, b, CHUNK_SIZE), at);
    if Fits(st, |key| + SumLen(a)) {
      NoLength(b);
      PushesTooMuch(st, key, a, b);
      PushesShort(PushedRight(st, key, a), key, b, at);
    } else {
      PushesAtMost(st, key, b, at);
    }
  }

  lemma NoLength(ss: seq<Bytes>)
    ensures ss == [] ==> SumLen(ss) == 0
  {
  }

  // ----- a hash one of whose chunks is refused

  /** Every field of the pairs is new when its turn comes. */
  ghost predicate FreshPairs(h: Hash, pairs: seq<Bytes>)
    decreases |pairs|
  {
    |pairs| < 2 || (pairs[0] !in h && FreshPairs(h[pairs[0] := pairs[1]], pairs[2..]))
  }

  lemma OneMoreField(h: Hash, f: Bytes, v: Bytes)
    ensures |h[f := v]| == |h| + if f in h then 0 else 1
    ensures f !in h ==> HashLen(h[f := v]) == HashLen(h) + |f| + |v|
  {
    TotalPut(h, ValueLen, f, v);
    assert h[f := v].Keys == h.Keys + {f};
  }

  lemma PairsSum(pairs: seq<Bytes>)
    requires |pairs| >= 2
    ensures SumLen(pairs) == |pairs[0]| + |pairs[1]| + SumLen(pairs[2..])
  {
    assert pairs[1..][1..] == pairs[2..];
  }

  lemma {:induction false} FreshLength(h: Hash, pairs: seq<Bytes>)
    requires |pairs| % 2 == 0
    ensures |SetFields(h, pairs)| <= |h| + |pairs| / 2
    ensures FreshPairs(h, pairs) ==>
      |SetFields(h, pairs)| == |h| + |pairs| / 2 && HashLen(SetFields(h, pairs)) == HashLen(h) + SumLen(pairs)
    decreases |pairs|
  {
    hide HashLen, SumLen;
    NoLength(pairs);
    if |pairs| >= 2 {
      OneMoreField(h, pairs[0], pairs[1]);
      PairsSum(pairs);
      FreshLength(h[pairs[0] := pairs[1]], pairs[2..]);
    }
  }

  lemma {:induction false} FreshSplit(h: Hash, pairs: seq<Bytes>, n: nat)
    requires FreshPairs(h, pairs) && n % 2 == 0 && n <= |pairs|
    ensures FreshPairs(h, pairs[..n]) && FreshPairs(SetFields(h, pairs[..n]), pairs[n..])
    decreases |pairs|
  {
    if n > 0 {
      FreshSplit(h[pairs[0] := pairs[1]], pairs[2..], n - 2);
      assert pairs[..n][2..] == pairs[2..][..n - 2] && pairs[n..] == pairs[2..][n - 2..];
    } else {
      assert pairs[0..] == pairs;
    }
  }

  /** The pairs of a hash, in any order of its fields. */
  lemma {:induction false} FreshOfHash(h0: Hash, h: Hash, fields: seq<Bytes>)
    requires Enumerates(fields, ToSet(fields))
    requires forall f :: f in fields ==> f in h && f !in h0
    ensures FreshPairs(h0, Pairs(h, fields))
    decreases |fields|
  {
    if fields != [] {
      var f, rest := fields[0], fields[1..];
      assert Pairs(h, fields)[2..] == Pairs(h, rest);
      RestEnumerates(fields);
      FreshOfHash(h0[f := h[f]], h, rest);
    }
  }

  lemma HSetEffect(st: State, key: Bytes, pairs: seq<Bytes>, at: int)
    requires pairs != [] && |pairs| % 2 == 0
    ensures ReplayEffect(st, HSET, [key] + pairs, at).state
      == if Fits(st, |key| + SumLen(pairs)) then FieldsSet(st, key, pairs) else st
  {
    hide ReplayEffect, Fits, SumLen, FieldsSet;
    if Fits(st, |key| + SumLen(pairs)) {
      ReplayHSet(st, key, pairs, at);
    } else {
      RefusedHSet(st, key, pairs, at);
    }
  }

  lemma RefusedHSet(st: State, key: Bytes, pairs: seq<Bytes>, at: int)
    requires !Fits(st, |key| + SumLen(pairs))
    ensures ReplayEffect(st, HSET, [key] + pairs, at) == Effect(st, false)
  {
    hide Fits, SumLen, FieldsSet, SetTTL, IncrEffect, Atoi, Stored, Removed, PushedLeft, PushedRight, FieldsDeleted;
    assert ([key] + pairs)[1..] == pairs && ([key] + pairs)[0] == key;
  }

  lemma FieldsSetSize(st: State, key: Bytes, pairs: seq<Bytes>)
    requires |pairs| % 2 == 0
    ensures HashAt(FieldsSet(st, key, pairs), key) == SetFields(HashAt(st, key), pairs)
    ensures |HashAt(FieldsSet(st, key, pairs), key)| <= |HashAt(st, key)| + |pairs| / 2
  {
    FreshLength(HashAt(st, key), pairs);
  }

  lemma FreshMemory(st: State, key: Bytes, pairs: seq<Bytes>)
    requires |pairs| % 2 == 0 && FreshPairs(HashAt(st, key), pairs)
    ensures Memory(FieldsSet(st, key, pairs)) + (if key in st.hashes then |key| else 0)
      == Memory(st) + |key| + SumLen(pairs)
  {
    hide SumLen, SetFields, FreshPairs;
    FreshLength(HashAt(st, key), pairs);
    TotalPut(st.hashes, HashLen, key, SetFields(HashAt(st, key), pairs));
    TotalEmpty(ValueLen);
  }

  lemma {:induction false} HSetsAtMost(st: State, key: Bytes, pairs: seq<Bytes>, at: int)
    requires |pairs| % 2 == 0
    ensures |HashAt(ReplayLines(st, Chunks(HSET, key, pairs, 2 * CHUNK_SIZE), at), key)|
      <= |HashAt(st, key)| + |pairs| / 2
    decreases |pairs|
  {
    hide Fits, ReplayLines, Chunks, FieldsSet, ReplayEffect, LogLine, SumLen, HashAt, SetFields;
    ReplayNone(st, at);
    ChunksStep(HSET, key, pairs, 2 * CHUNK_SIZE);
    if pairs != [] {
      var n := Min(2 * CHUNK_SIZE, |pairs|);
      var a, b := pairs[..n], pairs[n..];
      HSetEffect(st, key, a, at);
      FieldsSetSize(st, key, a);
      ReplayCons(st, HSET, [key] + a, Chunks(HSET, key, b, 2 * CHUNK_SIZE), at);
      HSetsAtMost(st, key, b, at);
      HSetsAtMost(FieldsSet(st, key, a), key, b, at);
    }
  }

  lemma HSetsTooMuch(st: State, key: Bytes, a: seq<Bytes>, b: seq<Bytes>)
    requires |a| % 2 == 0 && FreshPairs(HashAt(st, key), a)
    requires !Fits(st, |key| + SumLen(a) + SumLen(b) + if key !in st.hashes && b != [] then |key| else 0)
    requires Fits(st, |key| + SumLen(a)) && (b == [] ==> SumLen(b) == 0)
    ensures b != [] && key in FieldsSet(st, key, a).hashes && !Fits(FieldsSet(st, key, a), |key| + SumLen(b))
  {
    hide Memory, SumLen, FieldsSet, FreshPairs, HashAt;
    FreshMemory(st, key, a);
    Frames(st, key, a);
  }

  /** When the chunks of new fields do not all fit, the hash stays too small. */
  lemma {:induction false} HSetsShort(st: State, key: Bytes, pairs: seq<Bytes>, at: int)
    requires pairs != [] && |pairs| % 2 == 0 && FreshPairs(HashAt(st, key), pairs)
    requires !Fits(st, ChunkNeed(key in st.hashes, key, pairs, 2 * CHUNK_SIZE))
    ensures |HashAt(ReplayLines(st, Chunks(HSET, key, pairs, 2 * CHUNK_SIZE), at), key)|
      < |HashAt(st, key)| + |pairs| / 2
    decreases |pairs|
  {
    hide Fits, ReplayLines, Chunks, FieldsSet, ReplayEffect, LogLine, SumLen, HashAt, ChunkNeed, FreshPairs, SetFields;
    ChunksStep(HSET, key, pairs, 2 * CHUNK_SIZE);
    var n := Min(2 * CHUNK_SIZE, |pairs|);
    var a, b := pairs[..n], pairs[n..];
    ChunkNeedSplit(key in st.hashes, key, pairs, 2 * CHUNK_SIZE);
    NeedAfterFirst(key, b, 2 * CHUNK_SIZE);
    FreshSplit(HashAt(st, key), pairs, n);
    HSetEffect(st, key, a, at);
    FieldsSetSize(st, key, a);
    ReplayCons(st, HSET, [key] + a, Chunks(HSET, key, b, 2 * CHUNK_SIZE), at);
    if Fits(st, |key| + SumLen(a)) {
      NoLength(b);
      HSetsTooMuch(st, key, a, b);
      HSetsShort(FieldsSet(st, key, a), key, b, at);
    } else {
      HSetsAtMost(st, key, b, at);
    }
  }

  // ----- lines that leave a key alone

  /** RPUSH lines for other keys, and HSET lines. */
  predicate SparesList(line: Line, key: Bytes) {
    |line| >= 2 && (line[0] == Name(HSET) || (line[0] == Name(RPUSH) && line[1] != key))
  }

  predicate SparesHash(line: Line, key: Bytes) {
    |line| >= 2 && line[0] == Name(HSET) && line[1] != key
  }

  lemma OneLineSpares(st: State, line: Line, key: Bytes, at: int)
    ensures SparesList(line, key) ==> ListAt(ReplayLine(st, line, at).state, key) == ListAt(st, key)
    ensures SparesHash(line, key) ==> HashAt(ReplayLine(st, line, at).state, key) == HashAt(st, key)
  {
    OpOfName(HSET);
    OpOfName(RPUSH);
    hide SetFields, Fits, SumLen, OpOf, Upper;
  }

  lemma {:induction false} LinesSpareList(st: State, lines: seq<Line>, key: Bytes, at: int)
    requires forall l :: l in lines ==> SparesList(l, key)
    ensures ListAt(ReplayLines(st, lines, at), key) == ListAt(st, key)
    decreases |lines|
  {
    hide ReplayLine, ListAt;
    if lines != [] {
      OneLineSpares(st, lines[0], key, at);
      LinesSpareList(ReplayLine(st, lines[0], at).state, lines[1..], key, at);
    }
  }

  lemma {:induction false} LinesSpareHash(st: State, lines: seq<Line>, key: Bytes, at: int)
    requires forall l :: l in lines ==> SparesHash(l, key)
    ensures HashAt(ReplayLines(st, lines, at), key) == HashAt(st, key)
    decreases |lines|
  {
    hide ReplayLine, HashAt;
    if lines != [] {
      OneLineSpares(st, lines[0], key, at);
      LinesSpareHash(ReplayLine(st, lines[0], at).state, lines[1..], key, at);
    }
  }

  lemma {:induction false} ChunksSpare(op: Op, key: Bytes, values: seq<Bytes>, size: nat)
    requires 0 < size <= 2 * CHUNK_SIZE
    ensures forall l :: l in Chunks(op, key, values, size) ==> |l| >= 2 && l[0] == Name(op) && l[1] == key
    decreases |values|
  {
    if values != [] { ChunksSpare(op, key, values[Min(size, |values|)..], size); }
  }

  lemma {:induction false} ListLinesSpare(lists: map<Bytes, seq<Bytes>>, keys: seq<Bytes>, key: Bytes)
    requires key !in keys && forall k :: k in keys ==> k in lists
    ensures forall l :: l in ListLines(lists, keys) ==> SparesList(l, key)
  {
    if keys != [] {
      ChunksSpare(RPUSH, keys[0], lists[keys[0]], CHUNK_SIZE);
      ListLinesSpare(lists, keys[1..], key);
    }
  }

  lemma {:induction false} HashLinesSpare(hashes: map<Bytes, Hash>, keys: seq<Bytes>, fields: map<Bytes, seq<Bytes>>,
                                          key: Bytes)
    requires FieldsOf(hashes, keys, fields)
    ensures forall l :: l in HashLines(hashes, keys, fields) ==> SparesList(l, key)
    ensures key !in keys ==> forall l :: l in HashLines(hashes, keys, fields) ==> SparesHash(l, key)
  {
    if keys != [] {
      ChunksSpare(HSET, keys[0], Pairs(hashes[keys[0]], fields[keys[0]]), 2 * CHUNK_SIZE);
      FieldsOfRest(hashes, keys, fields);
      HashLinesSpare(hashes, keys[1..], fields, key);
    }
  }

  // ----- without room something is missing

  /** Without room for the lists in their order, one of them comes back too short. */
  lemma {:induction false} ListsShort(st: State, lists: map<Bytes, seq<Bytes>>, keys: seq<Bytes>, at: int)
    returns (k: Bytes)
    requires Enumerates(keys, ToSet(keys))
    requires forall k :: k in keys ==> k in lists && lists[k] != [] && k !in st.lists
    requires !Room(st.maxMemory, Memory(st), lists, SumLen, LongList, keys)
    ensures k in keys && ListAt(ReplayLines(st, ListLines(lists, keys), at), k) != lists[k]
    decreases |keys|
  {
    hide Chunks, ReplayLines, Enumerates, ToSet, Memory, SumLen, Fits, ChunkNeed, PushedRight, LongList, SparesList,
      ListAt;
    k := keys[0];
    var rest := keys[1..];
    RestEnumerates(keys);
    MembersOfRest(keys);
    ListPut(st, k, lists[k]);
    ListFits(st, k, lists[k]);
    NoListYet(st, k);
    ReplayAppend(st, Chunks(RPUSH, k, lists[k], CHUNK_SIZE), ListLines(lists, rest), at);
    if Fits(st, ChunkNeed(false, k, lists[k], CHUNK_SIZE)) {
      OneList(st, k, lists[k]);
      ReplayPushes(st, k, lists[k], CHUNK_SIZE, at);
      k := ListsShort(st.(lists := st.lists[k := lists[k]]), lists, rest, at);
    } else {
      PushesShort(st, k, lists[k], at);
      ListLinesSpare(lists, rest, k);
      LinesSpareList(ReplayLines(st, Chunks(RPUSH, k, lists[k], CHUNK_SIZE), at), ListLines(lists, rest), k, at);
    }
  }

  lemma NoListYet(st: State, key: Bytes)
    ensures key !in st.lists ==> ListAt(st, key) == []
    ensures key !in st.hashes ==> HashAt(st, key) == map[]
  {
  }

  /** Without room for the hashes in their order, one of them comes back too small. */
  lemma {:induction false} HashesShort(st: State, hashes: map<Bytes, Hash>, keys: seq<Bytes>,
                                       fields: map<Bytes, seq<Bytes>>, at: int) returns (k: Bytes)
    requires Enumerates(keys, ToSet(keys))
    requires forall k :: k in keys ==> k in hashes && hashes[k] != map[] && k !in st.hashes
    requires forall k :: k in keys ==> k in fields && Enumerates(fields[k], hashes[k].Keys)
    requires FieldsOf(hashes, keys, fields)
    requires !Room(st.maxMemory, Memory(st), hashes, HashLen, LongHash, keys)
    ensures k in keys && HashAt(ReplayLines(st, HashLines(hashes, keys, fields), at), k) != hashes[k]
    decreases |keys|
  {
    hide Chunks, ReplayLines, Enumerates, ToSet, Memory, HashLen, Fits, ChunkNeed, FieldsSet, FieldsOf, Pairs,
      SetFields, LongHash, SparesHash, HashAt, FreshPairs;
    k := keys[0];
    var rest := keys[1..];
    FieldsOfRest(hashes, keys, fields);
    var pairs := Pairs(hashes[k], fields[k]);
    RestEnumerates(keys);
    MembersOfRest(keys);
    HashPut(st, k, hashes[k]);
    HashFits(st, k, hashes[k], fields[k]);
    NoListYet(st, k);
    OneHash(st, k, hashes[k], fields[k]);
    ReplayAppend(st, Chunks(HSET, k, pairs, 2 * CHUNK_SIZE), HashLines(hashes, rest, fields), at);
    if Fits(st, ChunkNeed(false, k, pairs, 2 * CHUNK_SIZE)) {
      ReplayHSets(st, k, pairs, at);
      k := HashesShort(st.(hashes := st.hashes[k := hashes[k]]), hashes, rest, fields, at);
    } else {
      WholeHashIsFresh(hashes[k], fields[k]);
      HSetsShort(st, k, pairs, at);
      HashLinesSpare(hashes, rest, fields, k);
      var after := ReplayLines(st, Chunks(HSET, k, pairs, 2 * CHUNK_SIZE), at);
      LinesSpareHash(after, HashLines(hashes, rest, fields), k, at);
    }
  }

  lemma WholeHashIsFresh(h: Hash, fields: seq<Bytes>)
    requires Enumerates(fields, h.Keys) && forall f :: f in fields ==> f in h
    ensures FreshPairs(map[], Pairs(h, fields)) && |Pairs(h, fields)| / 2 == |h|
  {
    hide FreshPairs, Pairs;
    FreshOfHash(map[], h, fields);
    PairsLength(h, h, fields);
  }

  // ----- the room a snapshot needs, in numbers

  /** The bytes of some keys and of what they hold. */
  ghost function BytesOf<V>(m: map<Bytes, V>, w: V -> nat, keys: seq<Bytes>): nat
    requires forall k :: k in keys ==> k in m
  {
    if keys == [] then 0 else |keys[0]| + w(m[keys[0]]) + BytesOf(m, w, keys[1..])
  }

  /** Each key of a value of several chunks fits once more on top of the values
      up to and including its own. */
  ghost predicate RoomForKeys<V>(ceiling: int, used: nat, m: map<Bytes, V>, w: V -> nat, long: V -> bool,
                                 keys: seq<Bytes>)
    requires forall k :: k in keys ==> k in m
  {
    forall i :: 0 <= i < |keys| && long(m[keys[i]]) ==>
      Within(ceiling, used + BytesOf(m, w, keys[..i + 1]) + |keys[i]|)
  }

  lemma {:induction false} BytesOfPrefix<V>(m: map<Bytes, V>, w: V -> nat, keys: seq<Bytes>, n: nat)
    requires n <= |keys| && forall k :: k in keys ==> k in m
    ensures BytesOf(m, w, keys[..n]) <= BytesOf(m, w, keys)
  {
    if n > 0 {
      assert keys[..n][1..] == keys[1..][..n - 1];
      BytesOfPrefix(m, w, keys[1..], n - 1);
    }
  }

  /** When the bytes themselves fit, only the repeated keys matter. */
  lemma {:induction false} RoomIsForKeys<V>(ceiling: int, used: nat, m: map<Bytes, V>, w: V -> nat, long: V -> bool,
                                            keys: seq<Bytes>)
    requires forall k :: k in keys ==> k in m
    requires Within(ceiling, used + BytesOf(m, w, keys))
    ensures Room(ceiling, used, m, w, long, keys) <==> RoomForKeys(ceiling, used, m, w, long, keys)
    decreases |keys|
  {
    if keys != [] {
      var k, rest := keys[0], keys[1..];
      var after := used + |k| + w(m[k]);
      RoomIsForKeys(ceiling, after, m, w, long, rest);
      FirstKeyRoom(ceiling, used, m, w, long, keys);
    }
  }

  lemma FirstKeyRoom<V>(ceiling: int, used: nat, m: map<Bytes, V>, w: V -> nat, long: V -> bool, keys: seq<Bytes>)
    requires keys != [] && forall k :: k in keys ==> k in m
    ensures var after := used + |keys[0]| + w(m[keys[0]]);
      RoomForKeys(ceiling, used, m, w, long, keys)
      <==> (long(m[keys[0]]) ==> Within(ceiling, after + |keys[0]|))
           && RoomForKeys(ceiling, after, m, w, long, keys[1..])
  {
    var rest := keys[1..];
    var after := used + |keys[0]| + w(m[keys[0]]);
    assert keys[..1][1..] == [];
    forall i | 0 <= i < |rest|
      ensures used + BytesOf(m, w, keys[..i + 2]) == after + BytesOf(m, w, rest[..i + 1]) && keys[i + 1] == rest[i]
    {
      assert keys[..i + 2][1..] == rest[..i + 1];
    }
    if RoomForKeys(ceiling, used, m, w, long, keys) {
      assert keys[..0 + 1] == keys[..1];
      forall i | 0 <= i < |rest| && long(m[rest[i]])
        ensures Within(ceiling, after + BytesOf(m, w, rest[..i + 1]) + |rest[i]|)
      {
        assert long(m[keys[i + 1]]) && keys[..i + 2] == keys[..(i + 1) + 1];
      }
    }
    if (long(m[keys[0]]) ==> Within(ceiling, after + |keys[0]|)) && RoomForKeys(ceiling, after, m, w, long, rest) {
      forall i | 0 <= i < |keys| && long(m[keys[i]])
        ensures Within(ceiling, used + BytesOf(m, w, keys[..i + 1]) + |keys[i]|)
      {
        if i > 0 { assert long(m[rest[i - 1]]) && keys[..(i - 1) + 2] == keys[..i + 1]; }
      }
    }
  }

  lemma {:induction false} BytesOfDistinct<V>(m: map<Bytes, V>, w: V -> nat, keys: seq<Bytes>)
    requires Enumerates(keys, ToSet(keys)) && forall k :: k in keys ==> k in m
    ensures BytesOf(m, w, keys) == Total(Picked(m, ToSet(keys)), w)
  {
    if keys == [] {
      assert Picked(m, ToSet(keys)) == map[];
      TotalEmpty(w);
    } else {
      var k, rest := keys[0], keys[1..];
      RestEnumerates(keys);
      BytesOfDistinct(m, w, rest);
      TotalPut(Picked(m, ToSet(rest)), w, k, m[k]);
      assert Picked(m, ToSet(keys)) == Picked(m, ToSet(rest))[k := m[k]];
    }
  }

  lemma BytesOfAll<V>(m: map<Bytes, V>, w: V -> nat, keys: seq<Bytes>)
    requires Enumerates(keys, m.Keys) && forall k :: k in keys ==> k in m
    ensures BytesOf(m, w, keys) == Total(m, w)
  {
    BytesOfDistinct(m, w, keys);
    assert Picked(m, m.Keys) == m;
  }

  /** The bytes of the strings that come back. */
  ghost function StringBytes(snap: State, now: int, at: int): nat {
    Total(RestoredOn(snap.data, snap.data.Keys, now, at), EntryLen)
  }

  lemma PartBytes(snap: State, now: int, at: int, ceiling: int)
    ensures var st, s := StringsOnly(snap, now, at, ceiling), StringBytes(snap, now, at);
      && Memory(st) == s && Memory(st.(lists := snap.lists)) == s + Total(snap.lists, SumLen)
      && s + Total(snap.lists, SumLen) + Total(snap.hashes, HashLen) <= Memory(snap)
  {
    StringsOnlyLess(snap, now, at, ceiling);
    TotalEmpty(SumLen);
    TotalEmpty(HashLen);
    hide Total, RestoredOn, Tracked;
    assert StringsOnly(snap, now, at, ceiling).data == RestoredOn(snap.data, snap.data.Keys, now, at);
  }

  /** Where the headroom must be, for one order of iteration. The key of a list of
      several chunks has to fit once more on top of the strings and the lists up
      to it, that of a hash on top of the strings, all lists and the hashes up to
      it. */
  ghost predicate RoomInOrder(snap: State, o: Order, now: int, at: int, ceiling: int)
    requires ValidOrder(o, snap)
  {
    OrderMembers(o, snap);
    var s := StringBytes(snap, now, at);
    && RoomForKeys(ceiling, s, snap.lists, SumLen, LongList, o.lists)
    && RoomForKeys(ceiling, s + Total(snap.lists, SumLen), snap.hashes, HashLen, LongHash, o.hashes)
  }

  /** The same in terms of the checks the replay makes. */
  lemma RoomInOrderIsRoom(snap: State, o: Order, now: int, at: int, ceiling: int)
    requires ValidOrder(o, snap) && Within(ceiling, Memory(snap))
    ensures forall k :: k in o.lists ==> k in snap.lists
    ensures forall k :: k in o.hashes ==> k in snap.hashes
    ensures var st := StringsOnly(snap, now, at, ceiling);
      && Within(ceiling, Memory(st))
      && (RoomInOrder(snap, o, now, at, ceiling)
          <==> Room(ceiling, Memory(st), snap.lists, SumLen, LongList, o.lists)
               && Room(ceiling, Memory(st.(lists := snap.lists)), snap.hashes, HashLen, LongHash, o.hashes))
  {
    hide Memory, Room, RoomForKeys, StringsOnly, Total, StringBytes, SumLen, HashLen, LongList, LongHash, Enumerates,
      FieldsOf;
    var s := StringBytes(snap, now, at);
    OrderMembers(o, snap);
    PartBytes(snap, now, at, ceiling);
    BytesOfAll(snap.lists, SumLen, o.lists);
    BytesOfAll(snap.hashes, HashLen, o.hashes);
    RoomIsForKeys(ceiling, s, snap.lists, SumLen, LongList, o.lists);
    RoomIsForKeys(ceiling, s + Total(snap.lists, SumLen), snap.hashes, HashLen, LongHash, o.hashes);
  }

  // ----- serialise, then replay

  /** The compacted log of a snapshot, written at clock `now` and replayed at clock
      `at` under a ceiling, rebuilds it. */
  ghost predicate ComesBack(snap: State, o: Order, now: int, at: int, ceiling: int)
    requires ValidOrder(o, snap)
  {
    ReplayLines(Empty(ceiling), SnapshotLines(snap, o, now), at) == Rebuilt(snap, now, at).(maxMemory := ceiling)
  }

  /** Exactly when a compacted log brings everything back. For every consistent
      store within its ceiling, and every order in which its maps are iterated,
      the replay under that ceiling rebuilds the lists in order, the hashes and
      every string not yet due if and only if each repeated key finds room. */
  lemma RoundTripExactly(snap: State, o: Order, now: int, at: int, ceiling: int)
    requires Consistent(snap) && ValidOrder(o, snap) && Within(ceiling, Memory(snap))
    ensures ComesBack(snap, o, now, at, ceiling) <==> RoomInOrder(snap, o, now, at, ceiling)
  {
    hide ReplayLines, ListLines, HashLines, StringsOnly, Rebuilt, Memory, Room, RoomInOrder, Consistent, Enumerates,
      FieldsOf, SnapshotLines;
    RoomInOrderIsRoom(snap, o, now, at, ceiling);
    ReplayParts(snap, o, now, at, ceiling);
    PartsMakeWhole(snap, now, at, ceiling);
    OrderMembers(o, snap);
    var st := StringsOnly(snap, now, at, ceiling);
    if !Room(ceiling, Memory(st), snap.lists, SumLen, LongList, o.lists) {
      MissingList(snap, st, o, at);
    } else {
      ReplayAllLists(snap, st, o.lists, at);
      if !Room(ceiling, Memory(st.(lists := snap.lists)), snap.hashes, HashLen, LongHash, o.hashes) {
        MissingHash(snap, st.(lists := snap.lists), o, at);
      } else {
        ReplayAllHashes(snap, st.(lists := snap.lists), o.hashes, o.fields, at);
      }
    }
  }

  lemma MissingList(snap: State, st: State, o: Order, at: int)
    requires Consistent(snap) && ValidOrder(o, snap) && st.lists == map[]
    requires (forall k :: k in o.lists ==> k in snap.lists) && FieldsOf(snap.hashes, o.hashes, o.fields)
    requires !Room(st.maxMemory, Memory(st), snap.lists, SumLen, LongList, o.lists)
    ensures ReplayLines(ReplayLines(st, ListLines(snap.lists, o.lists), at),
                        HashLines(snap.hashes, o.hashes, o.fields), at).lists != snap.lists
  {
    hide ReplayLines, ListLines, HashLines, Memory, Room, FieldsOf, SparesList;
    var k := ListsShort(st, snap.lists, o.lists, at);
    HashLinesSpare(snap.hashes, o.hashes, o.fields, k);
    var after := ReplayLines(st, ListLines(snap.lists, o.lists), at);
    LinesSpareList(after, HashLines(snap.hashes, o.hashes, o.fields), k, at);
  }

  lemma MissingHash(snap: State, st: State, o: Order, at: int)
    requires Consistent(snap) && ValidOrder(o, snap) && st.hashes == map[]
    requires (forall k :: k in o.hashes ==> k in snap.hashes && Enumerates(o.fields[k], snap.hashes[k].Keys))
    requires FieldsOf(snap.hashes, o.hashes, o.fields)
    requires !Room(st.maxMemory, Memory(st), snap.hashes, HashLen, LongHash, o.hashes)
    ensures ReplayLines(st, HashLines(snap.hashes, o.hashes, o.fields), at).hashes != snap.hashes
  {
    hide ReplayLines, HashLines, Memory, Room, FieldsOf;
    var k := HashesShort(st, snap.hashes, o.hashes, o.fields, at);
  }

  /** The ceiling, if there is one, allows what the store holds, and the key of
      any list or hash that needs more than one chunk once more. */
  ghost predicate Roomy(snap: State, ceiling: int) {
    && Within(ceiling, Memory(snap))
    && (forall k :: k in snap.lists && LongList(snap.lists[k]) ==> Within(ceiling, Memory(snap) + |k|))
    && (forall k :: k in snap.hashes && LongHash(snap.hashes[k]) ==> Within(ceiling, Memory(snap) + |k|))
  }

  /** Serialise, then replay. For every consistent store, every order in which
      its maps are iterated and every ceiling with room for one more copy of a
      chunked key, no command of the compacted log is refused, and it rebuilds
      the same lists in order, the same hashes, and every string not yet due. */
  lemma SnapshotRoundTrip(snap: State, o: Order, now: int, at: int, ceiling: int)
    requires Consistent(snap) && ValidOrder(o, snap) && Roomy(snap, ceiling)
    ensures ComesBack(snap, o, now, at, ceiling)
  {
    hide ReplayLines, SnapshotLines, Rebuilt, Memory, Total, StringBytes, Consistent, Enumerates, LongList, LongHash,
      RoomForKeys, FieldsOf, ComesBack;
    RoundTripExactly(snap, o, now, at, ceiling);
    OrderMembers(o, snap);
    PartBytes(snap, now, at, ceiling);
    AllKeysRoom(ceiling, StringBytes(snap, now, at), snap.lists, SumLen, LongList, o.lists, Memory(snap));
    AllKeysRoom(ceiling, StringBytes(snap, now, at) + Total(snap.lists, SumLen), snap.hashes, HashLen, LongHash,
                o.hashes, Memory(snap));
  }

  lemma AllKeysRoom<V>(ceiling: int, used: nat, m: map<Bytes, V>, w: V -> nat, long: V -> bool, keys: seq<Bytes>,
                       all: nat)
    requires Enumerates(keys, m.Keys) && forall k :: k in keys ==> k in m
    requires used + Total(m, w) <= all
    requires forall k :: k in m && long(m[k]) ==> Within(ceiling, all + |k|)
    ensures RoomForKeys(ceiling, used, m, w, long, keys)
  {
    BytesOfAll(m, w, keys);
    forall n | 0 <= n <= |keys| ensures BytesOf(m, w, keys[..n]) <= Total(m, w) {
      BytesOfPrefix(m, w, keys, n);
    }
    assert forall i :: 0 <= i < |keys| ==> keys[i] in m;
    hide Enumerates, Total;
  }

  /** Without deadlines the rebuilt store is exactly the original. */
  lemma ExactRoundTrip(snap: State, o: Order, now: int, at: int)
    requires Consistent(snap) && ValidOrder(o, snap) && NoDeadlines(snap)
    ensures ReplayLines(Empty(0), SnapshotLines(snap, o, now), at) == snap.(maxMemory := 0)
  {
    hide ReplayLines, SnapshotLines, Memory, ValidOrder;
    SnapshotRoundTrip(snap, o, now, at, 0);
    RestoredAll(snap, now, at);
  }

  // ----- in whatever order the maps are iterated

  /** The headroom that does for every order: lists never see the bytes of a hash. */
  ghost predicate RoomInEveryOrder(snap: State, now: int, at: int, ceiling: int) {
    var lists := StringBytes(snap, now, at) + Total(snap.lists, SumLen);
    && (forall k :: k in snap.lists && LongList(snap.lists[k]) ==> Within(ceiling, lists + |k|))
    && (forall k :: k in snap.hashes && LongHash(snap.hashes[k]) ==>
          Within(ceiling, lists + Total(snap.hashes, HashLen) + |k|))
  }

  ghost function SomeOrder(keys: set<Bytes>): (s: seq<Bytes>)
    ensures Enumerates(s, keys) && forall k :: k in s <==> k in keys
  {
    if keys == {} then []
    else
      var k :| k in keys;
      OneLast(SomeOrder(keys - {k}), keys, k);
      SomeOrder(keys - {k}) + [k]
  }

  lemma OneLast(s: seq<Bytes>, keys: set<Bytes>, k: Bytes)
    requires k in keys && Enumerates(s, keys - {k}) && forall x :: x in s <==> x in keys - {k}
    ensures Enumerates(s + [k], keys) && forall x :: x in s + [k] <==> x in keys
  {
  }

  ghost function WithLast(keys: set<Bytes>, k: Bytes): (s: seq<Bytes>)
    requires k in keys
    ensures Enumerates(s, keys) && s != [] && s[|s| - 1] == k
  {
    OneLast(SomeOrder(keys - {k}), keys, k);
    SomeOrder(keys - {k}) + [k]
  }

  ghost function OrderOf(snap: State, lists: seq<Bytes>, hashes: seq<Bytes>): (o: Order)
    requires Enumerates(lists, snap.lists.Keys) && Enumerates(hashes, snap.hashes.Keys)
    ensures ValidOrder(o, snap)
  {
    Order(SomeOrder(snap.data.Keys), lists, hashes, map k | k in snap.hashes :: SomeOrder(snap.hashes[k].Keys))
  }

  /** A key visited last has to fit on top of everything. */
  lemma LastKeyRoom<V>(ceiling: int, used: nat, m: map<Bytes, V>, w: V -> nat, long: V -> bool, keys: seq<Bytes>)
    requires Enumerates(keys, m.Keys) && keys != [] && forall k :: k in keys ==> k in m
    requires RoomForKeys(ceiling, used, m, w, long, keys)
    ensures var k := keys[|keys| - 1]; long(m[k]) ==> Within(ceiling, used + Total(m, w) + |k|)
  {
    BytesOfAll(m, w, keys);
    assert keys[..|keys| - 1 + 1] == keys;
  }

  /** Map iteration order is not up to the caller. A store within its ceiling
      comes back whatever the order if and only if each key of a list of several
      chunks fits once more on top of the strings and lists, and each key of such
      a hash on top of everything. */
  lemma EveryOrderExactly(snap: State, now: int, at: int, ceiling: int)
    requires Consistent(snap) && Within(ceiling, Memory(snap))
    ensures (forall o :: ValidOrder(o, snap) ==> ComesBack(snap, o, now, at, ceiling))
      <==> RoomInEveryOrder(snap, now, at, ceiling)
  {
    hide ComesBack, RoomInOrder, RoomInEveryOrder, Consistent, Memory, ValidOrder;
    if RoomInEveryOrder(snap, now, at, ceiling) {
      forall o | ValidOrder(o, snap) ensures ComesBack(snap, o, now, at, ceiling) {
        RoundTripExactly(snap, o, now, at, ceiling);
        EveryOrderHasRoom(snap, o, now, at, ceiling);
      }
    } else {
      var o := TightOrder(snap, now, at, ceiling);
      RoundTripExactly(snap, o, now, at, ceiling);
    }
  }

  lemma EveryOrderHasRoom(snap: State, o: Order, now: int, at: int, ceiling: int)
    requires ValidOrder(o, snap) && RoomInEveryOrder(snap, now, at, ceiling)
    ensures RoomInOrder(snap, o, now, at, ceiling)
  {
    hide Memory, Total, StringBytes, Enumerates, LongList, LongHash, RoomForKeys, FieldsOf;
    OrderMembers(o, snap);
    var s, lists := StringBytes(snap, now, at), Total(snap.lists, SumLen);
    AllKeysRoom(ceiling, s, snap.lists, SumLen, LongList, o.lists, s + lists);
    AllKeysRoom(ceiling, s + lists, snap.hashes, HashLen, LongHash, o.hashes, s + lists + Total(snap.hashes, HashLen));
  }

  /** Without that room some order loses something: the one that leaves the tight key to the end. */
  lemma TightOrder(snap: State, now: int, at: int, ceiling: int) returns (o: Order)
    requires !RoomInEveryOrder(snap, now, at, ceiling)
    ensures ValidOrder(o, snap) && !RoomInOrder(snap, o, now, at, ceiling)
  {
    hide Memory, Total, StringBytes, LongList, LongHash, RoomInOrder, ValidOrder;
    var lists := StringBytes(snap, now, at) + Total(snap.lists, SumLen);
    if k :| k in snap.lists && LongList(snap.lists[k]) && !Within(ceiling, lists + |k|) {
      o := TightList(snap, now, at, ceiling, k);
    } else {
      var k :| k in snap.hashes && LongHash(snap.hashes[k])
               && !Within(ceiling, lists + Total(snap.hashes, HashLen) + |k|);
      o := TightHash(snap, now, at, ceiling, k);
    }
  }

  lemma TightList(snap: State, now: int, at: int, ceiling: int, k: Bytes) returns (o: Order)
    requires k in snap.lists && LongList(snap.lists[k])
    requires !Within(ceiling, StringBytes(snap, now, at) + Total(snap.lists, SumLen) + |k|)
    ensures ValidOrder(o, snap) && !RoomInOrder(snap, o, now, at, ceiling)
  {
    hide Total, StringBytes, Enumerates, LongList, LongHash, RoomForKeys, FieldsOf, ValidOrder, SumLen, HashLen;
    o := OrderOf(snap, WithLast(snap.lists.Keys, k), SomeOrder(snap.hashes.Keys));
    OrderMembers(o, snap);
    var s := StringBytes(snap, now, at);
    if RoomForKeys(ceiling, s, snap.lists, SumLen, LongList, o.lists) {
      LastKeyRoom(ceiling, s, snap.lists, SumLen, LongList, o.lists);
    }
  }

  lemma TightHash(snap: State, now: int, at: int, ceiling: int, k: Bytes) returns (o: Order)
    requires k in snap.hashes && LongHash(snap.hashes[k])
    requires var lists := StringBytes(snap, now, at) + Total(snap.lists, SumLen);
      !Within(ceiling, lists + Total(snap.hashes, HashLen) + |k|)
    ensures ValidOrder(o, snap) && !RoomInOrder(snap, o, now, at, ceiling)
  {
    hide Total, StringBytes, Enumerates, LongList, LongHash, RoomForKeys, FieldsOf, ValidOrder, SumLen, HashLen;
    o := OrderOf(snap, SomeOrder(snap.lists.Keys), WithLast(snap.hashes.Keys, k));
    OrderMembers(o, snap);
    var used := StringBytes(snap, now, at) + Total(snap.lists, SumLen);
    if RoomForKeys(ceiling, used, snap.hashes, HashLen, LongHash, o.hashes) {
      LastKeyRoom(ceiling, used, snap.hashes, HashLen, LongHash, o.hashes);
    }
  }

  // ----- stores a client can build that do not come back

  /** A store of one list, which every order writes alike. */
  ghost function OneListStore(key: Bytes, values: seq<Bytes>, ceiling: int): State {
    State(map[], map[key := values], map[], {}, ceiling)
  }

  ghost function OneHashStore(key: Bytes, h: Hash, ceiling: int): State {
    State(map[], map[], map[key := h], {}, ceiling)
  }

  lemma OneListUse(key: Bytes, values: seq<Bytes>, ceiling: int)
    ensures Memory(OneListStore(key, values, ceiling)) == |key| + SumLen(values)
    ensures Total(map[key := values], SumLen) == |key| + SumLen(values)
  {
    EmptyMemory(ceiling);
    TotalPut(map[], SumLen, key, values);
    TotalEmpty(SumLen);
  }

  lemma OneHashUse(key: Bytes, h: Hash, ceiling: int)
    ensures Memory(OneHashStore(key, h, ceiling)) == |key| + HashLen(h)
    ensures Total(map[key := h], HashLen) == |key| + HashLen(h)
  {
    EmptyMemory(ceiling);
    TotalPut(map[], HashLen, key, h);
    TotalEmpty(HashLen);
  }

  lemma NoStringBytes(snap: State, now: int, at: int)
    ensures snap.data == map[] ==> StringBytes(snap, now, at) == 0
  {
    if snap.data == map[] {
      assert RestoredOn(snap.data, snap.data.Keys, now, at) == map[];
      TotalEmpty(EntryLen);
    }
  }

  lemma OnlyOrder(keys: seq<Bytes>, k: Bytes)
    requires Enumerates(keys, {k})
    ensures keys == [k]
  {
    assert keys != [] by { assert k in {k}; }
    FirstField(keys, {k});
    NoOrder(keys[1..]);
  }

  lemma NoOrder(keys: seq<Bytes>)
    requires Enumerates(keys, {})
    ensures keys == []
  {
    assert keys != [] ==> keys[0] in ToSet(keys);
  }

  lemma OneBytes<V>(m: map<Bytes, V>, w: V -> nat, k: Bytes)
    requires k in m
    ensures BytesOf(m, w, [k]) == |k| + w(m[k])
  {
    assert [k][1..] == [];
  }

  /** A store that is one list comes back exactly when there is room for its key
      once more, or it needs one chunk only. */
  lemma OneListComesBack(key: Bytes, values: seq<Bytes>, o: Order, ceiling: int, now: int, at: int)
    requires values != [] && 0 < |key| + SumLen(values) <= ceiling
    requires ValidOrder(o, OneListStore(key, values, ceiling))
    ensures ComesBack(OneListStore(key, values, ceiling), o, now, at, ceiling)
      <==> (LongList(values) ==> Memory(OneListStore(key, values, ceiling)) + |key| <= ceiling)
  {
    hide ComesBack, Memory, SumLen, StringBytes, Total, LongList;
    var snap := OneListStore(key, values, ceiling);
    OneListUse(key, values, ceiling);
    NoStringBytes(snap, now, at);
    RoundTripExactly(snap, o, now, at, ceiling);
    OnlyOrder(o.lists, key);
    OneBytes(snap.lists, SumLen, key);
    OrderMembers(o, snap);
    assert [key][..0 + 1] == [key];
    NoOrder(o.hashes);
  }

  lemma OneHashComesBack(key: Bytes, h: Hash, o: Order, ceiling: int, now: int, at: int)
    requires h != map[] && 0 < |key| + HashLen(h) <= ceiling
    requires ValidOrder(o, OneHashStore(key, h, ceiling))
    ensures ComesBack(OneHashStore(key, h, ceiling), o, now, at, ceiling)
      <==> (LongHash(h) ==> Memory(OneHashStore(key, h, ceiling)) + |key| <= ceiling)
  {
    hide ComesBack, Memory, HashLen, StringBytes, Total, LongHash;
    var snap := OneHashStore(key, h, ceiling);
    OneHashUse(key, h, ceiling);
    NoStringBytes(snap, now, at);
    TotalEmpty(SumLen);
    RoundTripExactly(snap, o, now, at, ceiling);
    OnlyOrder(o.hashes, key);
    OneBytes(snap.hashes, HashLen, key);
    OrderMembers(o, snap);
    assert [key][..0 + 1] == [key];
    NoOrder(o.lists);
  }

  lemma {:induction false} EmptyValues(n: nat)
    ensures SumLen(seq(n, _ => "")) == 0
  {
    if n > 0 {
      assert seq(n, _ => "")[1..] == seq(n - 1, _ => "");
      EmptyValues(n - 1);
    }
  }

  /** One RPUSH of 501 empty values is accepted under a ceiling of one byte, and
      the list does not come back whole whatever the order. */
  lemma LongListLost(o: Order, now: int, at: int)
    requires ValidOrder(o, Handle(Empty(1), RPUSH, ["k"] + seq(501, _ => ""), now).state)
    ensures var h := Handle(Empty(1), RPUSH, ["k"] + seq(501, _ => ""), now);
      h.reply == Number(501) && Memory(h.state) == 1 && !ComesBack(h.state, o, now, at, 1)
  {
    hide Memory, SumLen, ComesBack;
    var values := seq(501, _ => "");
    EmptyValues(501);
    EmptyMemory(1);
    assert (["k"] + values)[1..] == values;
    assert [] + values == values;
    assert Handle(Empty(1), RPUSH, ["k"] + values, now).state == OneListStore("k", values, 1);
    OneListUse("k", values, 1);
    OneListComesBack("k", values, o, 1, now, at);
  }

  /** Pairs of a numbered field and an empty value. */
  function Numbered(from: Int, n: Int): (pairs: seq<Bytes>)
    requires from <= n
    ensures |pairs| == 2 * (n - from)
    decreases n - from
  {
    if from == n then [] else [Itoa(from), ""] + Numbered(from + 1, n)
  }

  lemma {:induction false} NumberedFresh(h: Hash, from: Int, n: Int)
    requires from <= n && forall i: Int :: from <= i < n ==> Itoa(i) !in h
    ensures FreshPairs(h, Numbered(from, n))
    decreases n - from
  {
    if from < n {
      var next := h[Itoa(from) := ""];
      forall i: Int | from + 1 <= i < n ensures Itoa(i) !in next {
        AtoiItoa(from);
        AtoiItoa(i);
      }
      hide Itoa;
      NumberedFresh(next, from + 1, n);
      assert Numbered(from, n)[2..] == Numbered(from + 1, n);
    }
  }

  /** HSET h 0 "" 1 "" and so on up to n fields. */
  function NumberedArgs(n: Int): seq<Bytes>
    requires n >= 0
  {
    ["h"] + Numbered(0, n)
  }

  ghost function NumberedCeiling(n: Int): nat
    requires n >= 0
  {
    1 + SumLen(Numbered(0, n))
  }

  /** One HSET of 501 new fields or more is accepted under a ceiling that just
      holds them, and the hash does not come back whole whatever the order. */
  lemma LongHashLost(n: Int, o: Order, now: int, at: int)
    requires n > CHUNK_SIZE
    requires ValidOrder(o, Handle(Empty(NumberedCeiling(n)), HSET, NumberedArgs(n), now).state)
    ensures var c := NumberedCeiling(n);
      var h := Handle(Empty(c), HSET, NumberedArgs(n), now);
      h.reply == Number(n) && Memory(h.state) == c && !ComesBack(h.state, o, now, at, c)
  {
    hide Memory, HashLen, ComesBack, NumberedArgs, Handle, ValidOrder;
    var c := NumberedCeiling(n);
    var h := NumberedHash(n, now);
    hide NumberedCeiling;
    OneHashUse("h", h, c);
    OneHashComesBack("h", h, o, c, now, at);
  }

  lemma NumberedHash(n: Int, now: int) returns (h: Hash)
    requires n > 0
    ensures var handled := Handle(Empty(NumberedCeiling(n)), HSET, NumberedArgs(n), now);
      handled.state == OneHashStore("h", h, NumberedCeiling(n)) && handled.reply == Number(n)
    ensures |h| == n && HashLen(h) == NumberedCeiling(n) - 1
  {
    hide Memory, SumLen, HashLen, Numbered, SetFields, FreshPairs;
    var pairs := Numbered(0, n);
    EmptyMemory(NumberedCeiling(n));
    NoHashLength();
    NumberedFresh(map[], 0, n);
    FreshLength(map[], pairs);
    assert (["h"] + pairs)[1..] == pairs;
    h := SetFields(map[], pairs);
  }

  lemma NoHashLength()
    ensures HashLen(map[]) == 0
  {
    TotalEmpty(ValueLen);
  }

  /** Room for everything and the key again is not needed: lists are replayed
      before the bytes of any hash count. */
  lemma HashBytesComeLater(o: Order, now: int, at: int)
    requires ValidOrder(o, State(map[], map["k" := seq(501, _ => "")], map["h" := map["f" := "v"]], {}, 4))
    ensures var snap := State(map[], map["k" := seq(501, _ => "")], map["h" := map["f" := "v"]], {}, 4);
      Memory(snap) == 4 && !Roomy(snap, 4) && ComesBack(snap, o, now, at, 4)
  {
    hide Memory, SumLen, HashLen, StringBytes, Total, ComesBack, ValidOrder;
    var values := seq(501, _ => "");
    var h: Hash := map["f" := "v"];
    var snap := State(map[], map["k" := values], map["h" := h], {}, 4);
    EmptyValues(501);
    OneListUse("k", values, 4);
    OneFieldHash();
    HashPut(OneListStore("k", values, 4), "h", h);
    assert snap == OneListStore("k", values, 4).(hashes := OneListStore("k", values, 4).hashes["h" := h]);
    NoStringBytes(snap, now, at);
    assert |values| == 501 && "f" in h;
    assert Consistent(snap);
    EveryOrderExactly(snap, now, at, 4);
  }

  lemma OneFieldHash()
    ensures HashLen(map["f" := "v"]) == 2
  {
    var h: Hash := map["f" := "v"];
    OneFieldLength(h, "f");
    assert h - {"f"} == map[];
    TotalEmpty(ValueLen);
  }

  /** SET k 5 PX 1, compacted half a millisecond later and replayed at once, comes
      back without its deadline. */
  lemma BriefDeadlineLost(o: Order)
    requires ValidOrder(o, BriefStore(0))
    ensures Handle(Empty(0), SET, ["k", "5", "PX", Itoa(1)], 0).state == BriefStore(0)
    ensures ReplayLines(Empty(0), SnapshotLines(BriefStore(0), o, 500_000), 500_000)
      == State(map["k" := Entry("5", None)], map[], map[], {}, 0)
  {
    hide ReplayLines, SnapshotLines, Memory, ValidOrder, Handle;
    BriefSet(0);
    SnapshotRoundTrip(BriefStore(0), o, 500_000, 500_000, 0);
    var e := Entry("5", Some(MILLISECOND));
    assert Restored(e, 500_000, 500_000) == Some(Entry("5", None));
    assert RestoredOn(BriefStore(0).data, {"k"}, 500_000, 500_000) == map["k" := Entry("5", None)];
    assert BriefStore(0).data.Keys == {"k"};
  }
}
