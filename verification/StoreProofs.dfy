/** Facts about every reachable store: the expiry index is exact, no list or
    hash is empty, and the memory ceiling holds. */
module StoreProofs {
  import opened Basics
  import opened Strconv
  import opened Sums
  import opened StoreSpec
  import opened Commands

  lemma {:induction false} SetFieldsKeys(h: Hash, pairs: seq<Bytes>)
    ensures h.Keys <= SetFields(h, pairs).Keys
    ensures |pairs| >= 2 ==> pairs[0] in SetFields(h, pairs)
    decreases |pairs|
  {
    if |pairs| >= 2 {
      SetFieldsKeys(h[pairs[0] := pairs[1]], pairs[2..]);
    }
  }

  /** Every command, accepted or refused, keeps the store consistent. */
  lemma CommandKeepsConsistent(st: State, op: Op, args: seq<Bytes>, now: int)
    requires Consistent(st)
    ensures Consistent(ReplayEffect(st, op, args, now).state)
  {
    hide Fits, SetTTL, Counter, Atoi, SetFields, Reverse, SumLen, Wrap, Itoa;
    if op.SET? || op.DEL? || op.EXPIRE? || op.FLUSHALL? { return; }
    if op.INCR? || op.DECR? || op.INCRBY? || op.DECRBY? { return; }
    if op.HSET? && |args| >= 3 {
      SetFieldsKeys(HashAt(st, args[0]), args[1..]);
      return;
    }
  }

  /** So does dropping due strings, as reads and the sampler do. */
  lemma ReapKeepsConsistent(st: State, keys: set<Bytes>)
    requires Consistent(st)
    ensures Consistent(Reaped(st, keys))
  {
  }

  // ----- the memory ceiling

  lemma EntryAtMost(st: State, key: Bytes, e: Entry, tracked: set<Bytes>)
    ensures Memory(st.(data := st.data[key := e], expiryKeys := tracked)) <= Memory(st) + |key| + |e.value|
  {
    TotalPut(st.data, EntryLen, key, e);
  }

  lemma DeadlineSameMemory(st: State, key: Bytes, deadline: int)
    requires key in st.data
    ensures Memory(WithDeadline(st, key, deadline)) == Memory(st)
  {
    TotalPut(st.data, EntryLen, key, st.data[key].(expiresAt := Some(deadline)));
  }

  lemma {:induction false} SumLenReverse(s: seq<Bytes>)
    ensures SumLen(Reverse(s)) == SumLen(s)
  {
    if s != [] {
      SumLenReverse(s[1..]);
      SumLenAppend(Reverse(s[1..]), [s[0]]);
      assert [s[0]][1..] == [];
    }
  }

  lemma PushedLeftAtMost(st: State, key: Bytes, values: seq<Bytes>)
    ensures Memory(PushedLeft(st, key, values)) <= Memory(st) + |key| + SumLen(values)
  {
    SumLenAppend(Reverse(values), ListAt(st, key));
    SumLenReverse(values);
    TotalPut(st.lists, SumLen, key, Reverse(values) + ListAt(st, key));
  }

  lemma PushedRightAtMost(st: State, key: Bytes, values: seq<Bytes>)
    ensures Memory(PushedRight(st, key, values)) + (if key in st.lists then |key| else 0)
      == Memory(st) + |key| + SumLen(values)
  {
    SumLenAppend(ListAt(st, key), values);
    TotalPut(st.lists, SumLen, key, ListAt(st, key) + values);
  }

  /** Setting fields adds at most their length, repeated fields included. */
  lemma {:induction false} FieldsAtMost(h: Hash, pairs: seq<Bytes>)
    ensures HashLen(SetFields(h, pairs)) <= HashLen(h) + SumLen(pairs)
    decreases |pairs|
  {
    if |pairs| >= 2 {
      FieldsAtMost(h[pairs[0] := pairs[1]], pairs[2..]);
      TotalPut(h, ValueLen, pairs[0], pairs[1]);
      assert pairs[1..][1..] == pairs[2..];
    }
  }

  lemma FieldsSetAtMost(st: State, key: Bytes, pairs: seq<Bytes>)
    ensures Memory(FieldsSet(st, key, pairs)) + (if key in st.hashes then |key| else 0)
      <= Memory(st) + |key| + SumLen(pairs)
  {
    FieldsAtMost(HashAt(st, key), pairs);
    TotalPut(st.hashes, HashLen, key, SetFields(HashAt(st, key), pairs));
    TotalEmpty(ValueLen);
  }

  lemma RemovedAtMost(st: State, keys: set<Bytes>)
    ensures Memory(Removed(st, keys)) <= Memory(st)
    ensures Memory(Reaped(st, keys)) <= Memory(st)
  {
    TotalRemove(st.data, EntryLen, keys);
    TotalRemove(st.lists, SumLen, keys);
    TotalRemove(st.hashes, HashLen, keys);
  }

  lemma FieldsDeletedAtMost(st: State, key: Bytes, fields: set<Bytes>)
    ensures Memory(FieldsDeleted(st, key, fields)) <= Memory(st)
  {
    if key in st.hashes {
      TotalRemove(st.hashes[key], ValueLen, fields);
      TotalRemove(st.hashes, HashLen, {key});
      TotalPut(st.hashes, HashLen, key, st.hashes[key] - fields);
    }
  }

  ghost predicate UnderCeiling(st: State) {
    st.maxMemory > 0 ==> Memory(st) <= st.maxMemory
  }

  lemma SetUnderCeiling(st: State, args: seq<Bytes>, now: int)
    requires UnderCeiling(st)
    ensures UnderCeiling(ReplayEffect(st, SET, args, now).state)
  {
    if |args| >= 2 {
      var st' := ReplayEffect(st, SET, args, now).state;
      hide Memory, SetTTL;
      if st' != st { EntryAtMost(st, args[0], st'.data[args[0]], st'.expiryKeys); }
    }
  }

  lemma IncrUnderCeiling(st: State, key: Bytes, delta: Int, now: int)
    requires UnderCeiling(st)
    ensures UnderCeiling(IncrEffect(st, key, delta, now).state)
  {
    var st' := IncrEffect(st, key, delta, now).state;
    hide Memory, Counter;
    if st' != st { EntryAtMost(st, key, st'.data[key], st.expiryKeys); }
  }

  lemma CollectionUnderCeiling(st: State, op: Op, args: seq<Bytes>, now: int)
    requires op.LPUSH? || op.RPUSH? || op.HSET?
    requires UnderCeiling(st)
    ensures UnderCeiling(ReplayEffect(st, op, args, now).state)
  {
    RefusedChangesNothing(st, op, args, now);
    hide Memory, PushedLeft, PushedRight, FieldsSet, SumLen;
    if |args| >= 2 {
      if op.LPUSH? {
        PushedLeftAtMost(st, args[0], args[1..]);
      } else if op.RPUSH? {
        PushedRightAtMost(st, args[0], args[1..]);
      } else {
        FieldsSetAtMost(st, args[0], args[1..]);
      }
    }
  }

  /** No command takes the store over a positive ceiling: overwrites and
      repeated fields of one HSET are only ever over-counted by the check. */
  lemma CommandKeepsCeiling(st: State, op: Op, args: seq<Bytes>, now: int)
    requires UnderCeiling(st)
    ensures UnderCeiling(ReplayEffect(st, op, args, now).state)
    ensures ReplayEffect(st, op, args, now).state.maxMemory == st.maxMemory
    ensures !ReplayEffect(st, op, args, now).ok ==> ReplayEffect(st, op, args, now).state == st
  {
    RefusedChangesNothing(st, op, args, now);
    EmptyMemory(st.maxMemory);
    hide Memory;
    match op
    case SET => SetUnderCeiling(st, args, now);
    case INCR => if |args| == 1 { IncrUnderCeiling(st, args[0], 1, now); }
    case DECR => if |args| == 1 { IncrUnderCeiling(st, args[0], -1, now); }
    case INCRBY =>
      if |args| == 2 && Atoi(args[1]).Some? { IncrUnderCeiling(st, args[0], Atoi(args[1]).value, now); }
    case DECRBY =>
      if |args| == 2 && Atoi(args[1]).Some? { IncrUnderCeiling(st, args[0], Negate(Atoi(args[1]).value), now); }
    case EXPIRE =>
      if |args| == 2 && Atoi(args[1]).Some? && args[0] in st.data {
        DeadlineSameMemory(st, args[0], now + Wrap(Atoi(args[1]).value * SECOND));
      }
    case DEL => RemovedAtMost(st, ToSet(args));
    case HDEL => if |args| >= 2 { FieldsDeletedAtMost(st, args[0], ToSet(args[1..])); }
    case FLUSHALL =>
    case LPUSH => CollectionUnderCeiling(st, op, args, now);
    case RPUSH => CollectionUnderCeiling(st, op, args, now);
    case HSET => CollectionUnderCeiling(st, op, args, now);
  }

  lemma RefusedChangesNothing(st: State, op: Op, args: seq<Bytes>, now: int)
    ensures var r := ReplayEffect(st, op, args, now);
      r.state.maxMemory == st.maxMemory && (!r.ok ==> r.state == st)
  {
    hide Fits, SetTTL, Atoi, Counter, SumLen, SetFields, Reverse;
  }

  lemma EmptyMemory(maxMemory: int)
    ensures Memory(Empty(maxMemory)) == 0
  {
    TotalEmpty(EntryLen);
    TotalEmpty(SumLen);
    TotalEmpty(HashLen);
  }
}
