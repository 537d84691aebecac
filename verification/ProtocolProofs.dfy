/** In every run, at every step, the live file rebuilds the live store. */
module ProtocolProofs {
  import opened Basics
  import opened Strconv
  import opened StoreSpec
  import opened StoreProofs
  import opened Commands
  import opened Resp
  import opened RespProofs
  import opened Snapshot
  import opened SnapshotProofs
  import opened Compaction
  import opened Protocol

  // ----- one command on two stores that stand for each other

  ghost predicate Alike(a: State, b: State, at: int) {
    Same(a, b) && NoneDue(b, at)
  }

  lemma StoredAlike(a: State, b: State, key: Bytes, value: Bytes, ttl: int, now: int, at: int)
    requires Alike(a, b, at)
    ensures Alike(Stored(a, key, value, ttl, now), Stored(b, key, value, ttl, at), at)
  {
  }

  lemma CountedAlike(a: State, b: State, key: Bytes, n: Int, at: int)
    requires Alike(a, b, at)
    ensures Alike(Counted(a, key, n), Counted(b, key, n), at)
  {
  }

  lemma DeadlineAlike(a: State, b: State, key: Bytes, ttl: Int, now: int, at: int)
    requires Alike(a, b, at) && key in a.data
    requires NoneDue(WithDeadline(a, key, now + ttl), now)
    ensures Alike(WithDeadline(a, key, now + ttl), WithDeadline(b, key, at + ttl), at)
  {
    assert !Due(WithDeadline(a, key, now + ttl).data[key], now);
  }

  lemma SetAlike(a: State, b: State, args: seq<Bytes>, now: int, at: int)
    requires a.maxMemory <= 0 && b.maxMemory <= 0 && Alike(a, b, at)
    ensures Alike(ReplayEffect(a, SET, args, now).state, ReplayEffect(b, SET, args, at).state, at)
  {
    hide SetTTL, Stored, Alike;
    if |args| >= 2 && SetTTL(0, args[2..]).TTL? {
      StoredAlike(a, b, args[0], args[1], SetTTL(0, args[2..]).ttl, now, at);
    }
  }

  lemma ExpireAlike(a: State, b: State, args: seq<Bytes>, now: int, at: int)
    requires Alike(a, b, at) && NoneDue(ReplayEffect(a, EXPIRE, args, now).state, now)
    ensures Alike(ReplayEffect(a, EXPIRE, args, now).state, ReplayEffect(b, EXPIRE, args, at).state, at)
  {
    assert args != [] && args[0] in b.data ==> args[0] in a.data;
    assert args != [] && args[0] in a.data ==> args[0] in b.data;
    hide Atoi, Wrap, WithDeadline, Alike, NoneDue;
    if |args| == 2 && Atoi(args[1]).Some? && args[0] in a.data {
      DeadlineAlike(a, b, args[0], Wrap(Atoi(args[1]).value * SECOND), now, at);
    }
  }

  lemma CounterAlike(a: State, b: State, key: Bytes, now: int, at: int)
    requires Alike(a, b, at) && NoneDue(a, now)
    ensures Counter(a, key, now) == Counter(b, key, at)
  {
    hide Atoi;
  }

  lemma IncrAlike(a: State, b: State, key: Bytes, delta: Int, now: int, at: int)
    requires a.maxMemory <= 0 && b.maxMemory <= 0 && Alike(a, b, at) && NoneDue(a, now)
    ensures Alike(IncrEffect(a, key, delta, now).state, IncrEffect(b, key, delta, at).state, at)
  {
    hide Counter, Counted, Alike, NoneDue, Wrap, Itoa, Atoi, Memory;
    CounterAlike(a, b, key, now, at);
    if Counter(a, key, now).Some? {
      CountedAlike(a, b, key, Wrap(Counter(a, key, now).value + delta), at);
    }
  }

  lemma OtherCommandsAlike(a: State, b: State, op: Op, args: seq<Bytes>, now: int, at: int)
    requires !(op.SET? || op.EXPIRE? || op.INCR? || op.DECR? || op.INCRBY? || op.DECRBY?)
    requires a.maxMemory <= 0 && b.maxMemory <= 0 && Alike(a, b, at)
    ensures Alike(ReplayEffect(a, op, args, now).state, ReplayEffect(b, op, args, at).state, at)
  {
    hide SetTTL, Atoi, Negate, Memory, IncrEffect, WithDeadline, Reverse, SetFields;
    if op.DEL? || op.FLUSHALL? { return; }
    if op.LPUSH? || op.RPUSH? { return; }
  }

  /** A command that executes at its own clock on the live store does the same,
      up to deadlines, on a rebuilt one. */
  lemma CommandKeepsLike(a: State, b: State, op: Op, args: seq<Bytes>, now: int, at: int)
    requires a.maxMemory <= 0 && Like(a, b, at)
    requires NoneDue(a, now) && NoneDue(ReplayEffect(a, op, args, now).state, now)
    ensures Like(ReplayEffect(a, op, args, now).state, ReplayEffect(b, op, args, at).state, at)
  {
    CommandKeepsConsistent(b, op, args, at);
    CommandKeepsCeiling(b, op, args, at);
    hide Same, NoneDue, Consistent, Atoi, Negate, IncrEffect;
    match op
    case SET => SetAlike(a, b, args, now, at);
    case EXPIRE => ExpireAlike(a, b, args, now, at);
    case INCR => if |args| == 1 { IncrAlike(a, b, args[0], 1, now, at); }
    case DECR => if |args| == 1 { IncrAlike(a, b, args[0], -1, now, at); }
    case INCRBY =>
      if |args| == 2 && Atoi(args[1]).Some? { IncrAlike(a, b, args[0], Atoi(args[1]).value, now, at); }
    case DECRBY =>
      if |args| == 2 && Atoi(args[1]).Some? { IncrAlike(a, b, args[0], Negate(Atoi(args[1]).value), now, at); }
    case _ => OtherCommandsAlike(a, b, op, args, now, at);
  }

  /** The commands that do not look at a deadline need none to be ahead. */
  lemma BlindKeepsLike(a: State, b: State, op: Op, args: seq<Bytes>, now: int, at: int)
    requires a.maxMemory <= 0 && Like(a, b, at)
    requires !(op.EXPIRE? || op.INCR? || op.DECR? || op.INCRBY? || op.DECRBY?)
    ensures Like(ReplayEffect(a, op, args, now).state, ReplayEffect(b, op, args, at).state, at)
  {
    hide Same, NoneDue, Consistent, ReplayEffect;
    CommandKeepsConsistent(b, op, args, at);
    CommandKeepsCeiling(b, op, args, at);
    if op.SET? { SetAlike(a, b, args, now, at); } else { OtherCommandsAlike(a, b, op, args, now, at); }
  }

  // ----- the invariant

  ghost predicate Encodes(bytes: string, lines: seq<Line>) {
    NoneEmpty(lines) && bytes == EncodeLog(lines)
  }

  /** The commands mirrored since the snapshot take any store that stands for
      the snapshot to one that stands for the live store. */
  ghost predicate Mirrors(snap: State, mirrored: seq<Line>, store: State, at: int) {
    forall b :: Like(snap, b, at) ==> Like(store, ReplayLines(b, mirrored, at), at)
  }

  ghost predicate Rebuilds(lines: seq<Line>, store: State, at: int) {
    NoneEmpty(lines) && Like(store, ReplayLines(Empty(0), lines, at), at)
  }

  ghost predicate MirrorInv(s: Sys, snap: State, at: int)
    requires s.mark <= |s.history|
  {
    && s.aof.rewriting && Consistent(snap) && snap.maxMemory <= 0
    && Encodes(s.aof.rewriteBuf, s.history[s.mark..])
    && Mirrors(snap, s.history[s.mark..], s.store, at)
  }

  ghost predicate SwapInv(s: Sys, base: seq<Line>, tmp: string, at: int)
    requires s.mark <= |s.history|
  {
    Encodes(tmp, base + s.history[s.mark..]) && Rebuilds(base + s.history[s.mark..], s.store, at)
  }

  ghost predicate PhaseInv(s: Sys, at: int)
    requires s.mark <= |s.history|
  {
    match s.phase
    case Snapped(snap) => MirrorInv(s, snap, at)
    case Writing(snap, base, done, tmp) =>
      && MirrorInv(s, snap, at)
      && NoneEmpty(base) && done <= |base| && tmp == EncodeLog(base[..done])
      && Like(snap, ReplayLines(Empty(0), base, at), at)
    case Appended(base, tmp) => SwapInv(s, base, tmp.handed, at)
    case Flushed(base, tmp) => SwapInv(s, base, tmp.handed, at) && tmp.flushed == |tmp.handed|
    case TmpSynced(base, tmp) => SwapInv(s, base, tmp.handed, at) && tmp.durable == tmp.flushed == |tmp.handed|
    case LiveClosed(base, tmp) => SwapInv(s, base, tmp.handed, at) && tmp.durable == tmp.flushed == |tmp.handed|
    case _ => true
  }

  /** At every step: the live file is a whole log that rebuilds the live store;
      a rewrite holds the guard exactly while it runs; and what is needed to
      finish one rebuilds the live store as well. */
  ghost predicate Inv(s: Sys, at: int) {
    && s.store.maxMemory <= 0 && Consistent(s.store)
    && Encodes(s.aof.file, s.lines) && Rebuilds(s.lines, s.store, at)
    && s.aof.synced <= |s.aof.file| && (s.aof.always ==> s.aof.synced == |s.aof.file|)
    && (s.aof.running <==> s.phase != Idle)
    && (s.aof.rewriting ==> s.phase.Snapped? || s.phase.Writing? || s.phase.Failing?)
    && s.mark <= |s.history| && NoneEmpty(s.history)
    && PhaseInv(s, at)
  }

  // ----- a client's command

  lemma EncodesAppend(bytes: string, lines: seq<Line>, line: Line)
    requires Encodes(bytes, lines) && line != []
    ensures Encodes(bytes + EncodeArray(line), lines + [line])
  {
    EncodeLogAppend(lines, [line]);
    EncodeLogOne(line);
  }

  lemma ReplayOneMore(st: State, lines: seq<Line>, line: Line, at: int)
    requires line != []
    ensures ReplayLines(st, lines + [line], at) == ReplayLine(ReplayLines(st, lines, at), line, at).state
  {
    ReplayAppend(st, lines, [line], at);
    hide ReplayLine;
    assert [line][1..] == [];
  }

  /** The line a client's command logs does to a rebuilt store what the command
      did to the live one. */
  lemma LoggedKeepsLike(a: State, b: State, op: Op, args: Args, now: int, at: int)
    requires a.maxMemory <= 0 && Like(a, b, at)
    requires NoneDue(a, now) && NoneDue(Handle(a, op, args, now).state, now)
    requires Handle(a, op, args, now).logged.Some?
    ensures Like(Handle(a, op, args, now).state, ReplayLine(b, Logged(op, args), at).state, at)
  {
    hide Handle, Like, NoneDue, ReplayLine, ReplayEffect, LogLine;
    var logged := Handle(a, op, args, now).logged.value;
    LiveIsReplay(a, op, args, now);
    LoggedArguments(a, op, args, now);
    ReplayLogLine(a, op, logged, now);
    ReplayLogLine(b, op, logged, at);
    CommandKeepsLike(a, b, op, logged, now, at);
  }

  lemma LineIsNotEmpty(op: Op, args: Args)
    ensures Logged(op, args) != []
  {
  }

  lemma ClientKeepsRebuilds(lines: seq<Line>, a: State, op: Op, args: Args, now: int, at: int)
    requires a.maxMemory <= 0 && Rebuilds(lines, a, at)
    requires NoneDue(a, now) && NoneDue(Handle(a, op, args, now).state, now)
    requires Handle(a, op, args, now).logged.Some?
    ensures Rebuilds(lines + [Logged(op, args)], Handle(a, op, args, now).state, at)
  {
    LineIsNotEmpty(op, args);
    hide Handle, Like, NoneDue, ReplayLine, ReplayLines, Logged;
    LoggedKeepsLike(a, ReplayLines(Empty(0), lines, at), op, args, now, at);
    ReplayOneMore(Empty(0), lines, Logged(op, args), at);
  }

  lemma ClientKeepsMirrors(snap: State, mirrored: seq<Line>, a: State, op: Op, args: Args, now: int, at: int)
    requires a.maxMemory <= 0 && Mirrors(snap, mirrored, a, at)
    requires NoneDue(a, now) && NoneDue(Handle(a, op, args, now).state, now)
    requires Handle(a, op, args, now).logged.Some?
    ensures Mirrors(snap, mirrored + [Logged(op, args)], Handle(a, op, args, now).state, at)
  {
    LineIsNotEmpty(op, args);
    hide Handle, Like, NoneDue, ReplayLine, ReplayLines, Logged;
    forall b | Like(snap, b, at)
      ensures Like(Handle(a, op, args, now).state, ReplayLines(b, mirrored + [Logged(op, args)], at), at)
    {
      LoggedKeepsLike(a, ReplayLines(b, mirrored, at), op, args, now, at);
      ReplayOneMore(b, mirrored, Logged(op, args), at);
    }
  }

  lemma HandleKeepsStore(st: State, op: Op, args: seq<Bytes>, now: int)
    requires Consistent(st)
    ensures Consistent(Handle(st, op, args, now).state)
    ensures Handle(st, op, args, now).state.maxMemory == st.maxMemory
    ensures Handle(st, op, args, now).logged.None? ==> Handle(st, op, args, now).state == st
  {
    hide Handle, ReplayEffect, Consistent, ReplayLine;
    LiveIsReplay(st, op, args, now);
    CommandKeepsConsistent(st, op, args, now);
    RefusedChangesNothing(st, op, args, now);
  }

  /** A client's step either changes nothing or logs exactly one line. */
  lemma ClientStepCases(s: Sys, op: Op, args: Args, now: int)
    ensures var h := Handle(s.store, op, args, now);
      ClientStep(s, op, args, now) ==
        if h.logged.None? then s
        else s.(store := h.state, aof := LogTo(s.aof, Logged(op, args)),
                history := s.history + [Logged(op, args)], lines := s.lines + [Logged(op, args)])
  {
    HandleStores(s.store, op, args, now);
    hide Handle, LogTo, Logged;
    assert s.history + [] == s.history && s.lines + [] == s.lines;
  }

  lemma ClientKeepsPhase(s: Sys, op: Op, args: Args, now: int, at: int)
    requires s.store.maxMemory <= 0 && s.mark <= |s.history| && PhaseInv(s, at) && !s.phase.Locked()
    requires NoneDue(s.store, now) && NoneDue(Handle(s.store, op, args, now).state, now)
    ensures |ClientStep(s, op, args, now).history| >= s.mark == ClientStep(s, op, args, now).mark
    ensures PhaseInv(ClientStep(s, op, args, now), at)
  {
    ClientStepCases(s, op, args, now);
    hide Handle, ClientStep, Mirrors, Encodes, Consistent, Like, NoneDue, EncodeArray, ReplayLines, LogLine, EncodeLog;
    if Handle(s.store, op, args, now).logged.Some? && (s.phase.Snapped? || s.phase.Writing?) {
      var line, mirrored := Logged(op, args), s.history[s.mark..];
      LineIsNotEmpty(op, args);
      EncodesAppend(s.aof.rewriteBuf, mirrored, line);
      ClientKeepsMirrors(s.phase.snap, mirrored, s.store, op, args, now, at);
      assert (s.history + [line])[s.mark..] == mirrored + [line];
    }
  }

  lemma HandleStores(st: State, op: Op, args: seq<Bytes>, now: int)
    ensures Handle(st, op, args, now).logged.None? ==> Handle(st, op, args, now).state == st
  {
    hide Handle, ReplayEffect, ReplayLine;
    LiveIsReplay(st, op, args, now);
  }

  lemma ClientKeepsInv(s: Sys, op: Op, args: Args, now: int, at: int)
    requires Inv(s, at) && !s.phase.Locked()
    requires NoneDue(s.store, now) && NoneDue(Handle(s.store, op, args, now).state, now)
    ensures Inv(ClientStep(s, op, args, now), at)
  {
    hide Handle, ClientStep, PhaseInv, Encodes, Consistent, Rebuilds, NoneDue, EncodeArray, Logged;
    HandleKeepsStore(s.store, op, args, now);
    ClientKeepsPhase(s, op, args, now, at);
    ClientStepCases(s, op, args, now);
    if Handle(s.store, op, args, now).logged.Some? {
      LineIsNotEmpty(op, args);
      EncodesAppend(s.aof.file, s.lines, Logged(op, args));
      ClientKeepsRebuilds(s.lines, s.store, op, args, now, at);
    }
  }

  /** A client's command is executed, and what it logs is at the end of the file, of
      the mirror exactly while a rewrite collects it, and of the history, once each. */
  lemma ClientStepMeans(s: Sys, op: Op, args: Args, now: int)
    ensures var h, t := Handle(s.store, op, args, now), ClientStep(s, op, args, now);
      && t.store == h.state && t.phase == s.phase && t.mark == s.mark
      && if h.logged.None? then t == s.(store := h.state) else
           var line := [Name(op)] + h.logged.value;
           && |line| <= MAX_INT && t.history == s.history + [line] && t.lines == s.lines + [line]
           && t.aof.file == s.aof.file + EncodeArray(line)
           && t.aof.rewriteBuf == (if s.aof.rewriting then s.aof.rewriteBuf + EncodeArray(line) else s.aof.rewriteBuf)
           && t.aof.synced == (if s.aof.always then |t.aof.file| else s.aof.synced)
           && t.aof == s.aof.(file := t.aof.file, rewriteBuf := t.aof.rewriteBuf, synced := t.aof.synced)
  {
    hide Handle, EncodeArray, Name;
    LoggedArguments(s.store, op, args, now);
  }

  // ----- the rewrite's own steps

  /** What a snapshot is written as stands for it. */
  lemma FreshBase(snap: State, o: Order, now: int, at: int)
    requires Consistent(snap) && snap.maxMemory <= 0 && ValidOrder(o, snap) && AllAhead(snap, now)
    ensures Like(snap, ReplayLines(Empty(0), SnapshotLines(snap, o, now), at), at)
    ensures NoneEmpty(SnapshotLines(snap, o, now))
  {
    SnapshotRoundTrip(snap, o, now, at, 0);
    RebuiltIsLike(snap, now, at);
    SnapshotNoneEmpty(snap, o, now);
  }

  lemma RebuiltIsLike(snap: State, now: int, at: int)
    requires Consistent(snap) && snap.maxMemory <= 0 && AllAhead(snap, now)
    ensures Like(snap, Rebuilt(snap, now, at), at)
  {
    var strings := RestoredOn(snap.data, snap.data.Keys, now, at);
    forall k | k in snap.data
      ensures k in strings && strings[k].value == snap.data[k].value
      ensures strings[k].expiresAt.Some? <==> snap.data[k].expiresAt.Some?
      ensures !Due(strings[k], at)
    {
      if snap.data[k].expiresAt.Some? {
        assert RemainingMs(snap.data[k].expiresAt.value, now) > 0;
      }
    }
  }

  lemma {:induction false} ChunksNoneEmpty(op: Op, key: Bytes, values: seq<Bytes>, size: nat)
    requires 0 < size <= 2 * CHUNK_SIZE
    ensures NoneEmpty(Chunks(op, key, values, size))
    decreases |values|
  {
    if values != [] {
      ChunksNoneEmpty(op, key, values[Min(size, |values|)..], size);
    }
  }

  lemma {:induction false} StringLinesNoneEmpty(data: map<Bytes, Entry>, keys: seq<Bytes>, now: int)
    requires forall k :: k in keys ==> k in data
    ensures NoneEmpty(StringLines(data, keys, now))
    decreases |keys|
  {
    hide SetArgs;
    if keys != [] { StringLinesNoneEmpty(data, keys[1..], now); }
  }

  lemma {:induction false} ListLinesNoneEmpty(lists: map<Bytes, seq<Bytes>>, keys: seq<Bytes>)
    requires forall k :: k in keys ==> k in lists
    ensures NoneEmpty(ListLines(lists, keys))
    decreases |keys|
  {
    hide Chunks;
    if keys != [] {
      ChunksNoneEmpty(RPUSH, keys[0], lists[keys[0]], CHUNK_SIZE);
      ListLinesNoneEmpty(lists, keys[1..]);
    }
  }

  lemma {:induction false} HashLinesNoneEmpty(hashes: map<Bytes, Hash>, keys: seq<Bytes>,
                                              fields: map<Bytes, seq<Bytes>>)
    requires FieldsOf(hashes, keys, fields)
    ensures NoneEmpty(HashLines(hashes, keys, fields))
    decreases |keys|
  {
    hide Chunks, Pairs;
    if keys != [] {
      ChunksNoneEmpty(HSET, keys[0], Pairs(hashes[keys[0]], fields[keys[0]]), 2 * CHUNK_SIZE);
      HashLinesNoneEmpty(hashes, keys[1..], fields);
    }
  }

  lemma SnapshotNoneEmpty(snap: State, o: Order, now: int)
    requires ValidOrder(o, snap)
    ensures NoneEmpty(SnapshotLines(snap, o, now))
  {
    OrderMembers(o, snap);
    hide StringLines, ListLines, HashLines;
    StringLinesNoneEmpty(snap.data, o.strings, now);
    ListLinesNoneEmpty(snap.lists, o.lists);
    HashLinesNoneEmpty(snap.hashes, o.hashes, o.fields);
  }

  /** A step that only moves the rewrite to another phase. */
  lemma OnlyPhase(s: Sys, p: Phase, at: int)
    requires Inv(s, at) && s.phase != Idle && p != Idle
    requires s.aof.rewriting ==> p.Snapped? || p.Writing? || p.Failing?
    requires PhaseInv(s.(phase := p), at)
    ensures Inv(s.(phase := p), at)
  {
    hide PhaseInv, Encodes, Consistent, Rebuilds;
  }

  lemma TakeSnapshotKeepsInv(s: Sys, at: int)
    requires Inv(s, at) && s.phase.Entered?
    ensures Inv(Step(s, TakeSnapshot), at)
  {
    hide Rebuilds, Consistent, Like;
    assert s.history[|s.history|..] == [];
    assert forall b :: ReplayLines(b, [], at) == b;
  }

  lemma BeginKeepsPhase(s: Sys, o: Order, now: int, at: int)
    requires s.mark <= |s.history| && PhaseInv(s, at) && s.phase.Snapped?
    requires ValidOrder(o, s.phase.snap) && AllAhead(s.phase.snap, now)
    ensures PhaseInv(s.(phase := Writing(s.phase.snap, SnapshotLines(s.phase.snap, o, now), 0, "")), at)
  {
    FreshBase(s.phase.snap, o, now, at);
    hide Consistent, Like, Mirrors, Encodes, SnapshotLines, ReplayLines, ValidOrder, AllAhead;
    assert SnapshotLines(s.phase.snap, o, now)[..0] == [];
  }

  lemma BeginKeepsInv(s: Sys, o: Order, now: int, at: int)
    requires Inv(s, at) && s.phase.Snapped?
    requires ValidOrder(o, s.phase.snap) && AllAhead(s.phase.snap, now)
    ensures Inv(Step(s, Begin(o, now)), at)
  {
    hide Inv, PhaseInv, SnapshotLines, ValidOrder, AllAhead;
    assert s.mark <= |s.history| && PhaseInv(s, at) by { InvParts(s, at); }
    BeginKeepsPhase(s, o, now, at);
    OnlyPhase(s, Writing(s.phase.snap, SnapshotLines(s.phase.snap, o, now), 0, ""), at);
  }

  lemma InvParts(s: Sys, at: int)
    requires Inv(s, at)
    ensures s.mark <= |s.history| && PhaseInv(s, at)
  {
  }

  lemma WriteNextKeepsPhase(s: Sys, at: int)
    requires s.mark <= |s.history| && PhaseInv(s, at) && s.phase.Writing? && s.phase.done < |s.phase.base|
    ensures var p := s.phase;
      PhaseInv(s.(phase := p.(done := p.done + 1, tmp := p.tmp + EncodeArray(p.base[p.done]))), at)
  {
    var base, done := s.phase.base, s.phase.done;
    assert base[..done + 1] == base[..done] + [base[done]];
    EncodeLogAppend(base[..done], [base[done]]);
    EncodeLogOne(base[done]);
    hide Consistent, Like, Mirrors, Encodes, ReplayLines, EncodeLog, EncodeArray;
  }

  lemma WriteNextKeepsInv(s: Sys, at: int)
    requires Inv(s, at) && s.phase.Writing? && s.phase.done < |s.phase.base|
    ensures Inv(Step(s, WriteNext), at)
  {
    hide Inv, PhaseInv, EncodeArray;
    InvParts(s, at);
    WriteNextKeepsPhase(s, at);
    var p := s.phase;
    OnlyPhase(s, p.(done := p.done + 1, tmp := p.tmp + EncodeArray(p.base[p.done])), at);
  }

  /** Exactly once: once the snapshot is written, the bytes written plus the
      mirrored ones are the snapshot's commands followed by every command logged
      since, and they rebuild the live store. */
  lemma SwapReady(s: Sys, at: int)
    requires Inv(s, at) && s.phase.Writing? && s.phase.done == |s.phase.base|
    ensures SwapInv(s, s.phase.base, s.phase.tmp + s.aof.rewriteBuf, at)
  {
    var base, mirrored := s.phase.base, s.history[s.mark..];
    assert base[..s.phase.done] == base;
    EncodeLogAppend(base, mirrored);
    ReplayAppend(Empty(0), base, mirrored, at);
    hide Consistent, Like, ReplayLines, EncodeLog;
    assert Like(s.store, ReplayLines(ReplayLines(Empty(0), base, at), mirrored, at), at);
  }

  lemma AppendKeepsInv(s: Sys, at: int)
    requires Inv(s, at) && s.phase.Writing? && s.phase.done == |s.phase.base|
    ensures Inv(Step(s, Append), at)
  {
    SwapReady(s, at);
    hide Consistent, Rebuilds, Encodes, MirrorInv, Like;
  }

  lemma SwapStepKeepsInv(s: Sys, e: Event, at: int)
    requires Inv(s, at)
    requires (e.Flush? && s.phase.Appended?) || (e.SyncTmp? && s.phase.Flushed?)
      || (e.CloseLive? && s.phase.TmpSynced?) || (e.Reopen? && s.phase.Renamed?)
    ensures Inv(Step(s, e), at)
  {
    hide Consistent, Rebuilds, Encodes, MirrorInv;
  }

  lemma RenameKeepsInv(s: Sys, at: int)
    requires Inv(s, at) && s.phase.LiveClosed?
    ensures Inv(Step(s, Rename), at)
  {
    hide Consistent, Rebuilds, Encodes, MirrorInv;
    var tmp := s.phase.file;
    assert Prefix(tmp.handed, tmp.flushed) == tmp.handed;
  }

  lemma LeaveKeepsInv(s: Sys, e: Event, at: int)
    requires Inv(s, at) && Enabled(s, e)
    requires e.Request? || e.Fail? || e.RenameFails? || e.Cleanup? || e.Release? || e.FsyncTick?
    ensures Inv(Step(s, e), at)
  {
    hide Consistent, Rebuilds, Encodes, Mirrors, Like;
  }

  // ----- a crash

  lemma EntriesOfWholeLog(file: string, lines: seq<Line>)
    requires Encodes(file, lines)
    ensures Entries(file) == lines
  {
    EntriesOfLog(lines, "");
    assert EncodeLog(lines) + "" == EncodeLog(lines);
  }

  lemma LikeTwice(a: State, b: State, c: State, at: int, at': int)
    requires Like(a, b, at') && Like(a, c, at)
    ensures Like(b, c, at) && Consistent(b) && b.maxMemory <= 0
  {
  }

  /** The server killed at any step and started again on the same file. */
  lemma CrashKeepsInv(s: Sys, at': int, at: int)
    requires Inv(s, at) && Inv(s, at')
    ensures Inv(Step(s, Crash(at')), at)
  {
    hide Like, Consistent, ReplayLines, EncodeLog, Entries, NoneDue;
    EntriesOfWholeLog(s.aof.file, s.lines);
    LikeTwice(s.store, ReplayLines(Empty(0), s.lines, at'), ReplayLines(Empty(0), s.lines, at), at, at');
  }

  /** After a restart the store is what the logged commands make of an empty one,
      nothing is mirrored and no rewrite runs; the file is as it was. */
  lemma RestartReplays(s: Sys, at: int)
    requires Inv(s, at)
    ensures var t := Step(s, Crash(at));
      && t.store == ReplayLines(Empty(0), s.lines, at) && t.phase == Idle && t.lines == s.lines
      && t.aof == s.aof.(rewriting := false, rewriteBuf := "", running := false)
  {
    hide Like, Consistent, ReplayLines, EncodeLog, Entries, NoneDue;
    EntriesOfWholeLog(s.aof.file, s.lines);
  }

  // ----- runs

  ghost predicate InvAlways(s: Sys) {
    forall at :: Inv(s, at)
  }

  lemma BootInv(always: bool, at: int)
    ensures Inv(Boot(always), at)
  {
    assert ReplayLines(Empty(0), [], at) == Empty(0);
  }

  lemma StepKeepsInv(s: Sys, e: Event, at: int)
    requires InvAlways(s) && Enabled(s, e) && Timely(s, e)
    ensures Inv(Step(s, e), at)
  {
    assert Inv(s, at);
    hide Inv, PhaseInv, Handle, NoneDue, AllAhead, ValidOrder, ClientStep, SnapshotLines, ReplayFile;
    match e
    case Client(op, args, now) => ClientKeepsInv(s, op, args, now, at);
    case TakeSnapshot => TakeSnapshotKeepsInv(s, at);
    case Begin(o, now) => BeginKeepsInv(s, o, now, at);
    case WriteNext => WriteNextKeepsInv(s, at);
    case Append => AppendKeepsInv(s, at);
    case Flush => SwapStepKeepsInv(s, e, at);
    case SyncTmp => SwapStepKeepsInv(s, e, at);
    case CloseLive => SwapStepKeepsInv(s, e, at);
    case Reopen => SwapStepKeepsInv(s, e, at);
    case Rename => RenameKeepsInv(s, at);
    case Crash(at') => assert Inv(s, at'); CrashKeepsInv(s, at', at);
    case _ => LeaveKeepsInv(s, e, at);
  }

  lemma StepKeepsAlways(s: Sys, e: Event)
    requires InvAlways(s) && Enabled(s, e) && Timely(s, e)
    ensures InvAlways(Step(s, e))
  {
    hide Inv, Step, Enabled, Timely;
    forall at ensures Inv(Step(s, e), at) {
      StepKeepsInv(s, e, at);
    }
  }

  /** Every step of every interleaving keeps the invariant, crashes included. */
  lemma {:induction false} RunKeepsInv(s: Sys, es: seq<Event>)
    requires InvAlways(s) && Runs(s, es)
    ensures InvAlways(After(s, es))
    decreases |es|
  {
    hide InvAlways, Step, Enabled, Timely;
    if es != [] {
      StepKeepsAlways(s, es[0]);
      RunKeepsInv(Step(s, es[0]), es[1..]);
    }
  }

  ghost function RunFromBoot(always: bool, es: seq<Event>): Sys
    requires Runs(Boot(always), es)
  {
    After(Boot(always), es)
  }

  lemma ReachableInv(always: bool, es: seq<Event>)
    requires Runs(Boot(always), es)
    ensures InvAlways(RunFromBoot(always, es))
  {
    forall at ensures Inv(Boot(always), at) { BootInv(always, at); }
    hide Inv, Runs, After;
    RunKeepsInv(Boot(always), es);
  }

  // ----- what the invariant is for

  /** Safety over whole runs. After any interleaving of client commands with the
      steps of any number of rewrites, failed rewrites, refused rewrites and
      crashes, replaying the live file rebuilds the live store; without
      deadlines it is exactly that store. */
  lemma LiveFileRebuildsStore(always: bool, es: seq<Event>, at: int)
    requires Runs(Boot(always), es)
    ensures var s := RunFromBoot(always, es);
      var r := ReplayFile(Empty(0), s.aof.file, at);
      Like(s.store, r, at) && (NoDeadlines(s.store) ==> r.(maxMemory := s.store.maxMemory) == s.store)
  {
    var s := RunFromBoot(always, es);
    ReachableInv(always, es);
    assert Inv(s, at);
    EntriesOfWholeLog(s.aof.file, s.lines);
    ExactWithoutDeadlines(s.store, ReplayFile(Empty(0), s.aof.file, at), at);
  }

  lemma ExactWithoutDeadlines(a: State, b: State, at: int)
    requires Like(a, b, at)
    ensures NoDeadlines(a) ==> b.(maxMemory := a.maxMemory) == a
  {
    if NoDeadlines(a) {
      assert forall k :: k in a.data ==> a.data[k] == b.data[k];
      assert a.data == b.data;
    }
  }

  /** While a rewrite is under way, its snapshot followed by the mirrored
      commands rebuilds the live store too, for every order and every clock at
      which the snapshot may come to be written. */
  lemma SnapshotAndMirrorRebuildStore(always: bool, es: seq<Event>, o: Order, now: int, at: int)
    requires Runs(Boot(always), es)
    requires var s := RunFromBoot(always, es);
      s.phase.Snapped? && ValidOrder(o, s.phase.snap) && AllAhead(s.phase.snap, now)
    ensures var s := RunFromBoot(always, es);
      Like(s.store, ReplayLines(Empty(0), SnapshotLines(s.phase.snap, o, now) + Entries(s.aof.rewriteBuf), at), at)
  {
    var s := RunFromBoot(always, es);
    ReachableInv(always, es);
    assert Inv(s, at);
    EntriesOfWholeLog(s.aof.rewriteBuf, s.history[s.mark..]);
    FreshBase(s.phase.snap, o, now, at);
    var base := SnapshotLines(s.phase.snap, o, now);
    ReplayAppend(Empty(0), base, s.history[s.mark..], at);
    hide Like, ReplayLines, SnapshotLines, Entries, Encodes;
    assert Mirrors(s.phase.snap, s.history[s.mark..], s.store, at);
  }

  /** The same while the snapshot is being written, however far that has got. */
  lemma BaseAndMirrorRebuildStore(always: bool, es: seq<Event>, at: int)
    requires Runs(Boot(always), es) && RunFromBoot(always, es).phase.Writing?
    ensures var s := RunFromBoot(always, es);
      Like(s.store, ReplayLines(Empty(0), s.phase.base + Entries(s.aof.rewriteBuf), at), at)
  {
    hide Like, ReplayLines, Entries, Encodes, EncodeLog, After, Runs, Rebuilds;
    var s := RunFromBoot(always, es);
    ReachableInv(always, es);
    assert Inv(s, at);
    EntriesOfMirror(s.aof.rewriteBuf, s.history, s.mark);
    ReplayAppend(Empty(0), s.phase.base, s.history[s.mark..], at);
    assert Mirrors(s.phase.snap, s.history[s.mark..], s.store, at);
  }

  lemma EntriesOfMirror(bytes: string, history: seq<Line>, mark: nat)
    requires mark <= |history| && Encodes(bytes, history[mark..])
    ensures Entries(bytes) == history[mark..]
  {
    EntriesOfWholeLog(bytes, history[mark..]);
  }

  // ----- the swap as one change

  lemma AfterCons(s: Sys, e: Event, es: seq<Event>)
    requires Enabled(s, e) && Timely(s, e) && Runs(Step(s, e), es)
    ensures Runs(s, [e] + es) && After(s, [e] + es) == After(Step(s, e), es)
  {
    assert ([e] + es)[1..] == es;
  }

  const SWAP: seq<Event> := [Append, Flush, SyncTmp, CloseLive, Rename, Reopen]

  /** The steps of the swap, none of which a client's command can come between,
      amount to the one change the locked section makes. */
  lemma SwapIsOneChange(s: Sys)
    requires s.phase.Writing? && s.phase.done == |s.phase.base|
    ensures Runs(s, SWAP)
    ensures After(s, SWAP).store == s.store && After(s, SWAP).aof == Swapped(s.aof, s.phase.tmp)
    ensures After(s, SWAP).phase == Leaving && After(s, SWAP).history == s.history
    ensures s.mark <= |s.history| ==> After(s, SWAP).lines == s.phase.base + s.history[s.mark..]
  {
    hide Step, Enabled, Timely, Runs, After, Swapped;
    var s1, s2, s3, s4, s5, s6 := SwapStates(s);
    NoneLeft(s6);
    AfterCons(s5, Reopen, []);
    AfterCons(s4, Rename, [Reopen] + []);
    AfterCons(s3, CloseLive, [Rename] + ([Reopen] + []));
    AfterCons(s2, SyncTmp, [CloseLive] + ([Rename] + ([Reopen] + [])));
    AfterCons(s1, Flush, [SyncTmp] + ([CloseLive] + ([Rename] + ([Reopen] + []))));
    AfterCons(s, Append, [Flush] + ([SyncTmp] + ([CloseLive] + ([Rename] + ([Reopen] + [])))));
    assert SWAP == [Append] + ([Flush] + ([SyncTmp] + ([CloseLive] + ([Rename] + ([Reopen] + [])))));
  }

  lemma NoneLeft(s: Sys)
    ensures Runs(s, []) && After(s, []) == s
  {
  }

  /** The six states of a swap, and what the last one is. */
  lemma SwapStates(s: Sys) returns (s1: Sys, s2: Sys, s3: Sys, s4: Sys, s5: Sys, s6: Sys)
    requires s.phase.Writing? && s.phase.done == |s.phase.base|
    ensures Enabled(s, Append) && s1 == Step(s, Append) && Enabled(s1, Flush) && s2 == Step(s1, Flush)
    ensures Enabled(s2, SyncTmp) && s3 == Step(s2, SyncTmp) && Enabled(s3, CloseLive) && s4 == Step(s3, CloseLive)
    ensures Enabled(s4, Rename) && s5 == Step(s4, Rename) && Enabled(s5, Reopen) && s6 == Step(s5, Reopen)
    ensures s6.store == s.store && s6.aof == Swapped(s.aof, s.phase.tmp)
    ensures s6.phase == Leaving && s6.history == s.history
    ensures s.mark <= |s.history| ==> s6.lines == s.phase.base + s.history[s.mark..]
    ensures Timely(s, Append) && Timely(s1, Flush) && Timely(s2, SyncTmp)
    ensures Timely(s3, CloseLive) && Timely(s4, Rename) && Timely(s5, Reopen)
  {
    s1 := Step(s, Append);
    s2 := Step(s1, Flush);
    s3 := Step(s2, SyncTmp);
    s4 := Step(s3, CloseLive);
    s5 := Step(s4, Rename);
    s6 := Step(s5, Reopen);
  }

  // ----- a rewrite does get done

  lemma {:induction false} RunsAppend(s: Sys, a: seq<Event>, b: seq<Event>)
    requires Runs(s, a) && Runs(After(s, a), b)
    ensures Runs(s, a + b) && After(s, a + b) == After(After(s, a), b)
    decreases |a|
  {
    hide Step, Enabled, Timely;
    if a == [] {
      assert a + b == b;
    } else {
      assert (a + b)[1..] == a[1..] + b;
      RunsAppend(Step(s, a[0]), a[1..], b);
    }
  }

  lemma OneEvent(s: Sys, e: Event)
    requires Enabled(s, e) && Timely(s, e)
    ensures Runs(s, [e]) && After(s, [e]) == Step(s, e)
  {
    hide Step, Enabled, Timely;
    AfterCons(s, e, []);
    assert [e] + [] == [e];
  }

  /** The snapshot's commands are written one after the other to the last. */
  lemma {:induction false} WritesAll(s: Sys) returns (es: seq<Event>)
    requires s.phase.Writing? && s.phase.done <= |s.phase.base|
    ensures Runs(s, es)
    ensures var p := s.phase;
      After(s, es) == s.(phase := p.(done := |p.base|, tmp := p.tmp + EncodeLog(p.base[p.done..])))
    decreases |s.phase.base| - s.phase.done
  {
    var p := s.phase;
    if p.done == |p.base| {
      es := [];
      assert p.base[p.done..] == [] && p.tmp + "" == p.tmp;
    } else {
      var rest := WritesAll(Step(s, WriteNext));
      es := [WriteNext] + rest;
      AfterCons(s, WriteNext, rest);
      OneMoreWritten(p.base, p.done, p.tmp);
    }
  }

  lemma OneMoreWritten(base: seq<Line>, done: nat, tmp: string)
    requires done < |base|
    ensures tmp + EncodeArray(base[done]) + EncodeLog(base[done + 1..]) == tmp + EncodeLog(base[done..])
  {
    assert base[done..][1..] == base[done + 1..];
    Assoc(tmp, EncodeArray(base[done]), EncodeLog(base[done + 1..]));
  }

  lemma Prepared(s: Sys, o: Order, now: int) returns (es: seq<Event>)
    requires s.phase.Idle? && !s.aof.running && ValidOrder(o, s.store) && AllAhead(s.store, now)
    ensures Runs(s, es)
    ensures After(s, es) == s.(aof := s.aof.(running := true, rewriting := true, rewriteBuf := ""), mark := |s.history|,
                               phase := Writing(s.store, SnapshotLines(s.store, o, now), 0, ""))
  {
    hide SnapshotLines, ValidOrder, AllAhead;
    var s1 := Step(s, Request);
    var s2 := Step(s1, TakeSnapshot);
    OneEvent(s2, Begin(o, now));
    AfterCons(s1, TakeSnapshot, [Begin(o, now)]);
    AfterCons(s, Request, [TakeSnapshot] + [Begin(o, now)]);
    es := [Request] + ([TakeSnapshot] + [Begin(o, now)]);
  }

  /** From any idle moment a rewrite can run from its request to its release, and when
      nothing else happens it leaves the store as it was and, at the live path, synced,
      exactly the commands of its snapshot. */
  lemma RewriteCompletes(s: Sys, o: Order, now: int) returns (es: seq<Event>)
    requires s.phase.Idle? && !s.aof.running && ValidOrder(o, s.store) && AllAhead(s.store, now)
    ensures Runs(s, es)
    ensures var t, file := After(s, es), EncodeLog(SnapshotLines(s.store, o, now));
      && t.store == s.store && t.phase == Idle && t.history == s.history
      && t.aof == s.aof.(file := file, synced := |file|, rewriting := false, rewriteBuf := "", running := false)
  {
    hide Runs, After, Step, Enabled, Timely, SnapshotLines, EncodeLog, ValidOrder, AllAhead, Swapped;
    var prepared := Prepared(s, o, now);
    var s1 := After(s, prepared);
    var writes := WritesAll(s1);
    RunsAppend(s, prepared, writes);
    var s2 := After(s1, writes);
    WholeBase(SnapshotLines(s.store, o, now));
    SwapIsOneChange(s2);
    var s3 := After(s2, SWAP);
    ReleaseStep(s3);
    OneEvent(s3, Release);
    RunsAppend(s2, SWAP, [Release]);
    RunsAppend(s, prepared + writes, SWAP + [Release]);
    es := prepared + writes + (SWAP + [Release]);
    SwappedAlone(s2.aof, s2.phase.tmp);
  }

  lemma WholeBase(base: seq<Line>)
    ensures base[0..] == base && "" + EncodeLog(base) == EncodeLog(base)
  {
  }

  lemma SwappedAlone(aof: Aof, base: string)
    requires aof.rewriteBuf == ""
    ensures Swapped(aof, base) == aof.(file := base, synced := |base|, rewriting := false, rewriteBuf := "")
  {
    assert base + "" == base;
  }

  lemma ReleaseStep(s: Sys)
    requires s.phase.Leaving?
    ensures Enabled(s, Release) && Timely(s, Release)
    ensures Step(s, Release) == s.(aof := s.aof.(running := false), phase := Idle)
  {
  }

  /** A rewrite asked for while another runs is refused. */
  lemma SecondRewriteRefused(s: Sys)
    requires s.aof.running
    ensures Step(s, Request) == s
  {
  }

  /** A rewrite that fails can clean up and end, and leaves the store, the file and what
      is synced of it as they were. */
  lemma FailureLeavesFile(s: Sys, e: Event)
    requires Enabled(s, e) && (e.Fail? || e.RenameFails?)
    ensures Runs(s, [e, Cleanup, Release])
    ensures After(s, [e, Cleanup, Release])
      == s.(aof := s.aof.(rewriting := false, rewriteBuf := "", running := false), phase := Idle)
  {
    var s1 := Step(s, e);
    var s2 := Step(s1, Cleanup);
    assert Enabled(s1, Cleanup) && Enabled(s2, Release);
    assert [e, Cleanup, Release][1..] == [Cleanup, Release] && [Cleanup, Release][1..] == [Release];
    assert [Release][1..] == [];
  }

  /** The ticker's fsync brings every byte of the log to the disk. */
  lemma TickSyncs(s: Sys)
    requires Enabled(s, FsyncTick)
    ensures Step(s, FsyncTick) == s.(aof := s.aof.(synced := |s.aof.file|))
  {
  }

  // ----- power loss

  /** A prefix of the live file that holds every synced byte, as a power loss
      may leave it, replays exactly the commands wholly within it, and no
      command whose bytes were synced is missing. */
  lemma PowerLossReplaysPrefix(always: bool, es: seq<Event>, k: nat)
    requires Runs(Boot(always), es)
    requires var s := RunFromBoot(always, es); s.aof.synced <= k <= |s.aof.file|
    ensures var s := RunFromBoot(always, es);
      && Entries(s.aof.file[..k]) == s.lines[..Whole(s.lines, k)]
      && forall n :: 0 < n <= |s.lines| && |EncodeLog(s.lines[..n])| <= s.aof.synced ==> n <= Whole(s.lines, k)
  {
    var s := RunFromBoot(always, es);
    ReachableInv(always, es);
    assert Inv(s, 0);
    TornTail(s.lines, k);
    forall n | 0 < n <= |s.lines| && |EncodeLog(s.lines[..n])| <= s.aof.synced
      ensures n <= Whole(s.lines, k)
    {
      WholeCoversPrefix(s.lines, n, k);
    }
  }

  /** The state after the first n events of a run. */
  ghost function At(s: Sys, es: seq<Event>, n: nat): Sys
    requires Runs(s, es) && n <= |es|
    decreases n
  {
    if n == 0 then s else At(Step(s, es[0]), es[1..], n - 1)
  }

  lemma {:induction false} AtEnd(s: Sys, es: seq<Event>)
    requires Runs(s, es)
    ensures At(s, es, |es|) == After(s, es)
    decreases |es|
  {
    hide Step, Enabled, Timely;
    if es != [] { AtEnd(Step(s, es[0]), es[1..]); }
  }

  lemma {:induction false} AtNext(s: Sys, es: seq<Event>, n: nat)
    requires Runs(s, es) && n < |es|
    ensures Enabled(At(s, es, n), es[n]) && Timely(At(s, es, n), es[n])
    ensures At(s, es, n + 1) == Step(At(s, es, n), es[n])
    decreases n
  {
    hide Step, Enabled, Timely;
    if n > 0 { AtNext(Step(s, es[0]), es[1..], n - 1); }
  }

  lemma {:induction false} AtInv(s: Sys, es: seq<Event>, n: nat)
    requires InvAlways(s) && Runs(s, es) && n <= |es|
    ensures InvAlways(At(s, es, n))
    decreases n
  {
    hide InvAlways, Step, Enabled, Timely;
    if n > 0 {
      StepKeepsAlways(s, es[0]);
      AtInv(Step(s, es[0]), es[1..], n - 1);
    }
  }

  /** What a cut loses was already missing one step before, unless the step only
      added to the end of the file. */
  lemma CutBefore(s: Sys, e: Event, k: nat, at: int) returns (before: nat)
    requires Inv(s, at) && Enabled(s, e) && Step(s, e).aof.synced <= k < |Step(s, e).aof.file|
    ensures s.aof.synced == Step(s, e).aof.synced && s.aof.synced <= before <= |s.aof.file|
    ensures Entries(Step(s, e).aof.file[..k]) == Entries(s.aof.file[..before])
  {
    hide Entries, Like, Consistent, Rebuilds, MirrorInv, Handle, EncodeArray, EncodeLog;
    before := k;
    if e.Client? {
      ClientStepCases(s, e.op, e.args, e.now);
      if Handle(s.store, e.op, e.args, e.now).logged.Some? {
        var line := Logged(e.op, e.args);
        if k < |s.aof.file| {
          assert (s.aof.file + EncodeArray(line))[..k] == s.aof.file[..k];
        } else {
          before := |s.aof.file|;
          LineIsNotEmpty(e.op, e.args);
          CutInLastLine(s.aof.file, s.lines, line, k);
        }
      }
    }
  }

  lemma CutInLastLine(file: string, lines: seq<Line>, line: Line, k: nat)
    requires Encodes(file, lines) && line != [] && |file| <= k < |file| + |EncodeArray(line)|
    ensures Entries((file + EncodeArray(line))[..k]) == Entries(file[..|file|])
  {
    hide Entries, EncodeArray, EncodeLog;
    TornAppend(file, lines, line, k);
    EntriesOfWholeLog(file, lines);
    assert file[..|file|] == file;
  }

  /** A cut at or after the last sync leaves the log as it was at an earlier moment,
      when it already held every synced byte. */
  lemma {:induction false} CutWasTheLog(s: Sys, es: seq<Event>, n: nat, k: nat) returns (j: nat)
    requires InvAlways(s) && Runs(s, es) && n <= |es| && s.aof.synced == |s.aof.file|
    requires At(s, es, n).aof.synced <= k <= |At(s, es, n).aof.file|
    ensures j <= n && At(s, es, n).aof.synced <= |At(s, es, j).aof.file|
    ensures forall i :: j <= i <= n ==> At(s, es, i).aof.synced == At(s, es, n).aof.synced
    ensures Entries(At(s, es, n).aof.file[..k]) == At(s, es, j).lines
  {
    hide Entries, Step, Enabled, Timely, At;
    AtInv(s, es, n);
    var q := At(s, es, n);
    assert Inv(q, 0);
    AtStart(s, es);
    j := n;
    if k == |q.aof.file| {
      WholeLogIsLines(q);
    } else {
      AtNext(s, es, n - 1);
      AtInv(s, es, n - 1);
      assert Inv(At(s, es, n - 1), 0);
      var before := CutBefore(At(s, es, n - 1), es[n - 1], k, 0);
      j := CutWasTheLog(s, es, n - 1, before);
    }
  }

  lemma AtStart(s: Sys, es: seq<Event>)
    requires Runs(s, es)
    ensures At(s, es, 0) == s
  {
  }

  lemma WholeLogIsLines(s: Sys)
    requires Inv(s, 0)
    ensures Entries(s.aof.file[..|s.aof.file|]) == s.lines
  {
    EntriesOfWholeLog(s.aof.file, s.lines);
    assert s.aof.file[..|s.aof.file|] == s.aof.file;
  }

  /** A power loss takes the store back to what it was at an earlier moment of the
      run, and to none before the last sync: whatever prefix of the file survives,
      if it holds the synced bytes, the store it rebuilds stands for the live store
      after some number of events, since when nothing was synced and when the log
      held every synced byte. */
  lemma PowerLossGoesBack(always: bool, es: seq<Event>, k: nat, at: int) returns (j: nat)
    requires Runs(Boot(always), es)
    requires var s := RunFromBoot(always, es); s.aof.synced <= k <= |s.aof.file|
    ensures j <= |es|
    ensures forall i :: j <= i <= |es| ==> At(Boot(always), es, i).aof.synced == RunFromBoot(always, es).aof.synced
    ensures var s, earlier := RunFromBoot(always, es), At(Boot(always), es, j);
      && s.aof.synced <= |earlier.aof.file|
      && Entries(s.aof.file[..k]) == earlier.lines
      && Like(earlier.store, ReplayFile(Empty(0), s.aof.file[..k], at), at)
  {
    forall at ensures Inv(Boot(always), at) { BootInv(always, at); }
    AtEnd(Boot(always), es);
    j := CutWasTheLog(Boot(always), es, |es|, k);
    AtInv(Boot(always), es, j);
    assert Inv(At(Boot(always), es, j), at);
  }

  /** With an fsync after every write, a power loss between commands loses
      nothing, and one while a command is being written leaves the store as it was
      before that command, or as that command leaves it once its last byte is there. */
  lemma PowerLossUnderFsyncAlways(es: seq<Event>, op: Op, args: Args, now: int, k: nat, at: int)
    requires Runs(Boot(true), es)
    requires var s := RunFromBoot(true, es);
      && NoneDue(s.store, now) && NoneDue(Handle(s.store, op, args, now).state, now)
      && Handle(s.store, op, args, now).logged.Some?
      && |s.aof.file| <= k <= |s.aof.file| + |EncodeArray(Logged(op, args))|
    ensures var s, line := RunFromBoot(true, es), Logged(op, args);
      var r := ReplayFile(Empty(0), (s.aof.file + EncodeArray(line))[..k], at);
      && s.aof.synced == |s.aof.file|
      && Like(if k < |s.aof.file| + |EncodeArray(line)| then s.store else Handle(s.store, op, args, now).state, r, at)
  {
    hide Like, ReplayLines, EncodeArray, Entries, PhaseInv, Runs, After, ReplayLine, Handle, Logged, NoneDue;
    var s := RunFromBoot(true, es);
    ReachableInv(true, es);
    RunKeepsPolicy(Boot(true), es);
    assert Inv(s, at);
    LineIsNotEmpty(op, args);
    TornAppend(s.aof.file, s.lines, Logged(op, args), k);
    ClientKeepsRebuilds(s.lines, s.store, op, args, now, at);
  }

  /** A log with one more command, cut inside that command or after it. */
  lemma TornAppend(file: string, lines: seq<Line>, line: Line, k: nat)
    requires Encodes(file, lines) && file == EncodeLog(lines) && NoneEmpty(lines) && line != []
    requires |file| <= k <= |file| + |EncodeArray(line)|
    ensures Entries((file + EncodeArray(line))[..k])
      == if k < |file| + |EncodeArray(line)| then lines else lines + [line]
  {
    hide EncodeLog, Parse, Encodes, EncodeArray;
    if k < |file| + |EncodeArray(line)| {
      EntriesOfLog(lines, EncodeArray(line)[..k - |file|]);
      TornArray(line, k - |file|);
      PrefixOfConcat(file, EncodeArray(line), k);
      assert lines + [] == lines;
    } else {
      EncodesAppend(file, lines, line);
      EntriesOfWholeLog(file + EncodeArray(line), lines + [line]);
      assert (file + EncodeArray(line))[..k] == file + EncodeArray(line);
    }
  }

  lemma {:induction false} RunKeepsPolicy(s: Sys, es: seq<Event>)
    requires Runs(s, es)
    ensures After(s, es).aof.always == s.aof.always
    decreases |es|
  {
    if es != [] {
      assert Step(s, es[0]).aof.always == s.aof.always;
      RunKeepsPolicy(Step(s, es[0]), es[1..]);
    }
  }
}
