/** Strings that expire: dropping them is not logged, so a replay brings them back. */
module Expiry {
  import opened Basics
  import opened Strconv
  import opened StoreSpec
  import opened StoreProofs
  import opened Commands
  import opened SnapshotProofs
  import opened Stores
  import opened Protocol
  import opened ProtocolProofs
  import opened Sampler

  type Strings = map<Bytes, Entry>

  /** The store after a run of timed commands, reads and sampler ticks. */
  ghost function Finally(st: State, es: seq<Timed>): State
    decreases |es|
  {
    if es == [] then st else Finally(Next(st, es[0]), es[1..])
  }

  /** What the run appends to the log. */
  ghost function LogOf(st: State, es: seq<Timed>): seq<seq<Bytes>>
    decreases |es|
  {
    if es == [] then [] else LinesOf(st, es[0]) + LogOf(Next(st, es[0]), es[1..])
  }

  ghost function LinesOf(st: State, e: Timed): seq<seq<Bytes>> {
    if !e.action.Mutate? then []
    else
      match Handle(st, e.action.op, e.action.args, e.now).logged
      case None => []
      case Some(args) => [LogLine(e.action.op, args)]
  }

  /** The strings that came due and were dropped, and that no command has since
      set, deleted or flushed. */
  ghost function Lost(st: State, es: seq<Timed>, lost: Strings): Strings
    decreases |es|
  {
    if es == [] then lost else Lost(Next(st, es[0]), es[1..], LostBy(st, es[0], lost))
  }

  ghost function LostBy(st: State, e: Timed, lost: Strings): Strings {
    match e.action
    case Mutate(op, args) => Untouched(op, args, lost)
    case _ => lost + (st.data - Next(st, e).data.Keys)
  }

  ghost function Untouched(op: Op, args: seq<Bytes>, lost: Strings): Strings {
    match op
    case SET => if |args| >= 2 && SetTTL(0, args[2..]).TTL? then lost - {args[0]} else lost
    case DEL => lost - ToSet(args)
    case FLUSHALL => map[]
    case _ => lost
  }

  /** The store as if nothing had been dropped. */
  function With(st: State, lost: Strings): State {
    st.(data := lost + st.data, expiryKeys := st.expiryKeys + lost.Keys)
  }

  /** The strings set aside are not in the store, and have come due. */
  ghost predicate Aside(st: State, lost: Strings, now: int) {
    lost.Keys !! st.data.Keys && forall k :: k in lost ==> Due(lost[k], now)
  }

  // ----- one command

  lemma StoredWith(st: State, lost: Strings, key: Bytes, value: Bytes, ttl: int, now: int)
    ensures var a := Stored(With(st, lost), key, value, ttl, now);
      a == With(Stored(st, key, value, ttl, now), lost - {key}).(expiryKeys := a.expiryKeys)
  {
    assert (lost + st.data)[key := Entry(value, None)] == (lost - {key}) + st.data[key := Entry(value, None)];
    var e := Entry(value, Some(now + ttl));
    assert (lost + st.data)[key := e] == (lost - {key}) + st.data[key := e];
  }

  lemma StoredWithIndex(st: State, lost: Strings, key: Bytes, value: Bytes, ttl: int, now: int)
    requires st.expiryKeys !! lost.Keys
    ensures Stored(With(st, lost), key, value, ttl, now).expiryKeys
      == With(Stored(st, key, value, ttl, now), lost - {key}).expiryKeys
  {
    assert (lost - {key}).Keys == lost.Keys - {key};
  }

  lemma SetWith(st: State, lost: Strings, args: seq<Bytes>, now: int)
    requires st.maxMemory <= 0 && st.expiryKeys !! lost.Keys
    ensures ReplayEffect(With(st, lost), SET, args, now).state
      == With(ReplayEffect(st, SET, args, now).state, Untouched(SET, args, lost))
  {
    hide SetTTL, Memory, Stored;
    if |args| >= 2 && SetTTL(0, args[2..]).TTL? {
      StoredWith(st, lost, args[0], args[1], SetTTL(0, args[2..]).ttl, now);
      StoredWithIndex(st, lost, args[0], args[1], SetTTL(0, args[2..]).ttl, now);
    }
  }

  lemma RemovedWith(st: State, lost: Strings, keys: set<Bytes>)
    ensures Removed(With(st, lost), keys) == With(Removed(st, keys), lost - keys)
  {
    assert (lost + st.data) - keys == (lost - keys) + (st.data - keys);
    assert (lost - keys).Keys == lost.Keys - keys;
  }

  lemma FlushedWith(st: State)
    ensures Empty(st.maxMemory) == With(Empty(st.maxMemory), map[])
  {
    var none: Strings := map[];
    assert none + map[] == none;
  }

  lemma BulkWith(st: State, lost: Strings, op: Op, args: seq<Bytes>, now: int)
    requires st.maxMemory <= 0 && (op.LPUSH? || op.RPUSH? || op.HSET? || op.HDEL?)
    ensures ReplayEffect(With(st, lost), op, args, now).state == With(ReplayEffect(st, op, args, now).state, lost)
  {
    hide Memory, Reverse, SetFields, SetTTL;
    if op.LPUSH? || op.RPUSH? { return; }
  }

  /** A command that does not look at deadlines does the same with the dropped
      strings as without them, but for those it sets, deletes or flushes. */
  lemma MutateWith(st: State, lost: Strings, op: Op, args: seq<Bytes>, now: int)
    requires Blind(op) && st.maxMemory <= 0 && st.expiryKeys !! lost.Keys
    ensures ReplayEffect(With(st, lost), op, args, now).state
      == With(ReplayEffect(st, op, args, now).state, Untouched(op, args, lost))
  {
    match op
    case SET => SetWith(st, lost, args, now);
    case DEL => RemovedWith(st, lost, ToSet(args)); NothingRemoved(lost);
    case FLUSHALL => FlushedWith(st);
    case LPUSH => BulkWith(st, lost, op, args, now);
    case RPUSH => BulkWith(st, lost, op, args, now);
    case HSET => BulkWith(st, lost, op, args, now);
    case HDEL => BulkWith(st, lost, op, args, now);
  }

  lemma NothingRemoved(lost: Strings)
    ensures lost - ToSet([]) == lost
  {
  }

  // ----- one step

  /** What a step of the log's replay has to do with the run. */
  ghost predicate Behind(st: State, lost: Strings, r: State, now: int, at: int) {
    && st.maxMemory <= 0 && Consistent(st) && Aside(st, lost, now) && Like(With(st, lost), r, at)
  }

  /** Reads and ticks only drop strings that are due. */
  lemma QuietDrops(st: State, e: Timed)
    requires Allowed(st, e) && !e.action.Mutate?
    ensures var next := Next(st, e);
      var keys := st.data.Keys - next.data.Keys;
      next == Reaped(st, keys) && forall k :: k in keys ==> Due(st.data[k], e.now)
  {
    var next := Next(st, e);
    var keys := st.data.Keys - next.data.Keys;
    if e.action.Tick? { assert keys == e.action.removed; return; }
    if e.action.Exists? { assert keys == DueAmong(st, e.action.keys, e.now); return; }
    if e.action.Get? || e.action.Ttl? {
      var k := e.action.key;
      assert keys == if k in st.data && Due(st.data[k], e.now) then {k} else {};
      NothingReaped(st);
      return;
    }
    NothingReaped(st);
    assert keys == {};
  }

  lemma NothingReaped(st: State)
    ensures Reaped(st, {}) == st
  {
  }

  /** With the dropped strings set aside, dropping them changes nothing. */
  lemma DropWith(st: State, lost: Strings, keys: set<Bytes>)
    requires keys <= st.data.Keys && lost.Keys !! st.data.Keys && IndexExact(st)
    requires forall k :: k in keys ==> st.data[k].expiresAt.Some?
    ensures With(Reaped(st, keys), lost + (st.data - Reaped(st, keys).data.Keys)) == With(st, lost)
  {
    var next := Reaped(st, keys);
    var more := lost + (st.data - next.data.Keys);
    assert more + next.data == lost + st.data;
    assert more.Keys == lost.Keys + keys;
  }

  lemma QuietStep(st: State, lost: Strings, r: State, e: Timed, now: int, at: int)
    requires Behind(st, lost, r, now, at) && now <= e.now && Allowed(st, e) && !e.action.Mutate?
    ensures Behind(Next(st, e), LostBy(st, e, lost), r, e.now, at)
  {
    hide Next, Like, With, Allowed;
    QuietDrops(st, e);
    var keys := st.data.Keys - Next(st, e).data.Keys;
    DropWith(st, lost, keys);
    ReapKeepsConsistent(st, keys);
  }

  /** A refused command leaves the strings set aside where they are. */
  lemma RefusedLeaves(st: State, lost: Strings, op: Op, args: seq<Bytes>, now: int)
    requires Blind(op) && st.maxMemory <= 0
    ensures Handle(st, op, args, now).logged.None? ==> Untouched(op, args, lost) == lost
  {
    hide SetTTL, Memory, HashAt, ToSet;
    if op.DEL? && args == [] { NothingRemoved(lost); }
  }

  lemma UntouchedByLogged(st: State, lost: Strings, op: Op, args: seq<Bytes>, now: int)
    ensures var h := Handle(st, op, args, now);
      h.logged.Some? ==> Untouched(op, h.logged.value, lost) == Untouched(op, args, lost)
  {
    hide Handle;
    LoggedArguments(st, op, args, now);
  }

  lemma MutateAside(st: State, lost: Strings, op: Op, args: seq<Bytes>, now: int, later: int)
    requires Blind(op) && Aside(st, lost, now) && now <= later
    ensures Aside(ReplayEffect(st, op, args, later).state, Untouched(op, args, lost), later)
  {
    hide SetTTL, Fits, Reverse, SetFields;
    if op.SET? || op.DEL? { return; }
  }

  /** One accepted or refused command, and the replay of what it logged. */
  lemma MutateStep(st: State, lost: Strings, r: State, op: Op, args: seq<Bytes>, now: int, e: Timed, at: int)
    requires Behind(st, lost, r, now, at) && now <= e.now && e.action == Mutate(op, args) && Blind(op)
    ensures Behind(Next(st, e), LostBy(st, e, lost), ReplayLines(r, LinesOf(st, e), at), e.now, at)
  {
    hide Handle, ReplayEffect, Like, With, Consistent, Aside, Untouched, LogLine, ReplayLine;
    var h := Handle(st, op, args, e.now);
    HandledAsReplayed(st, op, args, e.now);
    CommandKeepsConsistent(st, op, args, e.now);
    CommandKeepsCeiling(st, op, args, e.now);
    MutateAside(st, lost, op, args, now, e.now);
    AsideIndex(st, lost, now);
    if h.logged.None? {
      RefusedLeaves(st, lost, op, args, e.now);
      ReplayNone(r, at);
    } else {
      var logged := h.logged.value;
      UntouchedByLogged(st, lost, op, args, e.now);
      MutateWith(st, lost, op, logged, e.now);
      WithCeiling(st, lost);
      BlindKeepsLike(With(st, lost), r, op, logged, e.now, at);
      OneLine(r, op, logged, at);
    }
  }

  lemma AsideIndex(st: State, lost: Strings, now: int)
    requires Consistent(st) && Aside(st, lost, now)
    ensures st.expiryKeys !! lost.Keys
  {
  }

  lemma WithCeiling(st: State, lost: Strings)
    ensures With(st, lost).maxMemory == st.maxMemory
  {
  }

  lemma OneLine(r: State, op: Op, args: seq<Bytes>, at: int)
    ensures ReplayLines(r, [LogLine(op, args)], at) == ReplayEffect(r, op, args, at).state
  {
    hide ReplayEffect, LogLine;
    ReplayCons(r, op, args, [], at);
    ReplayNone(ReplayEffect(r, op, args, at).state, at);
    assert [LogLine(op, args)] + [] == [LogLine(op, args)];
  }

  // ----- whole runs

  /** The clock of the last event. */
  function Until(es: seq<Timed>, from: int): int {
    if es == [] then from else es[|es| - 1].now
  }

  lemma {:induction false} RunStaysBehind(st: State, es: seq<Timed>, lost: Strings, r: State, from: int, at: int)
    requires Sampler.Runs(st, es, from) && Behind(st, lost, r, from, at)
    ensures Behind(Finally(st, es), Lost(st, es, lost), ReplayLines(r, LogOf(st, es), at), Until(es, from), at)
    decreases |es|
  {
    hide Behind, Allowed, Next, LostBy, LinesOf, ReplayLines;
    ReplayNone(r, at);
    if es != [] {
      var e, rest := es[0], es[1..];
      StepBehind(st, lost, r, e, from, at);
      RunStaysBehind(Next(st, e), rest, LostBy(st, e, lost), ReplayLines(r, LinesOf(st, e), at), e.now, at);
      ReplayAppend(r, LinesOf(st, e), LogOf(Next(st, e), rest), at);
      assert Until(rest, e.now) == Until(es, from);
    }
  }

  lemma StepBehind(st: State, lost: Strings, r: State, e: Timed, from: int, at: int)
    requires Behind(st, lost, r, from, at) && from <= e.now && Allowed(st, e)
    ensures Behind(Next(st, e), LostBy(st, e, lost), ReplayLines(r, LinesOf(st, e), at), e.now, at)
  {
    hide Behind, Next, LostBy, ReplayLines;
    if e.action.Mutate? {
      MutateStep(st, lost, r, e.action.op, e.action.args, from, e, at);
    } else {
      QuietStep(st, lost, r, e, from, at);
      ReplayNone(r, at);
    }
  }

  /** Expired strings come back. After any run of reads, sampler ticks and commands
      that do not look at deadlines, with any clocks, the uncompacted log rebuilds
      the live store and with it exactly the strings that came due, were dropped,
      and were not since set, deleted or flushed. They have their old values and,
      like every string with a deadline, one that starts again at the replay. */
  lemma ExpiredComeBack(es: seq<Timed>, from: int, at: int)
    requires Sampler.Runs(Empty(0), es, from)
    ensures var live, lost := Finally(Empty(0), es), Lost(Empty(0), es, map[]);
      var r := ReplayLines(Empty(0), LogOf(Empty(0), es), at);
      && r.lists == live.lists && r.hashes == live.hashes
      && r.data.Keys == live.data.Keys + lost.Keys && live.data.Keys !! lost.Keys
      && (forall k :: k in live.data ==>
            r.data[k].value == live.data[k].value && (r.data[k].expiresAt.Some? <==> live.data[k].expiresAt.Some?))
      && (forall k :: k in lost ==>
            Due(lost[k], Until(es, from)) && r.data[k].value == lost[k].value && r.data[k].expiresAt.Some?)
      && NoneDue(r, at)
  {
    hide Sampler.Runs, ReplayLines, LogOf, Finally, Lost;
    NothingBehind(from, at);
    RunStaysBehind(Empty(0), es, map[], Empty(0), from, at);
  }

  lemma NothingBehind(now: int, at: int)
    ensures Behind(Empty(0), map[], Empty(0), now, at)
  {
    FlushedWith(Empty(0));
  }

  // ----- what a client sees after a restart

  function BriefArgs(): seq<Bytes> {
    ["k", "5", "PX", Itoa(1)]
  }

  /** What BriefStore becomes when its deadline restarts at clock `at`. */
  function Restarted(at: int): State {
    State(map["k" := Entry("5", Some(at + MILLISECOND))], map[], map[], {"k"}, 0)
  }

  lemma BriefReplay(at: int)
    ensures ReplayEffect(Empty(0), SET, BriefArgs(), at).state == Restarted(at)
  {
    hide SetTTL, Itoa, Memory;
    PXOption(1);
    assert BriefArgs()[2..] == ["PX", Itoa(1)];
  }

  /** SET k 5 PX 1, gone at any clock past one millisecond, is back after a restart. */
  lemma BriefStringComesBack(now: int, at: int)
    requires now > MILLISECOND
    ensures Lookup(Handle(Empty(0), SET, BriefArgs(), 0).state, "k", now) == None
    ensures Lookup(ReplayLines(Empty(0), [LogLine(SET, BriefArgs())], at), "k", at) == Some("5")
  {
    hide Itoa, Handle, ReplayLines, ReplayEffect, LogLine;
    BriefSet(0);
    BriefReplay(at);
    OneLine(Empty(0), SET, BriefArgs(), at);
  }

  /** Why the counter commands are left out: INCR after the string is gone counts
      from zero, its replay from the string that has come back. */
  lemma CounterCountsOnAfterRestart(at: int)
    ensures var live := Handle(Ticked(0), INCR, ["k"], LATE).state;
      var r := ReplayLines(Empty(0), [LogLine(SET, BriefArgs())] + [LogLine(INCR, ["k"])], at);
      live.data == map["k" := Entry(Itoa(1), None)]
      && r.data == map["k" := Entry(Itoa(6), Some(at + MILLISECOND))]
  {
    hide Handle, ReplayLines, ReplayEffect, LogLine, Itoa, Atoi;
    BriefReplay(at);
    OneLine(Empty(0), SET, BriefArgs(), at);
    OneLine(Restarted(at), INCR, ["k"], at);
    ReplayAppend(Empty(0), [LogLine(SET, BriefArgs())], [LogLine(INCR, ["k"])], at);
    SixIsCounted(at);
    OneIsCounted();
  }

  lemma SixIsCounted(at: int)
    ensures ReplayEffect(Restarted(at), INCR, ["k"], at).state.data
      == map["k" := Entry(Itoa(6), Some(at + MILLISECOND))]
  {
    assert Itoa(5) == "5";
    AtoiItoa(5);
    hide Itoa, Atoi, Memory;
  }

  lemma OneIsCounted()
    ensures Handle(Ticked(0), INCR, ["k"], LATE).state.data == map["k" := Entry(Itoa(1), None)]
  {
    hide Itoa, Atoi, Memory;
  }
}
