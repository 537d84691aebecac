/** The memory ceiling: it holds in every run, and an uncompacted log replays under it. */
module Ceiling {
  import opened Basics
  import opened Strconv
  import opened Sums
  import opened StoreSpec
  import opened StoreProofs
  import opened Commands
  import opened SnapshotProofs

  // ----- every run

  /** A command at some clock, or the removal of strings by reads and the sampler. */
  datatype Change = Command(op: Op, args: seq<Bytes>, now: int) | Drop(keys: set<Bytes>)

  ghost function Changed(st: State, c: Change): State {
    match c
    case Command(op, args, now) => Handle(st, op, args, now).state
    case Drop(keys) => Reaped(st, keys)
  }

  ghost function RunOf(st: State, cs: seq<Change>): State
    decreases |cs|
  {
    if cs == [] then st else RunOf(Changed(st, cs[0]), cs[1..])
  }

  lemma ChangeKeepsAll(st: State, c: Change)
    requires Consistent(st) && UnderCeiling(st)
    ensures Consistent(Changed(st, c)) && UnderCeiling(Changed(st, c))
    ensures Changed(st, c).maxMemory == st.maxMemory
  {
    hide Consistent, Memory, Handle, ReplayEffect, ReplayLine;
    match c
    case Command(op, args, now) =>
      LiveIsReplay(st, op, args, now);
      CommandKeepsConsistent(st, op, args, now);
      CommandKeepsCeiling(st, op, args, now);
    case Drop(keys) =>
      ReapKeepsConsistent(st, keys);
      RemovedAtMost(st, keys);
  }

  /** From an empty store with a fixed positive ceiling, no run of commands,
      reads and sampler ticks ever takes the summed bytes over the ceiling, and
      the expiry index stays exact throughout. */
  lemma {:induction false} RunStaysUnderCeiling(st: State, cs: seq<Change>)
    requires Consistent(st) && UnderCeiling(st)
    ensures Consistent(RunOf(st, cs)) && UnderCeiling(RunOf(st, cs))
    ensures RunOf(st, cs).maxMemory == st.maxMemory
    decreases |cs|
  {
    hide Consistent, UnderCeiling, Changed;
    if cs != [] {
      ChangeKeepsAll(st, cs[0]);
      RunStaysUnderCeiling(Changed(st, cs[0]), cs[1..]);
    }
  }

  lemma EmptyStoreRuns(ceiling: int, cs: seq<Change>)
    requires ceiling > 0
    ensures Memory(RunOf(Empty(ceiling), cs)) <= ceiling
  {
    EmptyMemory(ceiling);
    assert Consistent(Empty(ceiling));
    RunStaysUnderCeiling(Empty(ceiling), cs);
  }

  // ----- the log as it was written

  /** Without deadlines before and after, a command does not depend on the clock. */
  lemma ClockDoesNotMatter(st: State, op: Op, args: seq<Bytes>, now: int, at: int)
    requires NoDeadlines(st) && NoDeadlines(ReplayEffect(st, op, args, now).state)
    ensures ReplayEffect(st, op, args, at) == ReplayEffect(st, op, args, now)
  {
    hide Fits, SetTTL, Atoi, Itoa, Wrap, SumLen, SetFields, Reverse, NoDeadlines;
    if op.SET? && |args| >= 2 && SetTTL(0, args[2..]).TTL? && SetTTL(0, args[2..]).ttl > 0
       && Fits(st, |args[0]| + |args[1]|) {
      SetAddsDeadline(st, args, now);
    }
    if op.EXPIRE? && |args| == 2 && Atoi(args[1]).Some? && args[0] in st.data {
      ExpireAddsDeadline(st, args, now);
    }
    CounterIgnoresClock(st, now, at);
    if op.SET? || op.EXPIRE? { return; }
    if op.INCR? || op.DECR? || op.INCRBY? || op.DECRBY? { return; }
  }

  lemma SetAddsDeadline(st: State, args: seq<Bytes>, now: int)
    requires |args| >= 2 && SetTTL(0, args[2..]).TTL? && SetTTL(0, args[2..]).ttl > 0
    requires Fits(st, |args[0]| + |args[1]|)
    ensures !NoDeadlines(ReplayEffect(st, SET, args, now).state)
  {
    hide Fits, SetTTL;
    var data := ReplayEffect(st, SET, args, now).state.data;
    assert args[0] in data && data[args[0]].expiresAt.Some?;
  }

  lemma ExpireAddsDeadline(st: State, args: seq<Bytes>, now: int)
    requires |args| == 2 && Atoi(args[1]).Some? && args[0] in st.data
    ensures !NoDeadlines(ReplayEffect(st, EXPIRE, args, now).state)
  {
    hide Atoi, Wrap;
    var data := ReplayEffect(st, EXPIRE, args, now).state.data;
    assert args[0] in data && data[args[0]].expiresAt.Some?;
  }

  lemma CounterIgnoresClock(st: State, now: int, at: int)
    requires NoDeadlines(st)
    ensures forall key :: Counter(st, key, now) == Counter(st, key, at)
  {
    hide Atoi;
  }

  ghost predicate NeverDeadlines(st: State, cs: seq<Change>)
    decreases |cs|
  {
    NoDeadlines(st) && (cs == [] || (cs[0].Command? && NeverDeadlines(Changed(st, cs[0]), cs[1..])))
  }

  /** What the handlers append to the log in such a run. */
  ghost function LogOf(st: State, cs: seq<Change>): seq<seq<Bytes>>
    requires NeverDeadlines(st, cs)
    decreases |cs|
  {
    if cs == [] then []
    else
      var h := Handle(st, cs[0].op, cs[0].args, cs[0].now);
      (if h.logged.None? then [] else [LogLine(cs[0].op, h.logged.value)]) + LogOf(Changed(st, cs[0]), cs[1..])
  }

  /** Under the ceiling it was written under, an uncompacted log is never
      refused: it replays to exactly the live store. */
  lemma {:induction false} UncompactedLogReplays(st: State, cs: seq<Change>, at: int)
    requires NeverDeadlines(st, cs)
    ensures ReplayLines(st, LogOf(st, cs), at) == RunOf(st, cs)
    decreases |cs|
  {
    hide Handle, ReplayEffect, NoDeadlines, LogLine, ReplayLine, ReplayLines;
    ReplayNone(st, at);
    if cs != [] {
      var c := cs[0];
      var h, rest := Handle(st, c.op, c.args, c.now), LogOf(Changed(st, c), cs[1..]);
      UncompactedLogReplays(Changed(st, c), cs[1..], at);
      LiveIsReplay(st, c.op, c.args, c.now);
      if h.logged.Some? {
        ReplayLogLine(st, c.op, h.logged.value, c.now);
        ClockDoesNotMatter(st, c.op, h.logged.value, c.now, at);
        ReplayCons(st, c.op, h.logged.value, rest, at);
      } else {
        assert [] + rest == rest;
      }
    }
  }
}
