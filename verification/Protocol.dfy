/** The concurrent rewrite of the append-only file as a step protocol. */
module Protocol {
  import opened Basics
  import opened StoreSpec
  import opened Commands
  import opened Resp
  import opened Snapshot

  // ----- when a rebuilt store stands for the live one

  /** Two stores that hold the same values and agree on which strings have a
      deadline. The deadlines themselves restart on replay. */
  ghost predicate Same(a: State, b: State) {
    && a.lists == b.lists && a.hashes == b.hashes && a.expiryKeys == b.expiryKeys
    && a.data.Keys == b.data.Keys
    && forall k :: k in a.data ==>
         a.data[k].value == b.data[k].value && (a.data[k].expiresAt.Some? <==> b.data[k].expiresAt.Some?)
  }

  ghost predicate NoneDue(st: State, now: int) {
    forall k :: k in st.data ==> !Due(st.data[k], now)
  }

  /** b, rebuilt at clock `at`, stands for a. */
  ghost predicate Like(a: State, b: State, at: int) {
    Same(a, b) && Consistent(b) && NoneDue(b, at) && b.maxMemory <= 0
  }

  /** Every deadline is at least a millisecond away. */
  ghost predicate AllAhead(st: State, now: int) {
    forall k :: k in st.data && st.data[k].expiresAt.Some? ==>
      st.data[k].expiresAt.value - now >= MILLISECOND
  }

  // ----- the state of the server

  /** The fields of AOF. `file` is what the operating system holds at the live
      path, `synced` how much of it has reached the disk. */
  datatype Aof = Aof(file: string, synced: nat, always: bool, rewriting: bool, rewriteBuf: string, running: bool)

  /** The temporary file during the swap: the bytes handed to its writer, how many
      of them the operating system holds, and how many have reached the disk. */
  datatype Tmp = Tmp(handed: string, flushed: nat, durable: nat)

  /** Where the one goroutine inside Rewrite is. `base` is the list of commands
      the snapshot becomes, and `tmp` what has been written of it. */
  datatype Phase =
    | Idle
    | Entered
    | Snapped(snap: State)
    | Writing(snap: State, base: seq<Line>, done: nat, tmp: string)
    | Appended(base: seq<Line>, file: Tmp)
    | Flushed(base: seq<Line>, file: Tmp)
    | TmpSynced(base: seq<Line>, file: Tmp)
    | LiveClosed(base: seq<Line>, file: Tmp)
    | Renamed
    | Failing
    | Leaving
  {
    /** The final swap holds the AOF lock. */
    predicate Locked() {
      Appended? || Flushed? || TmpSynced? || LiveClosed? || Renamed?
    }
  }

  /** `history` is every command logged so far, `mark` how many of them the
      current snapshot contains, and `lines` the commands in the live file. */
  datatype Sys = Sys(store: State, aof: Aof, phase: Phase, history: seq<Line>, mark: nat, lines: seq<Line>)

  type Args = a: seq<Bytes> | |a| < MAX_INT

  datatype Event =
    | Client(op: Op, args: Args, now: int)
    | Request
    | TakeSnapshot
    | Begin(order: Order, now: int)
    | WriteNext
    | Append
    | Flush
    | SyncTmp
    | CloseLive
    | Rename
    | Reopen
    | Fail
    | RenameFails
    | Cleanup
    | Release
    | FsyncTick
    | Crash(at: int)

  function Boot(always: bool): Sys {
    Sys(Empty(0), Aof("", 0, always, false, "", false), Idle, [], 0, [])
  }

  ghost predicate Enabled(s: Sys, e: Event) {
    match e
    case Client(_, _, _) => !s.phase.Locked()
    case Request => true
    case TakeSnapshot => s.phase.Entered?
    case Begin(order, _) => s.phase.Snapped? && ValidOrder(order, s.phase.snap)
    case WriteNext => s.phase.Writing? && s.phase.done < |s.phase.base|
    case Append => s.phase.Writing? && s.phase.done == |s.phase.base|
    case Flush => s.phase.Appended?
    case SyncTmp => s.phase.Flushed?
    case CloseLive => s.phase.TmpSynced?
    case Rename => s.phase.LiveClosed?
    case Reopen => s.phase.Renamed?
    case Fail => s.phase.Snapped? || s.phase.Writing? || s.phase.Appended? || s.phase.Flushed? || s.phase.TmpSynced?
    case RenameFails => s.phase.LiveClosed?
    case Cleanup => s.phase.Failing?
    case Release => s.phase.Leaving?
    case FsyncTick => !s.phase.Locked()
    case Crash(_) => true
  }

  /** The run reaches no deadline: no string is due when a client's command
      executes, and none is about to be when a snapshot is written. */
  ghost predicate Timely(s: Sys, e: Event) {
    match e
    case Client(op, args, now) => NoneDue(s.store, now) && NoneDue(Handle(s.store, op, args, now).state, now)
    case Begin(_, now) => s.phase.Snapped? ==> AllAhead(s.phase.snap, now)
    case _ => true
  }

  function Prefix(s: string, n: nat): string {
    if n <= |s| then s[..n] else s
  }

  function LogTo(aof: Aof, line: Line): Aof {
    var file := aof.file + EncodeArray(line);
    aof.(file := file,
         synced := if aof.always then |file| else aof.synced,
         rewriteBuf := if aof.rewriting then aof.rewriteBuf + EncodeArray(line) else aof.rewriteBuf)
  }

  /** The fields of AOF after a swap that went through, given what had been
      written of the snapshot. */
  function Swapped(aof: Aof, base: string): Aof {
    var file := base + aof.rewriteBuf;
    aof.(file := file, synced := |file|, rewriting := false, rewriteBuf := "")
  }

  /** The line a handler logs when it logs: FLUSHALL drops its arguments. */
  ghost function Logged(op: Op, args: Args): Line {
    if op.FLUSHALL? then LogLine(op, []) else LogLine(op, args)
  }

  ghost function AfterHandling(aof: Aof, op: Op, args: Args, h: Handled): Aof {
    if h.logged.None? then aof else LogTo(aof, Logged(op, args))
  }

  /** Mutate, then log, as one critical section. */
  ghost function ClientStep(s: Sys, op: Op, args: Args, now: int): Sys {
    var h := Handle(s.store, op, args, now);
    var more: seq<Line> := if h.logged.None? then [] else [Logged(op, args)];
    s.(store := h.state, aof := AfterHandling(s.aof, op, args, h), history := s.history + more, lines := s.lines + more)
  }

  ghost function Step(s: Sys, e: Event): Sys
    requires Enabled(s, e)
  {
    match e
    case Client(op, args, now) => ClientStep(s, op, args, now)
    case Request =>
      if s.aof.running then s
      else s.(aof := s.aof.(running := true), phase := Entered)
    case TakeSnapshot =>
      s.(aof := s.aof.(rewriting := true, rewriteBuf := ""), phase := Snapped(s.store), mark := |s.history|)
    case Begin(order, now) =>
      s.(phase := Writing(s.phase.snap, SnapshotLines(s.phase.snap, order, now), 0, ""))
    case WriteNext =>
      s.(phase := s.phase.(done := s.phase.done + 1, tmp := s.phase.tmp + EncodeArray(s.phase.base[s.phase.done])))
    case Append =>
      s.(aof := s.aof.(rewriting := false, rewriteBuf := ""),
         phase := Appended(s.phase.base, Tmp(s.phase.tmp + s.aof.rewriteBuf, 0, 0)))
    case Flush =>
      s.(phase := Flushed(s.phase.base, s.phase.file.(flushed := |s.phase.file.handed|)))
    case SyncTmp =>
      s.(phase := TmpSynced(s.phase.base, s.phase.file.(durable := s.phase.file.flushed)))
    case CloseLive => s.(phase := LiveClosed(s.phase.base, s.phase.file))
    case Rename =>
      s.(aof := s.aof.(file := Prefix(s.phase.file.handed, s.phase.file.flushed), synced := s.phase.file.durable),
         phase := Renamed,
         lines := if s.mark <= |s.history| then s.phase.base + s.history[s.mark..] else s.lines)
    case Reopen => s.(phase := Leaving)
    case Fail => s.(phase := Failing)
    case RenameFails => s.(phase := Failing)
    case Cleanup => s.(aof := s.aof.(rewriting := false, rewriteBuf := ""), phase := Leaving)
    case Release => s.(aof := s.aof.(running := false), phase := Idle)
    case FsyncTick => s.(aof := s.aof.(synced := |s.aof.file|))
    case Crash(at) =>
      Sys(ReplayFile(Empty(0), s.aof.file, at),
          s.aof.(rewriting := false, rewriteBuf := "", running := false), Idle, s.lines, 0, s.lines)
  }

  ghost predicate Runs(s: Sys, es: seq<Event>)
    decreases |es|
  {
    es == [] || (Enabled(s, es[0]) && Timely(s, es[0]) && Runs(Step(s, es[0]), es[1..]))
  }

  ghost function After(s: Sys, es: seq<Event>): Sys
    requires Runs(s, es)
    decreases |es|
  {
    if es == [] then s else After(Step(s, es[0]), es[1..])
  }
}
