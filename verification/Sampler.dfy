/** What a client can see of the sampling expirer. */
module Sampler {
  import opened Basics
  import opened Strconv
  import opened Sums
  import opened StoreSpec
  import opened StoreProofs
  import opened Commands
  import opened SnapshotProofs
  import opened Keyspace
  import opened Stores

  ghost function Live(data: map<Bytes, Entry>, now: int): map<Bytes, Entry> {
    map k | k in data && !Due(data[k], now) :: data[k]
  }

  /** Stores that agree on everything but strings already due. */
  ghost predicate Agree(a: State, b: State, now: int) {
    a.lists == b.lists && a.hashes == b.hashes && a.maxMemory <= 0 && b.maxMemory <= 0
    && Live(a.data, now) == Live(b.data, now)
  }

  datatype Action =
    | Get(key: Bytes)
    | Ttl(key: Bytes)
    | Exists(keys: seq<Bytes>)
    | Keys(pattern: Bytes)
    | Scan(cursor: Int, pattern: Bytes, count: Int)
    | Mutate(op: Op, args: seq<Bytes>)
    | Tick(removed: set<Bytes>)

  datatype Timed = Timed(action: Action, now: int)

  /** What the client is told. The count DEL answers is left open. */
  datatype Seen = Text(value: Option<Bytes>) | Count(n: int) | Bag(keys: multiset<Bytes>) | PageOf(page: Page)
    | Answer(reply: Reply) | Nothing

  predicate Blind(op: Op) {
    op.SET? || op.DEL? || op.LPUSH? || op.RPUSH? || op.HSET? || op.HDEL? || op.FLUSHALL?
  }

  /** A tick removes some strings that are due; the counter commands and EXPIRE
      are left out. */
  ghost predicate Allowed(st: State, e: Timed) {
    match e.action
    case Mutate(op, _) => Blind(op)
    case Tick(removed) => forall k :: k in removed ==> k in st.data && Due(st.data[k], e.now)
    case _ => true
  }

  ghost function Next(st: State, e: Timed): State {
    match e.action
    case Get(key) => AfterRead(st, key, e.now)
    case Ttl(key) => AfterRead(st, key, e.now)
    case Exists(keys) => Reaped(st, DueAmong(st, keys, e.now))
    case Mutate(op, args) => Handle(st, op, args, e.now).state
    case Tick(removed) => Reaped(st, removed)
    case _ => st
  }

  ghost function See(st: State, e: Timed): Seen {
    match e.action
    case Get(key) => Text(Lookup(st, key, e.now))
    case Ttl(key) => Count(RemainingSeconds(st, key, e.now))
    case Exists(keys) => Count(CountPresent(st, keys, e.now))
    case Keys(pattern) => Bag(multiset(Matching(pattern, SortedOf(KeysBag(st, e.now)))))
    case Scan(cursor, pattern, count) => PageOf(ScanPage(SortedOf(ScanBag(st, e.now)), cursor, pattern, count))
    case Mutate(op, args) => if op.DEL? then Nothing else Answer(Handle(st, op, args, e.now).reply)
    case Tick(_) => Nothing
  }

  // ----- one step

  lemma AgreeOnKey(a: State, b: State, key: Bytes, now: int)
    requires Agree(a, b, now)
    ensures Lookup(a, key, now) == Lookup(b, key, now)
    ensures RemainingSeconds(a, key, now) == RemainingSeconds(b, key, now)
    ensures Present(a, key, now) == Present(b, key, now)
  {
    assert key in Live(a.data, now) <==> key in Live(b.data, now);
    assert key in Live(a.data, now) ==> Live(a.data, now)[key] == Live(b.data, now)[key];
  }

  lemma {:induction false} AgreeOnCount(a: State, b: State, keys: seq<Bytes>, now: int)
    requires Agree(a, b, now)
    ensures CountPresent(a, keys, now) == CountPresent(b, keys, now)
  {
    if keys != [] {
      AgreeOnKey(a, b, keys[|keys| - 1], now);
      hide Agree;
      AgreeOnCount(a, b, keys[..|keys| - 1], now);
    }
  }

  lemma AgreeOnBags(a: State, b: State, now: int)
    requires Agree(a, b, now)
    ensures KeysBag(a, now) == KeysBag(b, now) && ScanBag(a, now) == ScanBag(b, now)
  {
    var live := Live(a.data, now);
    FromLive(a, now);
    FromLive(b, now);
    assert live == Live(b.data, now);
  }

  /** Both listings read only the strings that are not due. */
  lemma FromLive(a: State, now: int)
    ensures var live := Live(a.data, now);
      && (set k | k in a.data && !Due(a.data[k], now)) == live.Keys
      && (set k | k in a.data && (a.data[k].expiresAt.None? || now < a.data[k].expiresAt.value))
         == (set k | k in live && (live[k].expiresAt.None? || now < live[k].expiresAt.value))
  {
  }

  lemma ReapAgrees(a: State, keys: set<Bytes>, now: int)
    requires a.maxMemory <= 0
    requires forall k :: k in keys && k in a.data ==> Due(a.data[k], now)
    ensures Agree(Reaped(a, keys), a, now)
  {
    assert Live(a.data - keys, now) == Live(a.data, now);
  }

  lemma MutateAgrees(a: State, b: State, op: Op, args: seq<Bytes>, now: int)
    requires Agree(a, b, now) && Blind(op)
    ensures Agree(Handle(a, op, args, now).state, Handle(b, op, args, now).state, now)
    ensures !op.DEL? ==> Handle(a, op, args, now).reply == Handle(b, op, args, now).reply
  {
    hide Agree, Handle;
    match op
    case SET => SetAgrees(a, b, args, now);
    case DEL => DelAgrees(a, b, args, now);
    case FLUSHALL => FlushAgrees(a, b, args, now);
    case LPUSH => PushAgrees(a, b, op, args, now);
    case RPUSH => PushAgrees(a, b, op, args, now);
    case HSET => HSetAgrees(a, b, args, now);
    case HDEL => HDelAgrees(a, b, args, now);
  }

  lemma SetAgrees(a: State, b: State, args: seq<Bytes>, now: int)
    requires Agree(a, b, now)
    ensures Agree(Handle(a, SET, args, now).state, Handle(b, SET, args, now).state, now)
    ensures Handle(a, SET, args, now).reply == Handle(b, SET, args, now).reply
  {
    hide SetTTL, Live, Memory, Stored;
    if |args| >= 2 && SetTTL(0, args[2..]).TTL? {
      StoreAgrees(a, b, args[0], args[1], SetTTL(0, args[2..]).ttl, now);
    }
  }

  lemma DelAgrees(a: State, b: State, args: seq<Bytes>, now: int)
    requires Agree(a, b, now)
    ensures Agree(Handle(a, DEL, args, now).state, Handle(b, DEL, args, now).state, now)
  {
    hide Agree, Removed, Holds;
    RemoveAgrees(a, b, ToSet(args), now);
  }

  lemma PushAgrees(a: State, b: State, op: Op, args: seq<Bytes>, now: int)
    requires Agree(a, b, now) && (op.LPUSH? || op.RPUSH?)
    ensures Agree(Handle(a, op, args, now).state, Handle(b, op, args, now).state, now)
    ensures Handle(a, op, args, now).reply == Handle(b, op, args, now).reply
  {
    hide SetTTL, Live, Memory, Reverse, SetFields;
  }

  lemma HSetAgrees(a: State, b: State, args: seq<Bytes>, now: int)
    requires Agree(a, b, now)
    ensures Agree(Handle(a, HSET, args, now).state, Handle(b, HSET, args, now).state, now)
    ensures Handle(a, HSET, args, now).reply == Handle(b, HSET, args, now).reply
  {
    hide SetTTL, Live, Memory, Reverse, SetFields, SumLen;
  }

  lemma HDelAgrees(a: State, b: State, args: seq<Bytes>, now: int)
    requires Agree(a, b, now)
    ensures Agree(Handle(a, HDEL, args, now).state, Handle(b, HDEL, args, now).state, now)
    ensures Handle(a, HDEL, args, now).reply == Handle(b, HDEL, args, now).reply
  {
    hide SetTTL, Live, Memory, Reverse, SetFields, SumLen, ToSet;
  }

  lemma FlushAgrees(a: State, b: State, args: seq<Bytes>, now: int)
    requires Agree(a, b, now)
    ensures Agree(Handle(a, FLUSHALL, args, now).state, Handle(b, FLUSHALL, args, now).state, now)
    ensures Handle(a, FLUSHALL, args, now).reply == Handle(b, FLUSHALL, args, now).reply
  {
  }

  lemma StoreAgrees(a: State, b: State, key: Bytes, value: Bytes, ttl: int, now: int)
    requires Agree(a, b, now)
    ensures Agree(Stored(a, key, value, ttl, now), Stored(b, key, value, ttl, now), now)
  {
    LivePut(a.data, key, Entry(value, if ttl > 0 then Some(now + ttl) else None), now);
    LivePut(b.data, key, Entry(value, if ttl > 0 then Some(now + ttl) else None), now);
  }

  lemma LivePut(data: map<Bytes, Entry>, key: Bytes, e: Entry, now: int)
    requires !Due(e, now)
    ensures Live(data[key := e], now) == Live(data, now)[key := e]
  {
  }

  lemma RemoveAgrees(a: State, b: State, keys: set<Bytes>, now: int)
    requires Agree(a, b, now)
    ensures Agree(Removed(a, keys), Removed(b, keys), now)
  {
    assert Live(a.data - keys, now) == Live(a.data, now) - keys;
    assert Live(b.data - keys, now) == Live(b.data, now) - keys;
  }

  lemma SeeAgrees(a: State, b: State, e: Timed)
    requires Agree(a, b, e.now) && Allowed(a, e)
    ensures See(a, e) == See(b, e)
  {
    AgreeOnBags(a, b, e.now);
    hide Live, ScanBag, KeysBag, Lookup, RemainingSeconds, CountPresent, Handle;
    match e.action
    case Get(key) => AgreeOnKey(a, b, key, e.now);
    case Ttl(key) => AgreeOnKey(a, b, key, e.now);
    case Exists(keys) => AgreeOnCount(a, b, keys, e.now);
    case Mutate(op, args) => MutateAgrees(a, b, op, args, e.now);
    case _ =>
  }

  lemma AgreeSymmetric(a: State, b: State, now: int)
    requires Agree(a, b, now)
    ensures Agree(b, a, now)
  {
  }

  lemma AgreeTransitive(a: State, b: State, c: State, now: int)
    requires Agree(a, b, now) && Agree(b, c, now)
    ensures Agree(a, c, now)
  {
  }

  /** What a read or a tick leaves agrees with what it found. */
  lemma QuietAgrees(a: State, e: Timed)
    requires a.maxMemory <= 0 && Allowed(a, e) && !e.action.Mutate?
    ensures Agree(Next(a, e), a, e.now)
  {
    match e.action
    case Get(key) => ReapAgrees(a, {}, e.now); ReapAgrees(a, if Next(a, e) == a then {} else {key}, e.now);
    case Ttl(key) => ReapAgrees(a, {}, e.now); ReapAgrees(a, if Next(a, e) == a then {} else {key}, e.now);
    case Exists(keys) => ReapAgrees(a, DueAmong(a, keys, e.now), e.now);
    case Tick(removed) => ReapAgrees(a, removed, e.now);
    case _ => ReapAgrees(a, {}, e.now);
  }

  lemma NextAgrees(a: State, b: State, e: Timed)
    requires Agree(a, b, e.now) && Allowed(a, e)
    ensures !e.action.Tick? ==> Agree(Next(a, e), Next(b, e), e.now)
    ensures e.action.Tick? ==> Agree(Next(a, e), b, e.now)
  {
    hide Live, Handle;
    match e.action
    case Mutate(op, args) => MutateAgrees(a, b, op, args, e.now);
    case Tick(_) =>
      QuietAgrees(a, e);
      AgreeTransitive(Next(a, e), a, b, e.now);
    case _ =>
      QuietAgrees(a, e);
      QuietAgrees(b, e);
      hide Agree, Next;
      AgreeTransitive(Next(a, e), a, b, e.now);
      AgreeSymmetric(Next(b, e), b, e.now);
      AgreeTransitive(Next(a, e), b, Next(b, e), e.now);
  }

  /** Agreement survives the passing of time. */
  lemma AgreeLater(a: State, b: State, now: int, later: int)
    requires Agree(a, b, now) && now <= later
    ensures Agree(a, b, later)
  {
    var la, lb := Live(a.data, now), Live(b.data, now);
    assert Live(a.data, later) == map k | k in la && !Due(la[k], later) :: la[k];
    assert Live(b.data, later) == map k | k in lb && !Due(lb[k], later) :: lb[k];
  }

  // ----- whole runs

  ghost predicate Runs(st: State, es: seq<Timed>, from: int)
    decreases |es|
  {
    es == [] || (from <= es[0].now && Allowed(st, es[0]) && Runs(Next(st, es[0]), es[1..], es[0].now))
  }

  ghost function Replies(st: State, es: seq<Timed>): seq<Seen>
    decreases |es|
  {
    if es == [] then []
    else (if es[0].action.Tick? then [] else [See(st, es[0])]) + Replies(Next(st, es[0]), es[1..])
  }

  function WithoutTicks(es: seq<Timed>): seq<Timed> {
    if es == [] then []
    else (if es[0].action.Tick? then [] else [es[0]]) + WithoutTicks(es[1..])
  }

  /** The sampler is unobservable: wherever its ticks fall in a run and
      whatever due strings they pick, the client is told the same as without
      any tick. */
  lemma {:induction false} TicksAreUnobservable(a: State, b: State, es: seq<Timed>, from: int)
    requires Agree(a, b, from) && Runs(a, es, from)
    ensures Replies(a, es) == Replies(b, WithoutTicks(es))
    decreases |es|
  {
    if es != [] {
      var e := es[0];
      hide Agree, Allowed, Next, See;
      AgreeLater(a, b, from, e.now);
      NextAgrees(a, b, e);
      if e.action.Tick? {
        TicksAreUnobservable(Next(a, e), b, es[1..], e.now);
        assert [] + WithoutTicks(es[1..]) == WithoutTicks(es[1..]);
      } else {
        SeeAgrees(a, b, e);
        TicksAreUnobservable(Next(a, e), Next(b, e), es[1..], e.now);
        assert ([e] + WithoutTicks(es[1..]))[1..] == WithoutTicks(es[1..]);
      }
    }
  }

  // ----- why the counter commands and EXPIRE are left out

  predicate Counts(op: Op, args: seq<Bytes>) {
    if op.INCR? || op.DECR? then |args| == 1
    else (op.INCRBY? || op.DECRBY?) && |args| == 2 && Atoi(args[1]).Some?
  }

  /** What an accepted counter command adds. */
  function Delta(op: Op, args: seq<Bytes>): Int
    requires Counts(op, args)
  {
    if op.INCR? then 1
    else if op.DECR? then -1
    else if op.INCRBY? then Atoi(args[1]).value
    else Negate(Atoi(args[1]).value)
  }

  /** The counter commands keep the deadline of a string that is due but still
      there. Their reply does not show a tick that ran before, but the store they
      leave does, exactly when the tick removed the string counted. */
  lemma IncrSeesTick(st: State, op: Op, args: seq<Bytes>, removed: set<Bytes>, now: int)
    requires st.maxMemory <= 0 && Counts(op, args)
    requires forall k :: k in removed ==> k in st.data && Due(st.data[k], now)
    ensures var without, after := Handle(st, op, args, now), Handle(Reaped(st, removed), op, args, now);
      && without.reply == after.reply
      && (Agree(without.state, after.state, now) <==> args[0] !in removed)
  {
    hide Handle, Agree, Counted, Reaped, Counter, Delta, Wrap;
    CounterSeesNoTick(st, args[0], removed, now);
    ReapAgrees(st, removed, now);
    AgreeSymmetric(Reaped(st, removed), st, now);
    ReapedCeiling(st, removed);
    CountEffect(st, op, args, now);
    CountEffect(Reaped(st, removed), op, args, now);
    var n := Counter(st, args[0], now);
    if n.Some? {
      CountedSeesTick(st, args[0], Wrap(n.value + Delta(op, args)), removed, now);
    }
  }

  lemma CountEffect(st: State, op: Op, args: seq<Bytes>, now: int)
    requires st.maxMemory <= 0 && Counts(op, args)
    ensures var h, n := Handle(st, op, args, now), Counter(st, args[0], now);
      && (n.None? ==> h.state == st && h.reply == Problem(NotAnInteger))
      && (n.Some? ==>
            var r := Wrap(n.value + Delta(op, args));
            h.state == Counted(st, args[0], r) && h.reply == Number(r))
  {
    hide Counter, Counted, Itoa, Atoi, Wrap, Memory;
  }

  lemma ReapedCeiling(st: State, removed: set<Bytes>)
    ensures Reaped(st, removed).maxMemory == st.maxMemory
  {
  }

  lemma CounterSeesNoTick(st: State, key: Bytes, removed: set<Bytes>, now: int)
    requires forall k :: k in removed ==> k in st.data && Due(st.data[k], now)
    ensures Counter(st, key, now) == Counter(Reaped(st, removed), key, now)
    ensures key in removed ==> Counter(st, key, now).Some?
  {
  }

  lemma CountedSeesTick(st: State, key: Bytes, n: Int, removed: set<Bytes>, now: int)
    requires st.maxMemory <= 0
    requires forall k :: k in removed ==> k in st.data && Due(st.data[k], now)
    ensures Agree(Counted(st, key, n), Counted(Reaped(st, removed), key, n), now) <==> key !in removed
  {
    var a, b := Counted(st, key, n), Counted(Reaped(st, removed), key, n);
    ReapAgrees(st, removed, now);
    if key in removed {
      assert key !in Live(a.data, now) && key in Live(b.data, now);
    } else if key in st.data && Due(st.data[key], now) {
      assert a.data[key].expiresAt == b.data[key].expiresAt;
      assert forall k :: k in Live(a.data, now) <==> k in Live(b.data, now);
      assert Live(a.data, now) == Live(b.data, now);
    } else {
      var e := a.data[key];
      LivePut(st.data, key, e, now);
      LivePut(st.data - removed, key, e, now);
    }
  }

  /** EXPIRE does not look at whether the string is due: it answers differently
      exactly when a tick removed the string it names. */
  lemma ExpireSeesTick(st: State, args: seq<Bytes>, removed: set<Bytes>, now: int)
    requires forall k :: k in removed ==> k in st.data && Due(st.data[k], now)
    requires |args| == 2 && Atoi(args[1]).Some?
    ensures Handle(st, EXPIRE, args, now).reply == Handle(Reaped(st, removed), EXPIRE, args, now).reply
      <==> args[0] !in removed
  {
  }

  /** DEL counts due strings that are still there: its answer changes exactly when
      a tick removed one it names that was not also a list or a hash. */
  lemma DelSeesTick(st: State, args: seq<Bytes>, removed: set<Bytes>, now: int)
    requires args != []
    requires forall k :: k in removed ==> k in st.data && Due(st.data[k], now)
    ensures Handle(st, DEL, args, now).reply == Handle(Reaped(st, removed), DEL, args, now).reply
      <==> forall k :: k in args && k in removed ==> k in st.lists || k in st.hashes
  {
    var a, b := set k | k in args && Holds(st, k), set k | k in args && Holds(Reaped(st, removed), k);
    assert b <= a;
    SameSize(a, b);
    hide Handle;
    DelReply(st, args, now);
    DelReply(Reaped(st, removed), args, now);
    forall k | k in args && k in removed ensures k in a && (k in b <==> k in st.lists || k in st.hashes) {
    }
  }

  lemma DelReply(st: State, args: seq<Bytes>, now: int)
    requires args != []
    ensures Handle(st, DEL, args, now).reply == Number(|set k | k in args && Holds(st, k)|)
  {
  }

  lemma SameSize(a: set<Bytes>, b: set<Bytes>)
    requires b <= a
    ensures |a| == |b| <==> a == b
  {
    assert a == b + (a - b);
  }

  // ----- under a ceiling

  /** The argument lists the writing commands accept. */
  predicate Accepted(op: Op, args: seq<Bytes>) {
    match op
    case SET => |args| >= 2 && SetTTL(0, args[2..]).TTL?
    case LPUSH => |args| >= 2
    case RPUSH => |args| >= 2
    case HSET => |args| >= 3 && |args| % 2 == 1
    case _ => false
  }

  /** What the ceiling check of a writing command asks for. */
  function Need(op: Op, args: seq<Bytes>): nat
    requires Accepted(op, args)
  {
    |args[0]| + if op.SET? then |args[1]| else SumLen(args[1..])
  }

  /** The bytes a tick gave back. */
  ghost function Freed(st: State, removed: set<Bytes>): nat {
    Total(Picked(st.data, removed), EntryLen)
  }

  /** Under a ceiling a tick can be seen by a command that writes: it is refused
      without the tick and accepted after it exactly when the bytes the tick gave
      back are the ones that were missing. Otherwise it is told the same. */
  lemma CeilingSeesTick(st: State, op: Op, args: seq<Bytes>, removed: set<Bytes>, now: int)
    requires Accepted(op, args)
    requires forall k :: k in removed ==> k in st.data && Due(st.data[k], now)
    ensures Handle(st, op, args, now).reply != Handle(Reaped(st, removed), op, args, now).reply
      <==> st.maxMemory > 0 && st.maxMemory < Memory(st) + Need(op, args) <= st.maxMemory + Freed(st, removed)
  {
    hide Handle, Reaped, Accepted, Need, Memory, Freed;
    ReapedCeiling(st, removed);
    ReapedMemory(st, removed);
    WriteReply(st, op, args, now);
    WriteReply(Reaped(st, removed), op, args, now);
    if Fits(Reaped(st, removed), Need(op, args)) && Fits(st, Need(op, args)) {
      SameAnswer(st, op, args, removed, now);
    }
  }

  /** The counter commands make the same check for the number they would store: with
      a tick they are told something else exactly when the bytes it gave back are
      the ones that were missing. */
  lemma CeilingSeesTickCounting(st: State, op: Op, args: seq<Bytes>, removed: set<Bytes>, now: int)
    requires Counts(op, args)
    requires forall k :: k in removed ==> k in st.data && Due(st.data[k], now)
    ensures var n := Counter(st, args[0], now);
      Handle(st, op, args, now).reply != Handle(Reaped(st, removed), op, args, now).reply
      <==> n.Some? && st.maxMemory > 0
           && st.maxMemory < Memory(st) + |args[0]| + |Itoa(Wrap(n.value + Delta(op, args)))|
                          <= st.maxMemory + Freed(st, removed)
  {
    hide Handle, Reaped, Counter, Delta, Memory, Freed, Itoa, Wrap;
    ReapedCeiling(st, removed);
    ReapedMemory(st, removed);
    CounterSeesNoTick(st, args[0], removed, now);
    CountReply(st, op, args, now);
    CountReply(Reaped(st, removed), op, args, now);
  }

  lemma CountReply(st: State, op: Op, args: seq<Bytes>, now: int)
    requires Counts(op, args)
    ensures Handle(st, op, args, now).reply ==
      match Counter(st, args[0], now)
      case None => Problem(NotAnInteger)
      case Some(n) =>
        var r := Wrap(n + Delta(op, args));
        if Fits(st, |args[0]| + |Itoa(r)|) then Number(r) else Problem(OutOfMemory)
  {
    hide Counter, Counted, Fits, Itoa, Atoi, Wrap;
  }

  lemma ReapedMemory(st: State, removed: set<Bytes>)
    requires forall k :: k in removed ==> k in st.data
    ensures Memory(st) == Memory(Reaped(st, removed)) + Freed(st, removed)
  {
    TotalSplit(st.data, EntryLen, removed);
  }

  lemma WriteReply(st: State, op: Op, args: seq<Bytes>, now: int)
    requires Accepted(op, args)
    ensures Handle(st, op, args, now).reply == Problem(OutOfMemory) <==> !Fits(st, Need(op, args))
  {
    hide Fits, SumLen, SetTTL, SetFields, Stored, PushedLeft, PushedRight, FieldsSet;
  }

  /** An accepted write answers from the lists and hashes, which a tick does not touch. */
  lemma SameAnswer(st: State, op: Op, args: seq<Bytes>, removed: set<Bytes>, now: int)
    requires Accepted(op, args) && Fits(st, Need(op, args)) && Fits(Reaped(st, removed), Need(op, args))
    ensures Handle(st, op, args, now).reply == Handle(Reaped(st, removed), op, args, now).reply
  {
    hide Fits, SumLen, SetTTL, SetFields, Stored, Reverse;
  }

  // ----- what a client can be told

  const LATE: int := MILLISECOND + 1

  /** The store that SET k 5 PX 1 leaves, after a tick just past its deadline. */
  function Ticked(ceiling: int): State {
    Reaped(BriefStore(ceiling), {"k"})
  }

  /** SET k 5 PX 1, and past its deadline a tick or none: what GET answers after an
      INCR, what EXPIRE and DEL answer, and under a ceiling of two bytes a SET. */
  lemma TicksShow()
    ensures Handle(Empty(0), SET, ["k", "5", "PX", Itoa(1)], 0).state == BriefStore(0)
    ensures Handle(Empty(2), SET, ["k", "5", "PX", Itoa(1)], 0).state == BriefStore(2)
    ensures ShowsToGet(BriefStore(0), None) && ShowsToGet(Ticked(0), Some(Itoa(1)))
    ensures ShowsTo(BriefStore(0), EXPIRE, ["k", Itoa(10)], Number(1))
    ensures ShowsTo(Ticked(0), EXPIRE, ["k", Itoa(10)], Number(0))
    ensures ShowsTo(BriefStore(0), DEL, ["k"], Number(1)) && ShowsTo(Ticked(0), DEL, ["k"], Number(0))
    ensures ShowsTo(BriefStore(2), SET, ["a", "b"], Problem(OutOfMemory))
    ensures ShowsTo(Ticked(2), SET, ["a", "b"], Okay)
  {
    hide Itoa, Handle, ShowsToGet, ShowsTo, Ticked;
    BriefSet(0);
    BriefSet(2);
    IncrShows();
    ExpireAndDelShow();
    SetShows();
  }

  ghost predicate ShowsTo(st: State, op: Op, args: seq<Bytes>, reply: Reply) {
    Handle(st, op, args, LATE).reply == reply
  }

  /** What GET k answers after INCR k. */
  ghost predicate ShowsToGet(st: State, value: Option<Bytes>) {
    Lookup(Handle(st, INCR, ["k"], LATE).state, "k", LATE) == value
  }

  lemma IncrShows()
    ensures ShowsToGet(BriefStore(0), None) && ShowsToGet(Ticked(0), Some(Itoa(1)))
  {
    hide Itoa, Atoi, Memory;
  }

  lemma ExpireAndDelShow()
    ensures ShowsTo(BriefStore(0), EXPIRE, ["k", Itoa(10)], Number(1))
    ensures ShowsTo(Ticked(0), EXPIRE, ["k", Itoa(10)], Number(0))
    ensures ShowsTo(BriefStore(0), DEL, ["k"], Number(1)) && ShowsTo(Ticked(0), DEL, ["k"], Number(0))
  {
    AtoiItoa(10);
    hide Itoa, Atoi, Memory;
    assert (set k | k in ["k"] && Holds(BriefStore(0), k)) == {"k"};
    assert (set k | k in ["k"] && Holds(Ticked(0), k)) == {};
  }

  lemma SetShows()
    ensures ShowsTo(BriefStore(2), SET, ["a", "b"], Problem(OutOfMemory))
    ensures ShowsTo(Ticked(2), SET, ["a", "b"], Okay)
  {
    hide Memory, Stored;
    BriefMemory();
    EmptyMemory(2);
    assert Ticked(2) == Empty(2);
    assert ["a", "b"][2..] == [];
  }

  lemma BriefMemory()
    ensures Memory(BriefStore(2)) == 2
  {
    EmptyMemory(2);
    TotalPut(map[], EntryLen, "k", Entry("5", Some(MILLISECOND)));
  }
}
