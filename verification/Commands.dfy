/** The mutating commands: what a handler executes and logs, and what a replay
    of the log executes. */
module Commands {
  import opened Basics
  import opened Strconv
  import opened Sums
  import opened StoreSpec
  import opened Resp

  datatype Op = SET | DEL | EXPIRE | INCR | DECR | INCRBY | DECRBY | LPUSH | RPUSH | HSET | HDEL | FLUSHALL

  function Name(op: Op): Bytes {
    match op
    case SET => "SET" case DEL => "DEL" case EXPIRE => "EXPIRE"
    case INCR => "INCR" case DECR => "DECR" case INCRBY => "INCRBY" case DECRBY => "DECRBY"
    case LPUSH => "LPUSH" case RPUSH => "RPUSH"
    case HSET => "HSET" case HDEL => "HDEL" case FLUSHALL => "FLUSHALL"
  }

  function OpOf(name: Bytes): Option<Op> {
    if name == "SET" then Some(SET)
    else if name == "DEL" then Some(DEL)
    else if name == "EXPIRE" then Some(EXPIRE)
    else if name == "INCR" then Some(INCR)
    else if name == "DECR" then Some(DECR)
    else if name == "INCRBY" then Some(INCRBY)
    else if name == "DECRBY" then Some(DECRBY)
    else if name == "LPUSH" then Some(LPUSH)
    else if name == "RPUSH" then Some(RPUSH)
    else if name == "HSET" then Some(HSET)
    else if name == "HDEL" then Some(HDEL)
    else if name == "FLUSHALL" then Some(FLUSHALL)
    else None
  }

  lemma OpOfName(op: Op)
    ensures OpOf(Upper(Name(op))) == Some(op)
  {
    assert Upper(Name(op)) == Name(op);
  }

  // ----- the options of SET

  datatype Expiry = TTL(ttl: Int) | BadSyntax | BadNumber

  /** The unit an option names, in nanoseconds. */
  function Unit(option: Bytes): Option<int> {
    if Upper(option) == "EX" then Some(SECOND)
    else if Upper(option) == "PX" then Some(MILLISECOND)
    else None
  }

  /** The time to live a SET asks for, given the one its earlier options asked for. */
  function SetTTL(ttl: Int, rest: seq<Bytes>): Expiry
    decreases |rest|
  {
    if rest == [] then TTL(ttl)
    else if Unit(rest[0]).None? || |rest| == 1 then BadSyntax
    else if Atoi(rest[1]).None? then BadNumber
    else SetTTL(Wrap(Atoi(rest[1]).value * Unit(rest[0]).value), rest[2..])
  }

  // ----- replay

  datatype Effect = Effect(state: State, ok: bool)

  ghost function IncrEffect(st: State, key: Bytes, delta: Int, now: int): Effect {
    match Counter(st, key, now)
    case None => Effect(st, false)
    case Some(n) =>
      var r := Wrap(n + delta);
      if Fits(st, |key| + |Itoa(r)|) then Effect(Counted(st, key, r), true) else Effect(st, false)
  }

  /** replayCommand: a refused or malformed command changes nothing. */
  ghost function ReplayEffect(st: State, op: Op, args: seq<Bytes>, now: int): Effect {
    match op
    case SET =>
      if |args| < 2 then Effect(st, false)
      else
        var e := SetTTL(0, args[2..]);
        if e.TTL? && Fits(st, |args[0]| + |args[1]|) then
          Effect(Stored(st, args[0], args[1], e.ttl, now), true)
        else Effect(st, false)
    case DEL =>
      if |args| < 1 then Effect(st, false) else Effect(Removed(st, ToSet(args)), true)
    case EXPIRE =>
      if |args| != 2 || Atoi(args[1]).None? then Effect(st, false)
      else if args[0] !in st.data then Effect(st, true)
      else Effect(WithDeadline(st, args[0], now + Wrap(Atoi(args[1]).value * SECOND)), true)
    case INCR => if |args| != 1 then Effect(st, false) else IncrEffect(st, args[0], 1, now)
    case DECR => if |args| != 1 then Effect(st, false) else IncrEffect(st, args[0], -1, now)
    case INCRBY =>
      if |args| != 2 || Atoi(args[1]).None? then Effect(st, false)
      else IncrEffect(st, args[0], Atoi(args[1]).value, now)
    case DECRBY =>
      if |args| != 2 || Atoi(args[1]).None? then Effect(st, false)
      else IncrEffect(st, args[0], Negate(Atoi(args[1]).value), now)
    case LPUSH =>
      if |args| < 2 || !Fits(st, |args[0]| + SumLen(args[1..])) then Effect(st, false)
      else Effect(PushedLeft(st, args[0], args[1..]), true)
    case RPUSH =>
      if |args| < 2 || !Fits(st, |args[0]| + SumLen(args[1..])) then Effect(st, false)
      else Effect(PushedRight(st, args[0], args[1..]), true)
    case HSET =>
      if |args| < 3 || |args| % 2 == 0 || !Fits(st, |args[0]| + SumLen(args[1..])) then Effect(st, false)
      else Effect(FieldsSet(st, args[0], args[1..]), true)
    case HDEL =>
      if |args| < 2 then Effect(st, false)
      else Effect(FieldsDeleted(st, args[0], ToSet(args[1..])), true)
    case FLUSHALL => Effect(Empty(st.maxMemory), true)
  }

  /** One entry of the log. An unknown name is skipped. */
  ghost function ReplayLine(st: State, line: seq<Bytes>, now: int): Effect
    requires line != []
  {
    match OpOf(Upper(line[0]))
    case None => Effect(st, false)
    case Some(op) => ReplayEffect(st, op, line[1..], now)
  }

  /** A whole log, with the clock standing still. */
  ghost function ReplayLines(st: State, lines: seq<seq<Bytes>>, now: int): State
    decreases |lines|
  {
    if lines == [] then st
    else ReplayLines(if lines[0] == [] then st else ReplayLine(st, lines[0], now).state, lines[1..], now)
  }

  /** What a replay of a file rebuilds. */
  ghost function ReplayFile(st: State, file: string, now: int): State {
    ReplayLines(st, Entries(file), now)
  }

  // ----- live execution

  datatype Complaint = WrongArity | SyntaxError | NotAnInteger | OutOfMemory

  datatype Reply = Okay | Number(n: int) | Problem(why: Complaint)

  /** What a handler leaves: the store, the arguments it logged if it logged,
      and its reply. */
  datatype Handled = Handled(state: State, logged: Option<seq<Bytes>>, reply: Reply)

  ghost function Refuse(st: State, why: Complaint): Handled {
    Handled(st, None, Problem(why))
  }

  ghost function HandleIncr(st: State, args: seq<Bytes>, delta: Int, now: int): Handled
    requires args != []
  {
    var n := Counter(st, args[0], now);
    if n.None? then Refuse(st, NotAnInteger)
    else
      var r := Wrap(n.value + delta);
      if !Fits(st, |args[0]| + |Itoa(r)|) then Refuse(st, OutOfMemory)
      else Handled(Counted(st, args[0], r), Some(args), Number(r))
  }

  ghost function Handle(st: State, op: Op, args: seq<Bytes>, now: int): Handled {
    match op
    case SET =>
      if |args| < 2 then Refuse(st, WrongArity)
      else
        (match SetTTL(0, args[2..])
         case BadSyntax => Refuse(st, SyntaxError)
         case BadNumber => Refuse(st, NotAnInteger)
         case TTL(ttl) =>
           if !Fits(st, |args[0]| + |args[1]|) then Refuse(st, OutOfMemory)
           else Handled(Stored(st, args[0], args[1], ttl, now), Some(args), Okay))
    case DEL =>
      if |args| < 1 then Refuse(st, WrongArity)
      else Handled(Removed(st, ToSet(args)), Some(args), Number(|set k | k in args && Holds(st, k)|))
    case EXPIRE =>
      if |args| != 2 then Refuse(st, WrongArity)
      else if Atoi(args[1]).None? then Refuse(st, NotAnInteger)
      else if args[0] !in st.data then Handled(st, None, Number(0))
      else
        var deadline := now + Wrap(Atoi(args[1]).value * SECOND);
        Handled(WithDeadline(st, args[0], deadline), Some(args), Number(1))
    case INCR => if |args| != 1 then Refuse(st, WrongArity) else HandleIncr(st, args, 1, now)
    case DECR => if |args| != 1 then Refuse(st, WrongArity) else HandleIncr(st, args, -1, now)
    case INCRBY =>
      if |args| != 2 then Refuse(st, WrongArity)
      else if Atoi(args[1]).None? then Refuse(st, NotAnInteger)
      else HandleIncr(st, args, Atoi(args[1]).value, now)
    case DECRBY =>
      if |args| != 2 then Refuse(st, WrongArity)
      else if Atoi(args[1]).None? then Refuse(st, NotAnInteger)
      else HandleIncr(st, args, Negate(Atoi(args[1]).value), now)
    case LPUSH =>
      if |args| < 2 then Refuse(st, WrongArity)
      else if !Fits(st, |args[0]| + SumLen(args[1..])) then Refuse(st, OutOfMemory)
      else
        var st' := PushedLeft(st, args[0], args[1..]);
        Handled(st', Some(args), Number(|st'.lists[args[0]]|))
    case RPUSH =>
      if |args| < 2 then Refuse(st, WrongArity)
      else if !Fits(st, |args[0]| + SumLen(args[1..])) then Refuse(st, OutOfMemory)
      else
        var st' := PushedRight(st, args[0], args[1..]);
        Handled(st', Some(args), Number(|st'.lists[args[0]]|))
    case HSET =>
      if |args| < 3 || |args| % 2 == 0 then Refuse(st, WrongArity)
      else if !Fits(st, |args[0]| + SumLen(args[1..])) then Refuse(st, OutOfMemory)
      else
        var st' := FieldsSet(st, args[0], args[1..]);
        Handled(st', Some(args), Number(|st'.hashes[args[0]]| - |HashAt(st, args[0])|))
    case HDEL =>
      if |args| < 2 then Refuse(st, WrongArity)
      else
        var gone := HashAt(st, args[0]).Keys * ToSet(args[1..]);
        Handled(FieldsDeleted(st, args[0], ToSet(args[1..])), Some(args), Number(|gone|))
    case FLUSHALL => Handled(Empty(st.maxMemory), Some([]), Okay)
  }

  function LogLine(op: Op, args: seq<Bytes>): seq<Bytes> {
    [Name(op)] + args
  }

  lemma ReplayLogLine(st: State, op: Op, args: seq<Bytes>, now: int)
    ensures ReplayLine(st, LogLine(op, args), now) == ReplayEffect(st, op, args, now)
  {
    OpOfName(op);
    assert LogLine(op, args)[1..] == args;
  }

  lemma HandledAsReplayed(st: State, op: Op, args: seq<Bytes>, now: int)
    ensures var h := Handle(st, op, args, now);
      && (h.logged.None? ==> h.state == st)
      && (h.logged.Some? ==> ReplayEffect(st, op, h.logged.value, now) == Effect(h.state, true))
      && ReplayEffect(st, op, args, now) == Effect(h.state, !h.reply.Problem?)
      && (h.logged.Some? <==> !h.reply.Problem? && !(op == EXPIRE && args[0] !in st.data))
  {
    hide SetTTL, Fits, Counter, Atoi, Itoa, Negate, Holds, HashAt, Stored, Removed, WithDeadline, Counted, PushedLeft,
      PushedRight, FieldsSet, FieldsDeleted, SumLen, Wrap;
    if op.SET? || op.EXPIRE? { return; }
    if op.INCR? || op.DECR? || op.INCRBY? || op.DECRBY? { return; }
    if op.LPUSH? || op.RPUSH? || op.HSET? { return; }
  }

  /** What is logged are the arguments as given, except that FLUSHALL drops them. */
  lemma LoggedArguments(st: State, op: Op, args: seq<Bytes>, now: int)
    ensures var h := Handle(st, op, args, now);
      h.logged.Some? ==> h.logged.value == if op.FLUSHALL? then [] else args
  {
    hide SetTTL, Fits, Counter, Atoi, Itoa;
  }

  /** Live execution and replay agree. Whatever a handler logs, replaying that
      line on the same store at the same clock succeeds and makes the same
      transition; whatever it does not log left the store unchanged; and replay
      rejects exactly the argument lists the handler answers with an error. */
  lemma LiveIsReplay(st: State, op: Op, args: seq<Bytes>, now: int)
    ensures var h := Handle(st, op, args, now);
      && (h.logged.None? ==> h.state == st)
      && (h.logged.Some? ==> ReplayLine(st, LogLine(op, h.logged.value), now) == Effect(h.state, true))
      && ReplayEffect(st, op, args, now) == Effect(h.state, !h.reply.Problem?)
      && (h.logged.Some? <==> !h.reply.Problem? && !(op == EXPIRE && args[0] !in st.data))
  {
    var h := Handle(st, op, args, now);
    hide ReplayEffect, Handle, LogLine, ReplayLine;
    HandledAsReplayed(st, op, args, now);
    if h.logged.Some? {
      ReplayLogLine(st, op, h.logged.value, now);
    }
  }

  // ----- what SET's option list means

  predicate WellFormedOptions(rest: seq<Bytes>) {
    && |rest| % 2 == 0
    && forall i :: 0 <= i < |rest| / 2 ==> Unit(rest[2 * i]).Some? && Atoi(rest[2 * i + 1]).Some?
  }

  function LastOption(rest: seq<Bytes>): Int
    requires WellFormedOptions(rest) && rest != []
  {
    var i := |rest| / 2 - 1;
    assert rest[2 * i] == rest[|rest| - 2] && rest[2 * i + 1] == rest[|rest| - 1];
    Wrap(Atoi(rest[2 * i + 1]).value * Unit(rest[2 * i]).value)
  }

  /** The option list is accepted exactly when it is a list of EX/PX options
      each followed by an integer, and then the last option decides. */
  lemma {:induction false} SetTTLMeaning(ttl: Int, rest: seq<Bytes>)
    ensures SetTTL(ttl, rest).TTL? <==> WellFormedOptions(rest)
    ensures WellFormedOptions(rest) ==> SetTTL(ttl, rest).ttl == if rest == [] then ttl else LastOption(rest)
    decreases |rest|
  {
    hide Unit, Atoi, Wrap, WellFormedOptions, LastOption;
    FirstOption(rest);
    if |rest| >= 2 && Unit(rest[0]).Some? && Atoi(rest[1]).Some? {
      SetTTLMeaning(Wrap(Atoi(rest[1]).value * Unit(rest[0]).value), rest[2..]);
      OptionsStep(rest);
      LastOptionStep(rest);
    }
  }

  lemma FirstOption(rest: seq<Bytes>)
    ensures rest == [] ==> WellFormedOptions(rest)
    ensures rest != [] && WellFormedOptions(rest) ==>
      |rest| >= 2 && Unit(rest[0]).Some? && Atoi(rest[1]).Some?
  {
    hide Unit, Atoi;
    assert rest != [] && WellFormedOptions(rest) ==> Unit(rest[2 * 0]).Some? && Atoi(rest[2 * 0 + 1]).Some?;
  }

  lemma LastOptionStep(rest: seq<Bytes>)
    requires |rest| >= 2 && Unit(rest[0]).Some? && Atoi(rest[1]).Some?
    requires WellFormedOptions(rest) <==> WellFormedOptions(rest[2..])
    ensures WellFormedOptions(rest) ==>
      LastOption(rest)
      == if rest[2..] == [] then Wrap(Atoi(rest[1]).value * Unit(rest[0]).value) else LastOption(rest[2..])
  {
    hide Unit, Atoi, Wrap;
    if WellFormedOptions(rest) && |rest| > 2 {
      var tail := rest[2..];
      var i := |rest| / 2 - 1;
      assert tail[2 * (i - 1)] == rest[2 * i] && tail[2 * (i - 1) + 1] == rest[2 * i + 1];
    }
  }

  lemma OptionsStep(rest: seq<Bytes>)
    requires |rest| >= 2 && Unit(rest[0]).Some? && Atoi(rest[1]).Some?
    ensures WellFormedOptions(rest) <==> WellFormedOptions(rest[2..])
  {
    hide Unit, Atoi;
    var tail := rest[2..];
    if WellFormedOptions(rest) {
      forall i | 0 <= i < |tail| / 2
        ensures Unit(tail[2 * i]).Some? && Atoi(tail[2 * i + 1]).Some?
      {
        assert tail[2 * i] == rest[2 * (i + 1)] && tail[2 * i + 1] == rest[2 * (i + 1) + 1];
      }
    }
    if WellFormedOptions(tail) {
      forall i | 0 <= i < |rest| / 2
        ensures Unit(rest[2 * i]).Some? && Atoi(rest[2 * i + 1]).Some?
      {
        if i > 0 {
          assert tail[2 * (i - 1)] == rest[2 * i] && tail[2 * (i - 1) + 1] == rest[2 * i + 1];
        }
      }
    }
  }
}
