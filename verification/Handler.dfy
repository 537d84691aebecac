/** The handlers of the mutating commands: each checks its arguments, then
    changes the store and logs the command as one critical section. */
module Handlers {
  import opened Basics
  import opened Strconv
  import opened Sums
  import opened StoreSpec
  import opened StoreProofs
  import opened Stores
  import opened Commands
  import opened Protocol
  import opened AofFile

  class Handler {
    const store: Store
    const aof: AOF

    constructor (store: Store, aof: AOF)
      ensures this.store == store && this.aof == aof
    {
      this.store, this.aof := store, aof;
    }

    method SetCommand(args: Args, now: int) returns (reply: Reply)
      modifies store, aof
      ensures var h := Handle(old(store.Contents()), SET, args, now);
        && store.Contents() == h.state && reply == h.reply
        && aof.Fields() == AfterHandling(old(aof.Fields()), SET, args, h)
    {
      if |args| < 2 { return Problem(WrongArity); }
      var key, val := args[0], args[1];
      var ttl: Int := 0;
      var rest := args[2..];
      var i := 0;
      while i < |rest|
        invariant 0 <= i <= |rest| && SetTTL(ttl, rest[i..]) == SetTTL(0, rest)
        invariant store.Contents() == old(store.Contents()) && aof.Fields() == old(aof.Fields())
      {
        hide Unit, Atoi, Wrap, Handle, AfterHandling, Fits;
        assert i + 1 < |rest| ==> rest[i..][2..] == rest[i + 2..];
        var unit := Unit(rest[i]);
        if unit.None? || i + 1 >= |rest| {
          RejectedSet(store.Contents(), args, now);
          return Problem(SyntaxError);
        }
        var n := Atoi(rest[i + 1]);
        if n.None? {
          RejectedSet(store.Contents(), args, now);
          return Problem(NotAnInteger);
        }
        ttl := Wrap(n.value * unit.value);
        i := i + 2;
      }
      hide Fits, Stored, LogLine, LogTo;
      var ok := store.Set(key, val, ttl, now);
      if !ok { return Problem(OutOfMemory); }
      aof.WriteLocked(SET, args);
      reply := Okay;
    }

    method DelCommand(args: Args, now: int) returns (reply: Reply)
      requires Consistent(store.Contents())
      modifies store, aof
      ensures var h := Handle(old(store.Contents()), DEL, args, now);
        && store.Contents() == h.state && reply == h.reply
        && aof.Fields() == AfterHandling(old(aof.Fields()), DEL, args, h)
    {
      hide Removed, LogLine, LogTo, Holds, ToSet;
      if |args| < 1 { return Problem(WrongArity); }
      var n := store.Del(args);
      aof.WriteLocked(DEL, args);
      reply := Number(n);
    }

    method ExpireCommand(args: Args, now: int) returns (reply: Reply)
      modifies store, aof
      ensures var h := Handle(old(store.Contents()), EXPIRE, args, now);
        && store.Contents() == h.state && reply == h.reply
        && aof.Fields() == AfterHandling(old(aof.Fields()), EXPIRE, args, h)
    {
      hide WithDeadline, LogLine, LogTo, Atoi, Wrap;
      if |args| != 2 { return Problem(WrongArity); }
      var seconds := Atoi(args[1]);
      if seconds.None? { return Problem(NotAnInteger); }
      var existed := store.Expire(args[0], seconds.value, now);
      if existed {
        aof.WriteLocked(EXPIRE, args);
        return Number(1);
      }
      reply := Number(0);
    }

    /** INCR and DECR carry their delta; INCRBY reads it from its argument. */
    method IncrCommand(op: Op, args: Args, step: Int, readDelta: bool, now: int) returns (reply: Reply)
      requires (op.INCR? && step == 1 && !readDelta) || (op.DECR? && step == -1 && !readDelta)
            || (op.INCRBY? && readDelta)
      modifies store, aof
      ensures var h := Handle(old(store.Contents()), op, args, now);
        && store.Contents() == h.state && reply == h.reply
        && aof.Fields() == AfterHandling(old(aof.Fields()), op, args, h)
    {
      hide Counter, Counted, LogLine, LogTo, Atoi, Itoa, Wrap, Fits;
      var delta := step;
      if readDelta {
        if |args| != 2 { return Problem(WrongArity); }
        var n := Atoi(args[1]);
        if n.None? { return Problem(NotAnInteger); }
        delta := n.value;
      } else if |args| != 1 {
        return Problem(WrongArity);
      }
      var result, err := store.IncrBy(args[0], delta, now);
      if err.Some? { return Problem(err.value); }
      aof.WriteLocked(op, args);
      reply := Number(result);
    }

    method DecrByCommand(args: Args, now: int) returns (reply: Reply)
      modifies store, aof
      ensures var h := Handle(old(store.Contents()), DECRBY, args, now);
        && store.Contents() == h.state && reply == h.reply
        && aof.Fields() == AfterHandling(old(aof.Fields()), DECRBY, args, h)
    {
      hide Counter, Counted, LogLine, LogTo, Atoi, Itoa, Wrap, Fits, Negate;
      if |args| != 2 { return Problem(WrongArity); }
      var n := Atoi(args[1]);
      if n.None? { return Problem(NotAnInteger); }
      var result, err := store.IncrBy(args[0], Negate(n.value), now);
      if err.Some? { return Problem(err.value); }
      aof.WriteLocked(DECRBY, args);
      reply := Number(result);
    }

    method PushCommand(op: Op, args: Args, now: int) returns (reply: Reply)
      requires op.LPUSH? || op.RPUSH?
      modifies store, aof
      ensures var h := Handle(old(store.Contents()), op, args, now);
        && store.Contents() == h.state && reply == h.reply
        && aof.Fields() == AfterHandling(old(aof.Fields()), op, args, h)
    {
      hide LogLine, LogTo, Fits, SumLen, Reverse;
      if |args| < 2 { return Problem(WrongArity); }
      var n: nat, err: Option<Complaint> := 0, None;
      if op.LPUSH? {
        n, err := store.LPush(args[0], args[1..]);
      } else {
        n, err := store.RPush(args[0], args[1..]);
      }
      if err.Some? { return Problem(err.value); }
      aof.WriteLocked(op, args);
      reply := Number(n);
    }

    method HSetCommand(args: Args, now: int) returns (reply: Reply)
      modifies store, aof
      ensures var h := Handle(old(store.Contents()), HSET, args, now);
        && store.Contents() == h.state && reply == h.reply
        && aof.Fields() == AfterHandling(old(aof.Fields()), HSET, args, h)
    {
      hide LogLine, LogTo, Fits, SumLen, SetFields;
      if |args| < 3 || |args| % 2 == 0 { return Problem(WrongArity); }
      var n, err := store.HSet(args[0], args[1..]);
      if err.Some? { return Problem(err.value); }
      aof.WriteLocked(HSET, args);
      reply := Number(n);
    }

    method HDelCommand(args: Args, now: int) returns (reply: Reply)
      modifies store, aof
      ensures var h := Handle(old(store.Contents()), HDEL, args, now);
        && store.Contents() == h.state && reply == h.reply
        && aof.Fields() == AfterHandling(old(aof.Fields()), HDEL, args, h)
    {
      hide LogLine, LogTo, FieldsDeleted, ToSet;
      if |args| < 2 { return Problem(WrongArity); }
      var n := store.HDel(args[0], args[1..]);
      aof.WriteLocked(HDEL, args);
      reply := Number(n);
    }

    method FlushAllCommand(args: Args, now: int) returns (reply: Reply)
      modifies store, aof
      ensures var h := Handle(old(store.Contents()), FLUSHALL, args, now);
        && store.Contents() == h.state && reply == h.reply
        && aof.Fields() == AfterHandling(old(aof.Fields()), FLUSHALL, args, h)
    {
      store.FlushAll();
      aof.WriteLocked(FLUSHALL, []);
      reply := Okay;
    }

    /** The dispatch: one command is one client step of the protocol. */
    method Execute(op: Op, args: Args, now: int) returns (reply: Reply)
      requires Consistent(store.Contents())
      modifies store, aof
      ensures var h := Handle(old(store.Contents()), op, args, now);
        && store.Contents() == h.state && reply == h.reply
        && aof.Fields() == AfterHandling(old(aof.Fields()), op, args, h)
      ensures Consistent(store.Contents())
    {
      hide Handle, AfterHandling, Consistent, ReplayEffect, ReplayLine;
      LiveIsReplay(store.Contents(), op, args, now);
      CommandKeepsConsistent(store.Contents(), op, args, now);
      match op
      case SET => reply := SetCommand(args, now);
      case DEL => reply := DelCommand(args, now);
      case EXPIRE => reply := ExpireCommand(args, now);
      case INCR => reply := IncrCommand(INCR, args, 1, false, now);
      case DECR => reply := IncrCommand(DECR, args, -1, false, now);
      case INCRBY => reply := IncrCommand(INCRBY, args, 0, true, now);
      case DECRBY => reply := DecrByCommand(args, now);
      case LPUSH => reply := PushCommand(LPUSH, args, now);
      case RPUSH => reply := PushCommand(RPUSH, args, now);
      case HSET => reply := HSetCommand(args, now);
      case HDEL => reply := HDelCommand(args, now);
      case FLUSHALL => reply := FlushAllCommand(args, now);
    }
  }

  lemma RejectedSet(st: State, args: Args, now: int)
    requires |args| >= 2 && !SetTTL(0, args[2..]).TTL?
    ensures Handle(st, SET, args, now)
      == Refuse(st, if SetTTL(0, args[2..]).BadSyntax? then SyntaxError else NotAnInteger)
    ensures forall aof :: AfterHandling(aof, SET, args, Handle(st, SET, args, now)) == aof
  {
  }
}
