/** The append-only file: writing it, replaying it and rewriting it. */
module AofFile {
  import opened Basics
  import opened Strconv
  import opened StoreSpec
  import opened StoreProofs
  import opened Stores
  import opened Commands
  import opened Resp
  import opened RespProofs
  import opened Snapshot
  import opened Protocol
  import SnapshotProofs
  import RespReader
  import RespWriter

  datatype RewriteResult = Rewritten | AlreadyRunning | Aborted

  /** What the operating system answers to a rewrite: opening the temporary file,
      writing the snapshot, appending the mirrored bytes, then flushing, syncing and
      closing it, and renaming it to the live path. */
  datatype Outcomes = Outcomes(
    created: bool, written: bool, appended: bool, flushed: bool, synced: bool, closed: bool, renamed: bool)
  {
    /** Every step of the section under the lock. */
    predicate Moved() {
      appended && flushed && synced && closed && renamed
    }

    predicate All() {
      created && written && Moved()
    }
  }

  class AOF {
    var file: string
    var synced: nat
    var always: bool
    var rewriting: bool
    var rewriteBuf: string
    var running: bool

    ghost function Fields(): Aof
      reads this
    {
      Aof(file, synced, always, rewriting, rewriteBuf, running)
    }

    /** Opens an existing or a new file. */
    constructor (file: string, always: bool)
      ensures Fields() == Aof(file, |file|, always, false, "", false)
    {
      this.file, this.always := file, always;
      synced, rewriting, rewriteBuf, running := |file|, false, "", false;
    }

    /** Appends one command; while a rewrite is under way its bytes are mirrored. */
    method WriteLocked(op: Op, args: Args)
      modifies this
      ensures Fields() == LogTo(old(Fields()), LogLine(op, args))
    {
      var all: Line := [Name(op)] + args;
      var buf := "*" + Itoa(|all|) + "\r\n";
      var i := 0;
      while i < |all|
        invariant Fields() == old(Fields())
        invariant 0 <= i <= |all| && buf == Header('*', |all|) + EncodeBulks(all[..i])
      {
        hide EncodeBulks;
        RespWriter.BulksUpTo(all, i);
        Assoc(Header('*', |all|), EncodeBulks(all[..i]), EncodeBulk(all[i]));
        buf := buf + ("$" + Itoa(|all[i]|) + "\r\n" + all[i] + "\r\n");
        i := i + 1;
      }
      assert all[..i] == all;
      file := file + buf;
      if always {
        synced := |file|;
      }
      if rewriting {
        rewriteBuf := rewriteBuf + buf;
      }
    }

    /** The everysec ticker and the fsync of every write. */
    method Sync()
      modifies this
      ensures Fields() == old(Fields()).(synced := |old(file)|)
    {
      synced := |file|;
    }

    // ----- rewriting

    /** Refused while another rewrite runs; otherwise compacts the file exactly when
        every step succeeds, with nobody else writing. What clients do in between
        is module Protocol. */
    method Rewrite(s: Store, now: int, os: Outcomes) returns (result: RewriteResult, ghost o: Order)
      modifies this
      ensures result == if old(running) then AlreadyRunning else if os.All() then Rewritten else Aborted
      ensures result == AlreadyRunning ==> Fields() == old(Fields())
      ensures result == Aborted ==> Fields() == old(Fields()).(rewriting := false, rewriteBuf := "")
      ensures result == Rewritten ==>
        && ValidOrder(o, s.Contents())
        && Fields() == Aof(EncodeLog(SnapshotLines(s.Contents(), o, now)), |file|, always, false, "", false)
    {
      hide EncodeLog, ValidOrder, SnapshotLines;
      o := Order([], [], [], map[]);
      if running { return AlreadyRunning, o; }
      running := true;
      rewriting, rewriteBuf := true, "";
      var snap := s.Snapshot();
      result := Aborted;
      if os.created {
        var w := new RespWriter.Writer();
        o := WriteSnapshot(w, snap, now);
        if os.written {
          var swapped := LockedSwap(w, os);
          if swapped { result := Rewritten; }
        }
      }
      if result == Aborted && rewriting {
        rewriting, rewriteBuf := false, "";
      }
      running := false;
    }

    /** The section under the lock that appends the mirrored commands and moves
        the new file into place, exactly when every step succeeds; else the old
        file stays. */
    method LockedSwap(w: RespWriter.Writer, os: Outcomes) returns (ok: bool)
      modifies this, w
      ensures ok <==> os.Moved()
      ensures Fields() ==
        if ok then Swapped(old(Fields()), old(w.out))
        else if os.appended then old(Fields()).(rewriting := false, rewriteBuf := "")
        else old(Fields())
    {
      if !os.appended { return false; }
      w.WriteString(rewriteBuf);
      rewriting, rewriteBuf := false, "";
      if !os.flushed { return false; }
      if !os.synced { return false; }
      if !os.closed { return false; }
      if !os.renamed { return false; }
      file, synced := w.out, |w.out|;
      ok := true;
    }

    // ----- replay

    method ParseSetTTL(rest: seq<Bytes>) returns (e: Expiry)
      ensures e == SetTTL(0, rest)
    {
      var ttl: Int := 0;
      var i := 0;
      while i < |rest|
        invariant 0 <= i <= |rest| && SetTTL(ttl, rest[i..]) == SetTTL(0, rest)
      {
        hide Unit, Atoi, Wrap;
        assert i + 1 < |rest| ==> rest[i..][2..] == rest[i + 2..];
        var unit := Unit(rest[i]);
        if unit.None? || i + 1 >= |rest| { return BadSyntax; }
        var n := Atoi(rest[i + 1]);
        if n.None? { return BadNumber; }
        ttl := Wrap(n.value * unit.value);
        i := i + 2;
      }
      e := TTL(ttl);
    }

    method ReplayCommand(s: Store, op: Op, args: seq<Bytes>, now: int) returns (ok: bool)
      requires Consistent(s.Contents())
      modifies s
      ensures Effect(s.Contents(), ok) == ReplayEffect(old(s.Contents()), op, args, now)
    {
      hide Fits, SetTTL, Counter, Atoi, Stored, Counted, Removed, WithDeadline, PushedLeft, PushedRight,
        FieldsSet, FieldsDeleted, Itoa, Wrap, ToSet;
      ok := true;
      match op
      case SET =>
        if |args| < 2 { return false; }
        var ttl := ParseSetTTL(args[2..]);
        if !ttl.TTL? { return false; }
        ok := s.Set(args[0], args[1], ttl.ttl, now);
      case DEL =>
        if |args| < 1 { return false; }
        var _ := s.Del(args);
      case EXPIRE =>
        if |args| != 2 { return false; }
        var seconds := Atoi(args[1]);
        if seconds.None? { return false; }
        var _ := s.Expire(args[0], seconds.value, now);
      case INCR =>
        if |args| != 1 { return false; }
        var _, err := s.IncrBy(args[0], 1, now);
        ok := err.None?;
      case DECR =>
        if |args| != 1 { return false; }
        var _, err := s.IncrBy(args[0], -1, now);
        ok := err.None?;
      case INCRBY =>
        if |args| != 2 { return false; }
        var n := Atoi(args[1]);
        if n.None? { return false; }
        var _, err := s.IncrBy(args[0], n.value, now);
        ok := err.None?;
      case DECRBY =>
        if |args| != 2 { return false; }
        var n := Atoi(args[1]);
        if n.None? { return false; }
        var _, err := s.IncrBy(args[0], Negate(n.value), now);
        ok := err.None?;
      case LPUSH =>
        if |args| < 2 { return false; }
        var _, err := s.LPush(args[0], args[1..]);
        ok := err.None?;
      case RPUSH =>
        if |args| < 2 { return false; }
        var _, err := s.RPush(args[0], args[1..]);
        ok := err.None?;
      case HSET =>
        if |args| < 3 || |args| % 2 == 0 { return false; }
        var _, err := s.HSet(args[0], args[1..]);
        ok := err.None?;
      case HDEL =>
        if |args| < 2 { return false; }
        var _ := s.HDel(args[0], args[1..]);
      case FLUSHALL =>
        s.FlushAll();
    }

    /** Reads the file from the start and executes every command up to the end
        of input or the first input that does not parse. */
    method Replay(s: Store, now: int)
      requires Consistent(s.Contents())
      modifies s
      ensures s.Contents() == ReplayFile(old(s.Contents()), file, now)
      ensures Consistent(s.Contents())
    {
      var r := new RespReader.Reader(file);
      assert r.Rest() == file;
      while true
        invariant r.Valid() && r.input == file && fresh(r)
        invariant Consistent(s.Contents())
        invariant ReplayFile(s.Contents(), r.Rest(), now) == ReplayFile(old(s.Contents()), file, now)
        decreases |file| - r.pos
      {
        hide Parse, ReplayFile, AfterValue;
        ghost var st, rest := s.Contents(), r.Rest();
        var val, err := r.Parse();
        FileStep(st, rest, now);
        if err.Some? { return; }
        ReplayValue(s, val, now);
      }
    }

    /** The body of the replay loop: what is not a non-empty array is skipped. */
    method ReplayValue(s: Store, val: Value, now: int)
      requires Consistent(s.Contents())
      modifies s
      ensures s.Contents() == AfterValue(old(s.Contents()), val, now)
      ensures Consistent(s.Contents())
    {
      if val.typ != '*' || val.elems == [] { return; }
      hide ReplayEffect, Upper, OpOf, Consistent;
      var cmd := Upper(val.elems[0].str);
      var args := seq(|val.elems| - 1, i requires 0 <= i < |val.elems| - 1 => val.elems[i + 1].str);
      assert args == Strings(val.elems)[1..];
      var op := OpOf(cmd);
      if op.Some? {
        CommandKeepsConsistent(s.Contents(), op.value, args, now);
        var _ := ReplayCommand(s, op.value, args, now);
      }
    }
  }

  /** What one decoded value does to the store. */
  ghost function AfterValue(st: State, v: Value, now: int): State {
    if v.typ != '*' || v.elems == [] then st
    else
      match OpOf(Upper(v.elems[0].str))
      case None => st
      case Some(op) => ReplayEffect(st, op, Strings(v.elems)[1..], now).state
  }

  /** One round of the replay loop. */
  lemma FileStep(st: State, rest: string, now: int)
    ensures match Parse(rest)
      case Failed(_) => ReplayFile(st, rest, now) == st
      case Parsed(v, tail) => ReplayFile(st, rest, now) == ReplayFile(AfterValue(st, v, now), tail, now)
  {
    match Parse(rest)
    case Failed(_) =>
    case Parsed(v, tail) =>
      if v.typ == '*' && v.elems != [] {
        var line := Strings(v.elems);
        var after := Entries(tail);
        assert Entries(rest) == [line] + after;
        hide Parse, Entries, ReplayEffect, Upper, OpOf;
        assert ([line] + after)[1..] == after && ([line] + after)[0] == line;
      }
  }

  // ----- the loops of writeSnapshot

  lemma {:induction false} StringLinesAppend(data: map<Bytes, Entry>, keys: seq<Bytes>, k: Bytes, now: int)
    requires k in data && forall x :: x in keys ==> x in data
    ensures StringLines(data, keys + [k], now) == StringLines(data, keys, now) + StringLines(data, [k], now)
    decreases |keys|
  {
    hide SetArgs;
    if keys == [] {
      assert keys + [k] == [k];
    } else {
      assert (keys + [k])[1..] == keys[1..] + [k];
      StringLinesAppend(data, keys[1..], k, now);
    }
  }

  lemma {:induction false} ListLinesAppend(lists: map<Bytes, seq<Bytes>>, keys: seq<Bytes>, k: Bytes)
    requires k in lists && forall x :: x in keys ==> x in lists
    ensures ListLines(lists, keys + [k]) == ListLines(lists, keys) + Chunks(RPUSH, k, lists[k], CHUNK_SIZE)
    decreases |keys|
  {
    hide Chunks;
    if keys == [] {
      assert keys + [k] == [k];
    } else {
      assert (keys + [k])[1..] == keys[1..] + [k];
      ListLinesAppend(lists, keys[1..], k);
    }
  }

  lemma {:induction false} HashLinesAppend(hashes: map<Bytes, Hash>, keys: seq<Bytes>, k: Bytes,
                                           fields: map<Bytes, seq<Bytes>>, fs: seq<Bytes>)
    requires FieldsOf(hashes, keys, fields) && k !in keys && k in hashes && forall f :: f in fs ==> f in hashes[k]
    ensures FieldsOf(hashes, keys + [k], fields[k := fs])
    ensures HashLines(hashes, keys + [k], fields[k := fs])
      == HashLines(hashes, keys, fields) + Chunks(HSET, k, Pairs(hashes[k], fs), 2 * CHUNK_SIZE)
    decreases |keys|
  {
    hide Chunks, Pairs;
    if keys == [] {
      assert keys + [k] == [k];
    } else {
      assert (keys + [k])[1..] == keys[1..] + [k];
      assert FieldsOf(hashes, keys[1..], fields);
      HashLinesAppend(hashes, keys[1..], k, fields, fs);
    }
  }

  lemma {:induction false} PairsAppend(h: Hash, fields: seq<Bytes>, f: Bytes)
    requires f in h && forall x :: x in fields ==> x in h
    ensures Pairs(h, fields + [f]) == Pairs(h, fields) + [f, h[f]]
    decreases |fields|
  {
    if fields == [] {
      assert fields + [f] == [f];
    } else {
      assert (fields + [f])[1..] == fields[1..] + [f];
      PairsAppend(h, fields[1..], f);
    }
  }

  /** One visited key more, in an order of iteration under construction. */
  ghost predicate Visited(order: seq<Bytes>, rest: set<Bytes>, keys: set<Bytes>) {
    Enumerates(order, keys - rest) && rest <= keys
  }

  lemma VisitOne(order: seq<Bytes>, rest: set<Bytes>, keys: set<Bytes>, k: Bytes)
    requires Visited(order, rest, keys) && k in rest
    ensures Visited(order + [k], rest - {k}, keys) && k !in order && k in keys
    ensures forall x :: x in order ==> x in keys
  {
    assert forall x :: x in order ==> x in ToSet(order);
    assert ToSet(order + [k]) == ToSet(order) + {k};
  }

  lemma VisitedEnds(order: seq<Bytes>, keys: set<Bytes>)
    ensures order == [] ==> Visited(order, keys, keys)
    ensures Visited(order, {}, keys) ==> Enumerates(order, keys)
  {
  }

  /** The commands of one list or hash, chunk by chunk. */
  method WriteChunks(w: RespWriter.Writer, op: Op, key: Bytes, values: seq<Bytes>, size: nat)
    requires 0 < size <= 2 * CHUNK_SIZE
    modifies w
    ensures w.out == old(w.out) + EncodeLog(Chunks(op, key, values, size))
  {
    hide EncodeLog, EncodeArray, Chunks, LogLine;
    var i := 0;
    assert values[0..] == values;
    while i < |values|
      invariant 0 <= i <= |values|
      invariant w.out + EncodeLog(Chunks(op, key, values[i..], size))
             == old(w.out) + EncodeLog(Chunks(op, key, values, size))
    {
      var end := Min(i + size, |values|);
      ChunkLine(op, key, values, i, end, size, w.out);
      var line: Line := LogLine(op, [key] + values[i..end]);
      w.WriteRESPCommand(line);
      i := end;
    }
    NoChunk(op, key, values[i..], size);
    assert w.out + "" == w.out;
  }

  lemma ChunkLine(op: Op, key: Bytes, values: seq<Bytes>, i: nat, end: nat, size: nat, out: string)
    requires 0 < size <= 2 * CHUNK_SIZE && i < |values| && end == Min(i + size, |values|)
    ensures |LogLine(op, [key] + values[i..end])| <= MAX_INT
    ensures out + EncodeLog(Chunks(op, key, values[i..], size))
      == out + EncodeArray(LogLine(op, [key] + values[i..end])) + EncodeLog(Chunks(op, key, values[end..], size))
  {
    hide EncodeLog, EncodeArray, Chunks;
    var line: Line := LogLine(op, [key] + values[i..end]);
    var rest := Chunks(op, key, values[end..], size);
    assert values[i..][..end - i] == values[i..end] && values[i..][end - i..] == values[end..];
    SnapshotProofs.ChunksStep(op, key, values[i..], size);
    EncodeLogAppend([line], rest);
    EncodeLogOne(line);
    Assoc(out, EncodeArray(line), EncodeLog(rest));
  }

  lemma NoChunk(op: Op, key: Bytes, values: seq<Bytes>, size: nat)
    requires 0 < size <= 2 * CHUNK_SIZE && values == []
    ensures EncodeLog(Chunks(op, key, values, size)) == ""
  {
  }

  method WriteStrings(w: RespWriter.Writer, data: map<Bytes, Entry>, now: int) returns (ghost order: seq<Bytes>)
    modifies w
    ensures Enumerates(order, data.Keys) && forall k :: k in order ==> k in data
    ensures w.out == old(w.out) + EncodeLog(StringLines(data, order, now))
  {
    order := [];
    var rest := data.Keys;
    while rest != {}
      invariant Visited(order, rest, data.Keys) && forall k :: k in order ==> k in data
      invariant w.out == old(w.out) + EncodeLog(StringLines(data, order, now))
      decreases |rest|
    {
      hide EncodeArray, Visited, Itoa, RemainingMs;
      var k :| k in rest;
      VisitOne(order, rest, data.Keys, k);
      StringLinesAppend(data, order, k, now);
      EncodeLogAppend(StringLines(data, order, now), StringLines(data, [k], now));
      Assoc(old(w.out), EncodeLog(StringLines(data, order, now)), EncodeLog(StringLines(data, [k], now)));
      rest, order := rest - {k}, order + [k];
      var args := SetArgs(k, data[k], now);
      if args.None? { continue; }
      EncodeLogOne(LogLine(SET, args.value));
      w.WriteRESPCommand(LogLine(SET, args.value));
    }
  }

  method WriteLists(w: RespWriter.Writer, lists: map<Bytes, seq<Bytes>>) returns (ghost order: seq<Bytes>)
    modifies w
    ensures Enumerates(order, lists.Keys) && forall k :: k in order ==> k in lists
    ensures w.out == old(w.out) + EncodeLog(ListLines(lists, order))
  {
    hide EncodeArray, EncodeLog, Visited, Chunks, ListLines, Enumerates;
    order := [];
    var rest := lists.Keys;
    VisitedEnds(order, lists.Keys);
    NoLists(lists);
    while rest != {}
      invariant Visited(order, rest, lists.Keys) && forall k :: k in order ==> k in lists
      invariant w.out == old(w.out) + EncodeLog(ListLines(lists, order))
      decreases |rest|
    {
      var k :| k in rest;
      VisitOne(order, rest, lists.Keys, k);
      ListLinesAppend(lists, order, k);
      ghost var chunks := Chunks(RPUSH, k, lists[k], CHUNK_SIZE);
      EncodeLogAppend(ListLines(lists, order), chunks);
      Assoc(old(w.out), EncodeLog(ListLines(lists, order)), EncodeLog(chunks));
      rest, order := rest - {k}, order + [k];
      WriteChunks(w, RPUSH, k, lists[k], CHUNK_SIZE);
    }
    VisitedEnds(order, lists.Keys);
  }

  lemma NoLists(lists: map<Bytes, seq<Bytes>>)
    ensures ListLines(lists, []) == [] && EncodeLog([]) == ""
  {
  }

  method CollectPairs(h: Hash) returns (pairs: seq<Bytes>, ghost fs: seq<Bytes>)
    ensures Enumerates(fs, h.Keys) && (forall f :: f in fs ==> f in h) && pairs == Pairs(h, fs)
  {
    pairs, fs := [], [];
    var rest := h.Keys;
    while rest != {}
      invariant Visited(fs, rest, h.Keys) && (forall f :: f in fs ==> f in h) && pairs == Pairs(h, fs)
      decreases |rest|
    {
      var f :| f in rest;
      VisitOne(fs, rest, h.Keys, f);
      PairsAppend(h, fs, f);
      hide Visited, Pairs;
      rest, fs, pairs := rest - {f}, fs + [f], pairs + [f, h[f]];
    }
  }

  ghost predicate OrdersOf(hashes: map<Bytes, Hash>, fields: map<Bytes, seq<Bytes>>) {
    forall k :: k in fields ==> k in hashes && Enumerates(fields[k], hashes[k].Keys)
  }

  lemma OrdersPut(hashes: map<Bytes, Hash>, fields: map<Bytes, seq<Bytes>>, k: Bytes, fs: seq<Bytes>)
    requires OrdersOf(hashes, fields) && k in hashes && Enumerates(fs, hashes[k].Keys)
    ensures OrdersOf(hashes, fields[k := fs])
  {
  }

  method WriteHashes(w: RespWriter.Writer, hashes: map<Bytes, Hash>)
    returns (ghost order: seq<Bytes>, ghost fields: map<Bytes, seq<Bytes>>)
    modifies w
    ensures Enumerates(order, hashes.Keys) && fields.Keys == hashes.Keys && FieldsOf(hashes, order, fields)
    ensures forall k :: k in hashes ==> Enumerates(fields[k], hashes[k].Keys)
    ensures w.out == old(w.out) + EncodeLog(HashLines(hashes, order, fields))
  {
    hide EncodeLog, Visited, Chunks, Enumerates, FieldsOf, Pairs, HashLines, OrdersOf;
    order, fields := [], map[];
    var rest := hashes.Keys;
    VisitedEnds(order, hashes.Keys);
    NoHashes(hashes);
    while rest != {}
      invariant Visited(order, rest, hashes.Keys) && FieldsOf(hashes, order, fields)
      invariant fields.Keys == hashes.Keys - rest && OrdersOf(hashes, fields)
      invariant w.out == old(w.out) + EncodeLog(HashLines(hashes, order, fields))
      decreases |rest|
    {
      var k :| k in rest;
      VisitOne(order, rest, hashes.Keys, k);
      ghost var fs := WriteHash(w, k, hashes[k]);
      HashLinesAppend(hashes, order, k, fields, fs);
      OrdersPut(hashes, fields, k, fs);
      ghost var chunks := Chunks(HSET, k, Pairs(hashes[k], fs), 2 * CHUNK_SIZE);
      EncodeLogAppend(HashLines(hashes, order, fields), chunks);
      Assoc(old(w.out), EncodeLog(HashLines(hashes, order, fields)), EncodeLog(chunks));
      rest, order, fields := rest - {k}, order + [k], fields[k := fs];
    }
    VisitedEnds(order, hashes.Keys);
    OrdersGet(hashes, fields);
  }

  lemma NoHashes(hashes: map<Bytes, Hash>)
    ensures HashLines(hashes, [], map[]) == [] && EncodeLog([]) == ""
    ensures OrdersOf(hashes, map[]) && FieldsOf(hashes, [], map[])
  {
  }

  lemma OrdersGet(hashes: map<Bytes, Hash>, fields: map<Bytes, seq<Bytes>>)
    requires OrdersOf(hashes, fields) && fields.Keys == hashes.Keys
    ensures forall k :: k in hashes ==> Enumerates(fields[k], hashes[k].Keys)
  {
  }

  method WriteHash(w: RespWriter.Writer, key: Bytes, h: Hash) returns (ghost fs: seq<Bytes>)
    modifies w
    ensures Enumerates(fs, h.Keys) && forall f :: f in fs ==> f in h
    ensures w.out == old(w.out) + EncodeLog(Chunks(HSET, key, Pairs(h, fs), 2 * CHUNK_SIZE))
  {
    var pairs, order := CollectPairs(h);
    fs := order;
    WriteChunks(w, HSET, key, pairs, 2 * CHUNK_SIZE);
  }

  /** The whole compacted log, for one order in which the maps were iterated. */
  method WriteSnapshot(w: RespWriter.Writer, snap: State, now: int) returns (ghost o: Order)
    modifies w
    ensures ValidOrder(o, snap)
    ensures w.out == old(w.out) + EncodeLog(SnapshotLines(snap, o, now))
  {
    var a := WriteStrings(w, snap.data, now);
    var b := WriteLists(w, snap.lists);
    var c, fields := WriteHashes(w, snap.hashes);
    o := Order(a, b, c, fields);
    ghost var x, y, z := StringLines(snap.data, a, now), ListLines(snap.lists, b), HashLines(snap.hashes, c, fields);
    hide EncodeLog, StringLines, ListLines, HashLines;
    EncodeLogAppend(x + y, z);
    EncodeLogAppend(x, y);
    Assoc(old(w.out) + EncodeLog(x), EncodeLog(y), EncodeLog(z));
    Assoc(old(w.out), EncodeLog(x), EncodeLog(y));
    Assoc(old(w.out), EncodeLog(x) + EncodeLog(y), EncodeLog(z));
    assert SnapshotLines(snap, o, now) == x + y + z;
  }
}
