/** The compacted log: one SET per string, chunked RPUSH and HSET commands. */
module Snapshot {
  import opened Basics
  import opened Strconv
  import opened StoreSpec
  import opened Commands
  import opened Resp

  const CHUNK_SIZE: int := 500

  /** The order in which Go's map iteration happens to visit a snapshot. */
  datatype Order = Order(strings: seq<Bytes>, lists: seq<Bytes>, hashes: seq<Bytes>, fields: map<Bytes, seq<Bytes>>)

  ghost predicate Enumerates(s: seq<Bytes>, keys: set<Bytes>) {
    && (forall i, j :: 0 <= i < j < |s| ==> s[i] != s[j])
    && ToSet(s) == keys
  }

  ghost predicate ValidOrder(o: Order, snap: State) {
    && Enumerates(o.strings, snap.data.Keys)
    && Enumerates(o.lists, snap.lists.Keys)
    && Enumerates(o.hashes, snap.hashes.Keys)
    && o.fields.Keys == snap.hashes.Keys
    && forall k :: k in snap.hashes ==> Enumerates(o.fields[k], snap.hashes[k].Keys)
  }

  /** Time.Sub, which saturates, in whole milliseconds. */
  function RemainingMs(deadline: int, now: int): (ms: Int)
    ensures deadline > now ==> 0 <= ms && ms * MILLISECOND <= deadline - now
  {
    var d := deadline - now;
    if d > MAX_INT then MAX_INT / MILLISECOND
    else if d < MIN_INT then -(-MIN_INT / MILLISECOND)
    else if d >= 0 then d / MILLISECOND
    else -(-d / MILLISECOND)
  }

  /** The arguments of the SET that recreates a string, or None when it is left out. */
  function SetArgs(key: Bytes, e: Entry, now: int): Option<seq<Bytes>> {
    match e.expiresAt
    case None => Some([key, e.value])
    case Some(deadline) =>
      if deadline - now <= 0 then None
      else Some([key, e.value, "PX", Itoa(RemainingMs(deadline, now))])
  }

  function StringLines(data: map<Bytes, Entry>, keys: seq<Bytes>, now: int): seq<Line>
    requires forall k :: k in keys ==> k in data
  {
    if keys == [] then []
    else
      var rest := StringLines(data, keys[1..], now);
      match SetArgs(keys[0], data[keys[0]], now)
      case None => rest
      case Some(args) => [LogLine(SET, args)] + rest
  }

  /** One command per chunk of at most `size` values, each starting with the key. */
  function Chunks(op: Op, key: Bytes, values: seq<Bytes>, size: nat): seq<Line>
    requires 0 < size <= 2 * CHUNK_SIZE
    decreases |values|
  {
    if values == [] then []
    else
      var n := Min(size, |values|);
      [LogLine(op, [key] + values[..n])] + Chunks(op, key, values[n..], size)
  }

  function ListLines(lists: map<Bytes, seq<Bytes>>, keys: seq<Bytes>): seq<Line>
    requires forall k :: k in keys ==> k in lists
  {
    if keys == [] then []
    else Chunks(RPUSH, keys[0], lists[keys[0]], CHUNK_SIZE) + ListLines(lists, keys[1..])
  }

  function Pairs(h: Hash, fields: seq<Bytes>): (ps: seq<Bytes>)
    requires forall f :: f in fields ==> f in h
    ensures |ps| == 2 * |fields|
  {
    if fields == [] then [] else [fields[0], h[fields[0]]] + Pairs(h, fields[1..])
  }

  /** An order of the fields is known for each of these hashes. */
  ghost predicate FieldsOf(hashes: map<Bytes, Hash>, keys: seq<Bytes>, fields: map<Bytes, seq<Bytes>>) {
    forall k :: k in keys ==> k in hashes && k in fields && forall f :: f in fields[k] ==> f in hashes[k]
  }

  function HashLines(hashes: map<Bytes, Hash>, keys: seq<Bytes>, fields: map<Bytes, seq<Bytes>>): seq<Line>
    requires FieldsOf(hashes, keys, fields)
  {
    if keys == [] then []
    else
      Chunks(HSET, keys[0], Pairs(hashes[keys[0]], fields[keys[0]]), 2 * CHUNK_SIZE)
      + HashLines(hashes, keys[1..], fields)
  }

  /** Everything writeSnapshot emits for one order of iteration. */
  function SnapshotLines(snap: State, o: Order, now: int): seq<Line>
    requires ValidOrder(o, snap)
  {
    assert forall k :: k in o.strings ==> k in ToSet(o.strings);
    assert forall k :: k in o.lists ==> k in ToSet(o.lists);
    assert forall k :: k in o.hashes ==> k in ToSet(o.hashes);
    assert forall k, f :: k in snap.hashes && f in o.fields[k] ==> f in ToSet(o.fields[k]);
    StringLines(snap.data, o.strings, now) + ListLines(snap.lists, o.lists)
    + HashLines(snap.hashes, o.hashes, o.fields)
  }
}
