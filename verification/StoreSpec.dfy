/** The contents of the store as a value, and what each operation does to it. */
module StoreSpec {
  import opened Basics
  import opened Strconv
  import opened Sums

  /** A string value; the deadline is in nanoseconds, None for Go's zero time. */
  datatype Entry = Entry(value: Bytes, expiresAt: Option<int>)

  type Hash = map<Bytes, Bytes>

  datatype State = State(
    data: map<Bytes, Entry>,
    lists: map<Bytes, seq<Bytes>>,
    hashes: map<Bytes, Hash>,
    expiryKeys: set<Bytes>,
    maxMemory: int)

  function Empty(maxMemory: int): State {
    State(map[], map[], map[], {}, maxMemory)
  }

  predicate Due(e: Entry, now: int) {
    e.expiresAt.Some? && now > e.expiresAt.value
  }

  /** The expiry index is exactly the set of string keys with a deadline. */
  ghost predicate IndexExact(st: State) {
    forall k :: k in st.expiryKeys <==> k in st.data && st.data[k].expiresAt.Some?
  }

  /** What every reachable store satisfies: the expiry index is exact, and no
      list or hash is empty. */
  ghost predicate Consistent(st: State) {
    && IndexExact(st)
    && (forall k :: k in st.lists ==> st.lists[k] != [])
    && (forall k :: k in st.hashes ==> st.hashes[k] != map[])
  }

  // ----- memory

  function EntryLen(e: Entry): nat {
    |e.value|
  }

  function ValueLen(v: Bytes): nat {
    |v|
  }

  ghost function HashLen(h: Hash): nat {
    Total(h, ValueLen)
  }

  /** The summed byte lengths of all keys, fields and values. */
  ghost function Memory(st: State): nat {
    Total(st.data, EntryLen) + Total(st.lists, SumLen) + Total(st.hashes, HashLen)
  }

  /** Whether a memory use is allowed: a ceiling that is not positive is none. */
  predicate Within(ceiling: int, bytes: int) {
    ceiling <= 0 || bytes <= ceiling
  }

  /** Whether a write of this many bytes passes the ceiling check. */
  ghost predicate Fits(st: State, extra: int) {
    Within(st.maxMemory, Memory(st) + extra)
  }

  // ----- strings

  function Stored(st: State, key: Bytes, value: Bytes, ttl: int, now: int): State {
    if ttl > 0 then
      st.(data := st.data[key := Entry(value, Some(now + ttl))], expiryKeys := st.expiryKeys + {key})
    else
      st.(data := st.data[key := Entry(value, None)], expiryKeys := st.expiryKeys - {key})
  }

  /** A string found due is dropped without a log entry. */
  function Reaped(st: State, keys: set<Bytes>): State {
    st.(data := st.data - keys, expiryKeys := st.expiryKeys - keys)
  }

  /** The state a read of one string key leaves. */
  function AfterRead(st: State, key: Bytes, now: int): State {
    if key in st.data && Due(st.data[key], now) then Reaped(st, {key}) else st
  }

  function Lookup(st: State, key: Bytes, now: int): Option<Bytes> {
    if key in st.data && !Due(st.data[key], now) then Some(st.data[key].value) else None
  }

  predicate Holds(st: State, key: Bytes) {
    key in st.data || key in st.lists || key in st.hashes
  }

  function Removed(st: State, keys: set<Bytes>): State {
    st.(data := st.data - keys, lists := st.lists - keys, hashes := st.hashes - keys,
        expiryKeys := st.expiryKeys - keys)
  }

  function WithDeadline(st: State, key: Bytes, deadline: int): State
    requires key in st.data
  {
    st.(data := st.data[key := st.data[key].(expiresAt := Some(deadline))],
        expiryKeys := st.expiryKeys + {key})
  }

  /** The number a counter holds: zero when absent or due, None when not an integer. */
  function Counter(st: State, key: Bytes, now: int): Option<Int> {
    if key in st.data && !Due(st.data[key], now) then Atoi(st.data[key].value) else Some(0)
  }

  /** A counter keeps the deadline its entry had, even one already past. */
  function Counted(st: State, key: Bytes, n: Int): State {
    var deadline := if key in st.data then st.data[key].expiresAt else None;
    st.(data := st.data[key := Entry(Itoa(n), deadline)])
  }

  // ----- lists and hashes

  function ListAt(st: State, key: Bytes): seq<Bytes> {
    if key in st.lists then st.lists[key] else []
  }

  function Reverse(s: seq<Bytes>): (r: seq<Bytes>)
    ensures |r| == |s|
    ensures forall i :: 0 <= i < |s| ==> r[i] == s[|s| - 1 - i]
  {
    if s == [] then [] else Reverse(s[1..]) + [s[0]]
  }

  function PushedLeft(st: State, key: Bytes, values: seq<Bytes>): State {
    st.(lists := st.lists[key := Reverse(values) + ListAt(st, key)])
  }

  function PushedRight(st: State, key: Bytes, values: seq<Bytes>): State {
    st.(lists := st.lists[key := ListAt(st, key) + values])
  }

  function HashAt(st: State, key: Bytes): Hash {
    if key in st.hashes then st.hashes[key] else map[]
  }

  /** Field/value pairs are applied from left to right; an odd last field is ignored. */
  function SetFields(h: Hash, pairs: seq<Bytes>): Hash
    decreases |pairs|
  {
    if |pairs| < 2 then h else SetFields(h[pairs[0] := pairs[1]], pairs[2..])
  }

  function FieldsSet(st: State, key: Bytes, pairs: seq<Bytes>): State {
    st.(hashes := st.hashes[key := SetFields(HashAt(st, key), pairs)])
  }

  function FieldsDeleted(st: State, key: Bytes, fields: set<Bytes>): State {
    if key !in st.hashes then st
    else
      var h := st.hashes[key] - fields;
      st.(hashes := if h == map[] then st.hashes - {key} else st.hashes[key := h])
  }

  function ToSet(s: seq<Bytes>): set<Bytes> {
    set x | x in s
  }
}
