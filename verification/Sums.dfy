/** Sums over the values of a map, independent of the order of iteration. */
module Sums {
  import opened Basics

  ghost function Sum(m: map<Bytes, nat>): nat
    decreases |m|
  {
    if m == map[] then 0
    else
      var k :| k in m;
      assert |m - {k}| < |m| by { assert m.Keys == (m - {k}).Keys + {k}; }
      m[k] + Sum(m - {k})
  }

  /** Any key may be counted first. */
  lemma {:induction false} SumRemove(m: map<Bytes, nat>, k: Bytes)
    requires k in m
    ensures Sum(m) == m[k] + Sum(m - {k})
    decreases |m|
  {
    var p :| p in m && Sum(m) == m[p] + Sum(m - {p});
    if p != k {
      assert m.Keys == (m - {p}).Keys + {p};
      assert m.Keys == (m - {k}).Keys + {k};
      SumRemove(m - {p}, k);
      SumRemove(m - {k}, p);
      assert m - {p} - {k} == m - {k} - {p};
    }
  }

  lemma SumPut(m: map<Bytes, nat>, k: Bytes, v: nat)
    ensures Sum(m[k := v]) + (if k in m then m[k] else 0) == Sum(m) + v
  {
    SumRemove(m[k := v], k);
    assert m[k := v] - {k} == m - {k};
    if k in m { SumRemove(m, k); } else { assert m - {k} == m; }
  }

  lemma {:induction false} SumSubmap(a: map<Bytes, nat>, b: map<Bytes, nat>)
    requires forall k :: k in a ==> k in b && a[k] <= b[k]
    ensures Sum(a) <= Sum(b)
    decreases |a|
  {
    if a != map[] {
      var k :| k in a;
      assert a.Keys == (a - {k}).Keys + {k};
      SumRemove(a, k);
      SumRemove(b, k);
      SumSubmap(a - {k}, b - {k});
    }
  }

  /** The bytes of each key and of the value it holds. */
  ghost function Weigh<V>(m: map<Bytes, V>, w: V -> nat): map<Bytes, nat> {
    map k | k in m :: |k| + w(m[k])
  }

  ghost function Total<V>(m: map<Bytes, V>, w: V -> nat): nat {
    Sum(Weigh(m, w))
  }

  lemma TotalEmpty<V>(w: V -> nat)
    ensures Total(map[], w) == 0
  {
    var none: map<Bytes, V> := map[];
    assert Weigh(none, w) == map[];
  }

  /** Putting a value changes the total by its weight less what it replaces. */
  lemma TotalPut<V>(m: map<Bytes, V>, w: V -> nat, k: Bytes, v: V)
    ensures Total(m[k := v], w) + (if k in m then |k| + w(m[k]) else 0) == Total(m, w) + |k| + w(v)
  {
    assert Weigh(m[k := v], w) == Weigh(m, w)[k := |k| + w(v)];
    SumPut(Weigh(m, w), k, |k| + w(v));
  }

  lemma TotalSubmap<V>(a: map<Bytes, V>, b: map<Bytes, V>, w: V -> nat)
    requires forall k :: k in a ==> k in b && w(a[k]) == w(b[k])
    ensures Total(a, w) <= Total(b, w)
  {
    SumSubmap(Weigh(a, w), Weigh(b, w));
  }

  lemma TotalRemove<V>(m: map<Bytes, V>, w: V -> nat, keys: set<Bytes>)
    ensures Total(m - keys, w) <= Total(m, w)
  {
    SumSubmap(Weigh(m - keys, w), Weigh(m, w));
  }

  ghost function Picked<V>(m: map<Bytes, V>, keys: set<Bytes>): map<Bytes, V> {
    map k | k in keys && k in m :: m[k]
  }

  lemma MoveOne<V>(m: map<Bytes, V>, keys: set<Bytes>, k: Bytes)
    requires k in keys && k in m
    ensures (m - keys)[k := m[k]] == m - (keys - {k})
    ensures Picked(m, keys - {k})[k := m[k]] == Picked(m, keys)
    ensures k !in m - keys && k !in Picked(m, keys - {k})
  {
  }

  lemma MoveNone<V>(m: map<Bytes, V>)
    ensures m - {} == m && Picked(m, {}) == map[]
  {
  }

  /** What is taken away and what stays make up the whole. */
  lemma {:induction false} TotalSplit<V>(m: map<Bytes, V>, w: V -> nat, keys: set<Bytes>)
    requires keys <= m.Keys
    ensures Total(m, w) == Total(m - keys, w) + Total(Picked(m, keys), w)
  {
    hide Total, Picked;
    if keys == {} {
      MoveNone(m);
      TotalEmpty(w);
    } else {
      var k :| k in keys;
      MoveOne(m, keys, k);
      TotalSplit(m, w, keys - {k});
      TotalPut(m - keys, w, k, m[k]);
      TotalPut(Picked(m, keys - {k}), w, k, m[k]);
    }
  }

  function SumLen(ss: seq<Bytes>): nat {
    if ss == [] then 0 else |ss[0]| + SumLen(ss[1..])
  }

  lemma {:induction false} SumLenAppend(a: seq<Bytes>, b: seq<Bytes>)
    ensures SumLen(a + b) == SumLen(a) + SumLen(b)
  {
    if a == [] {
      assert a + b == b;
    } else {
      assert (a + b)[1..] == a[1..] + b;
      SumLenAppend(a[1..], b);
    }
  }
}
