/** What the commands mean to a client: each statement is about the handled command
    and about numbers, texts and positions, not about the functions the handlers
    are proved against. */
module Effects {
  import opened Basics
  import opened Strconv
  import opened Sums
  import opened StoreSpec
  import opened StoreProofs
  import opened Commands
  import opened SnapshotProofs
  import opened Keyspace
  import opened Stores

  // ----- numbers

  /** Two's complement: the one number of 64 bits that differs by a multiple of 2^64. */
  lemma WrapMeans(n: int)
    ensures -0x8000_0000_0000_0000 <= Wrap(n) <= 0x7FFF_FFFF_FFFF_FFFF
    ensures (n - Wrap(n)) % 0x1_0000_0000_0000_0000 == 0
  {
  }

  /** There is only one such number. */
  lemma WrapIs(n: int, r: Int)
    requires (n - r) % 0x1_0000_0000_0000_0000 == 0
    ensures Wrap(n) == r
  {
    WrapMeans(n);
    var d: int := Wrap(n) - r;
    assert (n - r) - (n - Wrap(n)) == d;
    SmallMultiple(n - r, n - Wrap(n));
  }

  lemma SmallMultiple(a: int, b: int)
    requires a % 0x1_0000_0000_0000_0000 == 0 && b % 0x1_0000_0000_0000_0000 == 0
    requires -0x1_0000_0000_0000_0000 < a - b < 0x1_0000_0000_0000_0000
    ensures a == b
  {
  }

  /** Decimal, the most significant digit first. */
  lemma Numerals()
    ensures Itoa(0) == "0" && Itoa(1203) == "1203" && Itoa(-47) == "-47"
  {
    assert Digits(12) == "12";
    assert Digits(120) == "120";
    assert Digits(1203) == "1203";
    assert Digits(47) == "47";
  }

  /** Read with a sign and leading zeros, and nothing else around the digits. */
  lemma NumeralsRead()
    ensures Atoi("047") == Some(47) && Atoi("+5") == Some(5) && Atoi("-5") == Some(-5)
    ensures Atoi("") == None && Atoi("-") == None
  {
    OneDigit('5');
    assert "+5"[1..] == "5" && "-5"[1..] == "5" && "-"[1..] == "";
    assert "047"[..2] == "04" && "04"[..1] == "0" && "0"[..0] == "";
    assert Denotes("04") == 4;
  }

  lemma OneDigit(c: char)
    requires IsDigit(c)
    ensures Denotes([c]) == c as int - '0' as int
  {
    assert [c][..0] == "";
  }

  /** Any other character makes a text no number. */
  lemma NoNumeral(s: Bytes, i: nat)
    requires i < |s| && !IsDigit(s[i]) && !(i == 0 && (s[0] == '-' || s[0] == '+'))
    ensures Atoi(s) == None
  {
    if s[0] == '-' || s[0] == '+' { assert s[1..][i - 1] == s[i]; }
  }

  // ----- SET's options

  predicate IsEx(option: Bytes) {
    option == "EX" || option == "Ex" || option == "eX" || option == "ex"
  }

  predicate IsPx(option: Bytes) {
    option == "PX" || option == "Px" || option == "pX" || option == "px"
  }

  lemma UpperOfTwo(s: Bytes, a: char, b: char)
    requires 'A' <= a <= 'Z' && 'A' <= b <= 'Z'
    ensures Upper(s) == [a, b] <==>
      |s| == 2 && (s[0] == a || s[0] == (a as int + 32) as char) && (s[1] == b || s[1] == (b as int + 32) as char)
  {
    if |s| == 2 { assert Upper(s) == [UpperChar(s[0]), UpperChar(s[1])]; }
    if Upper(s) == [a, b] { assert UpperChar(s[0]) == Upper(s)[0] && UpperChar(s[1]) == Upper(s)[1]; }
  }

  lemma OptionUnits(option: Bytes)
    ensures Unit(option) ==
      if IsEx(option) then Some(1_000_000_000) else if IsPx(option) then Some(1_000_000) else None
  {
    UpperOfTwo(option, 'E', 'X');
    UpperOfTwo(option, 'P', 'X');
    hide Upper;
    if |option| == 2 { assert option == [option[0], option[1]]; }
  }

  /** EX asks for seconds and PX for milliseconds, in any case of letters. */
  lemma OptionsAskFor(option: Bytes, text: Bytes, n: Int)
    requires Atoi(text) == Some(n)
    ensures IsEx(option) ==> SetTTL(0, [option, text]) == TTL(Wrap(n * 1_000_000_000))
    ensures IsPx(option) ==> SetTTL(0, [option, text]) == TTL(Wrap(n * 1_000_000))
    ensures !IsEx(option) && !IsPx(option) ==> SetTTL(0, [option, text]) == BadSyntax
  {
    hide Atoi, Unit, Wrap;
    OptionUnits(option);
    assert [option, text][2..] == [];
  }

  /** n seconds are 1000 times n milliseconds. */
  lemma ExIsPx(ex: Bytes, px: Bytes, n: Int)
    requires IsEx(ex) && IsPx(px) && MIN_INT <= n * 1_000_000_000 <= MAX_INT
    ensures SetTTL(0, [ex, Itoa(n)]) == TTL(n * 1_000_000_000) == SetTTL(0, [px, Itoa(1000 * n)])
  {
    AtoiItoa(n);
    AtoiItoa(1000 * n);
    hide Itoa, Atoi, SetTTL;
    OptionsAskFor(ex, Itoa(n), n);
    OptionsAskFor(px, Itoa(1000 * n), 1000 * n);
  }

  // ----- strings

  /** An accepted SET: GET answers the value up to and including the deadline and
      nothing after it, for ever without one; every other string, and the lists and
      hashes, are as before. */
  lemma SetMeans(st: State, args: seq<Bytes>, now: int, t: int, other: Bytes)
    requires |args| >= 2 && Handle(st, SET, args, now).logged.Some?
    ensures var h, e := Handle(st, SET, args, now), SetTTL(0, args[2..]);
      && e.TTL? && h.reply == Okay && h.state.lists == st.lists && h.state.hashes == st.hashes
      && Lookup(h.state, args[0], t) == (if e.ttl <= 0 || t <= now + e.ttl then Some(args[1]) else None)
      && (other != args[0] ==> Lookup(h.state, other, t) == Lookup(st, other, t)
                               && RemainingSeconds(h.state, other, t) == RemainingSeconds(st, other, t))
  {
    hide SetTTL, Fits;
  }

  /** TTL: -2 for no string, -1 for no deadline, else the number of seconds nearest to
      what is left, halves rounded up. */
  lemma TTLMeans(st: State, key: Bytes, now: int)
    ensures RemainingSeconds(st, key, now) == -2 <==> Lookup(st, key, now) == None
    ensures RemainingSeconds(st, key, now) == -1 <==>
      Lookup(st, key, now) != None && st.data[key].expiresAt == None
    ensures Lookup(st, key, now) != None && st.data[key].expiresAt != None ==>
      var left, r := st.data[key].expiresAt.value - now, RemainingSeconds(st, key, now);
      0 <= left && r * 1_000_000_000 - 500_000_000 <= left < r * 1_000_000_000 + 500_000_000
  {
  }

  /** At the clock of an accepted SET k v EX n, TTL k answers n. */
  lemma SetExThenTTL(st: State, key: Bytes, value: Bytes, ex: Bytes, n: Int, now: int)
    requires IsEx(ex) && 0 < n * 1_000_000_000 <= MAX_INT
    requires Handle(st, SET, [key, value, ex, Itoa(n)], now).logged.Some?
    ensures var after := Handle(st, SET, [key, value, ex, Itoa(n)], now).state;
      Lookup(after, key, now) == Some(value) && RemainingSeconds(after, key, now) == n
  {
    hide SetTTL, Fits, Itoa, IsEx;
    ExIsPx(ex, "PX", n);
    assert [key, value, ex, Itoa(n)][2..] == [ex, Itoa(n)];
  }

  /** EXPIRE of a string n seconds: it answers 1, the value stays, TTL answers n, and
      the string is gone after n seconds. */
  lemma ExpireMeans(st: State, key: Bytes, n: Int, now: int, t: int)
    requires 0 < n * 1_000_000_000 <= MAX_INT
    ensures var h := Handle(st, EXPIRE, [key, Itoa(n)], now);
      if key !in st.data then h.reply == Number(0) && h.state == st
      else
        && h.reply == Number(1) && RemainingSeconds(h.state, key, now) == n
        && Lookup(h.state, key, t) == (if t <= now + n * 1_000_000_000 then Some(st.data[key].value) else None)
        && h.state.lists == st.lists && h.state.hashes == st.hashes && h.state.data - {key} == st.data - {key}
  {
    AtoiItoa(n);
    hide Itoa, Atoi;
  }

  // ----- counters

  /** What a string counts as: its number if it is there and not due, 0 if not, and
      nothing when it is no number. */
  ghost predicate Holding(st: State, key: Bytes, now: int, m: Option<Int>) {
    match Lookup(st, key, now)
    case None => m == Some(0)
    case Some(text) => m == Atoi(text)
  }

  /** The number a counter command adds up to. */
  function Sum64(op: Op, args: seq<Bytes>, m: int): int
    requires |args| == 2 ==> Atoi(args[1]).Some?
  {
    match op
    case INCR => m + 1
    case DECR => m - 1
    case INCRBY => if |args| == 2 then m + Atoi(args[1]).value else m
    case _ => if |args| == 2 then m - Atoi(args[1]).value else m
  }

  predicate CountsOn(op: Op, args: seq<Bytes>) {
    ((op.INCR? || op.DECR?) && |args| == 1) || ((op.INCRBY? || op.DECRBY?) && |args| == 2 && Atoi(args[1]).Some?)
  }

  lemma NegateMeans(m: int, n: Int)
    ensures Wrap(m + Negate(n)) == Wrap(m - n)
  {
    WrapMeans(-(n as int));
    WrapMeans(m + Negate(n));
    hide Wrap;
    MultipleSum(-(n as int) - Negate(n), m + Negate(n) - Wrap(m + Negate(n)));
    WrapIs(m - n, Wrap(m + Negate(n)));
  }

  lemma MultipleSum(a: int, b: int)
    requires a % 0x1_0000_0000_0000_0000 == 0 && b % 0x1_0000_0000_0000_0000 == 0
    ensures (a + b) % 0x1_0000_0000_0000_0000 == 0
  {
  }

  /** INCR adds one, DECR takes one away, INCRBY adds and DECRBY subtracts its number,
      with the wrap-around of 64 bits; the new number is stored as text and answered.
      A text that is no number is refused and left alone. */
  lemma CountingMeans(st: State, op: Op, args: seq<Bytes>, now: int, m: Option<Int>)
    requires CountsOn(op, args) && Holding(st, args[0], now, m)
    ensures var h := Handle(st, op, args, now);
      match m
      case None => h.state == st && h.reply == Problem(NotAnInteger)
      case Some(n) =>
        var sum := Wrap(Sum64(op, args, n));
        if Fits(st, |args[0]| + |Itoa(sum)|) then
          && h.reply == Number(sum) && args[0] in h.state.data && h.state.data[args[0]].value == Itoa(sum)
          && h.state.data[args[0]].expiresAt == (if args[0] in st.data then st.data[args[0]].expiresAt else None)
          && h.state.data - {args[0]} == st.data - {args[0]}
          && h.state.lists == st.lists && h.state.hashes == st.hashes && h.state.maxMemory == st.maxMemory
        else h.state == st && h.reply == Problem(OutOfMemory)
  {
    hide Atoi, Itoa, Wrap, Fits, Negate;
    if op.DECRBY? && m.Some? { NegateMeans(m.value, Atoi(args[1]).value); }
  }

  /** INCRBY k n and then DECRBY k n leave the number as it was, when there is room for
      both, as there is without a ceiling. */
  lemma IncrThenDecr(st: State, key: Bytes, n: Int, now: int, m: Int)
    requires Lookup(st, key, now) == Some(Itoa(m))
    ensures var up := Handle(st, INCRBY, [key, Itoa(n)], now);
      var down := Handle(up.state, DECRBY, [key, Itoa(n)], now);
      && (up.reply.Number? && down.reply.Number? ==>
            down.reply == Number(m) && Lookup(down.state, key, now) == Some(Itoa(m)))
      && (st.maxMemory <= 0 ==> up.reply.Number? && down.reply.Number?)
  {
    hide Handle, Itoa, Atoi, Wrap, Memory;
    AtoiItoa(n);
    AtoiItoa(m);
    var sum := Wrap(m + n);
    AtoiItoa(sum);
    var up := Handle(st, INCRBY, [key, Itoa(n)], now);
    CountingMeans(st, INCRBY, [key, Itoa(n)], now, Some(m));
    if up.reply.Number? {
      CountingMeans(up.state, DECRBY, [key, Itoa(n)], now, Some(sum));
      BackAgain(m, n);
    }
  }

  lemma BackAgain(m: Int, n: Int)
    ensures Wrap(Wrap(m + n) - n) == m
  {
    WrapMeans(m + n);
    hide Wrap;
    MultipleOpposite(m + n - Wrap(m + n));
    WrapIs(Wrap(m + n) - n, m);
  }

  lemma MultipleOpposite(a: int)
    requires a % 0x1_0000_0000_0000_0000 == 0
    ensures -a % 0x1_0000_0000_0000_0000 == 0
  {
  }

  // ----- lists

  /** LPUSH leaves the last value first: value n - 1 - i is element i, and the old list
      follows. The reply is the new length. */
  lemma LPushMeans(st: State, key: Bytes, values: seq<Bytes>, now: int)
    requires Handle(st, LPUSH, [key] + values, now).logged.Some?
    ensures var h := Handle(st, LPUSH, [key] + values, now);
      && h.reply == Number(|ListAt(st, key)| + |values|)
      && OnlyListChanged(st, h.state, key) && |h.state.lists[key]| == |ListAt(st, key)| + |values|
      && (forall i :: 0 <= i < |values| ==> h.state.lists[key][i] == values[|values| - 1 - i])
      && h.state.lists[key][|values|..] == ListAt(st, key)
  {
    hide Fits, SumLen;
    assert ([key] + values)[1..] == values;
  }

  /** RPUSH leaves the old list first and then the values in order. */
  lemma RPushMeans(st: State, key: Bytes, values: seq<Bytes>, now: int)
    requires Handle(st, RPUSH, [key] + values, now).logged.Some?
    ensures var h := Handle(st, RPUSH, [key] + values, now);
      && h.reply == Number(|ListAt(st, key)| + |values|)
      && OnlyListChanged(st, h.state, key) && |h.state.lists[key]| == |ListAt(st, key)| + |values|
      && h.state.lists[key][..|ListAt(st, key)|] == ListAt(st, key)
      && (forall i :: 0 <= i < |values| ==> h.state.lists[key][|ListAt(st, key)| + i] == values[i])
  {
    hide Fits, SumLen;
    assert ([key] + values)[1..] == values;
  }

  ghost predicate OnlyListChanged(st: State, after: State, key: Bytes) {
    && key in after.lists && after.lists - {key} == st.lists - {key}
    && after == st.(lists := after.lists)
  }

  /** No list is there as long as nothing was pushed. */
  lemma NoList(st: State, key: Bytes)
    ensures ListAt(st, key) == if key in st.lists then st.lists[key] else []
    ensures HashAt(st, key) == if key in st.hashes then st.hashes[key] else map[]
  {
  }

  // ----- hashes

  /** The fields of a list of pairs. */
  function FieldSet(pairs: seq<Bytes>): set<Bytes> {
    set i | 0 <= i < |pairs| / 2 :: pairs[2 * i]
  }

  lemma FieldSetStep(pairs: seq<Bytes>)
    requires |pairs| >= 2
    ensures FieldSet(pairs) == {pairs[0]} + FieldSet(pairs[2..])
  {
    var rest := pairs[2..];
    forall f | f in FieldSet(pairs) ensures f in {pairs[0]} + FieldSet(rest) {
      var i :| 0 <= i < |pairs| / 2 && pairs[2 * i] == f;
      if i > 0 { assert rest[2 * (i - 1)] == f; }
    }
    forall f | f in FieldSet(rest) ensures f in FieldSet(pairs) {
      var i :| 0 <= i < |rest| / 2 && rest[2 * i] == f;
      assert pairs[2 * (i + 1)] == f;
    }
    assert pairs[2 * 0] in FieldSet(pairs);
  }

  lemma {:induction false} FieldsAfter(h: Hash, pairs: seq<Bytes>)
    ensures SetFields(h, pairs).Keys == h.Keys + FieldSet(pairs)
    ensures forall f :: f in h && f !in FieldSet(pairs) ==> SetFields(h, pairs)[f] == h[f]
    decreases |pairs|
  {
    if |pairs| >= 2 {
      FieldSetStep(pairs);
      hide FieldSet;
      FieldsAfter(h[pairs[0] := pairs[1]], pairs[2..]);
    } else {
      assert FieldSet(pairs) == {};
    }
  }

  /** A field has the value of the last pair that names it. */
  lemma {:induction false} LastPairWins(h: Hash, pairs: seq<Bytes>, i: nat)
    requires i < |pairs| / 2 && pairs[2 * i] !in FieldSet(pairs[2 * i + 2..])
    ensures pairs[2 * i] in SetFields(h, pairs) && SetFields(h, pairs)[pairs[2 * i]] == pairs[2 * i + 1]
    decreases |pairs|
  {
    var next, rest := h[pairs[0] := pairs[1]], pairs[2..];
    if i == 0 {
      FieldsAfter(next, rest);
    } else {
      assert rest[2 * (i - 1)] == pairs[2 * i] && rest[2 * (i - 1) + 1] == pairs[2 * i + 1];
      assert rest[2 * (i - 1) + 2..] == pairs[2 * i + 2..];
      hide FieldSet;
      LastPairWins(next, rest, i - 1);
    }
  }

  /** HSET: the hash has its old fields and those named, each with the value of the
      last pair that names it, the others as before. The reply counts the fields that
      were not there. */
  lemma HSetMeans(st: State, key: Bytes, pairs: seq<Bytes>, now: int)
    requires Handle(st, HSET, [key] + pairs, now).logged.Some?
    ensures var h := Handle(st, HSET, [key] + pairs, now);
      var was := HashAt(st, key);
      && h.reply == Number(|FieldSet(pairs) - was.Keys|)
      && key in h.state.hashes && h.state.hashes - {key} == st.hashes - {key}
      && h.state == st.(hashes := h.state.hashes)
      && h.state.hashes[key].Keys == was.Keys + FieldSet(pairs)
      && (forall f :: f in was && f !in FieldSet(pairs) ==> h.state.hashes[key][f] == was[f])
      && (forall i: nat :: i < |pairs| / 2 && pairs[2 * i] !in FieldSet(pairs[2 * i + 2..]) ==>
            h.state.hashes[key][pairs[2 * i]] == pairs[2 * i + 1])
  {
    hide Handle, SetFields, FieldSet, HashAt;
    var was := HashAt(st, key);
    AcceptedHSet(st, key, pairs, now);
    FieldsAfter(was, pairs);
    NewFields(was, SetFields(was, pairs), FieldSet(pairs));
    forall i: nat | i < |pairs| / 2 && pairs[2 * i] !in FieldSet(pairs[2 * i + 2..])
      ensures pairs[2 * i] in SetFields(was, pairs) && SetFields(was, pairs)[pairs[2 * i]] == pairs[2 * i + 1]
    {
      LastPairWins(was, pairs, i);
    }
  }

  lemma AcceptedHSet(st: State, key: Bytes, pairs: seq<Bytes>, now: int)
    requires Handle(st, HSET, [key] + pairs, now).logged.Some?
    ensures var h, after := Handle(st, HSET, [key] + pairs, now), SetFields(HashAt(st, key), pairs);
      h.state == st.(hashes := st.hashes[key := after]) && h.reply == Number(|after| - |HashAt(st, key)|)
  {
    hide Fits, SumLen, SetFields, HashAt;
    assert ([key] + pairs)[1..] == pairs;
  }

  lemma NewFields(was: Hash, after: Hash, fields: set<Bytes>)
    requires after.Keys == was.Keys + fields
    ensures |after| - |was| == |fields - was.Keys|
  {
    assert after.Keys == was.Keys + (fields - was.Keys);
    assert |after| == |after.Keys| && |was| == |was.Keys|;
  }

  /** HDEL: the named fields are gone, the others as before, and the hash with them when
      none is left. The reply counts the fields that were there, each once. */
  lemma HDelMeans(st: State, key: Bytes, fields: seq<Bytes>, now: int)
    requires fields != []
    ensures var h := Handle(st, HDEL, [key] + fields, now);
      && h.reply == Number(|set f | f in fields && f in HashAt(st, key)|)
      && h.state == st.(hashes := h.state.hashes) && h.state.hashes - {key} == st.hashes - {key}
      && FieldsGone(HashAt(st, key), h.state.hashes, key, fields)
  {
    hide FieldsGone, HashAt;
    HDelShape(st, key, fields, now);
    HashWithout(st, key, fields);
  }

  /** What is left of a hash: the fields not named with their values, or no hash. */
  ghost predicate FieldsGone(was: Hash, hashes: map<Bytes, Hash>, key: Bytes, fields: seq<Bytes>) {
    && (key in hashes <==> exists f :: f in was && f !in fields)
    && (key in hashes ==>
          forall f :: (f in hashes[key] <==> f in was && f !in fields)
                      && (f in hashes[key] ==> hashes[key][f] == was[f]))
  }

  lemma HDelShape(st: State, key: Bytes, fields: seq<Bytes>, now: int)
    requires fields != []
    ensures var h := Handle(st, HDEL, [key] + fields, now);
      && h.reply == Number(|set f | f in fields && f in HashAt(st, key)|)
      && h.state == FieldsDeleted(st, key, ToSet(fields))
  {
    hide HashAt, FieldsDeleted;
    assert ([key] + fields)[1..] == fields;
    assert HashAt(st, key).Keys * ToSet(fields) == set f | f in fields && f in HashAt(st, key);
  }

  lemma HashWithout(st: State, key: Bytes, fields: seq<Bytes>)
    ensures var after := FieldsDeleted(st, key, ToSet(fields));
      && after == st.(hashes := after.hashes) && after.hashes - {key} == st.hashes - {key}
      && FieldsGone(HashAt(st, key), after.hashes, key, fields)
  {
    var was := HashAt(st, key);
    var left := was - ToSet(fields);
    assert forall f :: f in left <==> f in was && f !in fields;
    if f :| f in was && f !in fields {
      assert f in left;
    } else {
      assert left == map[];
    }
  }

  // ----- keys of every kind

  /** DEL: the named keys are gone from strings, lists and hashes, the others as before.
      The reply counts those that were there as any of the three, each once. */
  lemma DelMeans(st: State, args: seq<Bytes>, now: int)
    requires args != []
    ensures var h := Handle(st, DEL, args, now);
      && h.reply == Number(|set k | k in args && (k in st.data || k in st.lists || k in st.hashes)|)
      && (forall k :: k in args ==> k !in h.state.data && k !in h.state.lists && k !in h.state.hashes)
      && (forall k :: k !in args ==>
            && (k in h.state.data <==> k in st.data) && (k in st.data ==> h.state.data[k] == st.data[k])
            && (k in h.state.lists <==> k in st.lists) && (k in st.lists ==> h.state.lists[k] == st.lists[k])
            && (k in h.state.hashes <==> k in st.hashes) && (k in st.hashes ==> h.state.hashes[k] == st.hashes[k]))
  {
    assert (set k | k in args && Holds(st, k))
        == set k | k in args && (k in st.data || k in st.lists || k in st.hashes);
  }

  lemma FlushMeans(st: State, args: seq<Bytes>, now: int)
    ensures var h := Handle(st, FLUSHALL, args, now);
      && h.reply == Okay && h.state.maxMemory == st.maxMemory
      && h.state.data == map[] && h.state.lists == map[] && h.state.hashes == map[] && h.state.expiryKeys == {}
  {
  }

  /** A list, a hash, or a string GET would answer. */
  predicate There(st: State, key: Bytes, now: int) {
    Lookup(st, key, now) != None || key in st.lists || key in st.hashes
  }

  /** The positions of the arguments that are there. */
  ghost function ThereAt(st: State, keys: seq<Bytes>, now: int): set<int> {
    set i | 0 <= i < |keys| && There(st, keys[i], now)
  }

  lemma ThereAtStep(st: State, keys: seq<Bytes>, now: int)
    requires keys != []
    ensures |ThereAt(st, keys, now)|
      == |ThereAt(st, keys[..|keys| - 1], now)| + if There(st, keys[|keys| - 1], now) then 1 else 0
  {
    hide There;
    var n := |keys| - 1;
    assert ThereAt(st, keys, now) == ThereAt(st, keys[..n], now) + if There(st, keys[n], now) then {n} else {};
  }

  /** EXISTS counts every argument that is there, repeated ones each time. */
  lemma {:induction false} ExistsMeans(st: State, keys: seq<Bytes>, now: int)
    ensures CountPresent(st, keys, now) == |ThereAt(st, keys, now)|
  {
    hide There, Present;
    if keys != [] {
      PresentIsThere(st, keys[|keys| - 1], now);
      ThereAtStep(st, keys, now);
      hide ThereAt;
      ExistsMeans(st, keys[..|keys| - 1], now);
    } else {
      assert ThereAt(st, keys, now) == {};
    }
  }

  lemma PresentIsThere(st: State, key: Bytes, now: int)
    ensures Present(st, key, now) <==> There(st, key, now)
  {
  }

  /** A pattern that ends in an asterisk matches what begins with the rest of it, any
      other pattern itself. */
  lemma GlobMeans(pattern: Bytes, key: Bytes)
    ensures MatchGlob(pattern, key) <==>
      if pattern != "" && pattern[|pattern| - 1] == '*' then pattern[..|pattern| - 1] <= key else pattern == key
  {
  }

  /** KEYS lists a name once as a string GET would answer, once as a list and once as a
      hash; SCAN the same but for a string whose deadline is right now. */
  lemma ListingsMean(st: State, now: int, k: Bytes)
    ensures KeysBag(st, now)[k]
      == (if Lookup(st, k, now) != None then 1 else 0)
         + (if k in st.lists then 1 else 0) + if k in st.hashes then 1 else 0
    ensures ScanBag(st, now)[k]
      == (if Lookup(st, k, now) != None && st.data[k].expiresAt != Some(now) then 1 else 0)
         + (if k in st.lists then 1 else 0) + if k in st.hashes then 1 else 0
  {
  }

  lemma {:induction false} MatchingAll(keys: seq<Bytes>)
    ensures Matching("*", keys) == keys
  {
    if keys != [] { MatchingAll(keys[1..]); }
  }

  /** A page of SCAN without a pattern is as long as its count, 10 if that is not
      positive, or as the rest of the keys. */
  lemma PageLength(c: Call, cursor: Int)
    requires 0 <= cursor < |SortedOf(c.bag)| && CallPage(c, cursor, "*").Page?
    ensures var p, all := CallPage(c, cursor, "*"), SortedOf(c.bag);
      var n := if c.count <= 0 then 10 else c.count as int;
      && |p.keys| == (if cursor + n <= |all| then n else |all| - cursor)
      && p.keys == all[cursor..cursor + |p.keys|]
      && p.next == if cursor + |p.keys| == |all| then 0 else cursor + |p.keys|
  {
    hide SortedOf, ScanPage, Matching;
    var all := SortedOf(c.bag);
    PageIs(all, cursor, "*", c.count);
    MatchingAll(all[cursor..EndOf(|all|, cursor, c.count)]);
  }

  // ----- memory

  /** What the ceiling check counts: the bytes of keys, string values, list elements,
      fields and their values. */
  lemma MemoryMeans(st: State, key: Bytes, e: Entry, values: seq<Bytes>, h: Hash)
    ensures Memory(Empty(st.maxMemory)) == 0
    ensures key !in st.data ==> Memory(st.(data := st.data[key := e])) == Memory(st) + |key| + |e.value|
    ensures key !in st.lists ==> Memory(st.(lists := st.lists[key := values])) == Memory(st) + |key| + SumLen(values)
    ensures key !in st.hashes ==> Memory(st.(hashes := st.hashes[key := h])) == Memory(st) + |key| + HashLen(h)
    ensures SumLen([]) == 0 && HashLen(map[]) == 0
    ensures forall v: Bytes :: SumLen(values + [v]) == SumLen(values) + |v|
    ensures forall f: Bytes, v: Bytes :: f !in h ==> HashLen(h[f := v]) == HashLen(h) + |f| + |v|
  {
    hide Memory, HashLen;
    EmptyMemory(st.maxMemory);
    if key !in st.data { StringPut(st, key, e); }
    if key !in st.lists { ListPut(st, key, values); }
    if key !in st.hashes { HashPut(st, key, h); }
    NoFieldLength();
    forall v: Bytes ensures SumLen(values + [v]) == SumLen(values) + |v| {
      SumLenAppend(values, [v]);
      assert [v][1..] == [];
    }
    forall f: Bytes, v: Bytes | f !in h ensures HashLen(h[f := v]) == HashLen(h) + |f| + |v| {
      FieldPut(h, f, v);
    }
  }

  lemma StringPut(st: State, key: Bytes, e: Entry)
    requires key !in st.data
    ensures Memory(st.(data := st.data[key := e])) == Memory(st) + |key| + |e.value|
  {
    TotalPut(st.data, EntryLen, key, e);
  }

  lemma NoFieldLength()
    ensures HashLen(map[]) == 0
  {
    TotalEmpty(ValueLen);
  }

  lemma FieldPut(h: Hash, f: Bytes, v: Bytes)
    requires f !in h
    ensures HashLen(h[f := v]) == HashLen(h) + |f| + |v|
  {
    TotalPut(h, ValueLen, f, v);
  }

  /** The ceiling refuses exactly what would go over it; one that is not positive
      refuses nothing. */
  lemma FitsMeans(st: State, bytes: nat)
    ensures Fits(st, bytes) <==> st.maxMemory <= 0 || Memory(st) + bytes <= st.maxMemory
  {
  }

  // ----- refusals

  /** How many arguments each command takes. */
  predicate RightArity(op: Op, n: nat) {
    match op
    case SET => n >= 2
    case DEL => n >= 1
    case EXPIRE => n == 2
    case INCR => n == 1
    case DECR => n == 1
    case INCRBY => n == 2
    case DECRBY => n == 2
    case LPUSH => n >= 2
    case RPUSH => n >= 2
    case HSET => n >= 3 && n % 2 == 1
    case HDEL => n >= 2
    case FLUSHALL => true
  }

  /** A command with the wrong number of arguments, and no other, is told so; a refused
      command leaves the store as it was and nothing in the log. */
  lemma RefusalsMean(st: State, op: Op, args: seq<Bytes>, now: int)
    ensures var h := Handle(st, op, args, now);
      && (h.reply == Problem(WrongArity) <==> !RightArity(op, |args|))
      && (h.reply.Problem? ==> h.state == st && h.logged == None)
  {
    hide SetTTL, Fits, Counter, Atoi, Itoa, Negate, Holds, HashAt, Stored, Removed, WithDeadline, Counted, PushedLeft,
      PushedRight, FieldsSet, FieldsDeleted, SumLen, Wrap;
    if op.SET? || op.EXPIRE? { return; }
    if op.INCR? || op.DECR? || op.INCRBY? || op.DECRBY? { return; }
    if op.LPUSH? || op.RPUSH? || op.HSET? { return; }
  }

  // ----- names

  /** The names in the log and on the wire, in capitals in the log and any case on the
      wire. */
  lemma NamesMean(name: Bytes, op: Op)
    ensures Name(SET) == "SET" && Name(DEL) == "DEL" && Name(EXPIRE) == "EXPIRE" && Name(INCR) == "INCR"
    ensures Name(DECR) == "DECR" && Name(INCRBY) == "INCRBY" && Name(DECRBY) == "DECRBY" && Name(LPUSH) == "LPUSH"
    ensures Name(RPUSH) == "RPUSH" && Name(HSET) == "HSET" && Name(HDEL) == "HDEL" && Name(FLUSHALL) == "FLUSHALL"
    ensures OpOf(name) == Some(op) <==> name == Name(op)
    ensures Upper("set") == "SET" && Upper("SeT") == "SET"
  {
  }
}
