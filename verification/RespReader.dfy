/** The stateful reader: Parse consumes a stream and fills arrays in place. */
module RespReader {
  import opened Basics
  import opened Strconv
  import Resp

  type ParseError = Resp.ParseError
  type Value = Resp.Value

  const NULL: Value := Resp.Value('*', "", 0, [])

  class Reader {
    const input: string
    var pos: nat

    ghost predicate Valid()
      reads this
    {
      pos <= |input|
    }

    /** The unread input. */
    ghost function Rest(): string
      reads this
      requires Valid()
    {
      input[pos..]
    }

    constructor (input: string)
      ensures Valid() && this.input == input && pos == 0
    {
      this.input := input;
      pos := 0;
    }

    method ReadLine() returns (line: Bytes, err: Option<ParseError>)
      requires Valid()
      modifies this
      ensures Valid() && pos >= old(pos)
      ensures match Resp.ReadLine(old(Rest()))
              case Chunk(text, rest) => err.None? && line == text && Rest() == rest && pos > old(pos)
              case Broken(e) => err == Some(e)
    {
      ghost var rest := Rest();
      line := "";
      var i := pos;
      while i < |input| && input[i] != '\n'
        invariant pos <= i <= |input|
        invariant forall j :: pos <= j < i ==> input[j] != '\n'
      {
        i := i + 1;
      }
      assert forall j :: 0 <= j < i - pos ==> rest[j] == input[pos + j];
      assert i < |input| ==> rest[i - pos] == input[i];
      assert Resp.LineEnd(rest) == i - pos;
      if i == |input| {
        pos := i;
        return "", Some(Resp.Eof);
      }
      var start := pos;
      pos := i + 1;
      if i == start || input[i - 1] != '\r' || i - start > MAX_INT {
        return "", Some(Resp.Malformed);
      }
      line, err := input[start..i - 1], None;
      assert rest[..i - start - 1] == line && rest[i - start + 1..] == Rest();
    }

    /** bufio.Reader.Read: some of the next bytes, at least one, or end of input. */
    method Read(buf: array<char>, n: nat) returns (m: nat, eof: bool)
      requires Valid() && n < buf.Length
      modifies this, buf
      ensures Valid() && buf[..n] == old(buf[..n])
      ensures eof <==> old(pos) == |input|
      ensures eof ==> m == 0
      ensures pos == old(pos) + m
      ensures !eof ==> 1 <= m <= buf.Length - n && buf[n..n + m] == old(Rest())[..m]
    {
      if pos == |input| { return 0, true; }
      m :| 1 <= m <= buf.Length - n && m <= |input| - pos;
      eof := false;
      forall j | 0 <= j < m {
        buf[n + j] := input[pos + j];
      }
      pos := pos + m;
    }

    method ReadFull(buf: array<char>) returns (err: Option<ParseError>)
      requires Valid() && 2 <= buf.Length <= MAX_INT + 2
      modifies this, buf
      ensures Valid() && pos >= old(pos)
      ensures match Resp.ReadBody(old(Rest()), buf.Length - 2)
              case Chunk(text, rest) => err.None? && buf[..buf.Length - 2] == text && Rest() == rest
              case Broken(e) => err == Some(e)
    {
      ghost var rest := Rest();
      var n := 0;
      while n < buf.Length
        invariant 0 <= n <= buf.Length && Valid() && pos == old(pos) + n
        invariant buf[..n] == rest[..n]
      {
        var m, eof := Read(buf, n);
        if eof { return Some(Resp.Eof); }
        assert rest[..n + m] == rest[..n] + rest[n..][..m];
        assert buf[..n + m] == buf[..n] + buf[n..n + m];
        n := n + m;
      }
      assert buf[..] == rest[..n];
      assert forall j :: 0 <= j < n ==> buf[j] == buf[..][j] == rest[j];
      if buf[buf.Length - 2] != '\r' || buf[buf.Length - 1] != '\n' {
        return Some(Resp.Malformed);
      }
      assert buf[..n - 2] == rest[..n - 2];
      err := None;
    }

    method Parse() returns (v: Value, err: Option<ParseError>)
      requires Valid()
      modifies this
      ensures Valid() && pos >= old(pos)
      ensures match Resp.Parse(old(Rest()))
              case Parsed(value, rest) => err.None? && v == value && Rest() == rest && pos > old(pos)
              case Failed(e) => err == Some(e)
      decreases |input| - pos, 0
    {
      var line, lineErr := ReadLine();
      if lineErr.Some? { return NULL, lineErr; }
      if line == "" { return NULL, Some(Resp.Malformed); }
      v, err := ParseLine(line[0], line[1..], line);
    }

    /** The switch of Parse on the type of the line. */
    method ParseLine(typ: char, body: Bytes, line: Bytes) returns (v: Value, err: Option<ParseError>)
      requires Valid()
      modifies this
      ensures Valid() && pos >= old(pos)
      ensures match Resp.ParseLine(typ, body, line, old(Rest()))
              case Parsed(value, rest) => err.None? && v == value && Rest() == rest
              case Failed(e) => err == Some(e)
      decreases |input| - pos, 2
    {
      v, err := NULL, None;
      if typ == '+' || typ == '-' {
        v := Resp.Value(typ, body, 0, []);
      } else if typ == ':' {
        var n := Atoi(body);
        if n.None? { return v, Some(Resp.Malformed); }
        v := Resp.Value(':', "", n.value, []);
      } else if typ == '$' {
        var n := Atoi(body);
        if n.None? { return v, Some(Resp.Malformed); }
        if n.value < 0 { return Resp.Value('$', "", -1, []), None; }
        var buf := new char[n.value + 2](_ => '\0');
        err := ReadFull(buf);
        if err.Some? { return; }
        v := Resp.Value('$', buf[..n.value], 0, []);
      } else if typ == '*' {
        var n := Atoi(body);
        if n.None? { return v, Some(Resp.Malformed); }
        if n.value < 0 { return; }
        var arr := new Value[n.value](_ => NULL);
        err := ParseElements(arr);
        if err.Some? { return; }
        v := Resp.Value('*', "", 0, arr[..]);
      } else {
        v := Resp.Value('*', "", 0, Resp.Bulks(Resp.Fields(line)));
      }
    }

    /** The loop of Parse that fills an array, element by element. */
    method ParseElements(arr: array<Value>) returns (err: Option<ParseError>)
      requires Valid()
      modifies this, arr
      ensures Valid() && pos >= old(pos)
      ensures match Resp.ParseMany(old(Rest()), arr.Length)
              case Elements(values, rest) => err.None? && arr[..] == values && Rest() == rest
              case Stopped(e) => err == Some(e)
      decreases |input| - pos, 1
    {
      hide Resp.Parse, Resp.ParseMany;
      ghost var all := Resp.ParseMany(Rest(), arr.Length);
      var i := 0;
      while i < arr.Length
        invariant 0 <= i <= arr.Length && Valid() && pos >= old(pos)
        invariant all == Prepend(arr[..i], Resp.ParseMany(Rest(), arr.Length - i))
      {
        ManyStep(arr[..i], Rest(), arr.Length - i);
        var v, e := Parse();
        if e.Some? { return e; }
        ghost var filled := arr[..i] + [v];
        assert all == Prepend(filled, Resp.ParseMany(Rest(), arr.Length - i - 1));
        arr[i] := v;
        i := i + 1;
        assert arr[..i] == filled;
      }
      ManyDone(arr[..i], Rest());
      assert arr[..i] == arr[..];
      err := None;
    }
  }

  ghost function Prepend(vs: seq<Value>, e: Resp.Elements): Resp.Elements {
    match e
    case Stopped(_) => e
    case Elements(values, rest) => Resp.Elements(vs + values, rest)
  }

  lemma ManyDone(vs: seq<Value>, s: string)
    ensures Prepend(vs, Resp.ParseMany(s, 0)) == Resp.Elements(vs, s)
  {
    assert vs + [] == vs;
  }

  lemma ManyStep(vs: seq<Value>, s: string, n: nat)
    requires n > 0
    ensures Prepend(vs, Resp.ParseMany(s, n)) ==
      match Resp.Parse(s)
      case Failed(e) => Resp.Stopped(e)
      case Parsed(v, rest) => Prepend(vs + [v], Resp.ParseMany(rest, n - 1))
  {
  }
}
