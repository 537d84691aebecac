/** The RESP2 wire format: what the reader accepts and what the writers emit. */
module Resp {
  import opened Basics
  import opened Strconv

  datatype Value = Value(typ: char, str: Bytes, num: Int, elems: seq<Value>)

  datatype ParseError = Eof | Malformed

  /** A piece of input that was read, with the input after it. */
  datatype Chunk = Chunk(text: Bytes, rest: string) | Broken(error: ParseError)

  datatype Parsed = Parsed(value: Value, rest: string) | Failed(error: ParseError)

  datatype Elements = Elements(values: seq<Value>, rest: string) | Stopped(error: ParseError)

  /** The position of the first line feed, or the length of the input. */
  function LineEnd(s: string): (i: nat)
    ensures i <= |s|
    ensures forall j :: 0 <= j < i ==> s[j] != '\n'
    ensures i < |s| ==> s[i] == '\n'
  {
    if s == "" || s[0] == '\n' then 0 else 1 + LineEnd(s[1..])
  }

  /** A line without its "\r\n". A line too long for a Go slice cannot be read. */
  function ReadLine(s: string): (c: Chunk)
    ensures c.Chunk? ==> |c.rest| < |s|
  {
    var i := LineEnd(s);
    if i == |s| then Broken(Eof)
    else if i == 0 || s[i - 1] != '\r' || i > MAX_INT then Broken(Malformed)
    else Chunk(s[..i - 1], s[i + 1..])
  }

  /** Exactly n bytes and the "\r\n" after them. */
  function ReadBody(s: string, n: nat): (c: Chunk)
    requires n <= MAX_INT
    ensures c.Chunk? ==> |c.rest| < |s|
  {
    if |s| < n + 2 then Broken(Eof)
    else if s[n] != '\r' || s[n + 1] != '\n' then Broken(Malformed)
    else Chunk(s[..n], s[n + 2..])
  }

  function Bulk(s: Bytes): Value {
    Value('$', s, 0, [])
  }

  function Bulks(ss: seq<Bytes>): (vs: seq<Value>)
    ensures |vs| == |ss|
  {
    seq(|ss|, i requires 0 <= i < |ss| => Bulk(ss[i]))
  }

  /** One RESP value from the front of the input. */
  function Parse(s: string): (p: Parsed)
    ensures p.Parsed? ==> |p.rest| < |s|
    decreases |s|, 0
  {
    match ReadLine(s)
    case Broken(e) => Failed(e)
    case Chunk(line, rest) =>
      if line == "" then Failed(Malformed)
      else ParseLine(line[0], line[1..], line, rest)
  }

  function ParseLine(typ: char, body: Bytes, line: Bytes, rest: string): (p: Parsed)
    ensures p.Parsed? ==> |p.rest| <= |rest|
    decreases |rest|, 2
  {
    if typ == '+' || typ == '-' then Parsed(Value(typ, body, 0, []), rest)
    else if typ == ':' then
      match Atoi(body)
      case None => Failed(Malformed)
      case Some(n) => Parsed(Value(':', "", n, []), rest)
    else if typ == '$' then
      match Atoi(body)
      case None => Failed(Malformed)
      case Some(n) =>
        if n < 0 then Parsed(Value('$', "", -1, []), rest)
        else
          match ReadBody(rest, n)
          case Broken(e) => Failed(e)
          case Chunk(text, rest') => Parsed(Bulk(text), rest')
    else if typ == '*' then
      match Atoi(body)
      case None => Failed(Malformed)
      case Some(n) =>
        if n < 0 then Parsed(Value('*', "", 0, []), rest)
        else
          match ParseMany(rest, n)
          case Stopped(e) => Failed(e)
          case Elements(vs, rest') => Parsed(Value('*', "", 0, vs), rest')
    else Parsed(Value('*', "", 0, Bulks(Fields(line))), rest)
  }

  /** Exactly n values, one after the other. */
  function ParseMany(s: string, n: nat): (e: Elements)
    ensures e.Elements? ==> |e.values| == n && |e.rest| <= |s|
    decreases |s|, 1
  {
    if n == 0 then Elements([], s)
    else
      match Parse(s)
      case Failed(e) => Stopped(e)
      case Parsed(v, rest) =>
        match ParseMany(rest, n - 1)
        case Stopped(e) => Stopped(e)
        case Elements(vs, rest') => Elements([v] + vs, rest')
  }

  predicate IsSpace(c: char) {
    c == ' ' || '\t' <= c <= '\r'
  }

  /** The length of the longest prefix without white space. */
  function WordLength(s: Bytes): (n: nat)
    ensures n <= |s|
  {
    if s == "" || IsSpace(s[0]) then 0 else 1 + WordLength(s[1..])
  }

  /** strings.Fields on ASCII white space. */
  function Fields(s: Bytes): seq<Bytes>
    decreases |s|
  {
    if s == "" then []
    else if IsSpace(s[0]) then Fields(s[1..])
    else [s[..WordLength(s)]] + Fields(s[WordLength(s)..])
  }

  /** One line of the log: a command name and its arguments. */
  type Line = l: seq<Bytes> | |l| <= MAX_INT

  function Header(typ: char, n: Int): string {
    [typ] + Itoa(n) + "\r\n"
  }

  function EncodeBulk(s: Bytes): string {
    Header('$', |s|) + s + "\r\n"
  }

  function EncodeBulks(ss: seq<Bytes>): string {
    if ss == [] then "" else EncodeBulk(ss[0]) + EncodeBulks(ss[1..])
  }

  function EncodeArray(l: Line): string {
    Header('*', |l|) + EncodeBulks(l)
  }

  /** A whole log file. */
  function EncodeLog(ls: seq<Line>): string {
    if ls == [] then "" else EncodeArray(ls[0]) + EncodeLog(ls[1..])
  }

  function Strings(vs: seq<Value>): (ss: seq<Bytes>)
    ensures |ss| == |vs|
  {
    seq(|vs|, i requires 0 <= i < |vs| => vs[i].str)
  }

  /** The commands a replay executes: every non-empty array up to the first
      input that does not parse. */
  function Entries(s: string): seq<seq<Bytes>>
    decreases |s|
  {
    match Parse(s)
    case Failed(_) => []
    case Parsed(v, rest) =>
      if v.typ != '*' || v.elems == [] then Entries(rest)
      else [Strings(v.elems)] + Entries(rest)
  }
}
