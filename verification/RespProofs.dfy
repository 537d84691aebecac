/** The reader inverts the writers, also on input that ends in mid-command. */
module RespProofs {
  import opened Basics
  import opened Strconv
  import opened Resp

  lemma Assoc<T>(a: seq<T>, b: seq<T>, c: seq<T>)
    ensures a + b + c == a + (b + c)
  {
  }

  lemma PrefixOfConcat<T>(a: seq<T>, b: seq<T>, k: nat)
    requires k <= |a| + |b|
    ensures (a + b)[..k] == if k < |a| then a[..k] else a + b[..k - |a|]
  {
  }

  lemma ConsPrefix<T>(s: seq<T>, n: nat)
    requires s != [] && n < |s|
    ensures [s[0]] + s[1..][..n] == s[..n + 1] && [s[0]] + s[1..] == s
  {
  }

  // ----- reading back what was written

  lemma {:induction false} LineEndAfter(a: string, rest: string)
    requires forall i :: 0 <= i < |a| ==> a[i] != '\n'
    ensures LineEnd(a + "\n" + rest) == |a|
  {
    var s := a + "\n" + rest;
    assert forall j :: 0 <= j < |a| ==> s[j] == a[j];
    assert s[|a|] == '\n';
  }

  lemma ReadHeader(typ: char, n: Int, rest: string)
    requires typ != '\n'
    ensures |Header(typ, n)| <= MAX_INT
    ensures ReadLine(Header(typ, n) + rest) == Chunk([typ] + Itoa(n), rest)
  {
    var line: string := [typ] + Itoa(n);
    ItoaShort(n);
    LineEndAfter(line + "\r", rest);
    var s := Header(typ, n) + rest;
    assert s == (line + "\r") + "\n" + rest;
    assert s[..|line|] == line && s[|line| + 2..] == rest;
  }

  lemma ItoaShort(n: Int)
    ensures |Itoa(n)| <= MAX_INT / 2
  {
  }

  /** The header of a bulk string or an array is read back as its length. */
  lemma AfterHeader(typ: char, n: Int, tail: string)
    requires typ == '$' || typ == '*'
    requires n >= 0
    ensures Parse(Header(typ, n) + tail) ==
      if typ == '$' then
        match ReadBody(tail, n)
        case Broken(e) => Failed(e)
        case Chunk(text, rest) => Parsed(Bulk(text), rest)
      else
        match ParseMany(tail, n)
        case Stopped(e) => Failed(e)
        case Elements(vs, rest) => Parsed(Value('*', "", 0, vs), rest)
  {
    var line: Bytes := [typ] + Itoa(n);
    ReadHeader(typ, n, tail);
    assert line[1..] == Itoa(n);
    AtoiItoa(n);
  }

  lemma ReadBulk(s: Bytes, rest: string)
    ensures Parse(EncodeBulk(s) + rest) == Parsed(Bulk(s), rest)
  {
    hide Parse, ParseMany;
    var tail := s + "\r\n" + rest;
    AfterHeader('$', |s|, tail);
    assert EncodeBulk(s) + rest == Header('$', |s|) + tail;
    assert tail[..|s|] == s && tail[|s| + 2..] == rest;
  }

  lemma {:induction false} ReadBulks(ss: seq<Bytes>, rest: string)
    ensures ParseMany(EncodeBulks(ss) + rest, |ss|) == Elements(Bulks(ss), rest)
  {
    hide EncodeBulk, Parse;
    if ss == [] {
      assert EncodeBulks(ss) + rest == rest;
    } else {
      var tail := EncodeBulks(ss[1..]) + rest;
      assert EncodeBulks(ss) + rest == EncodeBulk(ss[0]) + tail;
      ReadBulk(ss[0], tail);
      ReadBulks(ss[1..], rest);
      assert Bulks(ss) == [Bulk(ss[0])] + Bulks(ss[1..]);
    }
  }

  /** Decoding an encoded command gives it back, whatever bytes its arguments
      hold, and leaves exactly the input behind it. */
  lemma ParseInvertsEncode(l: Line, rest: string)
    ensures Parse(EncodeArray(l) + rest) == Parsed(Value('*', "", 0, Bulks(l)), rest)
  {
    AfterHeader('*', |l|, EncodeBulks(l) + rest);
    Assoc(Header('*', |l|), EncodeBulks(l), rest);
    ReadBulks(l, rest);
  }

  lemma StringsOfBulks(ss: seq<Bytes>)
    ensures Strings(Bulks(ss)) == ss
  {
  }

  lemma EntriesStep(l: Line, rest: string)
    requires l != []
    ensures Entries(EncodeArray(l) + rest) == [l] + Entries(rest)
  {
    ParseInvertsEncode(l, rest);
    StringsOfBulks(l);
  }

  predicate NoneEmpty(ls: seq<Line>) {
    forall i :: 0 <= i < |ls| ==> ls[i] != []
  }

  /** A pipeline of commands followed by anything decodes one by one. */
  lemma {:induction false} EntriesOfLog(ls: seq<Line>, rest: string)
    requires NoneEmpty(ls)
    ensures Entries(EncodeLog(ls) + rest) == ls + Entries(rest)
  {
    if ls == [] {
      assert EncodeLog(ls) + rest == rest;
    } else {
      var tail := EncodeLog(ls[1..]) + rest;
      Assoc(EncodeArray(ls[0]), EncodeLog(ls[1..]), rest);
      EntriesStep(ls[0], tail);
      EntriesOfLog(ls[1..], rest);
      Assoc([ls[0]], ls[1..], Entries(rest));
      ConsPrefix(ls, 0);
    }
  }

  // ----- a log cut short

  /** A proper prefix of an encoded bulk string ends before the value does. */
  lemma TornHeader(typ: char, n: Int, k: nat)
    requires typ != '\n' && k < |Header(typ, n)|
    ensures Parse(Header(typ, n)[..k]) == Failed(Eof)
  {
    var h := Header(typ, n);
    var p := h[..k];
    assert forall i :: 0 <= i < |h| - 1 ==> h[i] != '\n';
    assert LineEnd(p) == k;
  }

  lemma TornBulk(s: Bytes, k: nat)
    requires k < |EncodeBulk(s)|
    ensures Parse(EncodeBulk(s)[..k]) == Failed(Eof)
  {
    var h := Header('$', |s|);
    var e := EncodeBulk(s);
    if k < |h| {
      assert e[..k] == h[..k];
      TornHeader('$', |s|, k);
    } else {
      var tail := e[|h|..k];
      assert e[..k] == h + tail;
      AfterHeader('$', |s|, tail);
      assert |tail| < |s| + 2;
    }
  }

  lemma {:induction false} TornBulks(ss: seq<Bytes>, k: nat)
    requires k < |EncodeBulks(ss)|
    ensures ParseMany(EncodeBulks(ss)[..k], |ss|) == Stopped(Eof)
  {
    var first, rest := EncodeBulk(ss[0]), EncodeBulks(ss[1..]);
    PrefixOfConcat(first, rest, k);
    if k < |first| {
      TornBulk(ss[0], k);
    } else {
      ReadBulk(ss[0], rest[..k - |first|]);
      TornBulks(ss[1..], k - |first|);
    }
  }

  /** A proper prefix of an encoded command is reported as end of input, never
      as a different command. */
  lemma TornArray(l: Line, k: nat)
    requires k < |EncodeArray(l)|
    ensures Parse(EncodeArray(l)[..k]) == Failed(Eof)
  {
    var h := Header('*', |l|);
    PrefixOfConcat(h, EncodeBulks(l), k);
    if k < |h| {
      TornHeader('*', |l|, k);
    } else {
      AfterHeader('*', |l|, EncodeBulks(l)[..k - |h|]);
      TornBulks(l, k - |h|);
    }
  }

  /** How many commands lie wholly within the first k bytes of the log. */
  function Whole(ls: seq<Line>, k: int): (n: nat)
    ensures n <= |ls|
  {
    if ls == [] || k < |EncodeArray(ls[0])| then 0
    else 1 + Whole(ls[1..], k - |EncodeArray(ls[0])|)
  }

  /** Torn tail: every prefix of a log decodes to exactly the commands that lie
      wholly within it. */
  lemma {:induction false} TornTail(ls: seq<Line>, k: nat)
    requires NoneEmpty(ls) && k <= |EncodeLog(ls)|
    ensures Entries(EncodeLog(ls)[..k]) == ls[..Whole(ls, k)]
  {
    hide Entries, EncodeArray;
    if ls == [] {
      NothingMore();
      assert EncodeLog(ls)[..k] == "";
    } else {
      var first, rest := EncodeArray(ls[0]), EncodeLog(ls[1..]);
      PrefixOfConcat(first, rest, k);
      if k < |first| {
        TornEntries(ls[0], k);
      } else {
        EntriesStep(ls[0], rest[..k - |first|]);
        TornTail(ls[1..], k - |first|);
        ConsPrefix(ls, Whole(ls[1..], k - |first|));
      }
    }
  }

  lemma TornEntries(l: Line, k: nat)
    requires k < |EncodeArray(l)|
    ensures Entries(EncodeArray(l)[..k]) == []
  {
    hide EncodeArray, Parse;
    TornArray(l, k);
  }

  lemma NothingMore()
    ensures Entries("") == []
  {
  }

  /** The commands within a prefix are those whose end is at or before the cut. */
  lemma {:induction false} WholeCoversPrefix(ls: seq<Line>, n: nat, k: int)
    requires n <= |ls|
    ensures Whole(ls, k) >= n <==> n == 0 || |EncodeLog(ls[..n])| <= k
  {
    hide EncodeArray;
    if n > 0 {
      WholeCoversPrefix(ls[1..], n - 1, k - |EncodeArray(ls[0])|);
      assert ls[..n][1..] == ls[1..][..n - 1];
      if n == 1 { assert EncodeLog(ls[1..][..0]) == ""; }
    }
  }

  // ----- logs as byte strings

  lemma {:induction false} EncodeLogAppend(a: seq<Line>, b: seq<Line>)
    ensures EncodeLog(a + b) == EncodeLog(a) + EncodeLog(b)
  {
    hide EncodeArray;
    if a == [] {
      assert a + b == b;
    } else {
      EncodeLogAppend(a[1..], b);
      assert (a + b)[1..] == a[1..] + b;
      Assoc(EncodeArray(a[0]), EncodeLog(a[1..]), EncodeLog(b));
    }
  }

  lemma EncodeLogOne(l: Line)
    ensures EncodeLog([l]) == EncodeArray(l)
  {
    assert [l][1..] == [];
  }

  lemma {:induction false} EncodeBulksAppend(a: seq<Bytes>, b: seq<Bytes>)
    ensures EncodeBulks(a + b) == EncodeBulks(a) + EncodeBulks(b)
  {
    hide EncodeBulk;
    if a == [] {
      assert a + b == b;
    } else {
      EncodeBulksAppend(a[1..], b);
      assert (a + b)[1..] == a[1..] + b;
      Assoc(EncodeBulk(a[0]), EncodeBulks(a[1..]), EncodeBulks(b));
    }
  }

  // ----- writing on after a torn tail

  lemma StarIsNoNumber(s: Bytes, i: nat)
    requires i < |s| && s[i] == '*'
    ensures Atoi(s).None?
  {
    var signed := s[0] == '-' || s[0] == '+';
    if signed { assert s[1..][i - 1] == '*'; }
  }

  /** A header cut short runs into the next one. */
  lemma TornLine(t: string, m: Int, tail: string)
    requires t != "" && t[0] == '*' && forall i :: 0 <= i < |t| ==> t[i] != '\n'
    ensures var line := t + ['*'] + Itoa(m);
      var c := ReadLine(t + (Header('*', m) + tail));
      c.Broken? || (|line| <= MAX_INT && c == Chunk(line, tail))
  {
    hide LineEnd, Itoa;
    var line := t + ['*'] + Itoa(m);
    var s := t + (Header('*', m) + tail);
    assert s == (line + "\r") + "\n" + tail;
    LineEndAfter(line + "\r", tail);
    assert s[..|line|] == line && s[|line| + 2..] == tail;
  }

  lemma TornHeaderFails(n: Int, k: nat, m: Int, tail: string)
    requires n >= 0 && 0 < k < |Header('*', n)|
    ensures Parse(Header('*', n)[..k] + (Header('*', m) + tail)).Failed?
  {
    hide Itoa, Atoi, ReadLine, ParseMany, LineEnd;
    var t := Header('*', n)[..k];
    TornLine(t, m, tail);
    var line := t + ['*'] + Itoa(m);
    if |line| <= MAX_INT {
      assert line[1..][|t| - 1] == '*';
      StarIsNoNumber(line[1..], |t| - 1);
    }
  }

  /** What a torn command and the log behind it decode to does not begin with a
      command of another length. */
  lemma TornCommandLoses(c: Line, k: nat, more: seq<Line>)
    requires 0 < k < |EncodeArray(c)| && NoneEmpty(more) && more != [] && c != [] && |more[0]| != |c|
    ensures Entries(EncodeArray(c)[..k] + EncodeLog(more)) != more
  {
    var h := Header('*', |c|);
    var next := EncodeLog(more);
    PrefixOfConcat(h, EncodeBulks(c), k);
    if k < |h| {
      var tail := EncodeBulks(more[0]) + EncodeLog(more[1..]);
      Assoc(Header('*', |more[0]|), EncodeBulks(more[0]), EncodeLog(more[1..]));
      TornHeaderFails(|c|, k, |more[0]|, tail);
    } else {
      var u := EncodeBulks(c)[..k - |h|];
      Assoc(h, u, next);
      hide EncodeArray, EncodeLog, EncodeBulks, Header;
      AfterHeader('*', |c|, u + next);
    }
  }

  predicate OnBoundary(ls: seq<Line>, k: nat) {
    k == |EncodeLog(ls[..Whole(ls, k)])|
  }

  lemma CutOnBoundary(ls: seq<Line>, k: nat, more: seq<Line>)
    requires NoneEmpty(ls) && NoneEmpty(more) && k <= |EncodeLog(ls)| && OnBoundary(ls, k)
    ensures Entries(EncodeLog(ls)[..k] + EncodeLog(more)) == ls[..Whole(ls, k)] + more
  {
    hide Entries, EncodeLog, Whole;
    var whole := ls[..Whole(ls, k)];
    assert ls == whole + ls[Whole(ls, k)..];
    EncodeLogAppend(whole, ls[Whole(ls, k)..]);
    EntriesOfLog(whole, EncodeLog(more));
    EntriesOfLog(more, "");
    NothingMore();
    assert EncodeLog(more) + "" == EncodeLog(more) && more + [] == more;
  }

  lemma {:induction false} CutInsideLoses(ls: seq<Line>, k: nat) returns (more: seq<Line>)
    requires NoneEmpty(ls) && k <= |EncodeLog(ls)| && !OnBoundary(ls, k)
    ensures NoneEmpty(more) && Entries(EncodeLog(ls)[..k] + EncodeLog(more)) != ls[..Whole(ls, k)] + more
  {
    hide EncodeArray, Entries;
    var first, rest := EncodeArray(ls[0]), EncodeLog(ls[1..]);
    PrefixOfConcat(first, rest, k);
    if k < |first| {
      more := [if |ls[0]| == 1 then ["DEL", "k"] else ["FLUSHALL"]];
      TornCommandLoses(ls[0], k, more);
      assert ls[..0] + more == more;
    } else {
      BoundaryOfRest(ls, k);
      more := CutInsideLoses(ls[1..], k - |first|);
      RestLoses(ls, k, more);
    }
  }

  lemma RestLoses(ls: seq<Line>, k: nat, more: seq<Line>)
    requires NoneEmpty(ls) && ls != [] && |EncodeArray(ls[0])| <= k <= |EncodeLog(ls)|
    requires var j := k - |EncodeArray(ls[0])|;
      Entries(EncodeLog(ls[1..])[..j] + EncodeLog(more)) != ls[1..][..Whole(ls[1..], j)] + more
    ensures Entries(EncodeLog(ls)[..k] + EncodeLog(more)) != ls[..Whole(ls, k)] + more
  {
    hide Entries, EncodeArray;
    var first, rest := EncodeArray(ls[0]), EncodeLog(ls[1..]);
    var j := k - |first|;
    var n := Whole(ls[1..], j);
    PrefixOfConcat(first, rest, k);
    Assoc(first, rest[..j], EncodeLog(more));
    hide EncodeLog;
    EntriesStep(ls[0], rest[..j] + EncodeLog(more));
    ConsPrefix(ls, n);
    Assoc([ls[0]], ls[1..][..n], more);
    assert ([ls[0]] + (ls[1..][..n] + more))[1..] == ls[1..][..n] + more;
    assert ([ls[0]] + Entries(rest[..j] + EncodeLog(more)))[1..] == Entries(rest[..j] + EncodeLog(more));
  }

  lemma BoundaryOfRest(ls: seq<Line>, k: nat)
    requires ls != [] && k >= |EncodeArray(ls[0])|
    ensures OnBoundary(ls, k) <==> OnBoundary(ls[1..], k - |EncodeArray(ls[0])|)
  {
    hide EncodeArray;
    var n := Whole(ls[1..], k - |EncodeArray(ls[0])|);
    assert ls[..n + 1][0] == ls[0] && ls[..n + 1][1..] == ls[1..][..n];
  }

  /** Nothing cuts a torn tail off before new commands are appended. Whatever they
      are, they are all replayed after the commands that survived if and only if
      the cut was on a command's boundary. */
  lemma AppendAfterTear(ls: seq<Line>, k: nat)
    requires NoneEmpty(ls) && k <= |EncodeLog(ls)|
    ensures (forall more :: NoneEmpty(more) ==>
              Entries(EncodeLog(ls)[..k] + EncodeLog(more)) == ls[..Whole(ls, k)] + more)
      <==> OnBoundary(ls, k)
  {
    hide Entries, EncodeLog, Whole, OnBoundary, NoneEmpty;
    if OnBoundary(ls, k) {
      forall more | NoneEmpty(more)
        ensures Entries(EncodeLog(ls)[..k] + EncodeLog(more)) == ls[..Whole(ls, k)] + more
      {
        CutOnBoundary(ls, k, more);
      }
    } else {
      var more := CutInsideLoses(ls, k);
    }
  }

  /** SET k vv cut before its value, then FLUSHALL: the replay sets k to bytes of
      the FLUSHALL and flushes nothing. */
  lemma TornBulkSwallows()
    ensures var torn := Header('*', 3) + EncodeBulk("SET") + EncodeBulk("k") + Header('$', 2);
      && torn <= EncodeArray(["SET", "k", "vv"])
      && Entries(torn + EncodeLog([["FLUSHALL"]])) == [["SET", "k", "*1"]]
  {
    hide Header, Entries, EncodeBulk, EncodeArray, EncodeLog;
    var front := Header('*', 3) + EncodeBulk("SET") + EncodeBulk("k");
    var torn := front + Header('$', 2);
    var rest := EncodeBulk("FLUSHALL");
    ThreeBulks("SET", "k", "vv");
    ThreeBulks("SET", "k", "*1");
    TwoBytes("vv");
    TwoBytes("*1");
    FlushLine();
    Assoc(front, Header('$', 2), "vv\r\n");
    Assoc(front, Header('$', 2), "*1\r\n");
    Assoc(torn, "*1\r\n", rest);
    assert "vv" + "\r\n" == "vv\r\n" && "*1" + "\r\n" == "*1\r\n";
    assert torn <= torn + "vv\r\n";
    assert torn + EncodeLog([["FLUSHALL"]]) == EncodeArray(["SET", "k", "*1"]) + rest;
    EntriesStep(["SET", "k", "*1"], rest);
    BulkIsNoCommand("FLUSHALL");
  }

  lemma TwoBytes(s: Bytes)
    requires |s| == 2
    ensures EncodeBulk(s) == Header('$', 2) + (s + "\r\n")
  {
    hide Header;
    Assoc(Header('$', 2), s, "\r\n");
  }

  lemma FlushLine()
    ensures EncodeLog([["FLUSHALL"]]) == "*1\r\n" + EncodeBulk("FLUSHALL")
  {
    hide EncodeBulk;
    EncodeLogOne(["FLUSHALL"]);
    OneBulk("FLUSHALL");
    assert Itoa(1) == "1";
  }

  lemma OneBulk(a: Bytes)
    ensures EncodeBulks([a]) == EncodeBulk(a)
  {
    assert [a][1..] == [];
  }

  lemma ThreeBulks(a: Bytes, b: Bytes, c: Bytes)
    ensures EncodeArray([a, b, c]) == Header('*', 3) + EncodeBulk(a) + EncodeBulk(b) + EncodeBulk(c)
  {
    hide EncodeBulk, Header;
    assert [a, b, c][1..] == [b, c] && [b, c][1..] == [c];
    OneBulk(c);
    assert EncodeBulks([b, c]) == EncodeBulk(b) + EncodeBulks([c]);
    assert EncodeBulks([a, b, c]) == EncodeBulk(a) + EncodeBulks([b, c]);
    var h, x, y, z := Header('*', 3), EncodeBulk(a), EncodeBulk(b), EncodeBulk(c);
    assert h + (x + (y + z)) == h + x + y + z;
  }

  lemma BulkIsNoCommand(a: Bytes)
    ensures Entries(EncodeBulk(a)) == []
  {
    ReadBulk(a, "");
    assert EncodeBulk(a) + "" == EncodeBulk(a);
    NothingMore();
  }

  // ----- bytes on the wire

  /** RESP2: a count after an asterisk, then each argument as its length after a
      dollar sign and its bytes, every part ended by carriage return and line feed. */
  lemma WireBytes()
    ensures EncodeArray(["SET", "k", ""]) == "*3\r\n" + "$3\r\nSET\r\n" + "$1\r\nk\r\n" + "$0\r\n\r\n"
  {
    hide EncodeBulk, EncodeArray, Header, Itoa;
    ThreeBulks("SET", "k", "");
    ShortHeaders();
    BulkBytes("SET", "$3\r\n");
    BulkBytes("k", "$1\r\n");
    BulkBytes("", "$0\r\n");
    assert "$3\r\n" + "SET" + "\r\n" == "$3\r\nSET\r\n";
    assert "$1\r\n" + "k" + "\r\n" == "$1\r\nk\r\n";
    assert "$0\r\n" + "" + "\r\n" == "$0\r\n\r\n";
  }

  lemma ShortHeaders()
    ensures Header('*', 3) == "*3\r\n" && Header('$', 3) == "$3\r\n" && Header('$', 1) == "$1\r\n"
    ensures Header('$', 0) == "$0\r\n"
  {
    assert Itoa(3) == "3" && Itoa(1) == "1" && Itoa(0) == "0";
  }

  lemma BulkBytes(s: Bytes, header: string)
    requires Header('$', |s|) == header
    ensures EncodeBulk(s) == header + s + "\r\n"
  {
  }

  /** A line that a bare line feed ends is malformed. */
  lemma BareLineFeed(a: string, rest: string)
    requires (forall i :: 0 <= i < |a| ==> a[i] != '\n') && (a == "" || a[|a| - 1] != '\r')
    ensures Parse(a + "\n" + rest) == Failed(Malformed)
  {
    LineEndAfter(a, rest);
  }

  /** So is a length that is no number, and a bulk string not ended where its length
      says. */
  lemma BadLength(typ: char, text: Bytes, rest: string)
    requires typ == '$' || typ == '*' || typ == ':'
    requires (forall i :: 0 <= i < |text| ==> text[i] != '\n') && Atoi(text) == None && |text| <= MAX_INT - 2
    ensures Parse([typ] + text + "\r\n" + rest) == Failed(Malformed)
  {
    hide ReadLine, Atoi, ParseMany, ReadBody;
    var line: Bytes := [typ] + text;
    WholeLine(line, rest);
    assert line[1..] == text;
  }

  /** A line ended by carriage return and line feed. */
  lemma WholeLine(line: Bytes, rest: string)
    requires (forall i :: 0 <= i < |line| ==> line[i] != '\n') && |line| < MAX_INT
    ensures ReadLine(line + "\r\n" + rest) == Chunk(line, rest)
  {
    hide LineEnd;
    var s := line + "\r\n" + rest;
    LineEndAfter(line + "\r", rest);
    assert s == (line + "\r") + "\n" + rest;
    assert s[..|line|] == line && s[|line| + 2..] == rest;
  }

  lemma BadTerminator(n: Int, body: string)
    requires 0 <= n && |body| >= n + 2 && body[n..n + 2] != "\r\n"
    ensures Parse(Header('$', n) + body) == Failed(Malformed)
  {
    hide Parse, Header, ParseMany;
    AfterHeader('$', n, body);
    assert body[n..n + 2] == [body[n], body[n + 1]];
  }

  predicate IsWord(w: Bytes) {
    w != "" && forall i :: 0 <= i < |w| ==> !IsSpace(w[i])
  }

  lemma {:induction false} WordEnds(w: string, rest: string)
    requires |w + rest| <= MAX_INT && (forall i :: 0 <= i < |w| ==> !IsSpace(w[i])) && (rest == "" || IsSpace(rest[0]))
    ensures WordLength(w + rest) == |w|
  {
    if w == "" {
      assert w + rest == rest;
    } else {
      assert (w + rest)[1..] == w[1..] + rest;
      WordEnds(w[1..], rest);
    }
  }

  lemma FirstWord(w: Bytes, rest: string)
    requires IsWord(w) && |w + rest| <= MAX_INT && (rest == "" || IsSpace(rest[0]))
    ensures Fields(w + rest) == [w] + Fields(rest)
  {
    WordEnds(w, rest);
    assert (w + rest)[..|w|] == w && (w + rest)[|w|..] == rest;
  }

  /** A line that starts like none of the five types is a command of its words. */
  lemma InlineCommand(a: Bytes, b: Bytes, rest: string)
    requires IsWord(a) && IsWord(b) && a[0] !in {'+', '-', ':', '$', '*'} && |a| + |b| + 1 < MAX_INT
    ensures Parse(a + " " + b + "\r\n" + rest) == Parsed(Value('*', "", 0, Bulks([a, b])), rest)
  {
    hide ReadLine, Fields;
    var line: Bytes := a + " " + b;
    assert IsSpace('\n');
    WholeLine(line, rest);
    TwoWords(a, b);
    assert line[0] == a[0];
  }

  lemma TwoWords(a: Bytes, b: Bytes)
    requires IsWord(a) && IsWord(b) && |a| + |b| + 1 < MAX_INT
    ensures Fields(a + " " + b) == [a, b]
  {
    hide WordLength;
    var rest: Bytes := " " + b;
    assert a + " " + b == a + rest && rest[1..] == b && b + "" == b;
    FirstWord(a, rest);
    FirstWord(b, "");
    assert Fields("") == [];
  }

  /** A negative length is a missing bulk string or a missing array. */
  lemma NegativeLength(n: Int, rest: string)
    requires n < 0
    ensures Parse(Header('$', n) + rest) == Parsed(Value('$', "", -1, []), rest)
    ensures Parse(Header('*', n) + rest) == Parsed(Value('*', "", 0, []), rest)
  {
    hide Itoa, Atoi, ReadLine, Header, ParseMany, ReadBody;
    ReadHeader('$', n, rest);
    ReadHeader('*', n, rest);
    AtoiItoa(n);
    assert (['$'] + Itoa(n))[1..] == Itoa(n) && (['*'] + Itoa(n))[1..] == Itoa(n);
  }
}
