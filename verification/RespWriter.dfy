/** The reply and log writers, each appending to a shared buffered writer. */
module RespWriter {
  import opened Basics
  import opened Strconv
  import opened Resp
  import opened RespProofs

  class Writer {
    var out: string

    constructor ()
      ensures out == ""
    {
      out := "";
    }

    method WriteString(s: string)
      modifies this
      ensures out == old(out) + s
    {
      out := out + s;
    }

    method WriteSimpleString(s: Bytes)
      modifies this
      ensures out == old(out) + EncodeSimple('+', s)
    {
      WriteString("+" + s + "\r\n");
    }

    method WriteError(msg: Bytes)
      modifies this
      ensures out == old(out) + EncodeSimple('-', msg)
    {
      WriteString("-" + msg + "\r\n");
    }

    method WriteInteger(n: Int)
      modifies this
      ensures out == old(out) + Header(':', n)
    {
      WriteString(":" + Itoa(n) + "\r\n");
    }

    method WriteBulkString(s: Bytes)
      modifies this
      ensures out == old(out) + EncodeBulk(s)
    {
      WriteString("$" + Itoa(|s|) + "\r\n" + s + "\r\n");
    }

    method WriteNullBulk()
      modifies this
      ensures out == old(out) + Header('$', -1)
    {
      WriteString("$-1\r\n");
    }

    method WriteArray(vals: Line)
      modifies this
      ensures out == old(out) + EncodeArray(vals)
    {
      ghost var was := out;
      WriteString("*" + Itoa(|vals|) + "\r\n");
      var i := 0;
      while i < |vals|
        invariant 0 <= i <= |vals|
        invariant out == was + Header('*', |vals|) + EncodeBulks(vals[..i])
      {
        BulksUpTo(vals, i);
        Assoc(was + Header('*', |vals|), EncodeBulks(vals[..i]), EncodeBulk(vals[i]));
        WriteBulkString(vals[i]);
        i := i + 1;
      }
      assert vals[..i] == vals;
      Assoc(was, Header('*', |vals|), EncodeBulks(vals));
    }

    /** The writer of the rewritten log, which does not go through WriteArray. */
    method WriteRESPCommand(all: Line)
      modifies this
      ensures out == old(out) + EncodeArray(all)
    {
      ghost var was := out;
      WriteString("*" + Itoa(|all|) + "\r\n");
      var i := 0;
      while i < |all|
        invariant 0 <= i <= |all|
        invariant out == was + Header('*', |all|) + EncodeBulks(all[..i])
      {
        BulksUpTo(all, i);
        Assoc(was + Header('*', |all|), EncodeBulks(all[..i]), EncodeBulk(all[i]));
        WriteString("$" + Itoa(|all[i]|) + "\r\n" + all[i] + "\r\n");
        i := i + 1;
      }
      assert all[..i] == all;
      Assoc(was, Header('*', |all|), EncodeBulks(all));
    }
  }

  function EncodeSimple(typ: char, s: Bytes): string {
    [typ] + s + "\r\n"
  }

  lemma BulksUpTo(ss: seq<Bytes>, i: nat)
    requires i < |ss|
    ensures EncodeBulks(ss[..i + 1]) == EncodeBulks(ss[..i]) + EncodeBulk(ss[i])
  {
    assert ss[..i + 1] == ss[..i] + [ss[i]];
    EncodeBulksAppend(ss[..i], [ss[i]]);
    assert [ss[i]][1..] == [];
  }

  /** An integer reply reads back as that integer. */
  lemma ParseInvertsInteger(n: Int, rest: string)
    ensures Parse(Header(':', n) + rest) == Parsed(Value(':', "", n, []), rest)
  {
    ReadHeader(':', n, rest);
    var line: Bytes := [':'] + Itoa(n);
    assert line[1..] == Itoa(n);
    AtoiItoa(n);
  }

  /** A missing value reads back as a null bulk string, unlike an empty one. */
  lemma ParseInvertsNullBulk(rest: string)
    ensures Header('$', -1) == "$-1\r\n"
    ensures Parse(Header('$', -1) + rest) == Parsed(Value('$', "", -1, []), rest)
    ensures Parse(EncodeBulk("") + rest) == Parsed(Value('$', "", 0, []), rest)
  {
    ReadHeader('$', -1, rest);
    var line: Bytes := ['$'] + Itoa(-1);
    assert line[1..] == Itoa(-1);
    AtoiItoa(-1);
    ReadBulk("", rest);
  }

  /** A simple string or an error reads back as written exactly when its text
      holds no line feed. */
  lemma ParseInvertsSimple(typ: char, s: Bytes, rest: string)
    requires typ == '+' || typ == '-'
    requires |s| + 2 <= MAX_INT
    ensures Parse(EncodeSimple(typ, s) + rest) == Parsed(Value(typ, s, 0, []), rest)
      <==> '\n' !in s
  {
    var e := EncodeSimple(typ, s) + rest;
    var line := [typ] + s;
    if '\n' !in s {
      LineEndAfter(line + "\r", rest);
      assert e == (line + "\r") + "\n" + rest;
      assert e[..|line|] == line && e[|line| + 2..] == rest;
      assert line[1..] == s;
    } else {
      var i :| 0 <= i < |s| && s[i] == '\n';
      assert e[i + 1] == '\n';
      assert LineEnd(e) <= i + 1;
    }
  }
}
