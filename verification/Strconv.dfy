/** strconv.Itoa and strconv.Atoi. */
module Strconv {
  import opened Basics

  predicate IsDigit(c: char) {
    '0' <= c <= '9'
  }

  predicate AllDigits(s: string) {
    forall i :: 0 <= i < |s| ==> IsDigit(s[i])
  }

  function DigitChar(d: nat): (c: char)
    requires d < 10
    ensures IsDigit(c) && c as int == '0' as int + d
  {
    ('0' as int + d) as char
  }

  /** The decimal digits of n, most significant first. */
  function Digits(n: nat): (s: string)
    ensures AllDigits(s) && 1 <= |s| <= 1 + n / 10
  {
    if n < 10 then [DigitChar(n)] else Digits(n / 10) + [DigitChar(n % 10)]
  }

  function Itoa(n: Int): (s: Bytes)
    ensures s != ""
    ensures forall i :: 0 <= i < |s| ==> s[i] == '-' || IsDigit(s[i])
  {
    var m: int := n;
    if m < 0 then "-" + Digits(-m) else Digits(m)
  }

  /** The number a digit string denotes. */
  function Denotes(s: string): nat
    requires AllDigits(s)
  {
    if s == "" then 0
    else 10 * Denotes(s[..|s| - 1]) + (s[|s| - 1] as int - '0' as int)
  }

  /** An optional sign, at least one digit, and a value that fits an `int`. */
  function Atoi(s: Bytes): Option<Int> {
    var signed := s != "" && (s[0] == '-' || s[0] == '+');
    var body := if signed then s[1..] else s;
    if body == "" || !AllDigits(body) then None
    else
      var m: int := Denotes(body);
      var n := if signed && s[0] == '-' then -m else m;
      if MIN_INT <= n <= MAX_INT then Some(n) else None
  }

  lemma {:induction false} DenotesDigits(n: nat)
    ensures Denotes(Digits(n)) == n
  {
    if n >= 10 {
      DenotesDigits(n / 10);
      var s := Digits(n);
      assert s[..|s| - 1] == Digits(n / 10);
    }
  }

  /** Every integer survives being printed and read back. */
  lemma AtoiItoa(n: Int)
    ensures Atoi(Itoa(n)) == Some(n)
  {
    var s := Itoa(n);
    var m: int := n;
    if m < 0 {
      DenotesDigits(-m);
      assert s[1..] == Digits(-m);
    } else {
      DenotesDigits(m);
      assert IsDigit(s[0]);
    }
  }

  /** What does not fit an int is no number; the least int does. */
  lemma AtoiOutOfRange(n: nat)
    requires n > MAX_INT && |Digits(n)| < MAX_INT
    ensures Atoi(Digits(n)) == None
    ensures Atoi("-" + Digits(n)) == if n as int == -MIN_INT then Some(MIN_INT) else None
  {
    DenotesDigits(n);
    assert IsDigit(Digits(n)[0]);
    assert ("-" + Digits(n))[1..] == Digits(n);
  }
}
