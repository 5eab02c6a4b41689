/** Decimal text of numbers, as strconv and fmt print and parse it. */
module Decimal {
  predicate IsDigit(c: char) {
    '0' <= c <= '9'
  }

  predicate AllDigits(s: string) {
    forall i :: 0 <= i < |s| ==> IsDigit(s[i])
  }

  function Digit(d: nat): char
    requires d < 10
  {
    ['0', '1', '2', '3', '4', '5', '6', '7', '8', '9'][d]
  }

  function DigitValue(c: char): nat
    requires IsDigit(c)
  {
    c as int - '0' as int
  }

  function Dec(n: nat): string {
    if n < 10 then [Digit(n)] else Dec(n / 10) + [Digit(n % 10)]
  }

  function Value(s: string): nat
    requires AllDigits(s)
  {
    if s == [] then 0 else Value(s[..|s| - 1]) * 10 + DigitValue(s[|s| - 1])
  }

  /** Printing and parsing a number gives the number back. */
  lemma {:induction false} ValueOfDec(n: nat)
    ensures Dec(n) != [] && AllDigits(Dec(n)) && Value(Dec(n)) == n
  {
    if n >= 10 {
      ValueOfDec(n / 10);
      assert Dec(n)[..|Dec(n)| - 1] == Dec(n / 10);
    } else {
      assert Dec(n)[..0] == [];
    }
  }

  function DecInt(n: int): string {
    if n < 0 then "-" + Dec(-n) else Dec(n)
  }

  /** Text up to the first dash is determined when it is made of digits. */
  lemma {:induction false} DigitsThenDash(a: string, x: string, b: string, y: string)
    requires AllDigits(a) && AllDigits(b) && a + ("-" + x) == b + ("-" + y)
    ensures a == b && x == y
  {
    var s, t := a + ("-" + x), b + ("-" + y);
    assert s[|a|] == '-' && t[|b|] == '-';
    assert forall i | 0 <= i < |a| :: IsDigit(s[i]) by { assert forall i | 0 <= i < |a| :: s[i] == a[i]; }
    assert forall i | 0 <= i < |b| :: IsDigit(t[i]) by { assert forall i | 0 <= i < |b| :: t[i] == b[i]; }
    assert |a| == |b|;
    assert a == s[..|a|] && b == t[..|b|];
    assert x == s[|a| + 1..] && y == t[|b| + 1..];
  }

  lemma {:induction false} DecThenDash(m: nat, x: string, n: nat, y: string)
    requires Dec(m) + ("-" + x) == Dec(n) + ("-" + y)
    ensures m == n && x == y
  {
    ValueOfDec(m);
    ValueOfDec(n);
    DigitsThenDash(Dec(m), x, Dec(n), y);
  }

  lemma {:induction false} MinusFirst(s: string, t: string)
    ensures ("-" + s) + t == "-" + (s + t) && (("-" + s) + t)[0] == '-'
    ensures (("-" + s) + t)[1..] == s + t
  {}

  lemma {:induction false} DecIntThenDash(m: int, x: string, n: int, y: string)
    requires DecInt(m) + ("-" + x) == DecInt(n) + ("-" + y)
    ensures m == n && x == y
  {
    var a, b := if m < 0 then -m else m, if n < 0 then -n else n;
    ValueOfDec(a);
    ValueOfDec(b);
    MinusFirst(Dec(a), "-" + x);
    MinusFirst(Dec(b), "-" + y);
    assert (Dec(a) + ("-" + x))[0] == Dec(a)[0] && (Dec(b) + ("-" + y))[0] == Dec(b)[0];
    assert m < 0 <==> n < 0;
    DecThenDash(a, x, b, y);
  }
}
