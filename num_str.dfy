/** How a coordinate is rendered inside a template string (`${lat}`). The source
    formats JavaScript numbers; the model formats integers in decimal, with a
    leading minus sign for negative values. What the composite key relies on is
    proved here: the text is never empty, never holds a colon, and two different
    numbers never render alike. */
module NumberFormat {

  /** The character of one decimal digit. */
  function Digit(d: nat): (c: char)
    requires d < 10
    ensures '0' <= c <= '9'
  {
    (48 + d) as char
  }

  predicate IsDigits(s: string)
  {
    forall k :: 0 <= k < |s| ==> '0' <= s[k] <= '9'
  }

  /** Decimal text of a natural number, most significant digit first. */
  function NatStr(n: nat): (r: string)
    ensures |r| >= 1
    ensures IsDigits(r)
    ensures n < 10 <==> |r| == 1
  {
    if n < 10 then [Digit(n)] else NatStr(n / 10) + [Digit(n % 10)]
  }

  /** Decimal text of an integer: a minus sign before a negative value. */
  function NumStr(x: int): (r: string)
    ensures |r| >= 1
    ensures ':' !in r
    ensures x >= 0 <==> '0' <= r[0] <= '9'
  {
    if x < 0 then "-" + NatStr(-x) else NatStr(x)
  }

  lemma {:induction false} NatStrInjective(a: nat, b: nat)
    requires NatStr(a) == NatStr(b)
    ensures a == b
  {
    if a < 10 {
      assert Digit(a) == NatStr(a)[0] == NatStr(b)[0] == Digit(b);
    } else {
      var s := NatStr(a);
      assert s == NatStr(a / 10) + [Digit(a % 10)];
      assert s == NatStr(b / 10) + [Digit(b % 10)];
      assert NatStr(a / 10) == s[..|s| - 1] == NatStr(b / 10);
      NatStrInjective(a / 10, b / 10);
      assert Digit(a % 10) == s[|s| - 1] == Digit(b % 10);
    }
  }

  /** Different numbers render as different text. */
  lemma NumStrInjective(x: int, y: int)
    requires NumStr(x) == NumStr(y)
    ensures x == y
  {
    if x < 0 {
      assert NatStr(-x) == NumStr(x)[1..] == NumStr(y)[1..] == NatStr(-y);
      NatStrInjective(-x, -y);
    } else {
      NatStrInjective(x, y);
    }
  }
}
