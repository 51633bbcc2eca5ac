/** Natural numbers as decimal text. */
module Decimal {

  function Digit(d: nat): char
    requires d < 10
  {
    '0' + d as char
  }

  predicate IsDigit(c: char) {
    '0' <= c <= '9'
  }

  function Dec(n: nat): (s: string)
    ensures s != []
  {
    if n < 10 then [Digit(n)] else Dec(n / 10) + [Digit(n % 10)]
  }

  /** The number that digits stand for. */
  function Read(s: string): nat
    requires forall c <- s :: IsDigit(c)
  {
    if s == [] then 0
    else
      assert IsDigit(s[|s| - 1]);
      10 * Read(s[..|s| - 1]) + (s[|s| - 1] as int - '0' as int)
  }

  /** A number is written in digits that stand for it, without a zero in front. */
  lemma {:induction false} DecReads(n: nat)
    ensures (forall c <- Dec(n) :: IsDigit(c)) && Read(Dec(n)) == n && (Dec(n)[0] == '0' <==> n == 0)
  {
    DecDigits(n);
    DecParts(n);
    var s := Dec(n);
    assert s[..|s| - 1] == if n < 10 then [] else Dec(n / 10);
    if n >= 10 {
      DecReads(n / 10);
      assert s[0] == Dec(n / 10)[0];
    }
  }

  lemma {:induction false} DecDigits(n: nat)
    ensures forall c <- Dec(n) :: IsDigit(c)
  {
    if n >= 10 {
      DecDigits(n / 10);
    }
  }

  /** Different numbers are written differently. */
  lemma {:induction false} DecInjective(a: nat, b: nat)
    requires Dec(a) == Dec(b)
    ensures a == b
  {
    var s := Dec(a);
    var n := |s| - 1;
    DecParts(a);
    DecParts(b);
    if a >= 10 && b >= 10 {
      DecInjective(a / 10, b / 10);
    }
  }

  lemma DecParts(n: nat)
    ensures var s := Dec(n);
            && s[|s| - 1] == Digit(n % 10)
            && (|s| == 1 <==> n < 10)
            && (n >= 10 ==> s[..|s| - 1] == Dec(n / 10))
  {
  }

  /** A number in front of a mark that is no digit can be told from the text. */
  lemma DecBefore(a: nat, b: nat, mark: char, s: string, t: string)
    requires !IsDigit(mark) && Dec(a) + ([mark] + s) == Dec(b) + ([mark] + t)
    ensures a == b && s == t
  {
    var x, y := Dec(a) + ([mark] + s), Dec(b) + ([mark] + t);
    DecDigits(a);
    DecDigits(b);
    var m, n := |Dec(a)|, |Dec(b)|;
    assert x[m] == mark && y[n] == mark;
    assert forall i :: 0 <= i < m ==> x[i] == Dec(a)[i] && IsDigit(x[i]);
    assert forall i :: 0 <= i < n ==> y[i] == Dec(b)[i] && IsDigit(y[i]);
    assert m == n;
    assert Dec(a) == x[..m] && Dec(b) == y[..n];
    assert s == x[m + 1..] && t == y[n + 1..];
    DecInjective(a, b);
  }
}
