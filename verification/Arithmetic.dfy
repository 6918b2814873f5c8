// Integers: absolute values, quotients and remainders.
module Arithmetic {
  function Abs(a: int): int {
    if a < 0 then -a else a
  }

  function One(b: bool): nat {
    if b then 1 else 0
  }

  /** A real number cut toward zero, as JavaScript's bit operators see it. */
  function Trunc(r: real): int {
    if r >= 0.0 then r.Floor else -((-r).Floor)
  }

  /** Division that truncates toward zero, as in Go and in JavaScript's `|0`. */
  function TruncDiv(a: int, b: int): int
    requires b > 0
  {
    if a >= 0 then a / b else -((-a) / b)
  }

  function TruncMod(a: int, b: int): int
    requires b > 0
  {
    a - b * TruncDiv(a, b)
  }

  lemma TruncPositive(a: nat, b: int)
    requires b > 0
    ensures TruncDiv(a, b) == a / b && TruncMod(a, b) == a % b
  {
  }

  lemma {:induction false} OneRow(n: int, b: int)
    requires n > 0 && b > 0
    ensures n * b >= b
    decreases n
  {
    assert n * b == (n - 1) * b + b;
    if n > 1 {
      OneRow(n - 1, b);
    }
  }

  lemma QuotientIs(a: int, b: int, q: int, r: int)
    requires b > 0 && 0 <= r < b && a == q * b + r
    ensures a / b == q && a % b == r
  {
    var d := a / b - q;
    if d < 0 {
      OneRow(-d, b);
    } else if d > 0 {
      OneRow(d, b);
    }
  }

  /** Counting on by one: the remainder grows, or wraps and the quotient grows. */
  lemma CountOn(n: nat, b: nat)
    requires b > 0
    ensures if n % b == b - 1 then (n + 1) / b == n / b + 1 && (n + 1) % b == 0
            else (n + 1) / b == n / b && (n + 1) % b == n % b + 1
  {
    var q, r := n / b, n % b;
    if r == b - 1 {
      assert (q + 1) * b == q * b + b;
      QuotientIs(n + 1, b, q + 1, 0);
    } else {
      QuotientIs(n + 1, b, q, r + 1);
    }
  }
}
