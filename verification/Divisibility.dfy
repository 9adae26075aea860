/** Remainders and greatest common divisors. */
module Divisibility {

  function Gcd(a: nat, b: nat): nat
    decreases b
  {
    if b == 0 then a else Gcd(b, a % b)
  }

  lemma MultiplesAreApart(m: int, k: int)
    requires m > 0
    ensures k >= 1 ==> m * k >= m
    ensures k <= -1 ==> m * k <= -m
  {
    if k >= 1 {
      assert m * (k - 1) >= 0;
    } else if k <= -1 {
      assert m * (-1 - k) >= 0;
    }
  }

  lemma RemainderIs(n: int, m: int, quotient: int, remainder: int)
    requires 0 <= remainder < m && n == m * quotient + remainder
    ensures n % m == remainder && n / m == quotient
  {
    var gap := quotient - n / m;
    assert m * gap == n % m - remainder by {
      assert n == m * (n / m) + n % m;
      assert m * gap == m * quotient - m * (n / m);
    }
    MultiplesAreApart(m, gap);
  }

  lemma MultipleIs(m: int, quotient: int)
    requires m > 0
    ensures m * quotient % m == 0
  {
    RemainderIs(m * quotient, m, quotient, 0);
  }

  lemma SumOfMultiples(a: int, b: int, m: int)
    requires m > 0 && a % m == 0 && b % m == 0
    ensures (a + b) % m == 0 && (a - b) % m == 0
  {
    assert a == m * (a / m) && b == m * (b / m);
    assert a + b == m * (a / m + b / m);
    assert a - b == m * (a / m - b / m);
    MultipleIs(m, a / m + b / m);
    MultipleIs(m, a / m - b / m);
  }

  lemma MultipleOfMultiple(a: int, b: int, m: int)
    requires m > 0 && a % m == 0
    ensures a * b % m == 0
  {
    assert a == m * (a / m);
    assert a * b == m * (a / m * b);
    MultipleIs(m, a / m * b);
  }

  lemma {:induction false} GcdDivides(a: nat, b: nat)
    requires a > 0 || b > 0
    ensures Gcd(a, b) > 0 && a % Gcd(a, b) == 0 && b % Gcd(a, b) == 0
    ensures b > 0 ==> Gcd(a, b) <= b
    decreases b
  {
    if b == 0 {
      MultipleIs(a, 1);
    } else {
      GcdDivides(b, a % b);
      var g := Gcd(a, b);
      assert a == b * (a / b) + a % b;
      MultipleOfMultiple(b, a / b, g);
      SumOfMultiples(b * (a / b), a % b, g);
      if g > b {
        RemainderIs(b, g, 0, b);
      }
    }
  }

  lemma {:induction false} Bezout(a: nat, b: nat) returns (x: int, y: int)
    ensures a * x + b * y == Gcd(a, b)
    decreases b
  {
    if b == 0 {
      x, y := 1, 0;
    } else {
      var u, v := Bezout(b, a % b);
      x, y := v, u - a / b * v;
      assert a == b * (a / b) + a % b;
      assert a * v == b * (a / b) * v + a % b * v;
      assert b * (u - a / b * v) == b * u - b * (a / b * v);
      assert b * (a / b) * v == b * (a / b * v);
    }
  }

  /** Some multiple of `a` falls short of a multiple of `b` by just their greatest common divisor. */
  lemma SomeMultipleIsJustShort(a: nat, b: nat) returns (k: nat)
    requires b > 0
    ensures k * a % b == b - Gcd(a, b)
  {
    GcdDivides(a, b);
    var x, y := Bezout(a, b);
    k := (-x) % b;
    var m := (-x) / b;
    assert k == -x - b * m;
    assert k * a == -(a * x) - b * (m * a) by {
      assert k * a == (-x) * a - b * m * a;
      assert b * m * a == b * (m * a);
    }
    assert b * (y - m * a - 1) == b * y - b * (m * a) - b;
    RemainderIs(k * a, b, y - m * a - 1, b - Gcd(a, b));
  }

  /** Adding before or after taking the remainder comes to the same. */
  lemma RemainderOfSum(a: int, b: int, m: int)
    requires m > 0
    ensures (a % m + b) % m == (a + b) % m
  {
    var q := a / m;
    assert a == m * q + a % m;
    var n := a % m + b;
    assert n == m * (n / m) + n % m;
    assert a + b == m * (q + n / m) + n % m;
    RemainderIs(a + b, m, q + n / m, n % m);
  }

  /** What is left of `c` multiples of `a` and what is left of `m - 1` times as many make up a whole `m`. */
  lemma RemainderOfOpposite(a: int, c: int, d: int, m: int)
    requires 0 < d < m && (c * a - d) % m == 0
    ensures (m - 1) * c * a % m == m - d
  {
    var q := (c * a - d) / m;
    assert c * a == m * q + d;
    assert (m - 1) * c * a == m * (c * a) - c * a by {
      assert (m - 1) * c * a == (m - 1) * (c * a);
    }
    assert m * (c * a - q - 1) == m * (c * a) - m * q - m;
    RemainderIs((m - 1) * c * a, m, c * a - q - 1, m - d);
  }
}
