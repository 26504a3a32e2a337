/** Facts about multiplication, division and remainder that the solver needs spelled out. */
module Arithmetic {
  lemma MulAtLeast(x: int, s: int)
    requires x >= 1 && s > 0
    ensures x * s >= s
  {
    assert x * s == (x - 1) * s + s;
  }

  /** Quotient and remainder are determined by their defining equation. */
  lemma DivModUnique(n: int, s: int, q: int, r: int)
    requires s > 0 && 0 <= r < s && n == q * s + r
    ensures n / s == q && n % s == r
  {
    var q', r' := n / s, n % s;
    assert n == q' * s + r';
    assert (q - q') * s == r' - r && (q' - q) * s == r - r';
    if q > q' {
      MulAtLeast(q - q', s);
    } else if q < q' {
      MulAtLeast(q' - q, s);
    }
  }

  lemma DivModNext(n: nat, m: nat)
    requires m > 0
    ensures if n % m == m - 1 then (n + 1) / m == n / m + 1 && (n + 1) % m == 0
            else (n + 1) / m == n / m && (n + 1) % m == n % m + 1
  {
    var q, r := n / m, n % m;
    assert n == q * m + r;
    if r == m - 1 {
      assert n + 1 == (q + 1) * m + 0;
      DivModUnique(n + 1, m, q + 1, 0);
    } else {
      DivModUnique(n + 1, m, q, r + 1);
    }
  }

  lemma DivBelow(n: nat, f: nat, s: nat)
    requires s > 0 && n < f * s
    ensures n / s < f
  {
    assert n >= (n / s) * s;
    if n / s >= f {
      MulMonotone(f, n / s, s);
    }
  }

  lemma MulMonotone(a: int, b: int, s: nat)
    requires a <= b
    ensures a * s <= b * s
  {
    assert b * s == a * s + (b - a) * s;
  }
}
