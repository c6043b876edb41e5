/**
  Division and remainder with variable divisors, one small fact at a time.
 */
module Arith {
  lemma DivIs(x: int, q: int, p: int, r: int)
    requires x == q * p + r && 0 <= r < p
    ensures x / p == q && x % p == r
  {
    var d := x / p - q;
    assert x == (q + d) * p + x % p;
    assert (q + d) * p == q * p + d * p;
    assert d * p == r - x % p;
    if d >= 1 { TimesAtLeast(d, p); } else if d <= -1 { TimesAtLeast(-d, p); }
  }

  lemma TimesAtLeast(d: int, p: int)
    requires d >= 1 && p > 0
    ensures d * p >= p && (-d) * p == -(d * p)
  {
  }

  lemma DivAdd(x: int, c: int, p: int)
    requires p > 0
    ensures (x + c * p) / p == x / p + c
  {
    var q, r := x / p, x % p;
    assert x + c * p == (q + c) * p + r;
    DivIs(x + c * p, q + c, p, r);
  }

  lemma DivDiv(x: int, p: int, c: int)
    requires p > 0 && c > 0
    ensures p * c > 0 && x / (p * c) == x / p / c
  {
    var q, r := x / p, x % p;
    var u, v := q / c, q % c;
    TwoSteps(u, c, v, p, r);
    RestInRange(v, c, p, r);
    DivIs(x, u, p * c, v * p + r);
  }

  lemma TwoSteps(u: int, c: int, v: int, p: int, r: int)
    ensures (u * c + v) * p + r == u * (p * c) + (v * p + r)
  {
    assert (u * c + v) * p == u * c * p + v * p;
    assert u * c * p == u * (c * p) == u * (p * c);
  }

  lemma RestInRange(v: int, c: int, p: int, r: int)
    requires 0 <= v < c && 0 <= r < p
    ensures 0 <= v * p + r < p * c
  {
    TimesMono(v, c - 1, p);
    TimesMono(0, v, p);
    assert (c - 1) * p == p * c - p;
  }

  lemma TimesMono(a: int, b: int, p: int)
    requires a <= b && p > 0
    ensures a * p <= b * p
  {
  }

  lemma MultipleMod(q: int, a: int)
    requires a > 0
    ensures q * a % a == 0
  {
    DivIs(q * a, q, a, 0);
  }
}
