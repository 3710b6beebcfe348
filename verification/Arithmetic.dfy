/** The few facts about products and quotients the codecs and the ranking need. */
module Arithmetic {
  lemma TimesMonotone(m: int, x: int, y: int)
    requires m >= 0 && x <= y
    ensures m * x <= m * y
  {
  }

  /** Quotient and remainder are unique. */
  lemma QuotientIs(v: nat, d: nat, q: nat, r: nat)
    requires v == d * q + r && r < d
    ensures v / d == q
  {
    var x := v / d;
    assert v == d * x + v % d;
    if x < q {
      TimesMonotone(d, x + 1, q);
      assert false;
    } else if q < x {
      TimesMonotone(d, q + 1, x);
      assert false;
    }
  }

  lemma DivideTwice(v: nat, c: nat, p: nat)
    requires c > 0 && p > 0
    ensures c * p > 0 && v / (c * p) == v / c / p
  {
    var w := v / c;
    Euclid(v, c);
    Euclid(w, p);
    Regroup(v, c, p, w, w / p, w % p, v % c);
    QuotientIs(v, c * p, w / p, c * (w % p) + v % c);
  }

  lemma Euclid(a: nat, m: nat)
    requires m > 0
    ensures a == m * (a / m) + a % m && a % m < m
  {
  }

  lemma Regroup(v: nat, c: nat, p: nat, w: nat, q: nat, x: nat, y: nat)
    requires v == c * w + y && y < c && w == p * q + x && x < p
    ensures v == (c * p) * q + (c * x + y) && c * x + y < c * p
  {
    TimesMonotone(c, x + 1, p);
    assert c * w == c * (p * q) + c * x;
    assert c * (p * q) == (c * p) * q;
  }
}
