/** Facts about integer products, quotients and remainders. */
module Integers {

  lemma MulAssocInt(a: int, b: int, c: int)
    ensures (a * b) * c == a * (b * c)
  {
  }

  lemma MulCommInt(a: int, b: int)
    ensures a * b == b * a
  {
  }

  lemma MulPositive(a: int, b: int)
    requires a >= 1 && b >= 1
    ensures a * b >= 1 && a * b >= a && a * b >= b
  {
  }

  /** Quotient and remainder are determined by the decomposition. */
  lemma DivUnique(a: int, m: int, q: int, r: int)
    requires m >= 1 && 0 <= r < m && a == q * m + r
    ensures a / m == q && a % m == r
  {
    var q', r' := a / m, a % m;
    assert a == m * q' + r';
    MulCommInt(m, q');
    if q' > q {
      assert (q' - q) * m >= m by { MulPositive(q' - q, m); }
    } else if q' < q {
      assert (q - q') * m >= m by { MulPositive(q - q', m); }
    }
  }

  lemma DivSplit(a: int, m: int)
    requires m >= 1
    ensures a == (a / m) * m + a % m && 0 <= a % m < m
  {
    MulCommInt(a / m, m);
  }

  lemma DivBound(a: int, m: int, q: int)
    requires m >= 1 && 0 <= a < q * m
    ensures 0 <= a / m < q
  {
    DivSplit(a, m);
  }

  lemma SumBelow(b: int, s: int, c: int, r: int)
    requires s >= 1 && 0 <= b < s && 0 <= c < r
    ensures 0 <= b + s * c < s * r
  {
    assert s * r == s * c + s * (r - c);
    MulPositive(s, r - c);
    if c > 0 { MulPositive(s, c); } else { assert s * c == 0; }
  }

  lemma ModOfMod(o: int, s: int, p: int, low: int, digit: int)
    requires s >= 1 && p >= 1 && s * p >= 1
    requires o % (s * p) == low + s * digit && 0 <= low < s
    ensures o % s == low
  {
    var d := o / (s * p);
    DivSplit(o, s * p);
    assert o == d * (s * p) + low + s * digit;
    assert d * (s * p) == (d * p) * s by {
      MulCommInt(s, p);
      MulAssocInt(d, p, s);
    }
    assert (d * p + digit) * s == (d * p) * s + s * digit;
    DivUnique(o, s, d * p + digit, low);
  }

  lemma DivOfDiv(a: int, m: int, p: int)
    requires m >= 1 && p >= 1
    ensures m * p >= 1 && (a / m) / p == a / (m * p)
  {
    MulPositive(m, p);
    DivSplit(a, m);
    var b := a / m;
    DivSplit(b, p);
    var c, r := b / p, b % p;
    assert a == (c * p + r) * m + a % m;
    assert (c * p + r) * m == c * (m * p) + m * r by {
      MulCommInt(m, p);
      MulAssocInt(c, p, m);
    }
    SumBelow(a % m, m, r, p);
    DivUnique(a, m * p, c, a % m + m * r);
  }
}
