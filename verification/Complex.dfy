/** Complex numbers over the reals, powers, and finite sums: the algebra behind the transform. */
module ComplexNumbers {

  datatype Complex = Complex(re: real, im: real)

  const ZERO := Complex(0.0, 0.0)
  const ONE := Complex(1.0, 0.0)

  function Add(a: Complex, b: Complex): Complex {
    Complex(a.re + b.re, a.im + b.im)
  }

  function Sub(a: Complex, b: Complex): Complex {
    Complex(a.re - b.re, a.im - b.im)
  }

  function Mul(a: Complex, b: Complex): Complex {
    Complex(a.re * b.re - a.im * b.im, a.re * b.im + a.im * b.re)
  }

  function Scale(c: real, a: Complex): Complex {
    Complex(c * a.re, c * a.im)
  }

  function Conj(a: Complex): Complex {
    Complex(a.re, -a.im)
  }

  /** w to the power k; exponents below one give one. */
  function Pow(w: Complex, k: int): Complex {
    if k <= 0 then ONE else Mul(w, Pow(w, k - 1))
  }

  /** Sum of f(0), ..., f(n - 1). */
  function Sum(n: nat, f: int -> Complex): Complex {
    if n == 0 then ZERO else Add(Sum(n - 1, f), f(n - 1))
  }

  /** Total indexing, so that sums can be written with total lambdas. */
  function At(s: seq<Complex>, i: int): Complex {
    if 0 <= i < |s| then s[i] else ZERO
  }

  // ----- ring laws -----

  lemma MulComm(a: Complex, b: Complex)
    ensures Mul(a, b) == Mul(b, a)
  {
  }

  lemma MulAssoc(a: Complex, b: Complex, c: Complex)
    ensures Mul(Mul(a, b), c) == Mul(a, Mul(b, c))
  {
  }

  lemma MulAdd(a: Complex, b: Complex, c: Complex)
    ensures Mul(a, Add(b, c)) == Add(Mul(a, b), Mul(a, c))
  {
  }

  lemma MulOne(a: Complex)
    ensures Mul(a, ONE) == a && Mul(ONE, a) == a
    ensures Mul(a, ZERO) == ZERO && Mul(ZERO, a) == ZERO
  {
  }

  lemma AddComm4(a: Complex, b: Complex, c: Complex, d: Complex)
    ensures Add(Add(a, b), Add(c, d)) == Add(Add(a, c), Add(b, d))
    ensures Add(Add(a, b), c) == Add(a, Add(b, c))
    ensures Add(a, ZERO) == a && Add(ZERO, a) == a
  {
  }

  lemma MulSwapInner(a: Complex, b: Complex, c: Complex)
    ensures Mul(a, Mul(b, c)) == Mul(b, Mul(a, c))
  {
    hide *;
    MulAssoc(a, b, c);
    MulComm(a, b);
    MulAssoc(b, a, c);
  }

  lemma ConjMul(a: Complex, b: Complex)
    ensures Conj(Mul(a, b)) == Mul(Conj(a), Conj(b))
  {
  }

  function Times(x: real, y: real): real {
    x * y
  }

  function NormSq(a: Complex): real {
    Times(a.re, a.re) + Times(a.im, a.im)
  }

  lemma TimesPositive(x: real, y: real)
    requires x > 0.0 && y > 0.0
    ensures Times(x, y) > 0.0
  {
  }

  lemma TimesSigns(x: real, y: real)
    ensures Times(x, y) == Times(-x, -y)
    ensures Times(0.0, y) == 0.0
  {
  }

  lemma SquarePositive(x: real)
    ensures Times(x, x) >= 0.0 && (x != 0.0 ==> Times(x, x) > 0.0)
  {
    hide Times;
    TimesSigns(x, x);
    if x > 0.0 {
      TimesPositive(x, x);
    } else if x < 0.0 {
      TimesPositive(-x, -x);
    }
  }

  lemma NormPositive(a: Complex)
    requires a != ZERO
    ensures NormSq(a) > 0.0
  {
    hide Times;
    SquarePositive(a.re);
    SquarePositive(a.im);
  }

  lemma ConjTimes(a: Complex)
    ensures Mul(Conj(a), a) == Complex(NormSq(a), 0.0) && Mul(a, Conj(a)) == Complex(NormSq(a), 0.0)
  {
  }

  lemma RealTimes(c: real, b: Complex)
    ensures Mul(Complex(c, 0.0), b) == Scale(c, b)
    ensures c != 0.0 && Scale(c, b) == ZERO ==> b == ZERO
  {
  }

  /** The complex numbers have no zero divisors. */
  lemma NoZeroDivisor(a: Complex, b: Complex)
    requires Mul(a, b) == ZERO && a != ZERO
    ensures b == ZERO
  {
    hide *;
    MulAssoc(Conj(a), a, b);
    MulOne(Conj(a));
    ConjTimes(a);
    NormPositive(a);
    RealTimes(NormSq(a), b);
  }

  // ----- powers -----

  lemma {:induction false} PowAdd(w: Complex, a: nat, b: nat)
    ensures Pow(w, a + b) == Mul(Pow(w, a), Pow(w, b))
  {
    hide Mul;
    if a == 0 {
      MulOne(Pow(w, b));
    } else {
      PowAdd(w, a - 1, b);
      MulAssoc(w, Pow(w, a - 1), Pow(w, b));
    }
  }

  lemma PowStep(w: Complex, k: int)
    requires k > 0
    ensures Pow(w, k) == Mul(w, Pow(w, k - 1))
  {
  }

  lemma {:induction false} PowFixed(w: Complex, k: nat)
    requires Mul(w, ONE) == ONE
    ensures Pow(w, k) == ONE
  {
    hide Mul;
    if k > 0 {
      PowFixed(w, k - 1);
    }
  }

  lemma PowOfOne(k: nat)
    ensures Pow(ONE, k) == ONE
  {
    MulOne(ONE);
    PowFixed(ONE, k);
  }

  lemma {:induction false} PowMul(w: Complex, a: nat, b: nat)
    ensures a * b >= 0 && Pow(w, a * b) == Pow(Pow(w, a), b)
  {
    hide Mul;
    if b > 0 {
      PowMul(w, a, b - 1);
      assert a * b == a + a * (b - 1);
      PowAdd(w, a, a * (b - 1));
    } else {
      assert a * b == 0;
    }
  }

  /** Exponents only matter modulo a period of w. */
  lemma PowPeriod(w: Complex, n: nat, a: nat, b: nat)
    requires Pow(w, n) == ONE
    ensures n * b >= 0 && Pow(w, a + n * b) == Pow(w, a)
  {
    hide Mul;
    hide Pow;
    PowMul(w, n, b);
    PowOfOne(b);
    PowAdd(w, a, n * b);
    MulOne(Pow(w, a));
  }

  // ----- sums -----

  lemma {:induction false} SumCong(n: nat, f: int -> Complex, g: int -> Complex)
    requires forall i :: 0 <= i < n ==> f(i) == g(i)
    ensures Sum(n, f) == Sum(n, g)
  {
    if n > 0 {
      SumCong(n - 1, f, g);
    }
  }

  lemma {:induction false} SumZero(n: nat, f: int -> Complex)
    requires forall i :: 0 <= i < n ==> f(i) == ZERO
    ensures Sum(n, f) == ZERO
  {
    if n > 0 {
      SumZero(n - 1, f);
    }
  }

  lemma {:induction false} SumAdd(n: nat, f: int -> Complex, g: int -> Complex, h: int -> Complex)
    requires forall i :: 0 <= i < n ==> h(i) == Add(f(i), g(i))
    ensures Sum(n, h) == Add(Sum(n, f), Sum(n, g))
  {
    if n > 0 {
      hide Add;
      SumAdd(n - 1, f, g, h);
      AddComm4(Sum(n - 1, f), Sum(n - 1, g), f(n - 1), g(n - 1));
    }
  }

  lemma {:induction false} SumMul(n: nat, c: Complex, f: int -> Complex, h: int -> Complex)
    requires forall i :: 0 <= i < n ==> h(i) == Mul(c, f(i))
    ensures Sum(n, h) == Mul(c, Sum(n, f))
  {
    hide Add, Mul;
    if n > 0 {
      SumMul(n - 1, c, f, h);
      MulAdd(c, Sum(n - 1, f), f(n - 1));
    } else {
      MulOne(c);
    }
  }

  lemma {:induction false} SumSplit(m: nat, n: nat, f: int -> Complex, h: int -> Complex)
    requires forall i :: 0 <= i < n ==> h(i) == f(m + i)
    ensures Sum(m + n, f) == Add(Sum(m, f), Sum(n, h))
  {
    hide Add;
    AddComm4(Sum(m, f), ZERO, ZERO, ZERO);
    if n > 0 {
      SumSplit(m, n - 1, f, h);
      assert h(n - 1) == f(m + (n - 1));
      AddComm4(Sum(m, f), Sum(n - 1, h), h(n - 1), ZERO);
    }
  }

  lemma {:induction false} SumSwap(m: nat, n: nat, f: (int, int) -> Complex,
                                   rows: int -> Complex, cols: int -> Complex)
    requires forall i :: 0 <= i < m ==> rows(i) == Sum(n, j => f(i, j))
    requires forall j :: 0 <= j < n ==> cols(j) == Sum(m, i => f(i, j))
    ensures Sum(m, rows) == Sum(n, cols)
  {
    hide Add;
    if m == 0 {
      SumZero(n, cols);
    } else {
      var rest := (j: int) => Sum(m - 1, i => f(i, j));
      SumSwap(m - 1, n, f, rows, rest);
      SumAdd(n, rest, j => f(m - 1, j), cols);
    }
  }

  /** Summing by residue class: t = q + p * r. */
  lemma {:induction false} SumByResidue(p: nat, m: nat, g: int -> Complex, cls: int -> Complex)
    requires forall q :: 0 <= q < p ==> cls(q) == Sum(m, r => g(q + p * r))
    ensures p * m >= 0 && Sum(p * m, g) == Sum(p, cls)
  {
    hide Add;
    if m == 0 {
      assert p * m == 0;
      SumZero(p, cls);
    } else {
      var head := (q: int) => Sum(m - 1, r => g(q + p * r));
      SumByResidue(p, m - 1, g, head);
      AppendRow(p, p * (m - 1), p * m, g, head, cls);
    }
  }

  lemma AppendRow(p: nat, base: nat, end: nat, g: int -> Complex, head: int -> Complex, cls: int -> Complex)
    requires end == base + p
    requires forall q :: 0 <= q < p ==> cls(q) == Add(head(q), g(q + base))
    requires Sum(base, g) == Sum(p, head)
    ensures Sum(end, g) == Sum(p, cls)
  {
    hide Add;
    var tail := (q: int) => g(q + base);
    SumSplit(base, p, g, tail);
    SumAdd(p, head, tail, cls);
  }

  lemma {:induction false} SumReal(n: nat, f: int -> Complex)
    ensures Conj(Sum(n, f)) == Sum(n, i => Conj(f(i)))
  {
    if n > 0 {
      SumReal(n - 1, f);
    }
  }

  /** Only one term of the sum is not zero. */
  lemma {:induction false} SumSingle(n: nat, at: nat, f: int -> Complex)
    requires at < n
    requires forall i :: 0 <= i < n && i != at ==> f(i) == ZERO
    ensures Sum(n, f) == f(at)
  {
    if at == n - 1 {
      SumZero(n - 1, f);
    } else {
      SumSingle(n - 1, at, f);
    }
  }

  /** A geometric sum over a full period vanishes unless the ratio is one. */
  lemma {:induction false} Geometric(z: Complex, n: nat)
    ensures Mul(Sub(z, ONE), Sum(n, k => Pow(z, k))) == Sub(Pow(z, n), ONE)
  {
    var f := (k: int) => Pow(z, k);
    if n > 0 {
      hide Pow;
      Geometric(z, n - 1);
      assert Pow(z, n) == Mul(z, Pow(z, n - 1)) by { PowStep(z, n); }
      var y := Pow(z, n - 1);
      var s := Sum(n - 1, f);
      assert Sum(n, f) == Add(s, y);
      GeometricStep(z, s, y);
    } else {
      MulOne(Sub(z, ONE));
    }
  }

  lemma GeometricStep(z: Complex, s: Complex, y: Complex)
    requires Mul(Sub(z, ONE), s) == Sub(y, ONE)
    ensures Mul(Sub(z, ONE), Add(s, y)) == Sub(Mul(z, y), ONE)
  {
    MulAdd(Sub(z, ONE), s, y);
  }
}
