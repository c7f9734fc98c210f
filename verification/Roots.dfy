/** Powers of an exact root of unity, and the closed forms of the radix combinations. */
module Roots {
  import opened ComplexNumbers
  import opened Integers
  import opened FftPlan
  import opened Dft
  import opened Butterfly

  const MINUS_ONE := Complex(-1.0, 0.0)

  ghost predicate Unit(z: Complex) {
    Mul(z, Conj(z)) == ONE
  }

  lemma UnitMul(a: Complex, b: Complex)
    requires Unit(a) && Unit(b)
    ensures Unit(Mul(a, b))
  {
    hide Mul, Conj;
    ConjMul(a, b);
    MulAssoc(a, b, Mul(Conj(a), Conj(b)));
    MulSwapInner(b, Conj(a), Conj(b));
    MulOne(Conj(a));
  }

  lemma {:induction false} UnitPow(w: Complex, k: nat)
    requires Unit(w)
    ensures Unit(Pow(w, k))
  {
    hide Mul, Conj;
    if k == 0 {
      UnitOne();
    } else {
      UnitPow(w, k - 1);
      UnitMul(w, Pow(w, k - 1));
    }
  }

  lemma UnitOne()
    ensures Unit(ONE)
  {
  }

  lemma RootIsUnit(w: Complex, n: nat, c: real, k: nat)
    requires ExactRoot(w, n, c)
    ensures Unit(Pow(w, k))
  {
    ConjTimes(w);
    UnitPow(w, k);
  }

  lemma InverseUnique(a: Complex, b: Complex, c: Complex)
    requires Mul(a, b) == ONE && Mul(a, c) == ONE
    ensures b == c
  {
    hide *;
    MulAssoc(b, a, c);
    MulComm(b, a);
    MulOne(b);
    MulOne(c);
  }

  lemma PthRoot(w: Complex, n: nat, c: real, p: nat, e: nat)
    requires ExactRoot(w, n, c) && e * p == n && p >= 2
    ensures Pow(Pow(w, e), p) == ONE && Pow(w, e) != ONE && Unit(Pow(w, e))
  {
    hide Mul, Pow, Conj;
    PowMul(w, e, p);
    RootIsUnit(w, n, c, e);
    if e >= n {
      DistributeLeft(e, 1, p - 1);
      MulPositive(e, p - 1);
    }
  }

  lemma Pow2(z: Complex)
    ensures Pow(z, 0) == ONE && Pow(z, 1) == z && Pow(z, 2) == Mul(z, z)
  {
    hide Mul;
    MulOne(z);
    assert Pow(z, 1) == Mul(z, Pow(z, 0));
    assert Pow(z, 2) == Mul(z, Pow(z, 1));
  }

  lemma DifferenceNotZero(z: Complex)
    requires z != ONE
    ensures Sub(z, ONE) != ZERO
  {
    assert Sub(z, ONE) == ZERO ==> z.re == 1.0 && z.im == 0.0;
  }

  // ----- radix 2 -----

  lemma SquareRootOfOne(z: Complex)
    requires Mul(z, z) == ONE && z != ONE
    ensures z == MINUS_ONE
  {
    hide Mul;
    SquareMinusOne(z);
    DifferenceNotZero(z);
    NoZeroDivisor(Sub(z, ONE), Add(z, ONE));
  }

  lemma SquareMinusOne(z: Complex)
    ensures Mul(Sub(z, ONE), Add(z, ONE)) == Sub(Mul(z, z), ONE)
  {
    hide Mul;
    MulSub(z, ONE, Add(z, ONE));
    MulAdd(z, z, ONE);
    MulOne(z);
    MulOne(Add(z, ONE));
  }

  lemma HalfRoot(w: Complex, n: nat, c: real, e: nat)
    requires ExactRoot(w, n, c) && e * 2 == n
    ensures Pow(w, e) == MINUS_ONE
  {
    hide Mul, Pow, Conj;
    PthRoot(w, n, c, 2, e);
    Pow2(Pow(w, e));
    SquareRootOfOne(Pow(w, e));
  }

  lemma Sum2(f: int -> Complex)
    ensures Sum(2, f) == Add(f(0), f(1))
  {
    hide Add;
    assert Sum(1, f) == Add(Sum(0, f), f(0));
    AddComm4(f(0), ZERO, ZERO, ZERO);
  }

  lemma PlusMinus(a: Complex, b: Complex)
    ensures Add(a, Mul(MINUS_ONE, b)) == Sub(a, b)
  {
  }

  lemma Combine2(z: Complex, legs: int -> Complex)
    requires z == MINUS_ONE
    ensures Combine(2, z, 0, legs) == Add(legs(0), legs(1))
    ensures Combine(2, z, 1, legs) == Sub(legs(0), legs(1))
  {
    hide Pow, Mul, Add;
    Pow2(z);
    PlusMinus(legs(0), legs(1));
    Sum2(q => Mul(Pow(z, q * 0), legs(q)));
    Sum2(q => Mul(Pow(z, q * 1), legs(q)));
    MulOne(legs(0));
    MulOne(legs(1));
  }

  // ----- radix 3 -----

  lemma CubeRoot(z: Complex)
    requires Mul(z, Mul(z, z)) == ONE && z != ONE && Unit(z)
    ensures Mul(z, z) == Conj(z) && z.re == -0.5
  {
    InverseUnique(z, Mul(z, z), Conj(z));
    var t := Add(Add(ONE, z), Mul(z, z));
    assert Mul(Sub(z, ONE), t) == Sub(Mul(z, Mul(z, z)), ONE) by { CubeMinusOne(z); }
    DifferenceNotZero(z);
    NoZeroDivisor(Sub(z, ONE), t);
    assert t.re == 1.0 + z.re + Conj(z).re;
  }

  lemma CubeMinusOne(z: Complex)
    ensures Mul(Sub(z, ONE), Add(Add(ONE, z), Mul(z, z))) == Sub(Mul(z, Mul(z, z)), ONE)
  {
    var y := Mul(z, z);
    hide Mul;
    MulSub(z, ONE, Add(Add(ONE, z), y));
    MulAdd(z, Add(ONE, z), y);
    MulAdd(z, ONE, z);
    MulOne(z);
    MulOne(Add(Add(ONE, z), y));
  }

  lemma MulSub(a: Complex, b: Complex, c: Complex)
    ensures Mul(Sub(a, b), c) == Sub(Mul(a, c), Mul(b, c))
  {
  }

  lemma Sum3(f: int -> Complex)
    ensures Sum(3, f) == Add(Add(f(0), f(1)), f(2))
  {
    hide Add;
    Sum2(f);
  }

  lemma Combine3(z: Complex, legs: int -> Complex)
    requires Mul(z, z) == Conj(z) && Unit(z)
    ensures Combine(3, z, 0, legs) == Add(Add(legs(0), legs(1)), legs(2))
    ensures Combine(3, z, 1, legs) == Add(Add(legs(0), Mul(z, legs(1))), Mul(Conj(z), legs(2)))
    ensures Combine(3, z, 2, legs) == Add(Add(legs(0), Mul(Conj(z), legs(1))), Mul(z, legs(2)))
  {
    hide Pow, Mul, Add, Conj;
    Pow2(z);
    PowAdd(z, 2, 2);
    assert Mul(Conj(z), Conj(z)) == z by { ConjMul(z, z); ConjConj(z); }
    Sum3(q => Mul(Pow(z, q * 0), legs(q)));
    Sum3(q => Mul(Pow(z, q * 1), legs(q)));
    Sum3(q => Mul(Pow(z, q * 2), legs(q)));
    MulOne(legs(0));
    MulOne(legs(1));
    MulOne(legs(2));
  }

  lemma ConjConj(z: Complex)
    ensures Conj(Conj(z)) == z
  {
  }

  // ----- radix 4 -----

  lemma PowersOfMinusI(z: Complex)
    requires z == MINUS_I
    ensures Pow(z, 0) == ONE && Pow(z, 1) == z && Pow(z, 2) == MINUS_ONE && Pow(z, 3) == Conj(z)
    ensures Pow(z, 4) == ONE && Pow(z, 6) == MINUS_ONE && Pow(z, 9) == z
  {
    hide Pow, Mul, Conj;
    QuarterTurns();
    Pow2(z);
    PowAdd(z, 1, 2);
    PowAdd(z, 2, 2);
    PowAdd(z, 4, 2);
    PowAdd(z, 6, 3);
    MulOne(MINUS_ONE);
  }

  lemma QuarterTurns()
    ensures Mul(MINUS_I, MINUS_I) == MINUS_ONE
    ensures Mul(MINUS_I, MINUS_ONE) == Conj(MINUS_I)
    ensures Mul(MINUS_ONE, MINUS_ONE) == ONE
    ensures Mul(MINUS_ONE, Conj(MINUS_I)) == MINUS_I
  {
  }

  lemma Sum4(f: int -> Complex)
    ensures Sum(4, f) == Add(Add(Add(f(0), f(1)), f(2)), f(3))
  {
    hide Add;
    Sum3(f);
  }

  lemma Combine4(z: Complex, legs: int -> Complex)
    requires z == MINUS_I
    ensures var a, b, c, d := legs(0), legs(1), legs(2), legs(3);
      && Combine(4, z, 0, legs) == Add(Add(Add(a, b), c), d)
      && Combine(4, z, 1, legs) == Add(Add(Add(a, Mul(z, b)), Mul(MINUS_ONE, c)), Mul(Conj(z), d))
      && Combine(4, z, 2, legs) == Add(Add(Add(a, Mul(MINUS_ONE, b)), c), Mul(MINUS_ONE, d))
      && Combine(4, z, 3, legs) == Add(Add(Add(a, Mul(Conj(z), b)), Mul(MINUS_ONE, c)), Mul(z, d))
  {
    hide Pow, Mul, Add, Conj;
    PowersOfMinusI(z);
    Sum4(q => Mul(Pow(z, q * 0), legs(q)));
    Sum4(q => Mul(Pow(z, q * 1), legs(q)));
    Sum4(q => Mul(Pow(z, q * 2), legs(q)));
    Sum4(q => Mul(Pow(z, q * 3), legs(q)));
    MulOne(legs(0));
    MulOne(legs(1));
    MulOne(legs(2));
    MulOne(legs(3));
  }

  // ----- radix 5 -----

  lemma FifthRootPowers(z: Complex, y: Complex)
    requires Pow(z, 5) == ONE && Unit(z) && y == Mul(z, z)
    ensures Pow(z, 0) == ONE && Pow(z, 1) == z && Pow(z, 2) == y && Pow(z, 3) == Conj(y) && Pow(z, 4) == Conj(z)
    ensures Pow(z, 6) == z && Pow(z, 8) == Conj(y) && Pow(z, 9) == Conj(z) && Pow(z, 12) == y && Pow(z, 16) == z
  {
    hide Pow, Mul, Conj;
    Pow2(z);
    UnitMul(z, z);
    PowAdd(z, 1, 4);
    PowAdd(z, 2, 3);
    InverseUnique(z, Pow(z, 4), Conj(z));
    InverseUnique(y, Pow(z, 3), Conj(y));
    PowPeriod(z, 5, 1, 1);
    PowPeriod(z, 5, 3, 1);
    PowPeriod(z, 5, 4, 1);
    PowPeriod(z, 5, 2, 2);
    PowPeriod(z, 5, 1, 3);
  }

  lemma Sum5(f: int -> Complex)
    ensures Sum(5, f) == Add(Add(Add(Add(f(0), f(1)), f(2)), f(3)), f(4))
  {
    hide Add;
    Sum4(f);
  }

  function Five(a: Complex, b: Complex, c: Complex, d: Complex, e: Complex): Complex {
    Add(Add(Add(Add(a, b), c), d), e)
  }

  lemma Combine5(z: Complex, y: Complex, legs: int -> Complex)
    requires Pow(z, 5) == ONE && Unit(z) && y == Mul(z, z)
    ensures var a, b, c, d, e := legs(0), legs(1), legs(2), legs(3), legs(4);
      && Combine(5, z, 0, legs) == Five(a, b, c, d, e)
      && Combine(5, z, 1, legs) == Five(a, Mul(z, b), Mul(y, c), Mul(Conj(y), d), Mul(Conj(z), e))
      && Combine(5, z, 2, legs) == Five(a, Mul(y, b), Mul(Conj(z), c), Mul(z, d), Mul(Conj(y), e))
      && Combine(5, z, 3, legs) == Five(a, Mul(Conj(y), b), Mul(z, c), Mul(Conj(z), d), Mul(y, e))
      && Combine(5, z, 4, legs) == Five(a, Mul(Conj(z), b), Mul(Conj(y), c), Mul(y, d), Mul(z, e))
  {
    hide Pow, Mul, Add, Conj;
    FifthRootPowers(z, y);
    Sum5(q => Mul(Pow(z, q * 0), legs(q)));
    Sum5(q => Mul(Pow(z, q * 1), legs(q)));
    Sum5(q => Mul(Pow(z, q * 2), legs(q)));
    Sum5(q => Mul(Pow(z, q * 3), legs(q)));
    Sum5(q => Mul(Pow(z, q * 4), legs(q)));
    MulOne(legs(0));
    MulOne(legs(1));
    MulOne(legs(2));
    MulOne(legs(3));
    MulOne(legs(4));
  }
}
