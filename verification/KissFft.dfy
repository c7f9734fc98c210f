/** Single radix 2, 3, 4 and 5 butterflies in place, in the source's real arithmetic. */
module KissFft {
  import opened ComplexNumbers
  import opened Integers
  import opened FftPlan
  import opened Dft
  import opened Butterfly
  import opened Roots

  // ----- one butterfly, as the source's inner loops compute it -----

  method Bfly2At(fout: array<Complex>, at: nat, m: nat, t: Complex)
    requires m >= 1 && at + m < fout.Length
    modifies fout
    ensures fout[..] == old(fout[..])[at := Add(old(fout[at]), t)][at + m := Sub(old(fout[at]), t)]
  {
    fout[at + m] := Sub(fout[at], t);
    fout[at] := Add(fout[at], t);
  }

  method Bfly3At(fout: array<Complex>, at: nat, m: nat, tw1: Complex, tw2: Complex, epi3: Complex)
    requires m >= 1 && at + 2 * m < fout.Length
    requires epi3.re == -0.5
    modifies fout
    ensures fout[..] == Radix3Update(old(fout[..]), at, m, old(fout[at]), Mul(old(fout[at + m]), tw1),
                                     Mul(old(fout[at + 2 * m]), tw2), epi3)
  {
    ghost var a := fout[at];
    var s1 := Mul(fout[at + m], tw1);
    var s2 := Mul(fout[at + 2 * m], tw2);
    hide Mul;
    var s3 := Add(s1, s2);
    var s0 := Sub(s1, s2);
    fout[at + m] := Complex(fout[at].re - 0.5 * s3.re, fout[at].im - 0.5 * s3.im);
    s0 := Scale(epi3.im, s0);
    fout[at] := Add(fout[at], s3);
    fout[at + 2 * m] := Complex(fout[at + m].re + s0.im, fout[at + m].im - s0.re);
    fout[at + m] := Complex(fout[at + m].re - s0.im, fout[at + m].im + s0.re);
    Radix3Values(a, s1, s2, epi3);
  }

  /** The three combinations of a, b, c stored back where a radix-3 butterfly keeps them. */
  function Radix3Update(x: seq<Complex>, at: nat, m: nat, a: Complex, b: Complex, c: Complex, z: Complex): seq<Complex>
    requires at + 2 * m < |x|
  {
    x[at := Add(Add(a, b), c)]
     [at + m := Add(Add(a, Mul(z, b)), Mul(Conj(z), c))]
     [at + 2 * m := Add(Add(a, Mul(Conj(z), b)), Mul(z, c))]
  }

  lemma Radix3Values(a: Complex, b: Complex, c: Complex, z: Complex)
    requires z.re == -0.5
    ensures var s0, s3 := Scale(z.im, Sub(b, c)), Add(b, c);
      var h := Complex(a.re - 0.5 * s3.re, a.im - 0.5 * s3.im);
      && Add(a, s3) == Add(Add(a, b), c)
      && Complex(h.re - s0.im, h.im + s0.re) == Add(Add(a, Mul(z, b)), Mul(Conj(z), c))
      && Complex(h.re + s0.im, h.im - s0.re) == Add(Add(a, Mul(Conj(z), b)), Mul(z, c))
  {
  }

  method Bfly4At(fout: array<Complex>, at: nat, m: nat, tw1: Complex, tw2: Complex, tw3: Complex)
    requires m >= 1 && at + 3 * m < fout.Length
    modifies fout
    ensures fout[..] == Radix4Update(old(fout[..]), at, m, old(fout[at]), Mul(old(fout[at + m]), tw1),
                                     Mul(old(fout[at + 2 * m]), tw2), Mul(old(fout[at + 3 * m]), tw3))
  {
    hide Mul, Add, Sub, Conj, Four;
    ghost var a := fout[at];
    var s0 := Mul(fout[at + m], tw1);
    var s1 := Mul(fout[at + 2 * m], tw2);
    var s2 := Mul(fout[at + 3 * m], tw3);
    var s5 := Sub(fout[at], s1);
    fout[at] := Add(fout[at], s1);
    var s3 := Add(s0, s2);
    var s4 := Sub(s0, s2);
    fout[at + 2 * m] := Sub(fout[at], s3);
    fout[at] := Add(fout[at], s3);
    fout[at + m] := Complex(s5.re + s4.im, s5.im - s4.re);
    fout[at + 3 * m] := Complex(s5.re - s4.im, s5.im + s4.re);
    Radix4Values(a, s0, s1, s2);
  }

  /** The degenerate stage: four neighbours, no turns. */
  method Bfly4Unit(fout: array<Complex>, at: nat)
    requires at + 3 < fout.Length
    modifies fout
    ensures fout[..] == Radix4Update(old(fout[..]), at, 1, old(fout[at]), old(fout[at + 1]),
                                     old(fout[at + 2]), old(fout[at + 3]))
  {
    hide Mul, Add, Sub, Conj, Four;
    ghost var a, b, c, d := fout[at], fout[at + 1], fout[at + 2], fout[at + 3];
    var s0 := Sub(fout[at], fout[at + 2]);
    fout[at] := Add(fout[at], fout[at + 2]);
    var s1 := Add(fout[at + 1], fout[at + 3]);
    fout[at + 2] := Sub(fout[at], s1);
    fout[at] := Add(fout[at], s1);
    s1 := Sub(fout[at + 1], fout[at + 3]);
    fout[at + 1] := Complex(s0.re + s1.im, s0.im - s1.re);
    fout[at + 3] := Complex(s0.re - s1.im, s0.im + s1.re);
    Radix4Values(a, b, c, d);
  }

  /** The four combinations of a, b, c, d stored back where a radix-4 butterfly keeps them. */
  function Radix4Update(x: seq<Complex>, at: nat, m: nat, a: Complex, b: Complex, c: Complex, d: Complex): seq<Complex>
    requires at + 3 * m < |x|
  {
    x[at := Four(a, b, c, d)]
     [at + m := Four(a, Mul(MINUS_I, b), Mul(MINUS_ONE, c), Mul(Conj(MINUS_I), d))]
     [at + 2 * m := Four(a, Mul(MINUS_ONE, b), c, Mul(MINUS_ONE, d))]
     [at + 3 * m := Four(a, Mul(Conj(MINUS_I), b), Mul(MINUS_ONE, c), Mul(MINUS_I, d))]
  }

  function Radix5Update(x: seq<Complex>, at: nat, m: nat, a: Complex, b: Complex, c: Complex, d: Complex, e: Complex,
                        ya: Complex, yb: Complex): seq<Complex>
    requires at + 4 * m < |x|
  {
    x[at := Five(a, b, c, d, e)]
     [at + m := Five(a, Mul(ya, b), Mul(yb, c), Mul(Conj(yb), d), Mul(Conj(ya), e))]
     [at + 2 * m := Five(a, Mul(yb, b), Mul(Conj(ya), c), Mul(ya, d), Mul(Conj(yb), e))]
     [at + 3 * m := Five(a, Mul(Conj(yb), b), Mul(ya, c), Mul(Conj(ya), d), Mul(yb, e))]
     [at + 4 * m := Five(a, Mul(Conj(ya), b), Mul(Conj(yb), c), Mul(yb, d), Mul(ya, e))]
  }

  function Four(a: Complex, b: Complex, c: Complex, d: Complex): Complex {
    Add(Add(Add(a, b), c), d)
  }

  lemma Radix4Values(a: Complex, b: Complex, c: Complex, d: Complex)
    ensures var s5, s4 := Sub(a, c), Sub(b, d);
      && Add(Add(a, c), Add(b, d)) == Four(a, b, c, d)
      && Complex(s5.re + s4.im, s5.im - s4.re)
         == Four(a, Mul(MINUS_I, b), Mul(MINUS_ONE, c), Mul(Conj(MINUS_I), d))
      && Sub(Add(a, c), Add(b, d)) == Four(a, Mul(MINUS_ONE, b), c, Mul(MINUS_ONE, d))
      && Complex(s5.re - s4.im, s5.im + s4.re)
         == Four(a, Mul(Conj(MINUS_I), b), Mul(MINUS_ONE, c), Mul(MINUS_I, d))
  {
  }

  method Bfly5At(fout: array<Complex>, at: nat, m: nat, tw1: Complex, tw2: Complex, tw3: Complex, tw4: Complex,
                 ya: Complex, yb: Complex)
    requires m >= 1 && at + 4 * m < fout.Length
    modifies fout
    ensures fout[..] == Radix5Update(old(fout[..]), at, m, old(fout[at]), Mul(old(fout[at + m]), tw1),
                                     Mul(old(fout[at + 2 * m]), tw2), Mul(old(fout[at + 3 * m]), tw3),
                                     Mul(old(fout[at + 4 * m]), tw4), ya, yb)
  {
    hide Mul, Add, Sub, Five, Conj, Radix5Even, Radix5Odd;
    var s0 := fout[at];
    var s1 := Mul(fout[at + m], tw1);
    var s2 := Mul(fout[at + 2 * m], tw2);
    var s3 := Mul(fout[at + 3 * m], tw3);
    var s4 := Mul(fout[at + 4 * m], tw4);
    var s7 := Add(s1, s4);
    var s10 := Sub(s1, s4);
    var s8 := Add(s2, s3);
    var s9 := Sub(s2, s3);
    fout[at] := Add(s0, Add(s7, s8));
    var s5 := Radix5Even(s0, s7, s8, ya.re, yb.re);
    var s6 := Radix5Odd(s10, s9, ya.im, yb.im);
    fout[at + m] := Sub(s5, s6);
    fout[at + 4 * m] := Add(s5, s6);
    var s11 := Radix5Even(s0, s7, s8, yb.re, ya.re);
    var s12 := Radix5Odd(s9, s10, ya.im, -yb.im);
    fout[at + 2 * m] := Add(s11, s12);
    fout[at + 3 * m] := Sub(s11, s12);
    Radix5Values(s0, s1, s2, s3, s4, ya, yb);
  }

  /** s + x * u + y * v, field by field. */
  function Radix5Even(s: Complex, u: Complex, v: Complex, x: real, y: real): Complex {
    Complex(s.re + (u.re * x + v.re * y), s.im + (u.im * x + v.im * y))
  }

  /** (u * x + v * y) turned by a quarter. */
  function Radix5Odd(u: Complex, v: Complex, x: real, y: real): Complex {
    Complex(u.im * x + v.im * y, -(u.re * x + v.re * y))
  }

  /** z * b + conj(z) * e, from the sum u = b + e and the difference v = b - e. */
  function PairSum(z: Complex, u: Complex, v: Complex): Complex {
    Complex(u.re * z.re - v.im * z.im, u.im * z.re + v.re * z.im)
  }

  lemma PairValues(z: Complex, b: Complex, e: Complex)
    ensures Add(Mul(z, b), Mul(Conj(z), e)) == PairSum(z, Add(b, e), Sub(b, e))
  {
  }

  lemma FiveAsPairs(a: Complex, b: Complex, c: Complex, d: Complex, e: Complex)
    ensures Five(a, b, c, d, e) == Add(a, Add(Add(b, e), Add(c, d)))
  {
  }

  lemma EvenOdd(a: Complex, u1: Complex, v1: Complex, u2: Complex, v2: Complex, y: Complex, z: Complex)
    ensures var even, odd := Radix5Even(a, u1, v1, y.re, z.re), Radix5Odd(u2, v2, y.im, z.im);
      && Sub(even, odd) == Add(a, Add(PairSum(y, u1, u2), PairSum(z, v1, v2)))
      && Add(even, odd) == Add(a, Add(PairSum(Conj(y), u1, u2), PairSum(Conj(z), v1, v2)))
  {
    EvenMinusOdd(a, u1, v1, u2, v2, y, z);
    EvenMinusOdd(a, u1, v1, u2, v2, Conj(y), Conj(z));
    OddNegated(u2, v2, y, z);
    hide Radix5Odd, PairSum;
  }

  lemma EvenMinusOdd(a: Complex, u1: Complex, v1: Complex, u2: Complex, v2: Complex, y: Complex, z: Complex)
    ensures Sub(Radix5Even(a, u1, v1, y.re, z.re), Radix5Odd(u2, v2, y.im, z.im))
         == Add(a, Add(PairSum(y, u1, u2), PairSum(z, v1, v2)))
  {
  }

  lemma OddNegated(u: Complex, v: Complex, y: Complex, z: Complex)
    ensures Radix5Odd(u, v, Conj(y).im, Conj(z).im) == Sub(ZERO, Radix5Odd(u, v, y.im, z.im))
  {
  }

  lemma OddSwap(u: Complex, v: Complex, x: real, y: real)
    ensures Sub(ZERO, Radix5Odd(u, v, x, -y)) == Radix5Odd(v, u, y, -x)
  {
  }

  lemma SubOfNegation(a: Complex, b: Complex)
    ensures Sub(a, Sub(ZERO, b)) == Add(a, b) && Add(a, Sub(ZERO, b)) == Sub(a, b)
  {
  }

  lemma Radix5Values(a: Complex, b: Complex, c: Complex, d: Complex, e: Complex, ya: Complex, yb: Complex)
    ensures var s7, s10, s8, s9 := Add(b, e), Sub(b, e), Add(c, d), Sub(c, d);
      var s5, s6 := Radix5Even(a, s7, s8, ya.re, yb.re), Radix5Odd(s10, s9, ya.im, yb.im);
      var s11, s12 := Radix5Even(a, s7, s8, yb.re, ya.re), Radix5Odd(s9, s10, ya.im, -yb.im);
      && Add(a, Add(s7, s8)) == Five(a, b, c, d, e)
      && Sub(s5, s6) == Five(a, Mul(ya, b), Mul(yb, c), Mul(Conj(yb), d), Mul(Conj(ya), e))
      && Add(s11, s12) == Five(a, Mul(yb, b), Mul(Conj(ya), c), Mul(ya, d), Mul(Conj(yb), e))
      && Sub(s11, s12) == Five(a, Mul(Conj(yb), b), Mul(ya, c), Mul(Conj(ya), d), Mul(yb, e))
      && Add(s5, s6) == Five(a, Mul(Conj(ya), b), Mul(Conj(yb), c), Mul(yb, d), Mul(ya, e))
  {
    hide Add, Sub, Mul, Five, PairSum, Radix5Even, Radix5Odd;
    var s7, s10, s8, s9 := Add(b, e), Sub(b, e), Add(c, d), Sub(c, d);
    FiveAsPairs(a, b, c, d, e);
    FiveAsPairs(a, Mul(ya, b), Mul(yb, c), Mul(Conj(yb), d), Mul(Conj(ya), e));
    FiveAsPairs(a, Mul(yb, b), Mul(Conj(ya), c), Mul(ya, d), Mul(Conj(yb), e));
    FiveAsPairs(a, Mul(Conj(yb), b), Mul(ya, c), Mul(Conj(ya), d), Mul(yb, e));
    FiveAsPairs(a, Mul(Conj(ya), b), Mul(Conj(yb), c), Mul(yb, d), Mul(ya, e));
    PairValues(ya, b, e);
    PairValues(yb, c, d);
    PairValues(yb, b, e);
    PairValues(Conj(ya), c, d);
    PairValues(Conj(yb), b, e);
    PairValues(ya, c, d);
    PairValues(Conj(ya), b, e);
    PairValues(Conj(yb), c, d);
    ConjConj(yb);
    EvenOdd(a, s7, s8, s10, s9, ya, yb);
    EvenOdd(a, s7, s8, s10, s9, yb, Conj(ya));
    OddSwap(s10, s9, yb.im, ya.im);
    SubOfNegation(Radix5Even(a, s7, s8, yb.re, ya.re), Radix5Odd(s10, s9, yb.im, -ya.im));
    ConjConj(ya);
  }
}
