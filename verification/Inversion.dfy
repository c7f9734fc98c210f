/** Orthogonality of the powers of a root of unity, and transforms that undo each other. */
module Inversion {
  import opened ComplexNumbers
  import opened Integers
  import opened FftPlan
  import opened Dft
  import opened Butterfly
  import opened Roots
  import opened Fft

  /** Sum over k of w^(k * d): the full length when n divides d, zero otherwise. */
  lemma Orthogonal(w: Complex, n: nat, c: real, d: nat)
    requires ExactRoot(w, n, c)
    ensures Sum(n, k => Pow(Pow(w, d), k)) == if d % n == 0 then Complex(n as real, 0.0) else ZERO
  {
    hide Pow, Mul, Sum, ExactRoot;
    RootBasics(w, n, c, d);
    DivSplit(d, n);
    MulCommInt(d / n, n);
    PowPeriod(w, n, d % n, d / n);
    if d % n == 0 {
      PowZero(w);
      ConstantSum(Pow(w, d), n);
    } else {
      PowMul(w, d, n);
      PowMul(w, n, d);
      MulCommInt(d, n);
      PowOfOne(d);
      VanishingSum(Pow(w, d), n);
    }
  }

  lemma RootBasics(w: Complex, n: nat, c: real, d: nat)
    requires ExactRoot(w, n, c)
    ensures n >= 1 && Pow(w, n) == ONE && (d % n != 0 ==> Pow(w, d % n) != ONE)
  {
    hide Pow;
  }

  lemma ConstantSum(z: Complex, n: nat)
    requires z == ONE
    ensures Sum(n, k => Pow(z, k)) == Complex(n as real, 0.0)
  {
    hide Pow;
    var f := (k: int) => Pow(z, k);
    forall k | 0 <= k < n ensures f(k) == ONE { PowOfOne(k); }
    SumOfOnes(n, f);
  }

  lemma VanishingSum(z: Complex, n: nat)
    requires z != ONE && Pow(z, n) == ONE
    ensures Sum(n, k => Pow(z, k)) == ZERO
  {
    hide *;
    Geometric(z, n);
    DifferenceNotZero(z);
    SubSelf(ONE);
    NoZeroDivisor(Sub(z, ONE), Sum(n, k => Pow(z, k)));
  }

  lemma SubSelf(z: Complex)
    ensures Sub(z, z) == ZERO
  {
  }

  lemma PowZero(w: Complex)
    ensures Pow(w, 0) == ONE
  {
  }

  lemma {:induction false} SumOfOnes(n: nat, f: int -> Complex)
    requires forall k :: 0 <= k < n ==> f(k) == ONE
    ensures Sum(n, f) == Complex(n as real, 0.0)
  {
    if n > 0 {
      SumOfOnes(n - 1, f);
    }
  }

  /** Term (k, j) of the double sum that transforms x and evaluates the result backwards at i. */
  function Cross(x: seq<Complex>, w: Complex, back: int, k: int, j: int): Complex {
    Mul(At(x, j), Pow(Pow(w, j + back), k))
  }

  lemma CrossTerm(x: seq<Complex>, w: Complex, back: nat, k: nat, j: nat)
    ensures Mul(Pow(w, k * back), Mul(At(x, j), Pow(w, j * k))) == Cross(x, w, back, k, j)
  {
    hide Pow, Mul, At;
    MulSwapInner(Pow(w, k * back), At(x, j), Pow(w, j * k));
    assert k * back + j * k == (j + back) * k;
    assert k * back >= 0 && j * k >= 0;
    PowAdd(w, k * back, j * k);
    PowMul(w, j + back, k);
  }

  /** The spectrum evaluated backwards: sum over k of X[k] * w^(k * back), with X the transform of x. */
  function Backward(x: seq<Complex>, w: Complex, n: nat, back: int): Complex {
    Sum(n, k => Mul(Pow(w, k * back), DftAt(x, w, k)))
  }

  lemma BackwardRow(x: seq<Complex>, w: Complex, n: nat, back: nat, k: nat)
    requires |x| == n
    ensures Mul(Pow(w, k * back), DftAt(x, w, k)) == Sum(n, j => Cross(x, w, back, k, j))
  {
    hide Pow, Mul, At, Cross;
    var f := (j: int) => Mul(At(x, j), Pow(w, j * k));
    var g := (j: int) => Cross(x, w, back, k, j);
    forall j | 0 <= j < n ensures g(j) == Mul(Pow(w, k * back), f(j)) {
      CrossTerm(x, w, back, k, j);
    }
    SumMul(n, Pow(w, k * back), f, g);
  }

  lemma BackwardColumn(x: seq<Complex>, w: Complex, n: nat, c: real, back: nat, j: nat)
    requires ExactRoot(w, n, c) && |x| == n
    ensures Sum(n, k => Cross(x, w, back, k, j))
         == if (j + back) % n == 0 then Scale(n as real, At(x, j)) else ZERO
  {
    hide Pow, Mul, At, Scale;
    var z := Pow(w, j + back);
    SumMul(n, At(x, j), k => Pow(z, k), k => Cross(x, w, back, k, j));
    Orthogonal(w, n, c, j + back);
    MulComm(At(x, j), Complex(n as real, 0.0));
    ScaleMul(n as real, At(x, j));
    MulOne(At(x, j));
  }

  /** Fourier inversion: evaluating the spectrum at n - i gives back n * x[i]. */
  lemma Inverts(x: seq<Complex>, w: Complex, n: nat, c: real, i: nat, back: nat)
    requires ExactRoot(w, n, c) && |x| == n && i < n
    requires back == n - i || (i == 0 && back == 0)
    ensures Backward(x, w, n, back) == Scale(n as real, x[i])
  {
    hide Pow, Mul, Cross, Scale, Sum, DftAt;
    var rows := (k: int) => Mul(Pow(w, k * back), DftAt(x, w, k));
    var f := (k: int, j: int) => Cross(x, w, back, k, j);
    var cols := (j: int) => Sum(n, k => f(k, j));
    forall k | 0 <= k < n ensures rows(k) == Sum(n, j => f(k, j)) {
      BackwardRow(x, w, n, back, k);
      SumCong(n, j => Cross(x, w, back, k, j), j => f(k, j));
    }
    SumSwap(n, n, f, rows, cols);
    forall j | 0 <= j < n ensures cols(j) == if j == i then Scale(n as real, x[i]) else ZERO {
      BackwardColumn(x, w, n, c, back, j);
      SumCong(n, k => Cross(x, w, back, k, j), k => f(k, j));
      if j == i {
        DivUnique(j + back, n, if back == 0 then 0 else 1, 0);
      } else if j + back < n {
        DivUnique(j + back, n, 0, j + back);
      } else {
        DivUnique(j + back, n, 1, j + back - n);
      }
    }
    SumSingle(n, i, cols);
  }

  // ----- the inverse transform of the source: conjugate, transform, conjugate -----

  function Conjugated(x: seq<Complex>): (y: seq<Complex>)
    ensures |y| == |x| && forall i :: 0 <= i < |x| ==> y[i] == Conj(x[i])
  {
    seq(|x|, i requires 0 <= i < |x| => Conj(x[i]))
  }

  /** The conjugated transform of the conjugate runs the root backwards. */
  lemma ConjugateTransform(x: seq<Complex>, w: Complex, n: nat, c: real, k: nat)
    requires ExactRoot(w, n, c) && |x| == n && k <= n
    ensures Conj(DftAt(Conjugated(x), w, k)) == Sum(n, j => Mul(At(x, j), Pow(w, j * (n - k))))
  {
    hide Pow, Mul, Conj, At;
    var y := Conjugated(x);
    var f := (j: int) => Mul(At(y, j), Pow(w, j * k));
    var g := (j: int) => Mul(At(x, j), Pow(w, j * (n - k)));
    SumReal(n, f);
    forall j | 0 <= j < n ensures Conj(f(j)) == g(j) {
      ConjMul(At(y, j), Pow(w, j * k));
      AtConjugated(x, j);
      ConjugatePower(w, n, c, j, k);
    }
    SumCong(n, j => Conj(f(j)), g);
  }

  lemma AtConjugated(x: seq<Complex>, j: int)
    ensures Conj(At(Conjugated(x), j)) == At(x, j)
  {
  }

  lemma ConjugatePower(w: Complex, n: nat, c: real, j: nat, k: nat)
    requires ExactRoot(w, n, c) && k <= n
    ensures Conj(Pow(w, j * k)) == Pow(w, j * (n - k))
  {
    hide Pow, Mul, Conj;
    assert j * k >= 0 && j * (n - k) >= 0;
    assert j * k + j * (n - k) == n * j;
    RootIsUnit(w, n, c, j * k);
    PowAdd(w, j * k, j * (n - k));
    PowMul(w, n, j);
    PowOfOne(j);
    InverseUnique(Pow(w, j * k), Conj(Pow(w, j * k)), Pow(w, j * (n - k)));
  }

  /** Sum over j of x[j] * w^(j * (n - k)): the unscaled inverse transform at k. */
  function InverseDftAt(x: seq<Complex>, w: Complex, n: nat, k: int): Complex {
    Sum(n, j => Mul(At(x, j), Pow(w, j * (n - k))))
  }

  /** The unscaled inverse transform, complete on the same plans as the forward one. */
  method RnnIfft(st: FftState, fin: array<Complex>, fout: array<Complex>, ghost stages: nat, ghost w: Complex)
    returns (inside: bool)
    requires Planned(st, stages, w)
    requires fin.Length == st.nfft && fout.Length == st.nfft && fin != fout
    modifies fout
    ensures inside <==> stages < MAXFACTORS
    ensures inside ==> forall k :: 0 <= k < st.nfft ==> fout[k] == InverseDftAt(fin[..], w, st.nfft, k)
  {
    hide *;
    PlannedFacts(st, stages, w);
    ghost var x := fin[..];
    ghost var y := Conjugated(x);
    var i := 0;
    while i < st.nfft
      invariant 0 <= i <= st.nfft
      invariant forall j :: 0 <= j < i ==> 0 <= st.bitrev[j] < st.nfft && fout[st.bitrev[j]] == x[j]
    {
      EntryInverse(st, stages, w, i);
      forall j | 0 <= j < i ensures st.bitrev[j] != st.bitrev[i] {
        EntryInverse(st, stages, w, j);
      }
      fout[st.bitrev[i]] := fin[i];
      i := i + 1;
    }
    ConjugateAll(fout);
    PermutedIsTop(st, stages, w, fout[..], y);
    inside := FftImpl(st, fout, stages, w, y);
    if !inside { return; }
    LevelZero(fout[..], y, w, st.factors, st.nfft);
    ConjugateAll(fout);
    forall k | 0 <= k < st.nfft ensures fout[k] == InverseDftAt(x, w, st.nfft, k) {
      ConjugateTransform(x, w, st.nfft, st.sqrtHalf, k);
      InverseIsSum(x, w, st.nfft, k);
    }
  }

  lemma InverseIsSum(x: seq<Complex>, w: Complex, n: nat, k: int)
    ensures InverseDftAt(x, w, n, k) == Sum(n, j => Mul(At(x, j), Pow(w, j * (n - k))))
  {
  }

  method ConjugateAll(fout: array<Complex>)
    modifies fout
    ensures forall k :: 0 <= k < fout.Length ==> fout[k] == Conj(old(fout[k]))
  {
    var i := 0;
    while i < fout.Length
      invariant 0 <= i <= fout.Length
      invariant forall k :: 0 <= k < i ==> fout[k] == Conj(old(fout[k]))
      invariant forall k :: i <= k < fout.Length ==> fout[k] == old(fout[k])
    {
      fout[i] := Complex(fout[i].re, -fout[i].im);
      i := i + 1;
    }
  }

  /** A scaled spectrum transformed once more, read backwards, is the original frame. */
  lemma TransformTwice(x: seq<Complex>, X: seq<Complex>, w: Complex, n: nat, c: real, scale: real, i: nat, back: nat)
    requires ExactRoot(w, n, c) && |x| == n && |X| == n && i < n && scale * n as real == 1.0
    requires back == n - i || (i == 0 && back == 0)
    requires forall k :: 0 <= k < n ==> X[k] == Scale(scale, DftAt(x, w, k))
    ensures DftAt(X, w, back) == x[i]
  {
    hide *;
    SpectrumScaled(x, X, w, n, scale, back);
    Inverts(x, w, n, c, i, back);
    ScaleTwice(scale, n as real, x[i]);
  }

  lemma SpectrumScaled(x: seq<Complex>, X: seq<Complex>, w: Complex, n: nat, scale: real, back: nat)
    requires |x| == n && |X| == n
    requires forall k :: 0 <= k < n ==> X[k] == Scale(scale, DftAt(x, w, k))
    ensures DftAt(X, w, back) == Scale(scale, Backward(x, w, n, back))
  {
    hide Pow, Mul, Scale, Sum, Backward;
    ScaledTerms(x, X, w, n, scale, back, (k: int) => Mul(At(X, k), Pow(w, k * back)));
  }

  lemma ScaledTerms(x: seq<Complex>, X: seq<Complex>, w: Complex, n: nat, scale: real, back: nat, g: int -> Complex)
    requires |x| == n && |X| == n
    requires forall k :: 0 <= k < n ==> X[k] == Scale(scale, DftAt(x, w, k))
    requires forall k :: g(k) == Mul(At(X, k), Pow(w, k * back))
    ensures Sum(n, g) == Scale(scale, Backward(x, w, n, back))
  {
    hide Pow, Mul, DftAt, Scale;
    var f := (k: int) => Mul(Pow(w, k * back), DftAt(x, w, k));
    var s := Complex(scale, 0.0);
    forall k | 0 <= k < n ensures g(k) == Mul(s, f(k)) {
      ScaleMul(scale, DftAt(x, w, k));
      MulAssoc(s, DftAt(x, w, k), Pow(w, k * back));
      MulComm(DftAt(x, w, k), Pow(w, k * back));
    }
    SumMul(n, s, f, g);
    ScaleMul(scale, Backward(x, w, n, back));
  }

  /** The inverse transform applied to the scaled forward transform is the identity. */
  lemma InverseOfForward(x: seq<Complex>, X: seq<Complex>, w: Complex, n: nat, c: real, scale: real, i: nat)
    requires ExactRoot(w, n, c) && |x| == n && |X| == n && i < n && scale * n as real == 1.0
    requires forall k :: 0 <= k < n ==> X[k] == Scale(scale, DftAt(x, w, k))
    ensures InverseDftAt(X, w, n, i) == x[i]
  {
    hide Pow, Mul, Sum;
    TransformTwice(x, X, w, n, c, scale, i, n - i);
  }

  lemma ScaleTwice(a: real, b: real, x: Complex)
    requires a * b == 1.0
    ensures Scale(a, Scale(b, x)) == x
  {
    assert a * (b * x.re) == (a * b) * x.re;
    assert a * (b * x.im) == (a * b) * x.im;
  }

  /** rnn_ifft undoes rnn_fft, on every input and every plan that fits the walk. */
  method RoundTrip(st: FftState, fin: array<Complex>, ghost stages: nat, ghost w: Complex)
    returns (back: array<Complex>, inside: bool)
    requires Planned(st, stages, w) && fin.Length == st.nfft
    ensures fresh(back) && (inside <==> stages < MAXFACTORS)
    ensures inside ==> back[..] == fin[..]
  {
    hide *;
    PlannedFacts(st, stages, w);
    PlannedScale(st, stages, w);
    var mid := new Complex[st.nfft];
    back := new Complex[st.nfft];
    inside := RnnFft(st, fin, mid, stages, w);
    if !inside { return; }
    ghost var x, X := fin[..], mid[..];
    inside := RnnIfft(st, mid, back, stages, w);
    forall i | 0 <= i < st.nfft ensures back[i] == x[i] {
      InverseOfForward(x, X, w, st.nfft, st.sqrtHalf, st.scale, i);
    }
  }

  lemma PlannedScale(st: FftState, stages: nat, w: Complex)
    requires Planned(st, stages, w)
    ensures st.scale * st.nfft as real == 1.0
  {
  }
}
