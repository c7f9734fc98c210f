/** Real frames through the transform: forward, and back from half of the bins. */
module Transform {
  import opened ComplexNumbers
  import opened Integers
  import opened FftPlan
  import opened Dft
  import opened Butterfly
  import opened Roots
  import opened Fft
  import opened Inversion

  function RealAsComplex(x: seq<real>): (y: seq<Complex>)
    ensures |y| == |x| && forall i :: 0 <= i < |x| ==> y[i] == Complex(x[i], 0.0)
  {
    seq(|x|, i requires 0 <= i < |x| => Complex(x[i], 0.0))
  }

  /** The half spectrum of a real frame: bins 0 to n/2 of the scaled transform. */
  function Spectrum(x: seq<real>, w: Complex, scale: real): (X: seq<Complex>)
    ensures |X| == |x| / 2 + 1
    ensures forall k :: 0 <= k < |X| ==> X[k] == Scale(scale, DftAt(RealAsComplex(x), w, k))
  {
    seq(|x| / 2 + 1, k requires 0 <= k < |x| / 2 + 1 => Scale(scale, DftAt(RealAsComplex(x), w, k)))
  }

  /** A half spectrum completed by conjugate symmetry to all n bins. */
  function Completed(X: seq<Complex>, n: nat): (Y: seq<Complex>)
    requires |X| == n / 2 + 1 && n >= 2
    ensures |Y| == n
    ensures forall i :: 0 <= i < n ==> Y[i] == if i < |X| then X[i] else Conj(X[n - i])
  {
    seq(n, i requires 0 <= i < n => if i < |X| then X[i] else Conj(X[n - i]))
  }

  /** Sample i of the frame with half spectrum X. */
  function SampleAt(X: seq<Complex>, w: Complex, n: nat, i: int): real
    requires |X| == n / 2 + 1 && n >= 2
  {
    DftAt(Completed(X, n), w, if i == 0 then 0 else n - i).re
  }

  /** The frame with half spectrum X: what the inverse transform returns. */
  function Frame(X: seq<Complex>, w: Complex, n: nat): (x: seq<real>)
    requires |X| == n / 2 + 1 && n >= 2
    ensures |x| == n && forall i :: 0 <= i < n ==> x[i] == SampleAt(X, w, n, i)
  {
    seq(n, i requires 0 <= i < n => SampleAt(X, w, n, i))
  }

  method ForwardTransform(st: FftState, frame: array<real>, ghost stages: nat, ghost w: Complex)
    returns (X: array<Complex>)
    requires Prepared(st, stages, w) && frame.Length == st.nfft >= 2
    ensures fresh(X) && X[..] == Spectrum(frame[..], w, st.scale)
  {
    hide *;
    var n := st.nfft;
    var x := new Complex[n];
    var y := new Complex[n];
    var i := 0;
    while i < n
      invariant 0 <= i <= n
      invariant forall j :: 0 <= j < i ==> x[j] == Complex(frame[j], 0.0)
    {
      x[i] := Complex(frame[i], 0.0);
      i := i + 1;
    }
    ghost var input := RealAsComplex(frame[..]);
    assert x[..] == input;
    PreparedIsPlanned(st, stages, w);
    var inside := RnnFft(st, x, y, stages, w);
    assert x[..] == input;
    ghost var bins := y[..];
    X := new Complex[n / 2 + 1];
    i := 0;
    while i < n / 2 + 1
      invariant 0 <= i <= n / 2 + 1 && y[..] == bins
      invariant forall j :: 0 <= j < i ==> X[j] == Scale(st.scale, DftAt(input, w, j))
    {
      X[i] := y[i];
      i := i + 1;
    }
    assert X[..] == Spectrum(frame[..], w, st.scale);
  }

  /** Fills the upper bins by conjugate symmetry. */
  method CompleteBins(X: seq<Complex>, n: nat) returns (x: array<Complex>)
    requires n >= 2 && |X| == n / 2 + 1
    ensures fresh(x) && x[..] == Completed(X, n)
  {
    hide Conj;
    x := new Complex[n];
    var i := 0;
    while i < n / 2 + 1
      invariant 0 <= i <= n / 2 + 1
      invariant forall j :: 0 <= j < i ==> x[j] == X[j]
    {
      x[i] := X[i];
      i := i + 1;
    }
    while i < n
      invariant |X| <= i <= n
      invariant forall j :: 0 <= j < |X| ==> x[j] == X[j]
      invariant forall j :: |X| <= j < i ==> x[j] == Conj(X[n - j])
    {
      var v := x[n - i];
      assert v == X[n - i];
      ConjParts(v);
      x[i] := Complex(v.re, -v.im);
      i := i + 1;
    }
  }

  method InverseTransform(st: FftState, X: seq<Complex>, ghost stages: nat, ghost w: Complex)
    returns (out: array<real>)
    requires Prepared(st, stages, w) && st.nfft >= 2 && |X| == st.nfft / 2 + 1
    ensures fresh(out) && out[..] == Frame(X, w, st.nfft)
  {
    hide *;
    var n := st.nfft;
    var x := CompleteBins(X, n);
    var y := new Complex[n];
    ghost var input := Completed(X, n);
    PreparedIsPlanned(st, stages, w);
    var inside := RnnFft(st, x, y, stages, w);
    assert x[..] == input;
    ghost var bins := y[..];
    out := new real[n];
    Unscaled(st, stages, w, input, 0);
    SampleIsBin(X, w, n, 0);
    out[0] := n as real * y[0].re;
    var i := 1;
    while i < n
      invariant 1 <= i <= n && y[..] == bins
      invariant forall j :: 0 <= j < i ==> out[j] == SampleAt(X, w, n, j)
    {
      Unscaled(st, stages, w, input, n - i);
      SampleIsBin(X, w, n, i);
      out[i] := n as real * y[n - i].re;
      i := i + 1;
    }
    assert out[..] == Frame(X, w, n);
  }

  lemma ConjParts(z: Complex)
    ensures Conj(z) == Complex(z.re, -z.im)
  {
  }

  /** The factor n undoes the transform's own scale. */
  lemma Unscaled(st: FftState, stages: nat, w: Complex, input: seq<Complex>, k: int)
    requires Prepared(st, stages, w)
    ensures st.nfft as real * Scale(st.scale, DftAt(input, w, k)).re == DftAt(input, w, k).re
  {
    hide DftAt;
    PlannedScale(st, stages, w);
    var r := DftAt(input, w, k).re;
    assert st.nfft as real * (st.scale * r) == (st.scale * st.nfft as real) * r;
  }

  lemma SampleIsBin(X: seq<Complex>, w: Complex, n: nat, i: nat)
    requires |X| == n / 2 + 1 && n >= 2 && i < n
    ensures SampleAt(X, w, n, i) == DftAt(Completed(X, n), w, if i == 0 then 0 else n - i).re
  {
  }

  // ----- the two transforms undo each other on real frames -----

  lemma RealConjugate(x: seq<real>)
    ensures Conjugated(RealAsComplex(x)) == RealAsComplex(x)
  {
  }

  /** The bins of a real frame beyond the middle mirror the ones before it. */
  lemma Mirror(x: seq<real>, w: Complex, n: nat, c: real, k: nat)
    requires ExactRoot(w, n, c) && |x| == n && k <= n
    ensures Conj(DftAt(RealAsComplex(x), w, n - k)) == DftAt(RealAsComplex(x), w, k)
  {
    hide Pow, Mul, Conj;
    RealConjugate(x);
    ConjugateTransform(RealAsComplex(x), w, n, c, n - k);
    assert n - (n - k) == k;
    SumCong(n, j => Mul(At(RealAsComplex(x), j), Pow(w, j * (n - (n - k)))),
               j => Mul(At(RealAsComplex(x), j), Pow(w, j * k)));
  }

  lemma ConjScale(s: real, z: Complex)
    ensures Conj(Scale(s, z)) == Scale(s, Conj(z))
  {
  }

  lemma CompletedSpectrum(x: seq<real>, w: Complex, n: nat, c: real, scale: real, k: nat)
    requires ExactRoot(w, n, c) && |x| == n >= 2 && k < n
    ensures Completed(Spectrum(x, w, scale), n)[k] == Scale(scale, DftAt(RealAsComplex(x), w, k))
  {
    hide DftAt, Conj, Scale;
    if k > n / 2 {
      Mirror(x, w, n, c, k);
      ConjScale(scale, DftAt(RealAsComplex(x), w, n - k));
    }
  }

  /** The inverse transform of a real frame's spectrum is the frame. */
  lemma FrameOfSpectrum(x: seq<real>, w: Complex, n: nat, c: real, scale: real)
    requires ExactRoot(w, n, c) && |x| == n >= 2 && scale * n as real == 1.0
    ensures Frame(Spectrum(x, w, scale), w, n) == x
  {
    hide DftAt, Scale, Completed, Spectrum;
    var X := Spectrum(x, w, scale);
    var Y := Completed(X, n);
    forall k | 0 <= k < n ensures Y[k] == Scale(scale, DftAt(RealAsComplex(x), w, k)) {
      CompletedSpectrum(x, w, n, c, scale, k);
    }
    forall i | 0 <= i < n ensures Frame(X, w, n)[i] == x[i] {
      TransformTwice(RealAsComplex(x), Y, w, n, c, scale, i, if i == 0 then 0 else n - i);
    }
  }
}
