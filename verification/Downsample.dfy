/** The pitch search's input: the frame at half the rate, whitened by its own linear predictor. */
module Downsample {
  import opened RealSums
  import Correlation
  import Levinson
  import Pitch
  import PitchSearch

  const ORDER := 4
  const FRAME_SIZE := 480

  // ----- half the rate -----

  /** Half-rate sample i, smoothed over its three neighbours; nothing lies before the first. */
  function HalfSample(x: seq<real>, i: int): real {
    0.5 * (0.5 * (At(x, 2 * i - 1) + At(x, 2 * i + 1)) + At(x, 2 * i))
  }

  function HalfRate(x: seq<real>, n: nat): (y: seq<real>)
    ensures |y| == n && forall i :: 0 <= i < n ==> y[i] == HalfSample(x, i)
  {
    seq(n, i => HalfSample(x, i))
  }

  /** The three weights are those of a symmetric filter that passes a constant and stops the fastest alternation,
      the only signal that half the rate would fold onto a constant. */
  lemma HalvingFilter(x: seq<real>, i: nat, a: real, b: real)
    requires 1 <= i && 2 * i + 1 < |x| && x[2 * i] == a && x[2 * i - 1] == b && x[2 * i + 1] == b
    ensures (a == b ==> HalfSample(x, i) == a) && (a == -b ==> HalfSample(x, i) == 0.0)
  {
  }

  /** Neighbours count alike: swapping them changes nothing. */
  lemma HalvingSymmetric(x: seq<real>, y: seq<real>, i: int)
    requires At(x, 2 * i) == At(y, 2 * i) && At(x, 2 * i - 1) == At(y, 2 * i + 1) && At(x, 2 * i + 1) == At(y, 2 * i - 1)
    ensures HalfSample(x, i) == HalfSample(y, i)
  {
  }

  method Halve(x: seq<real>, xLp: array<real>)
    requires 1 <= xLp.Length && 2 * xLp.Length <= |x|
    modifies xLp
    ensures xLp[..] == HalfRate(x, xLp.Length)
  {
    var i := 1;
    while i < xLp.Length
      invariant 1 <= i <= xLp.Length
      invariant forall k :: 1 <= k < i ==> xLp[k] == HalfSample(x, k)
    {
      xLp[i] := 0.5 * (0.5 * (x[2 * i - 1] + x[2 * i + 1]) + x[2 * i]);
      i := i + 1;
    }
    xLp[0] := 0.5 * (0.5 * x[1] + x[0]);
  }

  // ----- the predictor -----

  /** Lag k of the autocorrelation with the noise floor raised and the lag window applied. */
  function ConditionedLag(c: real, k: int): real {
    if k == 0 then 1.0001 * c else c - c * (0.008 * k as real) * (0.008 * k as real)
  }

  /** The noise floor adds 40 dB below the energy; the lag window shrinks every other lag, later ones more, by at most
      about a thousandth, and turns no sign. */
  lemma ConditioningShrinks(c: real, k: nat)
    requires c >= 0.0 && k <= ORDER
    ensures k == 0 ==> ConditionedLag(c, 0) == c + c / 10000.0
    ensures k > 0 ==> 0.998 * c <= ConditionedLag(c, k) <= c && ConditionedLag(-c, k) == -ConditionedLag(c, k)
    ensures 0 < k < ORDER ==> ConditionedLag(c, k + 1) <= ConditionedLag(c, k)
  {
    LagWeights(c);
    LagWeights(-c);
  }

  lemma LagWeights(c: real)
    ensures ConditionedLag(c, 1) == 0.999936 * c && ConditionedLag(c, 2) == 0.999744 * c
    ensures ConditionedLag(c, 3) == 0.999424 * c && ConditionedLag(c, 4) == 0.998976 * c
  {
  }

  /** The conditioned autocorrelation of y. */
  function Conditioned(y: seq<real>): (ac: seq<real>)
    requires |y| >= ORDER
    ensures |ac| == ORDER + 1
    ensures forall k :: 0 <= k <= ORDER ==> ac[k] == ConditionedLag(Correlation.Corr(y, y, k, |y| - k), k)
  {
    seq(ORDER + 1, k requires 0 <= k <= ORDER => ConditionedLag(Correlation.Corr(y, y, k, |y| - k), k))
  }

  /** An autocorrelation never makes the recursion divide by zero. */
  lemma NeverDividesByZero(y: seq<real>, p: nat)
    requires |y| >= ORDER
    ensures !Levinson.DividesByZero(Conditioned(y), p)
  {
    hide Levinson.DividesByZero, Correlation.Corr, Pitch.Energy;
    Pitch.EnergyNonNegative(y, 0, |y|);
    EnergyIsLagZero(y);
    assert Conditioned(y)[0] == 1.0001 * Correlation.Corr(y, y, 0, |y|);
    Levinson.Harmless(Conditioned(y), p);
  }

  lemma EnergyIsLagZero(y: seq<real>)
    ensures Correlation.Corr(y, y, 0, |y|) == Pitch.Energy(y, 0, |y|)
  {
    hide Prod, At;
    SumCong(|y|, j => Prod(At(y, j), At(y, 0 + j)), j => Prod(At(y, 0 + j), At(y, 0 + j)));
  }

  method Condition(ac: array<real>)
    requires ac.Length == ORDER + 1
    modifies ac
    ensures forall k :: 0 <= k <= ORDER ==> ac[k] == ConditionedLag(old(ac[k]), k)
  {
    ac[0] := 1.0001 * ac[0];
    var i := 1;
    while i <= ORDER
      invariant 1 <= i <= ORDER + 1
      invariant forall k :: 0 <= k < i ==> ac[k] == ConditionedLag(old(ac[k]), k)
      invariant forall k :: i <= k <= ORDER ==> ac[k] == old(ac[k])
    {
      ac[i] := ac[i] - ac[i] * (0.008 * i as real) * (0.008 * i as real);
      i := i + 1;
    }
  }

  // ----- the filter -----

  /** Taps b applied to the samples before i, on top of sample i. */
  function Fir(b: seq<real>, x: seq<real>, i: int): real {
    At(x, i) + Sum(|b|, k => Prod(At(b, k), At(x, i - 1 - k)))
  }

  /** 0.9 to the power k + 1. */
  function Expansion(k: nat): real {
    if k == 0 then 0.9 else Prod(0.9, Expansion(k - 1))
  }

  /** The predictor with its bandwidth expanded. */
  function Expanded(lpc: seq<real>): (b: seq<real>)
    ensures |b| == |lpc| && forall k :: 0 <= k < |lpc| ==> b[k] == Prod(lpc[k], Expansion(k))
  {
    seq(|lpc|, k requires 0 <= k < |lpc| => Prod(lpc[k], Expansion(k)))
  }

  /** What expanding the bandwidth means: on a signal damped by 0.9 per sample, the expanded predictor does what the
      predictor does on the signal itself, damped. */
  lemma ExpansionDamps(lpc: seq<real>, x: seq<real>, i: nat)
    requires i < |x|
    ensures Fir(Expanded(lpc), Damped(x), i) == Prod(Damp(i), Fir(lpc, x, i))
  {
    hide Prod, At, Damp, Expansion;
    var b, y := Expanded(lpc), Damped(x);
    var f := (k: int) => Prod(At(lpc, k), At(x, i - 1 - k));
    var h := (k: int) => Prod(At(b, k), At(y, i - 1 - k));
    forall k | 0 <= k < |lpc| ensures h(k) == Prod(Damp(i), f(k)) {
      DampedTap(lpc, x, i, k);
    }
    SumScale(|lpc|, Damp(i), f, h);
    DampedAt(x, i);
    ProdAdd(Damp(i), At(x, i), Sum(|lpc|, f));
  }

  /** 0.9 to the power i. */
  function Damp(i: nat): real {
    if i == 0 then 1.0 else Prod(0.9, Damp(i - 1))
  }

  function Damped(x: seq<real>): (y: seq<real>)
    ensures |y| == |x|
  {
    seq(|x|, i requires 0 <= i < |x| => Prod(Damp(i), x[i]))
  }

  lemma DampedAt(x: seq<real>, i: int)
    ensures At(Damped(x), i) == if i >= 0 then Prod(Damp(i), At(x, i)) else 0.0
  {
    if i >= |x| { ProdUnits(Damp(i)); }
  }

  lemma DampedTap(lpc: seq<real>, x: seq<real>, i: nat, k: nat)
    requires k < |lpc|
    ensures Prod(At(Expanded(lpc), k), At(Damped(x), i - 1 - k)) == Prod(Damp(i), Prod(At(lpc, k), At(x, i - 1 - k)))
  {
    hide Prod, Damp, Expansion, Damped;
    DampedAt(x, i - 1 - k);
    var a, e := lpc[k], Expansion(k);
    if i - 1 - k < 0 {
      ProdUnits(At(Expanded(lpc), k));
      ProdUnits(a);
      ProdUnits(Damp(i));
    } else {
      var d, v := Damp(i - 1 - k), At(x, i - 1 - k);
      DampSplit(i, k);
      Rearranged(a, e, d, v);
    }
  }

  lemma Rearranged(a: real, e: real, d: real, v: real)
    ensures Prod(Prod(a, e), Prod(d, v)) == Prod(Prod(e, d), Prod(a, v))
  {
    hide Prod;
    ProdAssoc(a, e, Prod(d, v));
    ProdAssoc(e, d, v);
    ProdComm(a, Prod(Prod(e, d), v));
    ProdAssoc(Prod(e, d), v, a);
    ProdComm(v, a);
  }

  lemma {:induction false} DampSplit(i: nat, k: nat)
    requires k < i
    ensures Damp(i) == Prod(Expansion(k), Damp(i - 1 - k))
  {
    hide Prod;
    if k > 0 {
      DampSplit(i - 1, k - 1);
      ProdAssoc(0.9, Expansion(k - 1), Damp(i - 1 - k));
    }
  }

  /** The taps of b followed by a zero at -0.8. */
  function WithZero(b: seq<real>): (c: seq<real>)
    requires |b| == ORDER
    ensures |c| == ORDER + 1
  {
    [b[0] + 0.8, b[1] + Prod(0.8, b[0]), b[2] + Prod(0.8, b[1]), b[3] + Prod(0.8, b[2]), Prod(0.8, b[3])]
  }

  lemma FourTaps(b: seq<real>, x: seq<real>, i: int)
    requires |b| == 4
    ensures Fir(b, x, i) == At(x, i) + Prod(b[0], At(x, i - 1)) + Prod(b[1], At(x, i - 2))
                                     + Prod(b[2], At(x, i - 3)) + Prod(b[3], At(x, i - 4))
  {
    hide Prod;
    var f := (k: int) => Prod(At(b, k), At(x, i - 1 - k));
    assert Sum(4, f) == Sum(3, f) + f(3) && Sum(3, f) == Sum(2, f) + f(2);
    assert Sum(2, f) == Sum(1, f) + f(1) && Sum(1, f) == Sum(0, f) + f(0);
  }

  lemma FiveTaps(b: seq<real>, x: seq<real>, i: int)
    requires |b| == 5
    ensures Fir(b, x, i) == At(x, i) + Prod(b[0], At(x, i - 1)) + Prod(b[1], At(x, i - 2))
                          + Prod(b[2], At(x, i - 3)) + Prod(b[3], At(x, i - 4)) + Prod(b[4], At(x, i - 5))
  {
    hide Prod;
    var f := (k: int) => Prod(At(b, k), At(x, i - 1 - k));
    assert Sum(5, f) == Sum(4, f) + f(4) && Sum(4, f) == Sum(3, f) + f(3);
    assert Sum(3, f) == Sum(2, f) + f(2) && Sum(2, f) == Sum(1, f) + f(1) && Sum(1, f) == Sum(0, f) + f(0);
  }

  /** One added tap: the product with 0.8 of the tap before it is that tap's effect one sample earlier. */
  lemma AddedTap(a: real, b: real, s: real)
    ensures Prod(a + Prod(0.8, b), s) == Prod(a, s) + Prod(0.8, Prod(b, s))
  {
    hide Prod;
    ProdAdd(s, a, Prod(0.8, b));
    ProdAssoc(0.8, b, s);
  }

  /** The five taps are the predictor's filter followed by the filter of the zero. */
  lemma ZeroIsCascade(b: seq<real>, x: seq<real>, i: int)
    requires |b| == ORDER
    ensures Fir(WithZero(b), x, i) == Fir(b, x, i) + Prod(0.8, Fir(b, x, i - 1))
  {
    hide Prod, At, Fir;
    FourTaps(b, x, i);
    FourTaps(b, x, i - 1);
    FiveTaps(WithZero(b), x, i);
    ProdAdd(At(x, i - 1), b[0], 0.8);
    AddedTap(b[1], b[0], At(x, i - 2));
    AddedTap(b[2], b[1], At(x, i - 3));
    AddedTap(b[3], b[2], At(x, i - 4));
    ProdAssoc(0.8, b[3], At(x, i - 5));
    var s0, s1, s2, s3 := At(x, i - 1), Prod(b[0], At(x, i - 2)), Prod(b[1], At(x, i - 3)), Prod(b[2], At(x, i - 4));
    var s4 := Prod(b[3], At(x, i - 5));
    ProdAdd(0.8, s0, s1);
    ProdAdd(0.8, s0 + s1, s2);
    ProdAdd(0.8, s0 + s1 + s2, s3);
    ProdAdd(0.8, s0 + s1 + s2 + s3, s4);
  }

  /** The filter in place: five memories hold the samples already overwritten. */
  method CeltFir5(num: seq<real>, y: array<real>)
    requires |num| == 5
    modifies y
    ensures forall i :: 0 <= i < y.Length ==> y[i] == Fir(num, old(y[..]), i)
  {
    hide Prod, Fir;
    ghost var x := y[..];
    var mem0, mem1, mem2, mem3, mem4 := 0.0, 0.0, 0.0, 0.0, 0.0;
    var i := 0;
    while i < y.Length
      invariant 0 <= i <= y.Length
      invariant mem0 == At(x, i - 1) && mem1 == At(x, i - 2) && mem2 == At(x, i - 3)
      invariant mem3 == At(x, i - 4) && mem4 == At(x, i - 5)
      invariant forall k :: 0 <= k < i ==> y[k] == Fir(num, x, k)
      invariant forall k :: i <= k < y.Length ==> y[k] == x[k]
    {
      FiveTaps(num, x, i);
      var sum := y[i] + Prod(num[0], mem0) + Prod(num[1], mem1) + Prod(num[2], mem2)
                      + Prod(num[3], mem3) + Prod(num[4], mem4);
      mem4 := mem3;
      mem3 := mem2;
      mem2 := mem1;
      mem1 := mem0;
      mem0 := y[i];
      y[i] := sum;
      i := i + 1;
    }
  }

  // ----- the whole step -----

  /** The predictor of an order up to four, padded with zeros. */
  function Predictor(ac: seq<real>, order: nat): (lpc: seq<real>)
    requires order <= ORDER
    ensures |lpc| == ORDER
  {
    Levinson.Coeffs(ac, order) + seq(ORDER - order, k => 0.0)
  }

  /** The order the recursion ends at: the last one, or the first to reach the bail-out; zero for a silent signal. */
  ghost predicate EndsAt(ac: seq<real>, order: nat) {
    && order <= ORDER
    && (forall j: nat :: j < order ==> Levinson.Passed(ac, j))
    && (order == ORDER || At(ac, 0) == 0.0 || Levinson.ErrorAt(ac, order) < 0.001 * At(ac, 0))
  }

  /** The predictor of y: always found, since y's autocorrelation never makes the recursion divide by zero. */
  method FindPredictor(y: seq<real>) returns (ghost order: nat, lpc: array<real>)
    requires |y| >= ORDER + 3
    ensures fresh(lpc) && lpc.Length == ORDER && EndsAt(Conditioned(y), order)
    ensures lpc[..] == Predictor(Conditioned(y), order)
  {
    hide Correlation.Corr, Correlation.Tapered, Levinson.Solves, Levinson.Coeffs, Levinson.DividesByZero,
         Levinson.PredictionError, Levinson.ErrorAt, Levinson.Passed, ConditionedLag;
    var ac := new real[ORDER + 1];
    Correlation.RnnAutocorr(y, ac, [], 0, ORDER, |y|);
    Correlation.NoTaper(y, [], |y|);
    Condition(ac);
    assert y[..|y|] == y;
    assert ac[..] == Conditioned(y);
    lpc := new real[ORDER];
    var error, defined;
    order, error, defined := Levinson.RnnLpc(lpc, ac[..], ORDER);
    NeverDividesByZero(y, ORDER);
    assert defined;
  }

  /** Bandwidth expansion in place. */
  method Expand(lpc: array<real>)
    modifies lpc
    ensures lpc[..] == Expanded(old(lpc[..]))
  {
    hide Prod;
    var tmp := 1.0;
    var i := 0;
    while i < lpc.Length
      invariant 0 <= i <= lpc.Length
      invariant tmp == if i == 0 then 1.0 else Expansion(i - 1)
      invariant forall k :: 0 <= k < i ==> lpc[k] == Prod(old(lpc[k]), Expansion(k))
      invariant forall k :: i <= k < lpc.Length ==> lpc[k] == old(lpc[k])
    {
      ProdUnits(0.9);
      tmp := Prod(0.9, tmp);
      lpc[i] := Prod(lpc[i], tmp);
      i := i + 1;
    }
  }

  /** z is x at half the rate, filtered by that signal's own expanded predictor of this order and then by the zero. */
  ghost predicate Whitened(x: seq<real>, z: seq<real>, order: nat)
    requires |z| >= ORDER
  {
    var y := HalfRate(x, |z|);
    && EndsAt(Conditioned(y), order)
    && var b := Expanded(Predictor(Conditioned(y), order));
       forall i :: 0 <= i < |z| ==> z[i] == Fir(b, y, i) + Prod(0.8, Fir(b, y, i - 1))
  }

  /** Half the rate, then the filter of the half-rate signal's own expanded predictor, then the zero. */
  method RnnPitchDownsample(x: seq<real>, xLp: array<real>) returns (ghost order: nat)
    requires xLp.Length >= ORDER + 3 && 2 * xLp.Length <= |x|
    modifies xLp
    ensures Whitened(x, xLp[..], order)
  {
    hide Correlation.Corr, Levinson.Solves, Levinson.Coeffs, Levinson.DividesByZero, Levinson.ErrorAt, Levinson.Passed,
         Conditioned, Predictor, Fir, HalfSample, Expansion, Prod;
    Halve(x, xLp);
    ghost var y := HalfRate(x, xLp.Length);
    var lpc;
    order, lpc := FindPredictor(xLp[..]);
    Expand(lpc);
    ghost var b := lpc[..];
    var num := WithZero(lpc[..]);
    CeltFir5(num, xLp);
    forall i | 0 <= i < xLp.Length ensures xLp[i] == Fir(b, y, i) + Prod(0.8, Fir(b, y, i - 1)) {
      ZeroIsCascade(b, y, i);
    }
  }

  // ----- the frame's pitch, from the samples themselves -----

  class PitchState {
    var pitchBuf: array<real>
    var lastPeriod: int
    var lastGain: real

    ghost predicate Valid()
      reads this
    {
      pitchBuf.Length == Pitch.PITCH_BUF_SIZE
    }

    constructor ()
      ensures Valid() && fresh(pitchBuf) && pitchBuf[..] == seq(Pitch.PITCH_BUF_SIZE, i => 0.0)
      ensures lastPeriod == 0 && lastGain == 0.0
    {
      pitchBuf := new real[Pitch.PITCH_BUF_SIZE](i => 0.0);
      lastPeriod, lastGain := 0, 0.0;
    }

    /** The oldest frame of samples makes room for the newest. */
    method Remember(input: seq<real>)
      requires Valid() && |input| == FRAME_SIZE
      modifies pitchBuf
      ensures pitchBuf[..] == old(pitchBuf[..])[FRAME_SIZE..] + input
    {
      ghost var was := pitchBuf[..];
      var keep := pitchBuf.Length - FRAME_SIZE;
      var i := 0;
      while i < keep
        invariant 0 <= i <= keep
        invariant forall k :: 0 <= k < i ==> pitchBuf[k] == was[FRAME_SIZE + k]
        invariant forall k :: i <= k < pitchBuf.Length ==> pitchBuf[k] == was[k]
      {
        pitchBuf[i] := pitchBuf[i + FRAME_SIZE];
        i := i + 1;
      }
      i := 0;
      while i < FRAME_SIZE
        invariant 0 <= i <= FRAME_SIZE
        invariant forall k :: 0 <= k < keep ==> pitchBuf[k] == was[FRAME_SIZE + k]
        invariant forall k :: 0 <= k < i ==> pitchBuf[keep + k] == input[k]
      {
        pitchBuf[keep + i] := input[i];
        i := i + 1;
      }
    }

    /** One frame: whatever was fed in before, its period lies in the searched range, and the window one period
        back lies in the buffer. */
    method Track(input: seq<real>, gain: (real, real, real) -> real)
      returns (pitchIndex: int, p: seq<real>, ghost lp: seq<real>, ghost order: nat, ghost pitch: int,
               ghost q: PitchSearch.Search, ghost chosen: int)
      requires Valid() && |input| == FRAME_SIZE
      modifies this`lastPeriod, this`lastGain, pitchBuf
      ensures Valid() && pitchBuf[..] == old(pitchBuf[..])[FRAME_SIZE..] + input
      ensures |lp| == Pitch.PITCH_BUF_SIZE / 2 && Whitened(pitchBuf[..], lp, order)
      ensures PitchSearch.Found(lp[Pitch.PITCH_MAX_PERIOD / 2..], lp, Pitch.PITCH_FRAME_SIZE,
                                Pitch.PITCH_MAX_PERIOD - 3 * Pitch.PITCH_MIN_PERIOD, pitch)
      ensures q.x == lp && q.base == Pitch.PITCH_MAX_PERIOD / 2 && q.n == Pitch.PITCH_FRAME_SIZE / 2
              && q.prevLag == old(lastPeriod) / 2 && q.prevGain == old(lastGain) && q.minLag == Pitch.PITCH_MIN_PERIOD / 2
              && q.T0 == (if (Pitch.PITCH_MAX_PERIOD - pitch) / 2 >= Pitch.PITCH_MAX_PERIOD / 2 then Pitch.PITCH_MAX_PERIOD / 2 - 1
                          else (Pitch.PITCH_MAX_PERIOD - pitch) / 2)
              && q.gain == gain && PitchSearch.LastPassing(q, chosen, 16) && 1 <= chosen <= 15
      ensures var o := PitchSearch.OfferAt(lp, q.base, q.n, q.T0, chosen, gain);
              && lastGain == PitchSearch.ReportedGain(o)
              && (pitchIndex == Pitch.PITCH_MIN_PERIOD || -1 <= pitchIndex - 2 * o.T <= 1)
      ensures lastPeriod == pitchIndex && Pitch.PITCH_MIN_PERIOD <= pitchIndex < Pitch.PITCH_MAX_PERIOD
      ensures p == pitchBuf[Pitch.PITCH_BUF_SIZE - Pitch.PITCH_FRAME_SIZE - pitchIndex..Pitch.PITCH_BUF_SIZE - pitchIndex]
    {
      hide Whitened, PitchSearch.Found, PitchSearch.LastPassing, PitchSearch.OfferAt, PitchSearch.ReportedGain;
      Remember(input);
      var xLp := new real[Pitch.PITCH_BUF_SIZE / 2];
      order := RnnPitchDownsample(pitchBuf[..], xLp);
      lp := xLp[..];
      var g, found;
      pitchIndex, g, found, q, chosen := PitchSearch.FramePitch(xLp[..], lastPeriod, lastGain, gain);
      pitch := found;
      lastPeriod, lastGain := pitchIndex, g;
      p := PitchSearch.PitchWindow(pitchBuf[..], pitchIndex, Pitch.PITCH_FRAME_SIZE);
    }
  }
}
