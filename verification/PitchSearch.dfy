/** The two-stage pitch search, doubling removal, and the index ranges that tie them to the frame buffers. */
module PitchSearch {
  import opened Integers
  import opened RealSums
  import opened Correlation
  import opened Pitch

  /** Every second sample. */
  function Decimated(x: seq<real>, n: nat): (y: seq<real>)
    requires n == 0 || 2 * (n - 1) < |x|
    ensures |y| == n && forall j :: 0 <= j < n ==> y[j] == x[2 * j]
  {
    seq(n, j requires 0 <= j < n => x[2 * j])
  }

  method Decimate(x: seq<real>, n: nat) returns (y: seq<real>)
    requires n == 0 || 2 * (n - 1) < |x|
    ensures y == Decimated(x, n)
  {
    var buf := new real[n];
    var j := 0;
    while j < n
      invariant 0 <= j <= n && forall k :: 0 <= k < j ==> buf[k] == x[2 * k]
    {
      buf[j] := x[2 * j];
      j := j + 1;
    }
    y := buf[..];
  }

  function AbsInt(x: int): int {
    if x < 0 then -x else x
  }

  /** Which way the peak leans, from three neighbouring correlations. */
  function Lean(a: real, b: real, c: real): int {
    if c - a > 0.7 * (b - a) then 1
    else if a - c > 0.7 * (b - c) then -1
    else 0
  }

  /** At a peak the lean is towards the larger neighbour, exactly when the drop on its side is below three tenths
      of the drop on the other; and turning the three around turns the lean around. */
  lemma LeanAtPeak(a: real, b: real, c: real)
    requires b >= a && b >= c
    ensures Lean(a, b, c) == 1 <==> b - c < 0.3 * (b - a)
    ensures Lean(a, b, c) == -1 <==> b - a < 0.3 * (b - c)
    ensures (Lean(a, b, c) == 1 ==> c > a) && (Lean(a, b, c) == -1 ==> a > c) && -1 <= Lean(a, b, c) <= 1
    ensures Lean(c, b, a) == -Lean(a, b, c)
  {
  }

  /** The fine search only correlates within two lags of the coarse winners. */
  function FineAt(x: seq<real>, y: seq<real>, len: nat, c0: int, c1: int, i: int): real {
    if AbsInt(i - 2 * c0) > 2 && AbsInt(i - 2 * c1) > 2 then 0.0
    else
      var s := Corr(x, y, i, len);
      if s < -1.0 then -1.0 else s
  }

  method FineSearch(x: seq<real>, y: seq<real>, len: nat, lags: nat, c0: int, c1: int, xcorr: array<real>)
    requires len <= |x| && len + lags <= |y| && lags <= xcorr.Length
    modifies xcorr
    ensures forall i :: 0 <= i < lags ==> xcorr[i] == FineAt(x, y, len, c0, c1, i)
  {
    hide Corr;
    assert x[0..] == x;
    var i := 0;
    while i < lags
      invariant 0 <= i <= lags
      invariant forall k :: 0 <= k < i ==> xcorr[k] == FineAt(x, y, len, c0, c1, k)
    {
      xcorr[i] := 0.0;
      if AbsInt(i - 2 * c0) > 2 && AbsInt(i - 2 * c1) > 2 {
      } else {
        var sum := CeltInnerProd(x, 0, y, i, len);
        xcorr[i] := if sum < -1.0 then -1.0 else sum;
      }
      i := i + 1;
    }
  }

  /** c0 and c1 rank first and second among the correlations at every coarse lag. */
  ghost predicate CoarseWinners(x: seq<real>, y: seq<real>, len: nat, lags: nat, c0: int, c1: int) {
    exists xc: seq<real> ::
      (|xc| == lags && (forall i :: 0 <= i < lags ==> xc[i] == Corr(x, y, i, len)) && Ranked(xc, y, len, lags, c0, c1))
  }

  /** Coarse search at a quarter rate, fine search around its two winners, then a lean of at most one. */
  method RnnPitchSearch(xLp: seq<real>, y: seq<real>, len: nat, maxPitch: nat)
    returns (pitch: int, coarse: seq<int>, best: int, fine: seq<real>)
    requires 1 <= len <= PITCH_FRAME_SIZE && 4 <= maxPitch <= PITCH_MAX_PERIOD && (len >= 12 || maxPitch < 16)
    requires len <= 2 * |xLp| && len + maxPitch <= 2 * |y|
    ensures 0 <= pitch <= maxPitch - 2
    ensures |coarse| == 2 && |fine| == maxPitch / 2
    ensures CoarseWinners(Decimated(xLp, len / 4), Decimated(y, (len + maxPitch) / 4), len / 4, maxPitch / 4,
                          coarse[0], coarse[1])
    ensures forall i :: 0 <= i < |fine| ==> fine[i] == FineAt(xLp, y, len / 2, coarse[0], coarse[1], i)
    ensures exists second :: Ranked(fine, y, len / 2, |fine|, best, second)
    ensures 0 <= best < |fine|
    ensures pitch == 2 * best - (if 0 < best < |fine| - 1 then Lean(fine[best - 1], fine[best], fine[best + 1]) else 0)
    ensures 0 < best < |fine| - 1 && fine[best] >= fine[best - 1] && fine[best] >= fine[best + 1] ==>
              && (pitch < 2 * best <==> fine[best] - fine[best + 1] < 0.3 * (fine[best] - fine[best - 1]))
              && (pitch > 2 * best <==> fine[best] - fine[best - 1] < 0.3 * (fine[best] - fine[best + 1]))
  {
    hide Corr, Ranked, FineAt, Energy, Score, Lean, Decimated;
    coarse := CoarseSearch(xLp, y, len, maxPitch);
    best, fine := RefinedSearch(xLp, y, len / 2, maxPitch / 2, coarse[0], coarse[1]);
    var offset := 0;
    if 0 < best && best < maxPitch / 2 - 1 {
      offset := Lean(fine[best - 1], fine[best], fine[best + 1]);
      LeanRange(fine[best - 1], fine[best], fine[best + 1]);
      if fine[best] >= fine[best - 1] && fine[best] >= fine[best + 1] {
        LeanAtPeak(fine[best - 1], fine[best], fine[best + 1]);
      }
    }
    pitch := 2 * best - offset;
  }

  /** The first stage: both signals at a quarter rate. */
  method CoarseSearch(xLp: seq<real>, y: seq<real>, len: nat, maxPitch: nat) returns (coarse: seq<int>)
    requires 1 <= len <= PITCH_FRAME_SIZE && 4 <= maxPitch <= PITCH_MAX_PERIOD && (len >= 12 || maxPitch < 16)
    requires len <= 2 * |xLp| && len + maxPitch <= 2 * |y|
    ensures |coarse| == 2
    ensures CoarseWinners(Decimated(xLp, len / 4), Decimated(y, (len + maxPitch) / 4), len / 4, maxPitch / 4,
                          coarse[0], coarse[1])
  {
    hide Corr, Ranked, Energy, Score;
    var x4 := Decimate(xLp, len / 4);
    var y4 := Decimate(y, (len + maxPitch) / 4);
    var quarter := new real[maxPitch / 4];
    var bestPitch := new int[2];
    bestPitch[0], bestPitch[1] := 0, 0;
    RnnPitchXcorr(x4, y4, quarter, len / 4, maxPitch / 4);
    FindBestPitch(quarter, y4, len / 4, maxPitch / 4, bestPitch);
    ghost var xc := quarter[..];
    coarse := bestPitch[..];
  }

  /** The second stage: around the coarse winners at half rate. */
  method RefinedSearch(xLp: seq<real>, y: seq<real>, n: nat, lags: nat, c0: int, c1: int) returns (best: int, fine: seq<real>)
    requires n <= |xLp| && n + lags <= |y| && lags >= 2
    ensures |fine| == lags && forall i :: 0 <= i < lags ==> fine[i] == FineAt(xLp, y, n, c0, c1, i)
    ensures exists second :: Ranked(fine, y, n, lags, best, second)
    ensures 0 <= best < lags
  {
    hide Corr, Ranked, Energy, Score, FineAt;
    var xcorr := new real[lags];
    var bestPitch := new int[2];
    bestPitch[0], bestPitch[1] := 0, 0;
    FineSearch(xLp, y, n, lags, c0, c1, xcorr);
    fine := xcorr[..];
    FindBestPitch(xcorr, y, n, lags, bestPitch);
    best := bestPitch[0];
  }

  // ----- doubling removal -----

  const SECOND_CHECK: seq<int> := [0, 0, 3, 2, 3, 2, 5, 2, 3, 2, 3, 2, 5, 2, 3, 2]

  /** T0 * a / k rounded to the nearest lag. */
  function Rounded(a: int, T0: int, k: int): int
    requires k >= 1
  {
    (2 * a * T0 + k) / (2 * k)
  }

  /** A fraction below one of T0 never rounds past T0. */
  lemma RoundedBelow(a: nat, T0: nat, k: nat)
    requires a < k
    ensures 0 <= Rounded(a, T0, k) <= T0
  {
    NumeratorBelow(a, T0, k);
    DivBound(2 * a * T0 + k, 2 * k, T0 + 1);
  }

  /** The rounding is to a nearest lag. */
  lemma RoundedNearest(a: nat, T0: nat, k: nat)
    requires k >= 1
    ensures 0 - k <= 2 * (k * Rounded(a, T0, k) - a * T0) <= k
  {
    var p, q := 2 * a * T0 + k, Rounded(a, T0, k);
    assert 2 * a * T0 == 2 * (a * T0);
    DivPins(p, 2 * k, q);
    assert (2 * k) * q == 2 * (k * q);
  }

  lemma DivPins(p: int, d: int, q: int)
    requires d > 0 && q == p / d
    ensures d * q <= p < d * q + d
  {
  }

  /** The second fraction checked is p / k for the least prime p that does not divide k, so that it is not a whole
      multiple of the searched lag's own fractions. */
  lemma SecondCheckIsLeastPrime(k: nat)
    requires 3 <= k <= 15
    ensures var p := SECOND_CHECK[k];
            (p == 2 || p == 3 || p == 5) && k % p != 0 && (p > 2 ==> k % 2 == 0) && (p > 3 ==> k % 3 == 0)
  {
  }

  lemma NumeratorBelow(a: nat, T0: nat, k: nat)
    requires a < k
    ensures 0 <= 2 * a * T0 + k < (T0 + 1) * (2 * k)
  {
    assert 2 * a * T0 == 2 * (a * T0);
    assert (T0 + 1) * (2 * k) == 2 * (k * T0) + 2 * k;
    assert a * T0 <= k * T0;
  }

  /** Energies of the windows starting 0, 1, ..., maxLag samples before base. */
  method WindowEnergies(x: seq<real>, base: nat, N: nat, maxLag: nat, xx: real) returns (lookup: array<real>)
    requires maxLag <= base && base + N <= |x| && xx == Energy(x, base, N)
    ensures fresh(lookup) && lookup.Length == maxLag + 1
    ensures forall i :: 0 <= i <= maxLag ==> lookup[i] == Energy(x, base - i, N)
  {
    hide Energy, Prod;
    lookup := new real[maxLag + 1];
    lookup[0] := xx;
    var yy := xx;
    var i := 1;
    while i <= maxLag
      invariant 1 <= i <= maxLag + 1
      invariant yy == Energy(x, base - (i - 1), N)
      invariant forall k :: 0 <= k < i ==> lookup[k] == Energy(x, base - k, N)
    {
      EnergySlides(x, base - i, N);
      yy := yy + Prod(x[base - i], x[base - i]) - Prod(x[base + N - i], x[base + N - i]);
      EnergyNonNegative(x, base - i, N);
      lookup[i] := if yy < 0.0 then 0.0 else yy;
      i := i + 1;
    }
  }

  function Max(a: real, b: real): real {
    if a < b then b else a
  }

  /** Gain a shorter lag must exceed; shorter periods and lags far from the last period need more. */
  function Threshold(T1: int, minLag: int, g0: real, cont: real): real {
    if T1 < 3 * minLag then Max(0.4, 0.85 * g0 - cont)
    else if T1 < 2 * minLag then Max(0.5, 0.9 * g0 - cont)
    else Max(0.3, 0.7 * g0 - cont)
  }

  /** A gain passes a threshold exactly when it passes the floor and the share of the searched lag's gain for its
      kind of lag: short ones, below three times the shortest, need more. The second case of the threshold never
      decides. */
  lemma ThresholdMeaning(T1: int, minLag: nat, g0: real, cont: real, g: real)
    ensures g > Threshold(T1, minLag, g0, cont)
            <==> if T1 < 3 * minLag then g > 0.4 && g > 0.85 * g0 - cont else g > 0.3 && g > 0.7 * g0 - cont
  {
  }

  /** A shorter lag never needs less, continuity never makes it need more. */
  lemma ThresholdRises(T1: int, T2: int, minLag: nat, g0: real, cont: real, more: real)
    requires T1 <= T2 && g0 >= 0.0 && cont <= more
    ensures Threshold(T1, minLag, g0, cont) >= Threshold(T2, minLag, g0, more)
  {
  }

  function Continuity(T1: int, prevLag: int, k: int, T0: int, prevGain: real): real {
    if AbsInt(T1 - prevLag) <= 1 then prevGain
    else if AbsInt(T1 - prevLag) <= 2 && 5 * k * k < T0 then 0.5 * prevGain
    else 0.0
  }

  /** Continuity counts in full beside the last lag, at most half two away and only for small divisors, else not. */
  lemma ContinuityMeaning(T1: int, prevLag: int, k: int, T0: int, prevGain: real)
    requires prevGain > 0.0
    ensures var cont := Continuity(T1, prevLag, k, T0, prevGain);
            && (cont == prevGain <==> -1 <= T1 - prevLag <= 1)
            && (cont == 0.5 * prevGain <==> (T1 - prevLag == 2 || prevLag - T1 == 2) && 5 * k * k < T0)
            && (cont == prevGain || cont == 0.5 * prevGain || cont == 0.0)
  {
  }

  /** Second lag checked beside T1 for divisor k. */
  function SecondLag(T0: int, T1: int, k: int, maxLag: int): int
    requires 2 <= k <= 15
  {
    if k == 2 then if T1 + T0 > maxLag then T0 else T0 + T1
    else Rounded(SECOND_CHECK[k], T0, k)
  }

  lemma SecondLagInRange(T0: nat, T1: nat, k: nat, maxLag: nat)
    requires 2 <= k <= 15 && T0 < maxLag && T1 <= T0
    ensures 0 <= SecondLag(T0, T1, k, maxLag) <= maxLag
  {
    if k > 2 {
      assert 0 <= SECOND_CHECK[k] < k;
      RoundedBelow(SECOND_CHECK[k], T0, k);
    }
  }

  /** What a divisor k offers: the lag, its correlation and energy averaged over the two lags checked, and the
      normalised correlation of the two. Divisor 1 is the searched lag itself. */
  datatype Offer = Offer(T: int, xy: real, yy: real, g: real)

  function OfferAt(x: seq<real>, base: nat, n: nat, T0: int, k: int, gain: (real, real, real) -> real): Offer
    requires 1 <= k <= 15 && base <= |x|
  {
    var T1 := if k == 1 then T0 else Rounded(1, T0, k);
    var T1b := if k == 1 then T0 else SecondLag(T0, T1, k, base);
    var xy := if k == 1 then LagCorr(x, base, n, T0) else 0.5 * (LagCorr(x, base, n, T1) + LagCorr(x, base, n, T1b));
    var yy := if k == 1 then Energy(x, base - T0, n) else 0.5 * (Energy(x, base - T1, n) + Energy(x, base - T1b, n));
    Offer(T1, xy, yy, gain(xy, Energy(x, base, n), yy))
  }

  /** Correlation of the window at base with the one `lag` samples before. */
  function LagCorr(x: seq<real>, base: nat, n: nat, lag: int): real
    requires base <= |x|
  {
    Corr(x[base..], x, base - lag, n)
  }

  /** The divisors up to k all leave a lag that is not too short. */
  ghost predicate Tested(T0: int, minLag: int, k: int) {
    forall j :: 2 <= j <= k ==> Rounded(1, T0, j) >= minLag
  }

  /** What is fixed while the divisors are tried. */
  datatype Search = Search(x: seq<real>, base: nat, n: nat, T0: int, minLag: int, prevLag: int, prevGain: real,
                           gain: (real, real, real) -> real)

  ghost predicate Passes(q: Search, k: int)
    requires q.base <= |q.x|
  {
    && 2 <= k <= 15 && Tested(q.T0, q.minLag, k)
    && var o := OfferAt(q.x, q.base, q.n, q.T0, k, q.gain);
       o.g > Threshold(o.T, q.minLag, OfferAt(q.x, q.base, q.n, q.T0, 1, q.gain).g,
                       Continuity(o.T, q.prevLag, k, q.T0, q.prevGain))
  }

  /** k is the largest divisor below `end` that passes, or 1 when none does. */
  ghost predicate LastPassing(q: Search, k: int, end: int)
    requires q.base <= |q.x|
  {
    && (k == 1 || Passes(q, k)) && 1 <= k < end
    && forall j :: k < j < end ==> !Passes(q, j)
  }

  /** The pitch gain reported for an offer: its ratio, at most its normalised correlation. */
  function ReportedGain(o: Offer): real {
    var xy := Max(0.0, o.xy);
    var pg := if o.yy <= xy then 1.0 else Ratio(xy, o.yy);
    if pg > o.g then o.g else pg
  }

  /** The reported gain is at most one and the offer's own, never negative for one that is not, and zero without
      positive correlation. */
  lemma ReportedGainRange(o: Offer)
    requires o.g >= 0.0 && o.yy >= 0.0
    ensures 0.0 <= ReportedGain(o) <= o.g && ReportedGain(o) <= 1.0
    ensures o.xy <= 0.0 < o.yy ==> ReportedGain(o) == 0.0
  {
    var xy := Max(0.0, o.xy);
    if o.yy > xy { RatioRange(xy, o.yy); }
  }

  lemma RatioRange(xy: real, yy: real)
    requires yy > xy >= 0.0
    ensures 0.0 <= Ratio(xy, yy) < 1.0 && (xy == 0.0 ==> Ratio(xy, yy) == 0.0)
  {
    var r := Ratio(xy, yy);
    assert r * (yy + 1.0) == xy;
  }

  /** The correlations and energies of one divisor's two lags, averaged. */
  method TryDivisor(x: seq<real>, base: nat, n: nat, T0: nat, k: nat, T1: int, xx: real, yyLookup: array<real>,
                    gain: (real, real, real) -> real)
    returns (o: Offer)
    requires 2 <= k <= 15 && T0 < base && base + n <= |x| && T1 == Rounded(1, T0, k) && 0 <= T1 <= T0
    requires xx == Energy(x, base, n) && yyLookup.Length == base + 1
    requires forall i :: 0 <= i <= base ==> yyLookup[i] == Energy(x, base - i, n)
    ensures o == OfferAt(x, base, n, T0, k, gain)
  {
    hide Corr, Energy, Rounded, SecondLag;
    SecondLagInRange(T0, T1, k, base);
    var T1b := SecondLag(T0, T1, k, base);
    var xy, xy2 := DualInnerProd(x, base, base - T1, base - T1b, n);
    xy := 0.5 * (xy + xy2);
    var yy := 0.5 * (yyLookup[T1] + yyLookup[T1b]);
    o := Offer(T1, xy, yy, gain(xy, xx, yy));
  }

  lemma FirstOffer(x: seq<real>, base: nat, n: nat, T0: int, gain: (real, real, real) -> real)
    requires base <= |x|
    ensures var xy, yy := LagCorr(x, base, n, T0), Energy(x, base - T0, n);
            OfferAt(x, base, n, T0, 1, gain) == Offer(T0, xy, yy, gain(xy, Energy(x, base, n), yy))
  {
  }

  lemma OfferLag(x: seq<real>, base: nat, n: nat, T0: int, k: int, gain: (real, real, real) -> real)
    requires 2 <= k <= 15 && base <= |x|
    ensures OfferAt(x, base, n, T0, k, gain).T == Rounded(1, T0, k)
  {
  }

  /** Looks for a shorter period behind T0; gain stands for the square-root normalised correlation. The lag kept
      is that of the largest divisor that passes its threshold, refined by how its correlation peak leans. */
  method RnnRemoveDoubling(x: seq<real>, maxPeriod: nat, minPeriod: nat, N: nat, T0in: nat, prevPeriod: int,
                           prevGain: real, gain: (real, real, real) -> real)
    returns (pg: real, period: int, ghost q: Search, ghost chosen: int)
    requires 4 <= maxPeriod <= PITCH_MAX_PERIOD && 2 <= minPeriod < maxPeriod && T0in >= 2
    requires maxPeriod / 2 + N / 2 <= |x|
    ensures q == Search(x, maxPeriod / 2, N / 2, if T0in / 2 >= maxPeriod / 2 then maxPeriod / 2 - 1 else T0in / 2,
                        minPeriod / 2, prevPeriod / 2, prevGain, gain)
    ensures LastPassing(q, chosen, 16) && 1 <= chosen <= 15
    ensures var o := OfferAt(x, q.base, q.n, q.T0, chosen, gain);
            && pg == ReportedGain(o) && 1 <= o.T < q.base
            && var refined := 2 * o.T + Lean(LagCorr(x, q.base, q.n, o.T - 1), LagCorr(x, q.base, q.n, o.T),
                                             LagCorr(x, q.base, q.n, o.T + 1));
               period == if refined < minPeriod then minPeriod else refined
    ensures minPeriod <= period < maxPeriod
    ensures var T := OfferAt(x, q.base, q.n, q.T0, chosen, gain).T;
            var before, at, after := LagCorr(x, q.base, q.n, T - 1), LagCorr(x, q.base, q.n, T), LagCorr(x, q.base, q.n, T + 1);
            minPeriod < 2 * T && at >= before && at >= after ==>
              && (period > 2 * T <==> at - after < 0.3 * (at - before))
              && (period < 2 * T <==> at - before < 0.3 * (at - after))
  {
    hide Corr, Energy, Rounded, Threshold, Continuity, Lean, SecondLag, Ratio, Max, Passes, OfferAt;
    var maxLag, minLag, n, prevLag := maxPeriod / 2, minPeriod / 2, N / 2, prevPeriod / 2;
    var T0: nat := T0in / 2;
    if T0 >= maxLag { T0 := maxLag - 1; }
    q, chosen := Search(x, maxLag, n, T0, minLag, prevLag, prevGain, gain), 1;
    var T := T0;
    var base := maxLag;
    var xx, xy := DualInnerProd(x, base, base, base - T0, n);
    SelfEnergy(x, base, n);
    var yyLookup := WindowEnergies(x, base, n, maxLag, xx);
    var yy := yyLookup[T0];
    var bestXy, bestYy := xy, yy;
    var g0 := gain(xy, xx, yy);
    FirstOffer(x, base, n, T0, gain);
    var g := g0;
    var k := 2;
    while k <= 15
      invariant 2 <= k <= 16 && 1 <= chosen < k && 1 <= T <= T0 && Tested(T0, minLag, k - 1)
      invariant forall i :: 0 <= i <= base ==> yyLookup[i] == Energy(x, base - i, n)
      invariant LastPassing(q, chosen, k) && Offer(T, bestXy, bestYy, g) == OfferAt(x, base, n, T0, chosen, gain)
    {
      RoundedBelow(1, T0, k);
      var T1 := Rounded(1, T0, k);
      if T1 < minLag {
        NoneFurther(q, chosen, k);
        break;
      }
      var o := TryDivisor(x, base, n, T0, k, T1, xx, yyLookup, gain);
      var cont := Continuity(T1, prevLag, k, T0, prevGain);
      OfferLag(x, base, n, T0, k, gain);
      PassesIff(q, k, o);
      if o.g > Threshold(T1, minLag, g0, cont) {
        bestXy, bestYy, T, g := o.xy, o.yy, T1, o.g;
        chosen := k;
      }
      k := k + 1;
    }
    bestXy := Max(0.0, bestXy);
    MaxIsNonNegative(OfferAt(x, base, n, T0, chosen, gain).xy);
    pg := if bestYy <= bestXy then 1.0 else Ratio(bestXy, bestYy);
    var before := CeltInnerProd(x, base, x, base - (T - 1), n);
    var at := CeltInnerProd(x, base, x, base - T, n);
    var after := CeltInnerProd(x, base, x, base - (T + 1), n);
    var offset := Lean(before, at, after);
    LeanRange(before, at, after);
    if at >= before && at >= after { LeanAtPeak(before, at, after); }
    if pg > g { pg := g; }
    period := 2 * T + offset;
    if period < minPeriod { period := minPeriod; }
  }

  lemma MaxIsNonNegative(xy: real)
    ensures Max(0.0, xy) >= 0.0
  {
  }

  lemma PassesIff(q: Search, k: int, o: Offer)
    requires q.base <= |q.x| && 2 <= k <= 15 && Tested(q.T0, q.minLag, k - 1) && Rounded(1, q.T0, k) >= q.minLag
    requires o == OfferAt(q.x, q.base, q.n, q.T0, k, q.gain)
    ensures Tested(q.T0, q.minLag, k)
    ensures Passes(q, k) <==> o.g > Threshold(o.T, q.minLag, OfferAt(q.x, q.base, q.n, q.T0, 1, q.gain).g,
                                              Continuity(o.T, q.prevLag, k, q.T0, q.prevGain))
  {
    hide OfferAt, Threshold, Continuity, Rounded;
  }

  /** Once a divisor leaves too short a lag, no larger one counts as tested. */
  lemma NoneFurther(q: Search, chosen: int, k: int)
    requires q.base <= |q.x| && 2 <= k <= 15 && LastPassing(q, chosen, k) && Rounded(1, q.T0, k) < q.minLag
    ensures LastPassing(q, chosen, 16)
  {
    hide OfferAt, Threshold, Continuity, Rounded;
  }

  function Ratio(xy: real, yy: real): real
    requires yy > xy >= 0.0
  {
    xy / (yy + 1.0)
  }

  lemma LeanRange(a: real, b: real, c: real)
    ensures -1 <= Lean(a, b, c) <= 1
  {
  }

  lemma SelfEnergy(x: seq<real>, base: nat, n: nat)
    requires base + n <= |x|
    ensures Corr(x[base..], x, base, n) == Energy(x, base, n)
  {
    hide Prod;
    SumCong(n, j => Prod(At(x[base..], j), At(x, base + j)), j => Prod(At(x, base + j), At(x, base + j)));
  }

  // ----- the frame's pitch, with the source's buffer sizes -----

  /** Pitch period of a frame from the half-rate buffer: the divisor's lag kept by doubling removal, started at the lag
      the search found, leaned by its neighbours; always between the minimum period and one below the maximum. */
  method FramePitch(lp: seq<real>, lastPeriod: int, lastGain: real, gain: (real, real, real) -> real)
    returns (pitchIndex: int, g: real, pitch: int, ghost q: Search, ghost chosen: int)
    requires |lp| == PITCH_BUF_SIZE / 2
    ensures PITCH_MIN_PERIOD <= pitchIndex < PITCH_MAX_PERIOD
    ensures Found(lp[PITCH_MAX_PERIOD / 2..], lp, PITCH_FRAME_SIZE, PITCH_MAX_PERIOD - 3 * PITCH_MIN_PERIOD, pitch)
    ensures q == Search(lp, PITCH_MAX_PERIOD / 2, PITCH_FRAME_SIZE / 2,
                        if (PITCH_MAX_PERIOD - pitch) / 2 >= PITCH_MAX_PERIOD / 2 then PITCH_MAX_PERIOD / 2 - 1
                        else (PITCH_MAX_PERIOD - pitch) / 2,
                        PITCH_MIN_PERIOD / 2, lastPeriod / 2, lastGain, gain)
    ensures LastPassing(q, chosen, 16) && 1 <= chosen <= 15
    ensures var o := OfferAt(lp, q.base, q.n, q.T0, chosen, gain);
            && g == ReportedGain(o) && (pitchIndex == PITCH_MIN_PERIOD || -1 <= pitchIndex - 2 * o.T <= 1)
  {
    hide Corr, Energy, Ranked, FineAt, CoarseWinners, LastPassing, OfferAt, Sum, Lean, Decimated;
    var coarse, best, fine;
    pitch, coarse, best, fine := RnnPitchSearch(lp[PITCH_MAX_PERIOD / 2..], lp, PITCH_FRAME_SIZE,
                                                PITCH_MAX_PERIOD - 3 * PITCH_MIN_PERIOD);
    assert FoundWith(lp[PITCH_MAX_PERIOD / 2..], lp, PITCH_FRAME_SIZE, PITCH_MAX_PERIOD - 3 * PITCH_MIN_PERIOD, pitch,
                     coarse[0], coarse[1], best, fine) by {
      if 0 < best < |fine| - 1 { LeanRange(fine[best - 1], fine[best], fine[best + 1]); }
    }
    pitchIndex := PITCH_MAX_PERIOD - pitch;
    g, pitchIndex, q, chosen := RnnRemoveDoubling(lp, PITCH_MAX_PERIOD, PITCH_MIN_PERIOD, PITCH_FRAME_SIZE, pitchIndex,
                                                  lastPeriod, lastGain, gain);
    var T := OfferAt(lp, q.base, q.n, q.T0, chosen, gain).T;
    LeanRange(LagCorr(lp, q.base, q.n, T - 1), LagCorr(lp, q.base, q.n, T), LagCorr(lp, q.base, q.n, T + 1));
  }

  /** What the two-stage search finds: coarse winners, the best of the fine correlations around them, and its lean. */
  ghost predicate Found(xLp: seq<real>, y: seq<real>, len: nat, maxPitch: nat, pitch: int)
    requires 1 <= len && 4 <= maxPitch && len <= 2 * |xLp| && len + maxPitch <= 2 * |y|
  {
    exists c0: int, c1: int, best: int, fine: seq<real> :: FoundWith(xLp, y, len, maxPitch, pitch, c0, c1, best, fine)
  }

  ghost predicate FoundWith(xLp: seq<real>, y: seq<real>, len: nat, maxPitch: nat, pitch: int, c0: int, c1: int,
                            best: int, fine: seq<real>)
    requires 1 <= len && 4 <= maxPitch && len <= 2 * |xLp| && len + maxPitch <= 2 * |y|
  {
    && CoarseWinners(Decimated(xLp, len / 4), Decimated(y, (len + maxPitch) / 4), len / 4, maxPitch / 4, c0, c1)
    && |fine| == maxPitch / 2 && (forall i :: 0 <= i < |fine| ==> fine[i] == FineAt(xLp, y, len / 2, c0, c1, i))
    && (exists second :: Ranked(fine, y, len / 2, |fine|, best, second))
    && 0 <= best < |fine| && -1 <= pitch - 2 * best <= 1
  }

  /** The window one pitch period back lies inside the pitch buffer for every period FramePitch returns. */
  method PitchWindow(pitchBuf: seq<real>, pitchIndex: int, window: nat) returns (p: seq<real>)
    requires |pitchBuf| == PITCH_BUF_SIZE && window == PITCH_FRAME_SIZE
    requires PITCH_MIN_PERIOD <= pitchIndex < PITCH_MAX_PERIOD
    ensures p == pitchBuf[PITCH_BUF_SIZE - window - pitchIndex..PITCH_BUF_SIZE - pitchIndex]
  {
    var buf := new real[window];
    var i := 0;
    while i < window
      invariant 0 <= i <= window
      invariant forall k :: 0 <= k < i ==> buf[k] == pitchBuf[PITCH_BUF_SIZE - window - pitchIndex + k]
    {
      buf[i] := pitchBuf[PITCH_BUF_SIZE - window - pitchIndex + i];
      i := i + 1;
    }
    p := buf[..];
  }
}
