/** From band gains to bin gains: smoothing over frames and interpolation over frequency. */
module Gains {
  import opened RealSums

  const NB_BANDS := 32
  const FREQ_SIZE := 481

  /** Band edges in bins of 50 Hz. */
  const EBAND: seq<nat> := [0, 2, 4, 6, 8, 10, 12, 15, 18, 21, 24, 28, 32, 36, 41, 47, 53, 60, 68, 77, 87, 98, 110,
                            124, 140, 157, 176, 198, 223, 251, 282, 317, 356, 400]

  ghost predicate UnitInterval(g: seq<real>) {
    forall i :: 0 <= i < |g| ==> 0.0 <= g[i] <= 1.0
  }

  // ----- smoothing over frames -----

  /** The fall limit: a gain may drop to `strength` times its last value, not lower. */
  function Smooth(raw: real, strength: real, last: real): real {
    if raw > Prod(strength, last) then raw else Prod(strength, last)
  }

  function Clamped(strength: real): (s: real)
    ensures 0.3 <= s <= 0.95 && (strength < 0.3 ==> s == 0.3) && (strength > 0.95 ==> s == 0.95)
    ensures 0.3 <= strength <= 0.95 ==> s == strength
  {
    if strength < 0.3 then 0.3 else if strength > 0.95 then 0.95 else strength
  }

  /** What one band has seen on each frame that was not silent: its raw gain and the strength then set. */
  datatype Seen = Seen(raw: real, strength: real)

  ghost predicate Legal(h: seq<Seen>) {
    forall t :: 0 <= t < |h| ==> 0.0 <= h[t].raw <= 1.0 && 0.3 <= h[t].strength <= 0.95
  }

  /** The gain after a whole history, from reset. */
  function After(h: seq<Seen>): real {
    if h == [] then 0.0 else Smooth(h[|h| - 1].raw, h[|h| - 1].strength, After(h[..|h| - 1]))
  }

  /** How much of frame j's raw gain is left at the end of the history. */
  function Left(h: seq<Seen>, j: nat): real
    requires j < |h|
  {
    if j == |h| - 1 then h[j].raw else Prod(h[|h| - 1].strength, Left(h[..|h| - 1], j))
  }

  lemma ProdOrdered(s: real, x: real, y: real)
    requires 0.0 <= s && x <= y
    ensures Prod(s, x) <= Prod(s, y)
  {
    ProdNonNegative(s, y - x);
  }

  lemma Shrinks(s: real, x: real)
    requires 0.0 <= s <= 1.0 && 0.0 <= x
    ensures 0.0 <= Prod(s, x) <= x
  {
    ProdNonNegative(s, x);
    ProdNonNegative(1.0 - s, x);
  }

  /** Peak hold with decay, exactly: the smoothed gain is the largest decayed raw gain of the whole history. */
  lemma {:induction false} SmoothedIsDecayedPeak(h: seq<Seen>)
    requires Legal(h)
    ensures 0.0 <= After(h) <= 1.0
    ensures forall j :: 0 <= j < |h| ==> Left(h, j) <= After(h)
    ensures h != [] ==> exists j :: 0 <= j < |h| && After(h) == Left(h, j)
  {
    hide Prod;
    if h != [] {
      var init, last := h[..|h| - 1], h[|h| - 1];
      SmoothedIsDecayedPeak(init);
      Shrinks(last.strength, After(init));
      forall j | 0 <= j < |h| ensures Left(h, j) <= After(h) {
        if j < |init| { ProdOrdered(last.strength, Left(init, j), After(init)); }
      }
      if init == [] {
        ProdUnits(last.strength);
        assert After(h) == Left(h, 0);
      } else if After(h) == last.raw {
        assert After(h) == Left(h, |h| - 1);
      } else {
        var j :| 0 <= j < |init| && After(init) == Left(init, j);
        assert After(h) == Left(h, j);
      }
    }
  }

  /** Between two frames of a run the gain never falls faster than the strength set for the later one. */
  lemma FallLimited(h: seq<Seen>)
    requires Legal(h) && h != []
    ensures After(h) >= Prod(h[|h| - 1].strength, After(h[..|h| - 1]))
    ensures After(h) >= h[|h| - 1].raw
  {
  }

  /** The part of the denoiser's state that smoothing touches. */
  class Smoother {
    var strength: real
    const lastg: array<real>
    ghost var seen: seq<seq<Seen>>

    ghost predicate Valid()
      reads this, lastg
    {
      && lastg.Length == NB_BANDS && |seen| == NB_BANDS && 0.3 <= strength <= 0.95
      && forall b :: 0 <= b < NB_BANDS ==> Legal(seen[b]) && lastg[b] == After(seen[b])
    }

    constructor ()
      ensures Valid() && strength == 0.6 && fresh(lastg)
      ensures forall b :: 0 <= b < NB_BANDS ==> seen[b] == []
    {
      strength := 0.6;
      lastg := new real[NB_BANDS](_ => 0.0);
      seen := seq(NB_BANDS, _ => []);
    }

    /** Forgets every frame but keeps the strength. */
    method Reset()
      requires Valid()
      modifies this, lastg
      ensures Valid() && strength == old(strength)
      ensures forall b :: 0 <= b < NB_BANDS ==> seen[b] == []
    {
      seen := seq(NB_BANDS, _ => []);
      var i := 0;
      while i < NB_BANDS
        invariant 0 <= i <= NB_BANDS && forall b :: 0 <= b < i ==> lastg[b] == 0.0
        modifies lastg
      {
        lastg[i] := 0.0;
        i := i + 1;
      }
    }

    method SetStrength(s: real)
      requires Valid()
      modifies this`strength
      ensures Valid() && strength == Clamped(s)
    {
      strength := Clamped(s);
    }

    /** A frame that is not silent: raises the fresh gains in place and remembers them. */
    method SmoothGains(g: array<real>)
      requires Valid() && g != lastg && g.Length == NB_BANDS && UnitInterval(g[..])
      modifies this`seen, lastg, g
      ensures Valid()
      ensures forall b :: 0 <= b < NB_BANDS ==> seen[b] == old(seen[b]) + [Seen(old(g[b]), strength)]
      ensures forall b :: 0 <= b < NB_BANDS ==> g[b] == lastg[b] == After(seen[b])
      ensures UnitInterval(g[..])
    {
      hide After, Legal, Prod;
      ghost var raw, was, s := g[..], seen, strength;
      ghost var now := seq(NB_BANDS, b requires 0 <= b < NB_BANDS => was[b] + [Seen(raw[b], s)]);
      var i := 0;
      while i < NB_BANDS
        invariant 0 <= i <= NB_BANDS
        invariant forall b :: 0 <= b < i ==> Legal(now[b]) && g[b] == lastg[b] == After(now[b])
        invariant forall b :: i <= b < NB_BANDS ==> g[b] == raw[b] && lastg[b] == After(was[b])
        modifies lastg, g
      {
        Extend(was[i], Seen(raw[i], s));
        g[i] := Smooth(g[i], strength, lastg[i]);
        lastg[i] := g[i];
        i := i + 1;
      }
      seen := now;
      forall b | 0 <= b < NB_BANDS ensures 0.0 <= g[b] <= 1.0 {
        SmoothedIsDecayedPeak(now[b]);
      }
    }
  }

  lemma Extend(h: seq<Seen>, s: Seen)
    requires Legal(h) && 0.0 <= s.raw <= 1.0 && 0.3 <= s.strength <= 0.95
    ensures Legal(h + [s]) && After(h + [s]) == Smooth(s.raw, s.strength, After(h))
  {
    assert (h + [s])[..|h|] == h;
  }

  // ----- interpolation over frequency -----

  function Edge(i: nat): (e: nat)
    requires i <= NB_BANDS + 1
    ensures e <= 400 && (i == 0 ==> e == 0) && (i == NB_BANDS + 1 ==> e == 400)
  {
    EBAND[i]
  }

  function Lerp(frac: real, a: real, b: real): real {
    Prod(1.0 - frac, a) + Prod(frac, b)
  }

  lemma LerpBetween(frac: real, a: real, b: real, low: real, high: real)
    requires 0.0 <= frac <= 1.0 && low <= a <= high && low <= b <= high
    ensures low <= Lerp(frac, a, b) <= high
  {
    ProdNonNegative(1.0 - frac, a - low);
    ProdNonNegative(frac, b - low);
    ProdNonNegative(1.0 - frac, high - a);
    ProdNonNegative(frac, high - b);
  }

  lemma LerpEnds(a: real, b: real)
    ensures Lerp(0.0, a, b) == a && Lerp(1.0, a, b) == b && forall f {:trigger Lerp(f, a, a)} :: Lerp(f, a, a) == a
  {
  }

  /** Band whose bins hold bin k, from band i on. */
  function BandOf(k: nat, i: nat): (b: nat)
    requires i <= NB_BANDS
    ensures i <= b <= NB_BANDS
    decreases NB_BANDS - i
  {
    if i == NB_BANDS || k < Edge(i + 1) then i else BandOf(k, i + 1)
  }

  lemma {:induction false} BandHolds(k: nat, i: nat)
    requires i <= NB_BANDS && Edge(i) <= k < 400
    ensures Edge(BandOf(k, i)) <= k < Edge(BandOf(k, i) + 1)
    decreases NB_BANDS - i
  {
    hide Edge;
    if i < NB_BANDS && k >= Edge(i + 1) {
      BandHolds(k, i + 1);
    }
  }

  lemma EdgesRise(i: nat)
    requires i <= NB_BANDS
    ensures Edge(i) < Edge(i + 1)
  {
  }

  lemma {:induction false} EdgesOrdered(i: nat, j: nat)
    requires i <= j <= NB_BANDS + 1
    ensures Edge(i) <= Edge(j)
    decreases j - i
  {
    hide Edge;
    if i < j {
      EdgesRise(i);
      EdgesOrdered(i + 1, j);
    }
  }

  /** The bands partition the bins below 400: each bin belongs to exactly one. */
  lemma BandIsUnique(k: nat, b: nat)
    requires b <= NB_BANDS && Edge(b) <= k < Edge(b + 1)
    ensures k < Edge(NB_BANDS + 1) && BandOf(k, 0) == b
  {
    hide Edge;
    EdgesOrdered(b + 1, NB_BANDS + 1);
    EdgesOrdered(0, b);
    BandHolds(k, 0);
    var c := BandOf(k, 0);
    if c < b { EdgesOrdered(c + 1, b); }
    if b < c { EdgesOrdered(b + 1, c); }
  }

  function Frac(k: nat, b: nat): real
    requires b <= NB_BANDS
  {
    EdgesRise(b);
    (k - Edge(b)) as real / (Edge(b + 1) - Edge(b)) as real
  }

  lemma FracRange(k: nat, b: nat)
    requires b <= NB_BANDS && Edge(b) <= k < Edge(b + 1)
    ensures 0.0 <= Frac(k, b) < 1.0
    ensures k == Edge(b) ==> Frac(k, b) == 0.0
  {
    hide Edge;
    RatioBelowOne(k - Edge(b), Edge(b + 1) - Edge(b));
  }

  lemma RatioBelowOne(p: nat, q: nat)
    requires p < q
    ensures 0.0 <= p as real / q as real < 1.0
    ensures p == 0 ==> p as real / q as real == 0.0
  {
  }

  /** Gain of a bin that belongs to a band. */
  function BinGain(bandE: seq<real>, k: nat): real
    requires |bandE| == NB_BANDS && k < Edge(NB_BANDS + 1)
  {
    var b := BandOf(k, 0);
    if b == 0 then bandE[0] else if b == NB_BANDS then bandE[NB_BANDS - 1]
    else Lerp(Frac(k, b), bandE[b - 1], bandE[b])
  }

  /** Bins get gains between those of their neighbouring bands; equal bands give flat bins; at the lower
      edge of band b the bin has exactly the gain of band b - 1. */
  lemma BinBetween(bandE: seq<real>, k: nat, low: real, high: real)
    requires |bandE| == NB_BANDS && k < Edge(NB_BANDS + 1)
    requires forall i :: 0 <= i < NB_BANDS ==> low <= bandE[i] <= high
    ensures low <= BinGain(bandE, k) <= high
  {
    hide Lerp, Frac, Edge;
    BandHolds(k, 0);
    var b := BandOf(k, 0);
    if 0 < b < NB_BANDS {
      FracRange(k, b);
      LerpBetween(Frac(k, b), bandE[b - 1], bandE[b], low, high);
    }
  }

  lemma EdgeGain(bandE: seq<real>, b: nat)
    requires |bandE| == NB_BANDS && 1 <= b <= NB_BANDS
    ensures Edge(b) < Edge(NB_BANDS + 1) && BinGain(bandE, Edge(b)) == bandE[b - 1]
  {
    hide Lerp, Frac, Edge;
    EdgesRise(b);
    BandIsUnique(Edge(b), b);
    if b < NB_BANDS {
      FracRange(Edge(b), b);
      LerpEnds(bandE[b - 1], bandE[b]);
    }
  }

  /** Inside a band the gain changes by the same amount from bin to bin; below the first band's end it is flat. */
  lemma EvenSteps(bandE: seq<real>, b: nat, k: nat)
    requires |bandE| == NB_BANDS && b <= NB_BANDS && Edge(b) <= k && k + 1 < Edge(b + 1)
    ensures k + 1 < Edge(NB_BANDS + 1)
    ensures 1 <= b < NB_BANDS ==>
              BinGain(bandE, k + 1) - BinGain(bandE, k) == (bandE[b] - bandE[b - 1]) / (Edge(b + 1) - Edge(b)) as real
    ensures b == 0 ==> BinGain(bandE, k) == bandE[0]
    ensures b == NB_BANDS ==> BinGain(bandE, k) == bandE[NB_BANDS - 1]
  {
    hide Lerp, Edge;
    BandIsUnique(k, b);
    BandIsUnique(k + 1, b);
    if 1 <= b < NB_BANDS {
      var size := (Edge(b + 1) - Edge(b)) as real;
      LerpStep((k - Edge(b)) as real, size, bandE[b - 1], bandE[b]);
    }
  }

  lemma LerpStep(j: real, size: real, a: real, b: real)
    requires size > 0.0
    ensures Lerp((j + 1.0) / size, a, b) - Lerp(j / size, a, b) == (b - a) / size
  {
    var f, g, d := j / size, (j + 1.0) / size, 1.0 / size;
    SplitQuotient(j, size);
    LerpDiff(f, d, a, b);
    assert (b - a) / size == d * (b - a) by { QuotientIsProduct(b - a, size); }
  }

  lemma SplitQuotient(j: real, size: real)
    requires size > 0.0
    ensures (j + 1.0) / size == j / size + 1.0 / size
  {
  }

  lemma QuotientIsProduct(v: real, size: real)
    requires size > 0.0
    ensures v / size == (1.0 / size) * v
  {
  }

  lemma LerpDiff(f: real, d: real, a: real, b: real)
    ensures Lerp(f + d, a, b) - Lerp(f, a, b) == d * (b - a)
  {
  }

  lemma InsideBand(bandE: seq<real>, b: nat, j: nat)
    requires |bandE| == NB_BANDS && 1 <= b < NB_BANDS && Edge(b) + j < Edge(b + 1)
    ensures BinGain(bandE, Edge(b) + j) == Lerp(j as real / (Edge(b + 1) - Edge(b)) as real, bandE[b - 1], bandE[b])
  {
    hide Lerp, Edge;
    BandIsUnique(Edge(b) + j, b);
  }

  /** Fills one band's bins, interpolating from the band below. */
  method FillBand(g: array<real>, bandE: seq<real>, b: nat)
    requires g.Length == FREQ_SIZE && |bandE| == NB_BANDS && 1 <= b < NB_BANDS
    modifies g
    ensures forall k :: Edge(b) <= k < Edge(b + 1) ==> g[k] == BinGain(bandE, k)
    ensures forall k :: 0 <= k < FREQ_SIZE && !(Edge(b) <= k < Edge(b + 1)) ==> g[k] == old(g[k])
  {
    hide Lerp, BinGain, Edge;
    EdgesRise(b);
    EdgesOrdered(b + 1, NB_BANDS + 1);
    var bandSize := Edge(b + 1) - Edge(b);
    var j := 0;
    while j < bandSize
      invariant 0 <= j <= bandSize
      invariant forall k :: Edge(b) <= k < Edge(b) + j ==> g[k] == BinGain(bandE, k)
      invariant forall k :: 0 <= k < FREQ_SIZE && !(Edge(b) <= k < Edge(b) + j) ==> g[k] == old(g[k])
    {
      InsideBand(bandE, b, j);
      g[Edge(b) + j] := Lerp(j as real / bandSize as real, bandE[b - 1], bandE[b]);
      j := j + 1;
    }
  }

  method FillFlat(g: array<real>, bandE: seq<real>, b: nat, value: real)
    requires g.Length == FREQ_SIZE && |bandE| == NB_BANDS && (b == 0 || b == NB_BANDS)
    requires value == if b == 0 then bandE[0] else bandE[NB_BANDS - 1]
    modifies g
    ensures forall k :: Edge(b) <= k < Edge(b + 1) ==> g[k] == BinGain(bandE, k)
    ensures forall k :: 0 <= k < FREQ_SIZE && !(Edge(b) <= k < Edge(b + 1)) ==> g[k] == old(g[k])
  {
    hide Lerp, BandOf, Edge;
    EdgesRise(b);
    EdgesOrdered(b + 1, NB_BANDS + 1);
    var j := Edge(b);
    while j < Edge(b + 1)
      invariant Edge(b) <= j <= Edge(b + 1)
      invariant forall k :: Edge(b) <= k < j ==> g[k] == BinGain(bandE, k)
      invariant forall k :: 0 <= k < FREQ_SIZE && !(Edge(b) <= k < j) ==> g[k] == old(g[k])
    {
      BandIsUnique(j, b);
      g[j] := value;
      j := j + 1;
    }
  }

  /** Interpolated gains below 20 kHz; the bins above keep what the caller put there. The source's clearing
      of the output counts bytes, not entries, and only reaches bins that are overwritten anyway. */
  method InterpBandGain(g: array<real>, bandE: seq<real>)
    requires g.Length == FREQ_SIZE && |bandE| == NB_BANDS
    modifies g
    ensures forall k :: 0 <= k < Edge(NB_BANDS + 1) ==> g[k] == BinGain(bandE, k)
    ensures forall k :: Edge(NB_BANDS + 1) <= k < FREQ_SIZE ==> g[k] == old(g[k])
  {
    hide BinGain, Edge;
    var i := 1;
    while i < NB_BANDS
      invariant 1 <= i <= NB_BANDS
      invariant forall k :: Edge(1) <= k < Edge(i) ==> g[k] == BinGain(bandE, k)
      invariant forall k :: Edge(NB_BANDS + 1) <= k < FREQ_SIZE ==> g[k] == old(g[k])
    {
      EdgesRise(i);
      EdgesOrdered(1, i);
      EdgesOrdered(i + 1, NB_BANDS + 1);
      FillBand(g, bandE, i);
      i := i + 1;
    }
    FillFlat(g, bandE, 0, bandE[0]);
    FillFlat(g, bandE, NB_BANDS, bandE[NB_BANDS - 1]);
  }

  /** Smoothed band gains in [0, 1] give bin gains in [0, 1], and nothing passes above 20 kHz. */
  method FrameGains(s: Smoother, g: array<real>) returns (gf: array<real>)
    requires s.Valid() && g != s.lastg && g.Length == NB_BANDS && UnitInterval(g[..])
    modifies s`seen, s.lastg, g
    ensures s.Valid() && fresh(gf) && gf.Length == FREQ_SIZE
    ensures forall b :: 0 <= b < NB_BANDS ==> s.seen[b] == old(s.seen[b]) + [Seen(old(g[b]), s.strength)]
    ensures forall k :: 0 <= k < Edge(NB_BANDS + 1) ==> gf[k] == BinGain(s.lastg[..], k)
    ensures forall k :: Edge(NB_BANDS + 1) <= k < FREQ_SIZE ==> gf[k] == 0.0
    ensures UnitInterval(gf[..])
  {
    hide BinGain, BandOf, Legal, After, Edge;
    gf := new real[FREQ_SIZE](i => if i == 0 then 1.0 else 0.0);
    s.SmoothGains(g);
    assert g[..] == s.lastg[..];
    InterpBandGain(gf, g[..]);
    forall k | 0 <= k < Edge(NB_BANDS + 1) ensures 0.0 <= gf[k] <= 1.0 {
      BinBetween(g[..], k, 0.0, 1.0);
    }
  }
}
