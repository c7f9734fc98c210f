/** Preparing a transform: plan, digit reversal and scale for any length the planner can hold. */
module FftAlloc {
  import opened ComplexNumbers
  import opened Integers
  import opened FftPlan
  import opened Butterfly
  import opened Dft
  import opened Fft
  import Planner

  /** How preparing a length ends: with a state, refused because of another prime factor, with a ninth factor
      that would be written past the factor buffer, or with a first sub-length cut to sixteen bits. */
  datatype Outcome = Ready | Refused | TooManyFactors | Truncated

  function OutcomeOf(nfft: nat): Outcome
    requires nfft >= 1
  {
    if Planner.StageCount(nfft) > MAXFACTORS then TooManyFactors
    else if !Planner.FiveSmooth(nfft) then Refused
    else if nfft / Planner.FirstRadix(nfft) > 0x7FFF then Truncated
    else Ready
  }

  /** Builds the state for length nfft over an exact twiddle table. The outcome follows from the length alone;
      after Truncated the source goes on with a factor table that is not a plan, which the model does not. */
  method RnnFftAlloc(nfft: nat, twiddles: seq<Complex>, sqrtHalf: real, ghost w: Complex)
    returns (outcome: Outcome, st: FftState, ghost stages: nat)
    requires nfft >= 1
    requires ExactRoot(w, nfft, sqrtHalf) && ExactTable(twiddles, w, nfft)
    ensures outcome == OutcomeOf(nfft)
    ensures outcome == Ready ==> Planned(st, stages, w) && st.nfft == nfft && stages == Planner.StageCount(nfft)
    ensures Planner.FiveSmooth(nfft) && Planner.StageCount(nfft) < MAXFACTORS ==> outcome == Ready
  {
    hide *;
    var scale := 1.0 / nfft as real;
    Outcomes(nfft);
    var facbuf := new int[2 * MAXFACTORS];
    st := FftState(nfft, scale, facbuf[..], [], twiddles, sqrtHalf);
    var v;
    v, stages := Planner.KfFactor(nfft, facbuf);
    if v.Overrun? { return TooManyFactors, st, stages; }
    if v.Rejected? { return Refused, st, stages; }
    ghost var factors := facbuf[..];
    assert factors[0] == facbuf[0];
    if nfft / facbuf[0] > 0x7FFF { return Truncated, st, stages; }
    var bitrev := new int[nfft];
    PlanFacts(factors, stages, nfft);
    ComputeBitrevTable(0, bitrev, 0, 1, facbuf[..], 0, stages, 0);
    assert facbuf[..] == factors;
    WholeTable(bitrev[..], factors, stages, nfft);
    st := FftState(nfft, scale, facbuf[..], bitrev[..], twiddles, sqrtHalf);
    PlannedFrom(st, stages, w);
    outcome := Ready;
  }

  lemma Outcomes(nfft: nat)
    requires nfft >= 1
    ensures OutcomeOf(nfft) == if Planner.StageCount(nfft) > MAXFACTORS then TooManyFactors
                               else if !Planner.FiveSmooth(nfft) then Refused
                               else if nfft / Planner.FirstRadix(nfft) > 0x7FFF then Truncated else Ready
    ensures MAXFACTORS == 8 && Planner.FirstRadix(nfft) >= 1
  {
  }

  /** Preparing a length and transforming one input, for every length there is: it works exactly for 5-smooth
      lengths of fewer than eight stages, and then gives the scaled discrete Fourier transform. */
  method Transform(nfft: nat, twiddles: seq<Complex>, sqrtHalf: real, fin: array<Complex>, ghost w: Complex)
    returns (ok: bool, fout: array<Complex>)
    requires nfft >= 1 && fin.Length == nfft
    requires ExactRoot(w, nfft, sqrtHalf) && ExactTable(twiddles, w, nfft)
    ensures fresh(fout) && fout.Length == nfft
    ensures ok <==> Planner.FiveSmooth(nfft) && Planner.StageCount(nfft) < MAXFACTORS
    ensures ok ==> forall k :: 0 <= k < nfft ==> fout[k] == Scale(1.0 / nfft as real, DftAt(fin[..], w, k))
  {
    hide *;
    fout := new Complex[nfft];
    var outcome, st;
    ghost var stages;
    outcome, st, stages := RnnFftAlloc(nfft, twiddles, sqrtHalf, w);
    Outcomes(nfft);
    if outcome != Ready { return false, fout; }
    PlannedScale(st, stages, w);
    ok := RnnFft(st, fin, fout, stages, w);
  }

  /** For every length with a plan of as many stages as the planner records, the walk's highest write lies inside
      its buffer exactly when the length has fewer than MAXFACTORS factors. */
  lemma WalkOfLength(n: nat, factors: seq<int>)
    requires IsPlan(factors, Planner.StageCount(n), n)
    ensures WalkTop(factors, 0) == Planner.StageCount(n)
    ensures WalkTop(factors, 0) < MAXFACTORS <==> Planner.StageCount(n) < MAXFACTORS
  {
    WalkTopIsStages(factors, Planner.StageCount(n), n, 0);
  }

  /** The eight stages of length 6561 are planned but do not fit the walk, whatever the plan's order. */
  lemma PlannedButTooLong(factors: seq<int>)
    requires IsPlan(factors, Planner.StageCount(6561), 6561)
    ensures OutcomeOf(6561) == Ready && WalkTop(factors, 0) == MAXFACTORS
  {
    Planner.EightThrees();
    WalkOfLength(6561, factors);
  }

  lemma PlanFacts(factors: seq<int>, stages: nat, n: nat)
    requires IsPlan(factors, stages, n)
    ensures stages >= 1 && Stride(factors, 0) == 1 && Offset(factors, 0, 0) == 0 && BlockLen(factors, n, 0) == n
  {
  }

  lemma WholeTable(bitrev: seq<int>, factors: seq<int>, stages: nat, n: nat)
    requires IsPlan(factors, stages, n) && |bitrev| == n
    requires BlockPlaced(bitrev, factors, stages, n, 0, 0)
    ensures IsReversal(bitrev, factors, stages, n)
  {
    hide Placed;
    forall k | 0 <= k < n ensures Placed(bitrev, factors, stages, n, k) {
      DivUnique(k, n, 0, k);
      assert InBlock(factors, n, 0, 0, k);
    }
  }

  lemma PlannedFrom(st: FftState, stages: nat, w: Complex)
    requires IsPlan(st.factors, stages, st.nfft) && st.nfft >= 1
    requires IsReversal(st.bitrev, st.factors, stages, st.nfft)
    requires ExactRoot(w, st.nfft, st.sqrtHalf) && ExactTable(st.twiddles, w, st.nfft)
    requires st.scale == 1.0 / st.nfft as real
    ensures Planned(st, stages, w)
  {
  }

  lemma PlannedScale(st: FftState, stages: nat, w: Complex)
    requires Planned(st, stages, w)
    ensures st.scale == 1.0 / st.nfft as real
  {
    assert st.nfft >= 1;
    assert st.scale * st.nfft as real == 1.0;
  }
}
