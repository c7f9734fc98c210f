/** The transform driver: digit-reversal table, stage walk and its stride buffer, scaled forward transform. */
module Fft {
  import opened ComplexNumbers
  import opened Integers
  import opened FftPlan
  import opened Dft
  import opened Butterfly
  import opened Roots
  import opened FftStages

  /** The table sends each input index to its digit-reversed position, and back. */
  ghost predicate IsReversal(bitrev: seq<int>, factors: seq<int>, stages: nat, n: nat) {
    && |bitrev| == n
    && forall k :: 0 <= k < n ==> Placed(bitrev, factors, stages, n, k)
  }

  /** Inverse images exist: every input index is the offset of its own table entry. */
  lemma ReversalOnto(bitrev: seq<int>, factors: seq<int>, stages: nat, n: nat, i: int)
    requires IsPlan(factors, stages, n) && IsReversal(bitrev, factors, stages, n)
    requires 0 <= i < n
    ensures 0 <= bitrev[i] < n && Offset(factors, stages, bitrev[i]) == i
  {
    hide Offset;
    var f := seq(n, (k: int) => Offset(factors, stages, k));
    forall k | 0 <= k < n ensures 0 <= f[k] < n && bitrev[f[k]] == k {
      assert Placed(bitrev, factors, stages, n, k);
    }
    InjectiveIsOnto(f, n, i);
    var k :| 0 <= k < n && f[k] == i;
  }

  /** Pigeonhole: an injective map of 0..n into itself hits every value. */
  lemma InjectiveIsOnto(f: seq<int>, n: nat, i: nat)
    requires |f| == n && i < n
    requires forall k :: 0 <= k < n ==> 0 <= f[k] < n
    requires forall a, b :: 0 <= a < b < n ==> f[a] != f[b]
    ensures i in f
  {
    ImageSize(f);
    SubsetOfEqualSize(Image(f), Range(n));
  }

  function Image(f: seq<int>): (s: set<int>)
    ensures forall x :: x in s <==> x in f
  {
    set x | x in f
  }

  lemma {:induction false} ImageSize(f: seq<int>)
    requires forall a, b :: 0 <= a < b < |f| ==> f[a] != f[b]
    ensures |Image(f)| == |f|
  {
    if |f| > 0 {
      var g := f[..|f| - 1];
      ImageSize(g);
      assert f == g + [f[|f| - 1]];
      assert Image(f) == Image(g) + {f[|f| - 1]};
    } else {
      assert Image(f) == {};
    }
  }

  function Range(n: nat): (r: set<int>)
    ensures |r| == n && forall x :: x in r <==> 0 <= x < n
  {
    if n == 0 then {} else Range(n - 1) + {n - 1}
  }

  lemma {:induction false} SubsetOfEqualSize(a: set<int>, b: set<int>)
    requires a <= b && |a| == |b|
    ensures a == b
  {
    forall x | x in b ensures x in a {
      if x !in a {
        SubsetSize(a, b - {x});
      }
    }
  }

  lemma {:induction false} SubsetSize<T>(a: set<T>, b: set<T>)
    requires a <= b
    ensures |a| <= |b|
  {
    if a == {} {
    } else {
      var x :| x in a;
      SubsetSize(a - {x}, b - {x});
    }
  }

  // ----- digit-reversal table -----

  ghost predicate InBlock(factors: seq<int>, n: nat, i: nat, b: int, k: int) {
    BlockLen(factors, n, i) >= 1 && k / BlockLen(factors, n, i) == b
  }

  /** Position k lies in one of the first j children of block b of stage i. */
  ghost predicate InChildren(factors: seq<int>, n: nat, i: nat, b: int, j: int, k: int) {
    && SubLen(factors, i) >= 1
    && b * Radix(factors, i) <= k / SubLen(factors, i) < b * Radix(factors, i) + j
  }

  /** The table entry for position k is in place. */
  ghost predicate Placed(table: seq<int>, factors: seq<int>, stages: nat, n: nat, k: int) {
    && |table| == n
    && 0 <= Offset(factors, stages, k) < n
    && table[Offset(factors, stages, k)] == k
  }

  ghost predicate BlockPlaced(table: seq<int>, factors: seq<int>, stages: nat, n: nat, i: nat, b: int) {
    forall k :: 0 <= k < n && InBlock(factors, n, i, b, k) ==> Placed(table, factors, stages, n, k)
  }

  ghost predicate ChildrenPlaced(table: seq<int>, factors: seq<int>, stages: nat, n: nat, i: nat, b: int, j: int) {
    forall k :: 0 <= k < n && InChildren(factors, n, i, b, j, k) ==> Placed(table, factors, stages, n, k)
  }

  /** Only entries whose index is congruent to f modulo the stride may differ. */
  ghost predicate OthersKept(was: seq<int>, now: seq<int>, stride: int, f: int) {
    && |was| == |now|
    && stride >= 1
    && forall t :: 0 <= t < |was| && t % stride != f ==> now[t] == was[t]
  }

  lemma LastStage(factors: seq<int>, stages: nat, n: nat, i: nat)
    requires IsPlan(factors, stages, n) && i < stages && SubLen(factors, i) == 1
    ensures i + 1 == stages
  {
    if i + 1 < stages {
      assert StageOk(factors, i + 1, n);
      MulPositive(Radix(factors, i + 1), SubLen(factors, i + 1));
    }
  }

  lemma ChildBlock(factors: seq<int>, stages: nat, n: nat, i: nat, b: nat, j: nat)
    requires IsPlan(factors, stages, n) && i < stages
    requires b < Stride(factors, i) && j < Radix(factors, i)
    ensures var p, m, s := Radix(factors, i), SubLen(factors, i), Stride(factors, i);
      && 0 <= b * p + j < Stride(factors, i + 1) == s * p
      && Offset(factors, i + 1, b * p + j) == Offset(factors, i, b) + s * j
      && (b * p + j) * m == b * BlockLen(factors, n, i) + j * m
      && 0 <= Offset(factors, i, b) + s * j < s * p <= n
  {
    hide Offset;
    assert StageOk(factors, i, n);
    var p, m, s := Radix(factors, i), SubLen(factors, i), Stride(factors, i);
    OffsetChild(factors, i, b, j);
    MulCommInt(b, p);
    MulCommInt(s, p);
    SumBelow(j, p, b, s);
    DistributeRight(b * p, j, m);
    MulAssocInt(b, p, m);
    StrideTimesLen(factors, stages, n, i + 1);
    MulPositive(s * p, m);
    OffsetBound(factors, stages, n, i + 1, b * p + j);
  }

  /** Writing one child leaves its earlier siblings, and everything outside the block, in place. */
  lemma ChildWritten(factors: seq<int>, stages: nat, n: nat, i: nat, b: nat, j: nat,
                     was: seq<int>, before: seq<int>, after: seq<int>)
    requires IsPlan(factors, stages, n) && i < stages && |before| == n
    requires b < Stride(factors, i) && j < Radix(factors, i)
    requires ChildrenPlaced(before, factors, stages, n, i, b, j)
    requires OthersKept(was, before, Stride(factors, i), Offset(factors, i, b))
    requires var c := b * Radix(factors, i) + j;
      && BlockPlaced(after, factors, stages, n, i + 1, c)
      && OthersKept(before, after, Stride(factors, i + 1), Offset(factors, i + 1, c))
    ensures ChildrenPlaced(after, factors, stages, n, i, b, j + 1)
    ensures OthersKept(was, after, Stride(factors, i), Offset(factors, i, b))
  {
    hide Offset;
    var p, m, s := Radix(factors, i), SubLen(factors, i), Stride(factors, i);
    var c := b * p + j;
    ChildBlock(factors, stages, n, i, b, j);
    StrideTimesLen(factors, stages, n, i);
    forall k | 0 <= k < n && InChildren(factors, n, i, b, j + 1, k) ensures Placed(after, factors, stages, n, k) {
      if k / m == c {
        assert InBlock(factors, n, i + 1, c, k);
      } else {
        SiblingKept(factors, stages, n, i, c, k, before, after);
      }
    }
    OffsetBound(factors, stages, n, i, b);
    forall t | 0 <= t < n && t % s != Offset(factors, i, b) ensures after[t] == was[t] {
      if t % (s * p) == Offset(factors, i + 1, c) {
        ModOfMod(t, s, p, Offset(factors, i, b), j);
      }
    }
  }

  lemma SiblingKept(factors: seq<int>, stages: nat, n: nat, i: nat, c: nat, k: nat,
                    before: seq<int>, after: seq<int>)
    requires IsPlan(factors, stages, n) && i < stages && |before| == n && k < n
    requires Placed(before, factors, stages, n, k)
    requires c < Stride(factors, i + 1) && BlockLen(factors, n, i + 1) >= 1
    requires k / BlockLen(factors, n, i + 1) != c
    requires OthersKept(before, after, Stride(factors, i + 1), Offset(factors, i + 1, c))
    ensures Placed(after, factors, stages, n, k)
  {
    hide Offset;
    OffsetModStride(factors, stages, n, i + 1, k);
    StrideTimesLen(factors, stages, n, i + 1);
    DivBound(k, BlockLen(factors, n, i + 1), Stride(factors, i + 1));
    if Offset(factors, i + 1, k / BlockLen(factors, n, i + 1)) == Offset(factors, i + 1, c) {
      OffsetInjective(factors, stages, n, i + 1, k / BlockLen(factors, n, i + 1), c);
    }
  }

  /** A leaf of the recursion writes the single entry of its block. */
  lemma LeafWritten(factors: seq<int>, stages: nat, n: nat, c: nat, before: seq<int>, after: seq<int>)
    requires IsPlan(factors, stages, n) && |before| == n && c < n && Stride(factors, stages) == n
    requires 0 <= Offset(factors, stages, c) < n
    requires after == before[Offset(factors, stages, c) := c]
    ensures BlockPlaced(after, factors, stages, n, stages, c)
    ensures OthersKept(before, after, n, Offset(factors, stages, c))
  {
    hide Offset, IsPlan, Stride;
    forall k | 0 <= k < n && InBlock(factors, n, stages, c, k) ensures Placed(after, factors, stages, n, k) {
      LeafLength(factors, stages, n);
      DivUnique(k, 1, k, 0);
    }
    LeafKept(before, after, n, Offset(factors, stages, c), c);
  }

  lemma LeafLength(factors: seq<int>, stages: nat, n: nat)
    requires IsPlan(factors, stages, n)
    ensures BlockLen(factors, n, stages) == 1
  {
  }

  lemma LeafKept(before: seq<int>, after: seq<int>, n: nat, o: int, c: int)
    requires |before| == n && 0 <= o < n && after == before[o := c]
    ensures OthersKept(before, after, n, o)
  {
    forall t | 0 <= t < n && t % n != o ensures after[t] == before[t] {
      DivUnique(t, n, 0, t);
    }
  }

  /** The children of a block cover it. */
  lemma ChildrenCover(table: seq<int>, factors: seq<int>, stages: nat, n: nat, i: nat, b: nat)
    requires IsPlan(factors, stages, n) && i < stages
    requires ChildrenPlaced(table, factors, stages, n, i, b, Radix(factors, i))
    ensures BlockPlaced(table, factors, stages, n, i, b)
  {
    hide Offset, Placed;
    assert StageOk(factors, i, n);
    var p, m := Radix(factors, i), SubLen(factors, i);
    forall k | 0 <= k < n && InBlock(factors, n, i, b, k) ensures InChildren(factors, n, i, b, p, k) {
      DivOfDiv(k, m, p);
      MulCommInt(m, p);
      DivSplit(k / m, p);
    }
  }

  /** Fills the entries of block b of stage i; f is the index of the block's first input. */
  method ComputeBitrevTable(Fout: nat, bitrev: array<int>, f: nat, fstride: nat, factors: seq<int>, i: nat,
                            ghost stages: nat, ghost b: nat)
    requires IsPlan(factors, stages, bitrev.Length) && i < stages
    requires b < Stride(factors, i) && fstride == Stride(factors, i)
    requires f == Offset(factors, i, b) && Fout == b * BlockLen(factors, bitrev.Length, i)
    modifies bitrev
    ensures BlockPlaced(bitrev[..], factors, stages, bitrev.Length, i, b)
    ensures OthersKept(old(bitrev[..]), bitrev[..], fstride, f)
    decreases stages - i
  {
    hide Offset, BlockPlaced, ChildrenPlaced, OthersKept, StageOk;
    ghost var n := bitrev.Length;
    StageShape(factors, stages, n, i);
    assert StageOk(factors, i, n);
    StrideTimesLen(factors, stages, n, i);
    var p := factors[2 * i];
    var m := factors[2 * i + 1];
    var at, out := f, Fout;
    ghost var was := bitrev[..];
    var j := 0;
    NoChildren(was, factors, stages, n, i, b);
    NothingChanged(was, fstride, f);
    while j < p
      invariant 0 <= j <= p
      invariant at == f + fstride * j && out == Fout + j * m
      invariant ChildrenPlaced(bitrev[..], factors, stages, n, i, b, j)
      invariant OthersKept(was, bitrev[..], fstride, f)
    {
      ghost var c := b * p + j;
      ChildBlock(factors, stages, n, i, b, j);
      ghost var before := bitrev[..];
      if m == 1 {
        LastStage(factors, stages, n, i);
        StrideTimesLen(factors, stages, n, i + 1);
        bitrev[at] := out;
        LeafWritten(factors, stages, n, c, before, bitrev[..]);
      } else {
        ComputeBitrevTable(out, bitrev, at, fstride * p, factors, i + 1, stages, c);
      }
      ChildWritten(factors, stages, n, i, b, j, was, before, bitrev[..]);
      DistributeLeft(fstride, j, 1);
      DistributeRight(j, 1, m);
      at, out := at + fstride, out + m;
      j := j + 1;
    }
    ChildrenCover(bitrev[..], factors, stages, n, i, b);
  }

  lemma NothingChanged(was: seq<int>, stride: int, f: int)
    requires stride >= 1
    ensures OthersKept(was, was, stride, f)
  {
  }

  lemma NoChildren(table: seq<int>, factors: seq<int>, stages: nat, n: nat, i: nat, b: nat)
    ensures ChildrenPlaced(table, factors, stages, n, i, b, 0)
  {
    hide Offset;
  }

  // ----- the stage walk -----

  /** A planned transform: factor table, digit reversal, twiddles, scale and the radix-2 constant. */
  datatype FftState = FftState(nfft: nat, scale: real, factors: seq<int>, bitrev: seq<int>,
                               twiddles: seq<Complex>, sqrtHalf: real)

  /** The state holds a plan, its digit reversal, and tables exact for root w. */
  ghost predicate Planned(st: FftState, stages: nat, w: Complex) {
    && IsPlan(st.factors, stages, st.nfft)
    && IsReversal(st.bitrev, st.factors, stages, st.nfft)
    && ExactRoot(w, st.nfft, st.sqrtHalf)
    && ExactTable(st.twiddles, w, st.nfft)
    && st.scale * st.nfft as real == 1.0
  }

  /** Such a state whose stages fit the stride buffer of the walk. */
  ghost predicate Prepared(st: FftState, stages: nat, w: Complex) {
    Planned(st, stages, w) && stages < MAXFACTORS
  }

  lemma PreparedIsPlanned(st: FftState, stages: nat, w: Complex)
    requires Prepared(st, stages, w)
    ensures Planned(st, stages, w) && stages < MAXFACTORS
  {
  }

  lemma PlannedFacts(st: FftState, stages: nat, w: Complex)
    requires Planned(st, stages, w)
    ensures st.nfft >= 1 && MAXFACTORS == 8 && 1 <= stages && 2 * stages <= |st.factors|
    ensures IsPlan(st.factors, stages, st.nfft) && SubLen(st.factors, stages - 1) == 1
    ensures Pow(w, st.nfft) == ONE && ExactRoot(w, st.nfft, st.sqrtHalf) && ExactTable(st.twiddles, w, st.nfft)
    ensures |st.bitrev| == st.nfft
  {
  }

  /** Sub-lengths before the last stage are longer than one, so the walk stops exactly at the last stage. */
  lemma StopsAtLast(factors: seq<int>, stages: nat, n: nat, i: nat)
    requires IsPlan(factors, stages, n) && i < stages
    ensures SubLen(factors, i) == 1 <==> i + 1 == stages
  {
    if SubLen(factors, i) == 1 {
      LastStage(factors, stages, n, i);
    }
  }

  /** A finished stage moves the level down by one. */
  lemma LevelDown(a: seq<Complex>, b: seq<Complex>, x: seq<Complex>, w: Complex,
                  factors: seq<int>, stages: nat, n: nat, i: nat)
    requires IsPlan(factors, stages, n) && i < stages && Pow(w, n) == ONE
    requires LevelDone(a, x, w, factors, n, i + 1)
    requires Radix(factors, i) >= 1 && SubLen(factors, i) >= 1
    requires StageDone(a, b, w, Radix(factors, i), SubLen(factors, i), Stride(factors, i))
    ensures LevelDone(b, x, w, factors, n, i)
  {
    hide StageAt, LevelAt, Pow;
    StageAdvances(a, b, x, w, factors, stages, n, i);
  }

  lemma TrivialLeg()
    ensures Freq(1, 1, 0) == 0 && Leg(1, 1, 0, 0) == 0
  {
  }

  /** A radix-1 stage (length one only) does nothing, and needs nothing done. */
  lemma TrivialStage(a: seq<Complex>, w: Complex, s: int)
    requires |a| == 1
    ensures StageDone(a, a, w, 1, 1, s)
  {
    hide Mul, Freq, Leg, Add, Twiddle;
    var f := (q: int) => Mul(Twiddle(w, s, q, Freq(1, 1, 0)), At(a, Leg(1, 1, 0, q)));
    TrivialLeg();
    StageIsSum(a, w, 1, 1, s, 0, f);
    assert Sum(1, f) == Add(Sum(0, f), f(0));
    AddComm4(f(0), ZERO, ZERO, ZERO);
    TurnZero(w, s, 0);
    MulOne(a[0]);
  }

  lemma StageShape(factors: seq<int>, stages: nat, n: nat, i: nat)
    requires IsPlan(factors, stages, n) && i < stages
    ensures var p, m, s := Radix(factors, i), SubLen(factors, i), Stride(factors, i);
      && (2 <= p <= 5 || (p == 1 && n == 1 && m == 1 && s == 1))
      && m >= 1 && s >= 1 && s * (p * m) == n
      && (i > 0 ==> BlockLen(factors, n, i) == p * m)
      && (i == 0 ==> s == 1)
      && (p == 2 ==> m == 1 || m == 4)
  {
    assert StageOk(factors, i, n);
    StrideTimesLen(factors, stages, n, i);
  }

  /** Highest entry of the stride buffer written by the walk over the factor table from stage L on. */
  function WalkTop(factors: seq<int>, L: nat): nat
    decreases |factors| - 2 * L
  {
    if 2 * L + 1 >= |factors| || factors[2 * L + 1] == 1 then L + 1 else WalkTop(factors, L + 1)
  }

  /** The walk writes one entry beyond the last stage's own, so its highest entry is the number of stages. */
  lemma {:induction false} WalkTopIsStages(factors: seq<int>, stages: nat, n: nat, L: nat)
    requires IsPlan(factors, stages, n) && L < stages
    ensures WalkTop(factors, L) == stages
    decreases stages - L
  {
    StopsAtLast(factors, stages, n, L);
    TableEntries(factors, stages, L);
    if L + 1 < stages {
      WalkTopIsStages(factors, stages, n, L + 1);
    }
  }

  /** For every plan, the walk stays inside its buffer of MAXFACTORS entries exactly when the plan has fewer
      than MAXFACTORS stages: a plan that fills the factor buffer is one stage too long for the walk. */
  lemma WalkFitsIff(factors: seq<int>, stages: nat, n: nat)
    requires IsPlan(factors, stages, n)
    ensures 0 <= WalkTop(factors, 0) < MAXFACTORS <==> stages < MAXFACTORS
  {
    WalkTopIsStages(factors, stages, n, 0);
  }

  /** The do-while loop that collects the strides. It stops short, with `inside` false, before the first write
      that would fall past the end of the buffer. */
  method WalkStrides(factors: seq<int>, fstride: array<int>, ghost stages: nat, ghost n: nat)
    returns (L: nat, inside: bool)
    requires IsPlan(factors, stages, n) && fstride.Length == MAXFACTORS
    modifies fstride
    ensures inside <==> WalkTop(factors, 0) < fstride.Length
    ensures inside <==> stages < MAXFACTORS
    ensures inside ==> L == stages && forall j :: 0 <= j <= stages ==> fstride[j] == Stride(factors, j)
  {
    hide *;
    PlanSize(factors, stages, n);
    WalkTopIsStages(factors, stages, n, 0);
    fstride[0] := 1;
    assert fstride[0] == Stride(factors, 0) by { StrideZero(factors); }
    L := 0;
    var m := 0;
    while L == 0 || m != 1
      invariant 0 <= L <= stages && L < fstride.Length
      invariant L > 0 ==> m == SubLen(factors, L - 1)
      invariant L > 0 && m == 1 ==> L == stages
      invariant forall j :: 0 <= j <= L ==> fstride[j] == Stride(factors, j)
      decreases stages - L
    {
      if L > 0 { StopsAtLast(factors, stages, n, L - 1); }
      TableEntries(factors, stages, L);
      StopsAtLast(factors, stages, n, L);
      var p := factors[2 * L];
      m := factors[2 * L + 1];
      if L + 1 >= fstride.Length {
        return L, false;
      }
      fstride[L + 1] := fstride[L] * p;
      StrideStep(factors, L);
      L := L + 1;
    }
    inside := true;
  }

  lemma PlanSize(factors: seq<int>, stages: nat, n: nat)
    requires IsPlan(factors, stages, n)
    ensures 1 <= stages && 2 * stages <= |factors| && MAXFACTORS == 8
  {
  }

  /** All stages over the permuted input. `inside` says that the walk fitted its stride buffer, which it does
      exactly for plans of fewer than MAXFACTORS stages; the transform is then complete. */
  method FftImpl(st: FftState, fout: array<Complex>, ghost stages: nat, ghost w: Complex, ghost x: seq<Complex>)
    returns (inside: bool)
    requires Planned(st, stages, w) && fout.Length == st.nfft
    requires LevelDone(fout[..], x, w, st.factors, st.nfft, stages)
    modifies fout
    ensures inside <==> stages < MAXFACTORS
    ensures inside ==> LevelDone(fout[..], x, w, st.factors, st.nfft, 0)
  {
    hide *;
    PlannedFacts(st, stages, w);
    var fstride := new int[MAXFACTORS];
    var L;
    L, inside := WalkStrides(st.factors, fstride, stages, st.nfft);
    if !inside { return; }
    var m := st.factors[2 * L - 1];
    TableEntries(st.factors, stages, L - 1);
    var i := L - 1;
    while i >= 0
      invariant -1 <= i < stages
      invariant i >= 0 ==> m == SubLen(st.factors, i)
      invariant forall j :: 0 <= j < stages ==> fstride[j] == Stride(st.factors, j)
      invariant fout.Length == st.nfft && LevelDone(fout[..], x, w, st.factors, st.nfft, i + 1)
    {
      TableEntries(st.factors, stages, i);
      StageShape(st.factors, stages, st.nfft, i);
      var m2 := 1;
      if i != 0 {
        TableEntries(st.factors, stages, i - 1);
        BlockLenStep(st.factors, st.nfft, i);
        m2 := st.factors[2 * i - 1];
      }
      ghost var before := fout[..];
      match st.factors[2 * i] {
        case 2 => Bfly2(fout, m, fstride[i], st.sqrtHalf, w);
        case 4 => Bfly4(fout, fstride[i], st.twiddles, m, fstride[i], m2, st.sqrtHalf, w);
        case 3 => Bfly3(fout, fstride[i], st.twiddles, m, fstride[i], m2, st.sqrtHalf, w);
        case 5 => Bfly5(fout, fstride[i], st.twiddles, m, fstride[i], m2, st.sqrtHalf, w);
        case _ => TrivialStage(fout[..], w, fstride[i]);
      }
      LevelDown(before, fout[..], x, w, st.factors, stages, st.nfft, i);
      m := m2;
      i := i - 1;
    }
  }

  lemma StrideZero(factors: seq<int>)
    ensures Stride(factors, 0) == 1
  {
  }

  lemma StrideStep(factors: seq<int>, i: nat)
    ensures Stride(factors, i + 1) == Stride(factors, i) * Radix(factors, i)
  {
  }

  lemma BlockLenStep(factors: seq<int>, n: nat, i: nat)
    requires i > 0
    ensures BlockLen(factors, n, i) == SubLen(factors, i - 1)
  {
  }

  lemma TableEntries(factors: seq<int>, stages: nat, i: nat)
    requires i < stages && 2 * stages <= |factors|
    ensures Radix(factors, i) == factors[2 * i] && SubLen(factors, i) == factors[2 * i + 1]
  {
  }

  // ----- the scaled forward transform -----

  /** The permuted input is the state before the first stage. */
  lemma CopyIsTopLevel(a: seq<Complex>, x: seq<Complex>, w: Complex, factors: seq<int>, stages: nat, n: nat)
    requires IsPlan(factors, stages, n) && |a| == n && |x| == n
    requires forall k :: 0 <= k < n ==> a[k] == At(x, Offset(factors, stages, k))
    ensures LevelDone(a, x, w, factors, n, stages)
  {
    hide Offset, Mul, At, Stride;
    forall k | 0 <= k < n ensures a[k] == LevelAt(x, w, factors, n, stages, k) {
      DivUnique(k, 1, k, 0);
      PointTransform(x, w, Offset(factors, stages, k), Stride(factors, stages));
    }
  }

  lemma PointTransform(x: seq<Complex>, w: Complex, o: int, s: int)
    ensures BlockDft(x, w, o, s, 1, 0) == At(x, o)
  {
    hide Mul, At;
    var f := (t: int) => Mul(Tap(x, o, s, t), Twiddle(w, s, t, 0));
    assert Sum(1, f) == Add(Sum(0, f), f(0));
    AddComm4(f(0), ZERO, ZERO, ZERO);
    TurnZero(w, s, 0);
    assert s * 0 == 0;
    MulOne(At(x, o));
  }

  /** Level zero is the transform itself. */
  lemma LevelZero(a: seq<Complex>, x: seq<Complex>, w: Complex, factors: seq<int>, n: nat)
    requires LevelDone(a, x, w, factors, n, 0) && n >= 1 && |x| == n
    ensures forall k :: 0 <= k < n ==> a[k] == DftAt(x, w, k)
  {
    hide Mul, At, Pow;
    forall k | 0 <= k < n ensures a[k] == DftAt(x, w, k) {
      DivUnique(k, n, 0, k);
      assert a[k] == LevelAt(x, w, factors, n, 0, k);
      SumCong(n, t => Mul(Tap(x, 0, 1, t), Twiddle(w, 1, t, k)), j => Mul(At(x, j), Pow(w, j * k)));
    }
  }

  function Scaled(c: real, x: seq<Complex>): (y: seq<Complex>)
    ensures |y| == |x| && forall i :: 0 <= i < |x| ==> y[i] == Scale(c, x[i])
  {
    seq(|x|, i requires 0 <= i < |x| => Scale(c, x[i]))
  }

  lemma ScaleMul(c: real, a: Complex)
    ensures Scale(c, a) == Mul(Complex(c, 0.0), a)
  {
  }

  /** Scaling the input scales every output. */
  lemma DftScaled(c: real, x: seq<Complex>, w: Complex, k: int)
    ensures DftAt(Scaled(c, x), w, k) == Scale(c, DftAt(x, w, k))
  {
    hide Mul, Pow, Scale;
    var cc := Complex(c, 0.0);
    var f := (j: int) => Mul(At(x, j), Pow(w, j * k));
    var g := (j: int) => Mul(At(Scaled(c, x), j), Pow(w, j * k));
    forall j | 0 <= j < |x| ensures g(j) == Mul(cc, f(j)) {
      ScaleMul(c, x[j]);
      MulAssoc(cc, x[j], Pow(w, j * k));
    }
    SumMul(|x|, cc, f, g);
    ScaleMul(c, DftAt(x, w, k));
  }

  /** The scaled forward transform, complete exactly when the plan's stages fit the walk's stride buffer. */
  method RnnFft(st: FftState, fin: array<Complex>, fout: array<Complex>, ghost stages: nat, ghost w: Complex)
    returns (inside: bool)
    requires Planned(st, stages, w)
    requires fin.Length == st.nfft && fout.Length == st.nfft && fin != fout
    modifies fout
    ensures inside <==> stages < MAXFACTORS
    ensures inside ==> forall k :: 0 <= k < st.nfft ==> fout[k] == Scale(st.scale, DftAt(fin[..], w, k))
  {
    hide *;
    PlannedFacts(st, stages, w);
    ghost var x := Scaled(st.scale, fin[..]);
    var i := 0;
    while i < st.nfft
      invariant 0 <= i <= st.nfft
      invariant forall j :: 0 <= j < i ==> 0 <= st.bitrev[j] < st.nfft && fout[st.bitrev[j]] == x[j]
    {
      EntryInverse(st, stages, w, i);
      forall j | 0 <= j < i ensures st.bitrev[j] != st.bitrev[i] {
        EntryInverse(st, stages, w, j);
      }
      var v := fin[i];
      fout[st.bitrev[i]] := Scale(st.scale, v);
      i := i + 1;
    }
    PermutedIsTop(st, stages, w, fout[..], x);
    inside := FftImpl(st, fout, stages, w, x);
    if !inside { return; }
    LevelZero(fout[..], x, w, st.factors, st.nfft);
    forall k | 0 <= k < st.nfft ensures fout[k] == Scale(st.scale, DftAt(fin[..], w, k)) {
      DftScaled(st.scale, fin[..], w, k);
    }
  }

  lemma EntryInverse(st: FftState, stages: nat, w: Complex, i: nat)
    requires Planned(st, stages, w) && i < st.nfft
    ensures |st.bitrev| == st.nfft && 0 <= st.bitrev[i] < st.nfft
    ensures Offset(st.factors, stages, st.bitrev[i]) == i
  {
    ReversalOnto(st.bitrev, st.factors, stages, st.nfft, i);
  }

  lemma PermutedIsTop(st: FftState, stages: nat, w: Complex, a: seq<Complex>, x: seq<Complex>)
    requires Planned(st, stages, w) && |a| == st.nfft && |x| == st.nfft
    requires forall j :: 0 <= j < st.nfft ==> 0 <= st.bitrev[j] < st.nfft && a[st.bitrev[j]] == x[j]
    ensures LevelDone(a, x, w, st.factors, st.nfft, stages)
  {
    hide ExactRoot, ExactTable, LevelDone, Offset;
    forall k | 0 <= k < st.nfft ensures a[k] == At(x, Offset(st.factors, stages, k)) {
      assert Placed(st.bitrev, st.factors, stages, st.nfft, k);
    }
    CopyIsTopLevel(a, x, w, st.factors, stages, st.nfft);
  }
}
