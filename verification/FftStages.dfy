/** Whole stages: the radix butterflies swept over every block in place. */
module FftStages {
  import opened ComplexNumbers
  import opened Integers
  import opened FftPlan
  import opened Dft
  import opened Butterfly
  import opened Roots
  import opened KissFft

  /** The result every stage must leave: the decimation step at every position. */
  ghost predicate StageDone(before: seq<Complex>, after: seq<Complex>, w: Complex, p: nat, m: nat, s: int)
    requires p >= 1 && m >= 1
  {
    && |after| == |before|
    && forall k :: 0 <= k < |before| ==> after[k] == StageAt(before, w, p, m, s, k)
  }

  /** Twiddle indices of residue u stay inside the table and select the leg's turn. */
  lemma TwiddleLookup(tw: seq<Complex>, w: Complex, p: nat, m: nat, s: nat, n: nat, u: nat, q: nat)
    requires ExactTable(tw, w, n) && s * (p * m) == n && s >= 1
    requires 1 <= q < p && u < m
    ensures 0 <= q * (u * s) < n && tw[q * (u * s)] == Twiddle(w, s, q, u)
  {
    assert q * (u * s) == s * q * u by {
      MulAssocInt(s, q, u);
      MulCommInt(u, s);
      MulSwapInt(q, s, u);
    }
    assert 0 <= q * u < p * m by {
      ProductBelow(q, u, p, m);
    }
    MulAssocInt(s, q, u);
    assert s * (q * u) < s * (p * m) by {
      DistributeLeft(s, q * u, p * m - q * u);
      MulPositive(s, p * m - q * u);
    }
    assert s * (q * u) >= 0;
  }

  lemma MulSwapInt(a: int, b: int, c: int)
    ensures a * (b * c) == b * (a * c)
  {
  }

  lemma ProductBelow(q: nat, u: nat, p: nat, m: nat)
    requires q < p && u < m
    ensures 0 <= q * u < p * m
  {
    DistributeLeft(q, u, m - u);
    DistributeRight(q, p - q, m);
    MulPositive(p - q, m);
  }

  /** p-th roots: the table entry the radix-3 and radix-5 butterflies read. */
  lemma RootLookup(tw: seq<Complex>, w: Complex, p: nat, m: nat, s: nat, n: nat, k: nat)
    requires ExactTable(tw, w, n) && s * (p * m) == n && n >= 1 && k < p
    ensures 0 <= k * (s * m) < n && tw[k * (s * m)] == Pow(Pow(w, s * m), k)
  {
    hide Pow;
    assert s * m >= 0;
    MulAssocInt(s, m, p);
    MulCommInt(p, m);
    assert s * m >= 1;
    DistributeLeft(s * m, k, p - k);
    MulPositive(s * m, p - k);
    MulCommInt(k, s * m);
    PowMul(w, s * m, k);
  }

  lemma SlotSteps(p: int, m: int, b: int, u: int, q: int)
    ensures Slot(p, m, b, u, q) == Slot(p, m, b, u, 0) + q * m
  {
    assert 0 * m == 0;
  }

  // ----- radix 2 -----

  lemma Done2(cur: seq<Complex>, next: seq<Complex>, m: nat, b: nat, u: nat, z: Complex, legs: int -> Complex)
    requires m >= 1 && z == MINUS_ONE
    requires 0 <= Slot(2, m, b, u, 0) && Slot(2, m, b, u, 0) + m < |cur|
    requires var at := Slot(2, m, b, u, 0);
      next == cur[at := Add(legs(0), legs(1))][at + m := Sub(legs(0), legs(1))]
    ensures ButterflyDone(cur, next, 2, m, b, u, z, legs)
  {
    hide Slot, Combine, Add, Sub;
    SlotSteps(2, m, b, u, 1);
    Combine2(z, legs);
  }

  lemma LegZero(a: seq<Complex>, w: Complex, p: int, m: int, s: int, b: int, u: int)
    ensures TurnedLeg(a, w, p, m, s, b, u, 0) == At(a, Slot(p, m, b, u, 0))
  {
    hide Mul;
    assert s * 0 * u == 0;
    MulOne(At(a, Slot(p, m, b, u, 0)));
  }

  /** One radix-2 butterfly with the turned leg already computed. */
  lemma Step2(a: seq<Complex>, cur: seq<Complex>, next: seq<Complex>, w: Complex, m: nat, s: nat, b: nat, u: nat,
              t: Complex)
    requires m >= 1 && u < m && b < s && s * (2 * m) == |a| && s * m >= 0
    requires Pow(w, s * m) == MINUS_ONE
    requires Partial(cur, a, w, 2, m, s, b, u)
    requires t == TurnedLeg(a, w, 2, m, s, b, u, 1)
    requires var at := Slot(2, m, b, u, 0);
      && 0 <= at && at + m < |cur|
      && next == cur[at := Add(cur[at], t)][at + m := Sub(cur[at], t)]
    ensures Partial(next, a, w, 2, m, s, b, u + 1)
  {
    hide Slot, TurnedLeg, Partial, Add, Sub, Pow, At;
    var legs := (q: int) => TurnedLeg(a, w, 2, m, s, b, u, q);
    LegsPending(a, cur, w, 2, m, s, b, u, 0);
    LegZero(a, w, 2, m, s, b, u);
    Done2(cur, next, m, b, u, Pow(w, s * m), legs);
    PartialStep(a, cur, next, w, 2, m, s, b, u, legs);
  }

  /** Turns of the radix-2 stage over length-4 blocks: powers of the eighth root. */
  lemma EighthTurns(w: Complex, n: nat, c: real, s: nat, u: nat)
    requires ExactRoot(w, n, c) && s * 8 == n && u < 4
    ensures Twiddle(w, s, 1, 0) == ONE
    ensures Twiddle(w, s, 1, 1) == Complex(c, -c)
    ensures Twiddle(w, s, 1, 2) == MINUS_I
    ensures Twiddle(w, s, 1, 3) == Complex(-c, -c)
  {
    hide Pow, Mul;
    assert n / 8 == s && n / 4 == 2 * s;
    PowAdd(w, s, s);
    PowAdd(w, 2 * s, s);
    TurnEighth(c);
    Pow2(w);
  }

  lemma TurnEighth(c: real)
    ensures Mul(MINUS_I, Complex(c, -c)) == Complex(-c, -c)
  {
  }

  /** The hard-coded products of the radix-2 stage are the turned legs. */
  lemma EighthProducts(x: Complex, c: real)
    ensures Complex((x.re + x.im) * c, (x.im - x.re) * c) == Mul(Complex(c, -c), x)
    ensures Complex(x.im, -x.re) == Mul(MINUS_I, x)
    ensures Complex((x.im - x.re) * c, (-(x.im + x.re)) * c) == Mul(Complex(-c, -c), x)
    ensures x == Mul(ONE, x)
  {
  }

  method Bfly2(fout: array<Complex>, m: nat, N: nat, c: real, ghost w: Complex)
    requires m == 1 || m == 4
    requires N * (2 * m) == fout.Length && fout.Length >= 1
    requires ExactRoot(w, fout.Length, c)
    modifies fout
    ensures StageDone(old(fout[..]), fout[..], w, 2, m, N)
  {
    hide *;
    ghost var a := fout[..];
    RadixTwoRoot(w, fout.Length, c, m, N);
    PartialStart(a, w, 2, m, N);
    var base := 0;
    var i := 0;
    while i < N
      invariant 0 <= i <= N && base == i * (2 * m)
      invariant Partial(fout[..], a, w, 2, m, N, i, 0)
      invariant |a| == fout.Length
    {
      BlockInside(2, m, N, i, fout.Length);
      if m == 1 {
        Bfly2Residue(fout, a, base, m, N, c, w, i, 0);
        PartialNextBlock(a, fout[..], w, 2, m, N, i);
        base := base + 2;
      } else {
        Bfly2Residue(fout, a, base, m, N, c, w, i, 0);
        Bfly2Residue(fout, a, base, m, N, c, w, i, 1);
        Bfly2Residue(fout, a, base, m, N, c, w, i, 2);
        Bfly2Residue(fout, a, base, m, N, c, w, i, 3);
        PartialNextBlock(a, fout[..], w, 2, m, N, i);
        base := base + 8;
      }
      DistributeRight(i, 1, 2 * m);
      i := i + 1;
    }
    PartialEnd(a, fout[..], w, 2, m, N);
    StageDoneFrom(a, fout[..], w, 2, m, N);
  }

  lemma StageDoneFrom(a: seq<Complex>, b: seq<Complex>, w: Complex, p: nat, m: nat, s: int)
    requires p >= 1 && m >= 1
    requires |b| == |a| && forall k :: 0 <= k < |a| ==> b[k] == StageAt(a, w, p, m, s, k)
    ensures StageDone(a, b, w, p, m, s)
  {
  }

  lemma RadixTwoRoot(w: Complex, n: nat, c: real, m: nat, N: nat)
    requires ExactRoot(w, n, c) && N * (2 * m) == n
    ensures N * m >= 0 && Pow(w, N * m) == MINUS_ONE
  {
    hide Pow;
    assert (N * m) * 2 == n;
    HalfRoot(w, n, c, N * m);
  }

  lemma BlockInside(p: nat, m: nat, s: nat, b: nat, n: nat)
    requires p >= 1 && m >= 1 && b < s && s * (p * m) == n
    ensures p * m >= 1 && 0 <= b * (p * m) && b * (p * m) + p * m <= n
  {
    MulPositive(p, m);
    SlotInside(p, m, s, b, m - 1, p - 1, n);
    DistributeRight(p - 1, 1, m);
  }

  /** Butterfly u of a radix-2 block; u selects the hard-coded turn. */
  method Bfly2Residue(fout: array<Complex>, ghost a: seq<Complex>, base: nat, m: nat, ghost N: nat, c: real,
                      ghost w: Complex, ghost b: nat, u: nat)
    requires (m == 1 && u == 0) || (m == 4 && u < 4)
    requires fout.Length == |a| == (if m == 1 then 2 * N else 8 * N)
    requires b < N && base == if m == 1 then 2 * b else 8 * b
    requires ExactRoot(w, |a|, c) && Pow(w, if m == 1 then N else 4 * N) == MINUS_ONE
    requires Partial(fout[..], a, w, 2, m, N, b, u)
    modifies fout
    ensures Partial(fout[..], a, w, 2, m, N, b, u + 1)
  {
    hide *;
    assert N * (2 * m) == |a| && base == b * (2 * m) && base + 2 * m <= |a|;
    assert N * m == if m == 1 then N else 4 * N;
    ghost var cur := fout[..];
    var at := base + u;
    assert at == Slot(2, m, b, u, 0) by { SlotAtStart(2, m, b, u); }
    SlotSteps(2, m, b, u, 1);
    LegsPending(a, cur, w, 2, m, N, b, u, 1);
    var x := fout[at + m];
    var t;
    if u == 0 {
      t := x;
    } else if u == 1 {
      t := Complex((x.re + x.im) * c, (x.im - x.re) * c);
    } else if u == 2 {
      t := Complex(x.im, -x.re);
    } else {
      t := Complex((x.im - x.re) * c, (-(x.im + x.re)) * c);
    }
    assert t == TurnedLeg(a, w, 2, m, N, b, u, 1) by { TurnTwo(a, w, m, N, b, u, c, x); }
    Bfly2At(fout, at, m, t);
    Step2(a, cur, fout[..], w, m, N, b, u, t);
  }

  lemma SlotAtStart(p: int, m: int, b: int, u: int)
    ensures Slot(p, m, b, u, 0) == b * (p * m) + u
  {
    assert 0 * m == 0;
  }

  lemma TurnTwo(a: seq<Complex>, w: Complex, m: nat, s: nat, b: nat, u: nat, c: real, x: Complex)
    requires (m == 1 && u == 0) || (m == 4 && u < 4)
    requires ExactRoot(w, |a|, c) && s * (2 * m) == |a|
    requires x == At(a, Slot(2, m, b, u, 1))
    ensures TurnedLeg(a, w, 2, m, s, b, u, 1) ==
      if u == 0 then x
      else if u == 1 then Complex((x.re + x.im) * c, (x.im - x.re) * c)
      else if u == 2 then Complex(x.im, -x.re)
      else Complex((x.im - x.re) * c, (-(x.im + x.re)) * c)
  {
    hide Mul, Pow, At, Twiddle;
    EighthProducts(x, c);
    if m == 4 {
      EighthTurns(w, |a|, c, s, u);
    } else {
      TurnZero(w, s, 1);
    }
  }

  lemma TurnZero(w: Complex, s: int, q: int)
    ensures Twiddle(w, s, q, 0) == ONE
  {
    assert s * q * 0 == 0;
  }

  // ----- radix 3 -----

  lemma Step3(a: seq<Complex>, cur: seq<Complex>, next: seq<Complex>, w: Complex, m: nat, s: nat, b: nat, u: nat,
              z: Complex, l1: Complex, l2: Complex)
    requires m >= 1 && u < m && b < s && s * (3 * m) == |a| && s * m >= 0
    requires z == Pow(w, s * m) && Mul(z, z) == Conj(z) && Unit(z)
    requires Partial(cur, a, w, 3, m, s, b, u)
    requires l1 == TurnedLeg(a, w, 3, m, s, b, u, 1) && l2 == TurnedLeg(a, w, 3, m, s, b, u, 2)
    requires var at := Slot(3, m, b, u, 0);
      && 0 <= at && at + 2 * m < |cur|
      && next == Radix3Update(cur, at, m, cur[at], l1, l2, z)
    ensures Partial(next, a, w, 3, m, s, b, u + 1)
  {
    hide Slot, TurnedLeg, Partial, Add, Mul, Conj, Pow, At, Combine;
    var legs := (q: int) => TurnedLeg(a, w, 3, m, s, b, u, q);
    LegsPending(a, cur, w, 3, m, s, b, u, 0);
    LegZero(a, w, 3, m, s, b, u);
    Combine3(z, legs);
    SlotSteps(3, m, b, u, 1);
    SlotSteps(3, m, b, u, 2);
    assert ButterflyDone(cur, next, 3, m, b, u, z, legs);
    PartialStep(a, cur, next, w, 3, m, s, b, u, legs);
  }

  lemma TurnedFromTable(a: seq<Complex>, tw: seq<Complex>, w: Complex, p: nat, m: nat, s: nat, b: nat, u: nat, q: nat,
                        x: Complex)
    requires ExactTable(tw, w, |a|) && s * (p * m) == |a| && s >= 1
    requires 1 <= q < p && u < m
    requires x == At(a, Slot(p, m, b, u, q))
    ensures 0 <= q * (u * s) < |tw| && Mul(x, tw[q * (u * s)]) == TurnedLeg(a, w, p, m, s, b, u, q)
  {
    hide Mul, At, Twiddle;
    TwiddleLookup(tw, w, p, m, s, |a|, u, q);
    MulComm(x, Twiddle(w, s, q, u));
  }

  lemma CubeRootEntry(tw: seq<Complex>, w: Complex, n: nat, c: real, m: nat, s: nat)
    requires ExactRoot(w, n, c) && ExactTable(tw, w, n) && s * (3 * m) == n
    ensures 0 <= s * m < n && tw[s * m] == Pow(w, s * m)
    ensures var z := Pow(w, s * m); Mul(z, z) == Conj(z) && Unit(z) && z.re == -0.5
  {
    hide *;
    ThirdIndices(s, m);
    RootLength(w, n, c);
    RootLookup(tw, w, 3, m, s, n, 1);
    Pow2(Pow(w, s * m));
    PthRoot(w, n, c, 3, s * m);
    PowStep(Pow(w, s * m), 3);
    CubeRoot(Pow(w, s * m));
  }

  lemma ThirdIndices(s: nat, m: nat)
    ensures s * m >= 0 && 1 * (s * m) == s * m && (s * m) * 3 == s * (3 * m)
  {
  }

  method Bfly3(fout: array<Complex>, fstride: nat, tw: seq<Complex>, m: nat, N: nat, mm: nat,
               ghost c: real, ghost w: Complex)
    requires m >= 1 && N == fstride && (N == 1 || mm == 3 * m)
    requires N * (3 * m) == fout.Length && fout.Length >= 1
    requires ExactRoot(w, fout.Length, c) && ExactTable(tw, w, fout.Length)
    modifies fout
    ensures StageDone(old(fout[..]), fout[..], w, 3, m, N)
  {
    hide *;
    ghost var a := fout[..];
    CubeRootEntry(tw, w, fout.Length, c, m, N);
    TableSize(tw, w, fout.Length);
    var epi3 := tw[fstride * m];
    PartialStart(a, w, 3, m, N);
    var i := 0;
    while i < N
      invariant 0 <= i <= N
      invariant fout.Length == |a| && Partial(fout[..], a, w, 3, m, N, i, 0)
    {
      BlockInside(3, m, N, i, fout.Length);
      var beg := i * mm;
      assert beg == i * (3 * m) by { if N == 1 { assert i == 0; } }
      Bfly3Block(fout, a, beg, fstride, tw, m, epi3, i, w);
      PartialNextBlock(a, fout[..], w, 3, m, N, i);
      i := i + 1;
    }
    PartialEnd(a, fout[..], w, 3, m, N);
    StageDoneFrom(a, fout[..], w, 3, m, N);
  }

  /** All residues of one radix-3 block. */
  method Bfly3Block(fout: array<Complex>, ghost a: seq<Complex>, beg: nat, fstride: nat, tw: seq<Complex>, m: nat,
                    epi3: Complex, ghost b: nat, ghost w: Complex)
    requires m >= 1 && b < fstride && fout.Length == |a| && fstride * (3 * m) == |a|
    requires beg == b * (3 * m) && beg + 3 * m <= |a|
    requires ExactTable(tw, w, |a|) && fstride * m >= 0 && epi3 == Pow(w, fstride * m)
    requires Mul(epi3, epi3) == Conj(epi3) && Unit(epi3) && epi3.re == -0.5
    requires Partial(fout[..], a, w, 3, m, fstride, b, 0)
    modifies fout
    ensures Partial(fout[..], a, w, 3, m, fstride, b, m)
  {
    hide *;
    TableSize(tw, w, |a|);
    var t1, t2 := 0, 0;
    var u := 0;
    while u < m
      invariant 0 <= u <= m && t1 == u * fstride && t2 == 2 * t1
      invariant fout.Length == |a| && Partial(fout[..], a, w, 3, m, fstride, b, u)
    {
      ghost var cur := fout[..];
      var at := beg + u;
      SlotAtStart(3, m, b, u);
      SlotSteps(3, m, b, u, 1);
      SlotSteps(3, m, b, u, 2);
      LegsPending(a, cur, w, 3, m, fstride, b, u, 1);
      LegsPending(a, cur, w, 3, m, fstride, b, u, 2);
      TurnedFromTable(a, tw, w, 3, m, fstride, b, u, 1, fout[at + m]);
      TurnedFromTable(a, tw, w, 3, m, fstride, b, u, 2, fout[at + 2 * m]);
      Bfly3At(fout, at, m, tw[t1], tw[t2], epi3);
      Step3(a, cur, fout[..], w, m, fstride, b, u, epi3,
        TurnedLeg(a, w, 3, m, fstride, b, u, 1), TurnedLeg(a, w, 3, m, fstride, b, u, 2));
      DistributeRight(u, 1, fstride);
      t1, t2 := t1 + fstride, t2 + 2 * fstride;
      u := u + 1;
    }
  }

  lemma TableSize(tw: seq<Complex>, w: Complex, n: nat)
    requires ExactTable(tw, w, n)
    ensures |tw| == n
  {
  }

  // ----- radix 4 -----

  lemma Step4(a: seq<Complex>, cur: seq<Complex>, next: seq<Complex>, w: Complex, m: nat, s: nat, b: nat, u: nat,
              l1: Complex, l2: Complex, l3: Complex)
    requires m >= 1 && u < m && b < s && s * (4 * m) == |a| && s * m >= 0
    requires Pow(w, s * m) == MINUS_I
    requires Partial(cur, a, w, 4, m, s, b, u)
    requires l1 == TurnedLeg(a, w, 4, m, s, b, u, 1) && l2 == TurnedLeg(a, w, 4, m, s, b, u, 2)
    requires l3 == TurnedLeg(a, w, 4, m, s, b, u, 3)
    requires var at := Slot(4, m, b, u, 0);
      && 0 <= at && at + 3 * m < |cur|
      && next == Radix4Update(cur, at, m, cur[at], l1, l2, l3)
    ensures Partial(next, a, w, 4, m, s, b, u + 1)
  {
    hide Slot, TurnedLeg, Partial, Add, Mul, Conj, Pow, At, Combine;
    var legs := (q: int) => TurnedLeg(a, w, 4, m, s, b, u, q);
    LegsPending(a, cur, w, 4, m, s, b, u, 0);
    LegZero(a, w, 4, m, s, b, u);
    Combine4(MINUS_I, legs);
    SlotSteps(4, m, b, u, 1);
    SlotSteps(4, m, b, u, 2);
    SlotSteps(4, m, b, u, 3);
    assert ButterflyDone(cur, next, 4, m, b, u, MINUS_I, legs);
    PartialStep(a, cur, next, w, 4, m, s, b, u, legs);
  }

  lemma QuarterRoot(w: Complex, n: nat, c: real, m: nat, s: nat)
    requires ExactRoot(w, n, c) && s * (4 * m) == n
    ensures s * m >= 0 && Pow(w, s * m) == MINUS_I
  {
    hide Pow;
    assert 4 * (s * m) == n;
    assert n % 4 == 0 && n / 4 == s * m;
  }

  /** In the degenerate stage every turn is one, so the legs are the inputs themselves. */
  lemma UnturnedLeg(a: seq<Complex>, w: Complex, p: int, s: int, b: int, q: int)
    ensures TurnedLeg(a, w, p, 1, s, b, 0, q) == At(a, Slot(p, 1, b, 0, q))
  {
    hide Mul, At;
    TurnZero(w, s, q);
    MulOne(At(a, Slot(p, 1, b, 0, q)));
  }

  method Bfly4(fout: array<Complex>, fstride: nat, tw: seq<Complex>, m: nat, N: nat, mm: nat,
               ghost c: real, ghost w: Complex)
    requires m >= 1 && N == fstride && (N == 1 || mm == 4 * m)
    requires N * (4 * m) == fout.Length && fout.Length >= 1
    requires ExactRoot(w, fout.Length, c) && ExactTable(tw, w, fout.Length)
    modifies fout
    ensures StageDone(old(fout[..]), fout[..], w, 4, m, N)
  {
    hide *;
    ghost var a := fout[..];
    QuarterRoot(w, fout.Length, c, m, N);
    TableSize(tw, w, fout.Length);
    PartialStart(a, w, 4, m, N);
    var i := 0;
    var pos := 0;
    while i < N
      invariant 0 <= i <= N && pos == i * (4 * m)
      invariant fout.Length == |a| && Partial(fout[..], a, w, 4, m, N, i, 0)
    {
      BlockInside(4, m, N, i, fout.Length);
      if m == 1 {
        ghost var cur := fout[..];
        SlotAtStart(4, m, i, 0);
        SlotSteps(4, m, i, 0, 1);
        SlotSteps(4, m, i, 0, 2);
        SlotSteps(4, m, i, 0, 3);
        LegsPending(a, cur, w, 4, m, N, i, 0, 1);
        LegsPending(a, cur, w, 4, m, N, i, 0, 2);
        LegsPending(a, cur, w, 4, m, N, i, 0, 3);
        UnturnedLeg(a, w, 4, N, i, 1);
        UnturnedLeg(a, w, 4, N, i, 2);
        UnturnedLeg(a, w, 4, N, i, 3);
        Bfly4Unit(fout, pos);
        Step4(a, cur, fout[..], w, m, N, i, 0, cur[pos + 1], cur[pos + 2], cur[pos + 3]);
      } else {
        var beg := i * mm;
        assert beg == i * (4 * m) by { if N == 1 { assert i == 0; } }
        Bfly4Block(fout, a, beg, fstride, tw, m, i, w);
      }
      PartialNextBlock(a, fout[..], w, 4, m, N, i);
      DistributeRight(i, 1, 4 * m);
      i, pos := i + 1, pos + 4 * m;
    }
    PartialEnd(a, fout[..], w, 4, m, N);
    StageDoneFrom(a, fout[..], w, 4, m, N);
  }

  /** All residues of one radix-4 block. */
  method Bfly4Block(fout: array<Complex>, ghost a: seq<Complex>, beg: nat, fstride: nat, tw: seq<Complex>, m: nat,
                    ghost b: nat, ghost w: Complex)
    requires m >= 1 && b < fstride && fout.Length == |a| && fstride * (4 * m) == |a|
    requires beg == b * (4 * m) && beg + 4 * m <= |a|
    requires ExactTable(tw, w, |a|) && fstride * m >= 0 && Pow(w, fstride * m) == MINUS_I
    requires Partial(fout[..], a, w, 4, m, fstride, b, 0)
    modifies fout
    ensures Partial(fout[..], a, w, 4, m, fstride, b, m)
  {
    hide *;
    TableSize(tw, w, |a|);
    var t1, t2, t3 := 0, 0, 0;
    var u := 0;
    while u < m
      invariant 0 <= u <= m && t1 == u * fstride && t2 == 2 * t1 && t3 == 3 * t1
      invariant fout.Length == |a| && Partial(fout[..], a, w, 4, m, fstride, b, u)
    {
      ghost var cur := fout[..];
      var at := beg + u;
      SlotAtStart(4, m, b, u);
      SlotSteps(4, m, b, u, 1);
      SlotSteps(4, m, b, u, 2);
      SlotSteps(4, m, b, u, 3);
      LegsPending(a, cur, w, 4, m, fstride, b, u, 1);
      LegsPending(a, cur, w, 4, m, fstride, b, u, 2);
      LegsPending(a, cur, w, 4, m, fstride, b, u, 3);
      TurnedFromTable(a, tw, w, 4, m, fstride, b, u, 1, fout[at + m]);
      TurnedFromTable(a, tw, w, 4, m, fstride, b, u, 2, fout[at + 2 * m]);
      TurnedFromTable(a, tw, w, 4, m, fstride, b, u, 3, fout[at + 3 * m]);
      Bfly4At(fout, at, m, tw[t1], tw[t2], tw[t3]);
      Step4(a, cur, fout[..], w, m, fstride, b, u, TurnedLeg(a, w, 4, m, fstride, b, u, 1),
        TurnedLeg(a, w, 4, m, fstride, b, u, 2), TurnedLeg(a, w, 4, m, fstride, b, u, 3));
      DistributeRight(u, 1, fstride);
      t1, t2, t3 := t1 + fstride, t2 + 2 * fstride, t3 + 3 * fstride;
      u := u + 1;
    }
  }

  // ----- radix 5 -----

  lemma Step5(a: seq<Complex>, cur: seq<Complex>, next: seq<Complex>, w: Complex, m: nat, s: nat, b: nat, u: nat,
              ya: Complex, yb: Complex, l1: Complex, l2: Complex, l3: Complex, l4: Complex)
    requires m >= 1 && u < m && b < s && s * (5 * m) == |a| && s * m >= 0
    requires ya == Pow(w, s * m) && Pow(ya, 5) == ONE && Unit(ya) && yb == Mul(ya, ya)
    requires Partial(cur, a, w, 5, m, s, b, u)
    requires l1 == TurnedLeg(a, w, 5, m, s, b, u, 1) && l2 == TurnedLeg(a, w, 5, m, s, b, u, 2)
    requires l3 == TurnedLeg(a, w, 5, m, s, b, u, 3) && l4 == TurnedLeg(a, w, 5, m, s, b, u, 4)
    requires var at := Slot(5, m, b, u, 0);
      && 0 <= at && at + 4 * m < |cur|
      && next == Radix5Update(cur, at, m, cur[at], l1, l2, l3, l4, ya, yb)
    ensures Partial(next, a, w, 5, m, s, b, u + 1)
  {
    hide Slot, TurnedLeg, Partial, Five, Mul, Conj, Pow, At, Combine;
    var legs := (q: int) => TurnedLeg(a, w, 5, m, s, b, u, q);
    LegsPending(a, cur, w, 5, m, s, b, u, 0);
    LegZero(a, w, 5, m, s, b, u);
    Combine5(ya, yb, legs);
    SlotSteps(5, m, b, u, 1);
    SlotSteps(5, m, b, u, 2);
    SlotSteps(5, m, b, u, 3);
    SlotSteps(5, m, b, u, 4);
    assert ButterflyDone(cur, next, 5, m, b, u, ya, legs);
    PartialStep(a, cur, next, w, 5, m, s, b, u, legs);
  }

  lemma FifthRootEntries(tw: seq<Complex>, w: Complex, n: nat, c: real, m: nat, s: nat)
    requires ExactRoot(w, n, c) && ExactTable(tw, w, n) && s * (5 * m) == n
    ensures 0 <= s * m < n && tw[s * m] == Pow(w, s * m)
    ensures 0 <= s * 2 * m < n && tw[s * 2 * m] == Mul(Pow(w, s * m), Pow(w, s * m))
    ensures Pow(Pow(w, s * m), 5) == ONE && Unit(Pow(w, s * m))
  {
    hide *;
    FifthIndices(s, m);
    RootLength(w, n, c);
    RootLookup(tw, w, 5, m, s, n, 1);
    RootLookup(tw, w, 5, m, s, n, 2);
    Pow2(Pow(w, s * m));
    PthRoot(w, n, c, 5, s * m);
  }

  lemma FifthIndices(s: nat, m: nat)
    ensures s * m >= 0 && 1 * (s * m) == s * m && s * 2 * m == 2 * (s * m) && (s * m) * 5 == s * (5 * m)
  {
  }

  lemma RootLength(w: Complex, n: nat, c: real)
    requires ExactRoot(w, n, c)
    ensures n >= 1
  {
  }

  method Bfly5(fout: array<Complex>, fstride: nat, tw: seq<Complex>, m: nat, N: nat, mm: nat,
               ghost c: real, ghost w: Complex)
    requires m >= 1 && N == fstride && (N == 1 || mm == 5 * m)
    requires N * (5 * m) == fout.Length && fout.Length >= 1
    requires ExactRoot(w, fout.Length, c) && ExactTable(tw, w, fout.Length)
    modifies fout
    ensures StageDone(old(fout[..]), fout[..], w, 5, m, N)
  {
    hide *;
    ghost var a := fout[..];
    FifthRootEntries(tw, w, fout.Length, c, m, N);
    TableSize(tw, w, fout.Length);
    var ya := tw[fstride * m];
    var yb := tw[fstride * 2 * m];
    PartialStart(a, w, 5, m, N);
    var i := 0;
    while i < N
      invariant 0 <= i <= N
      invariant fout.Length == |a| && Partial(fout[..], a, w, 5, m, N, i, 0)
    {
      BlockInside(5, m, N, i, fout.Length);
      var beg := i * mm;
      assert beg == i * (5 * m) by { if N == 1 { assert i == 0; } }
      Bfly5Block(fout, a, beg, fstride, tw, m, ya, yb, i, w);
      PartialNextBlock(a, fout[..], w, 5, m, N, i);
      i := i + 1;
    }
    PartialEnd(a, fout[..], w, 5, m, N);
    StageDoneFrom(a, fout[..], w, 5, m, N);
  }

  /** All residues of one radix-5 block. */
  method Bfly5Block(fout: array<Complex>, ghost a: seq<Complex>, beg: nat, fstride: nat, tw: seq<Complex>, m: nat,
                    ya: Complex, yb: Complex, ghost b: nat, ghost w: Complex)
    requires m >= 1 && b < fstride && fout.Length == |a| && fstride * (5 * m) == |a|
    requires beg == b * (5 * m) && beg + 5 * m <= |a|
    requires ExactTable(tw, w, |a|) && fstride * m >= 0 && ya == Pow(w, fstride * m)
    requires Pow(ya, 5) == ONE && Unit(ya) && yb == Mul(ya, ya)
    requires Partial(fout[..], a, w, 5, m, fstride, b, 0)
    modifies fout
    ensures Partial(fout[..], a, w, 5, m, fstride, b, m)
  {
    hide *;
    TableSize(tw, w, |a|);
    var u := 0;
    while u < m
      invariant 0 <= u <= m
      invariant fout.Length == |a| && Partial(fout[..], a, w, 5, m, fstride, b, u)
    {
      ghost var cur := fout[..];
      var at := beg + u;
      SlotAtStart(5, m, b, u);
      SlotSteps(5, m, b, u, 1);
      SlotSteps(5, m, b, u, 2);
      SlotSteps(5, m, b, u, 3);
      SlotSteps(5, m, b, u, 4);
      LegsPending(a, cur, w, 5, m, fstride, b, u, 1);
      LegsPending(a, cur, w, 5, m, fstride, b, u, 2);
      LegsPending(a, cur, w, 5, m, fstride, b, u, 3);
      LegsPending(a, cur, w, 5, m, fstride, b, u, 4);
      TurnedFromTable(a, tw, w, 5, m, fstride, b, u, 1, fout[at + m]);
      TurnedFromTable(a, tw, w, 5, m, fstride, b, u, 2, fout[at + 2 * m]);
      TurnedFromTable(a, tw, w, 5, m, fstride, b, u, 3, fout[at + 3 * m]);
      TurnedFromTable(a, tw, w, 5, m, fstride, b, u, 4, fout[at + 4 * m]);
      var t := u * fstride;
      Bfly5At(fout, at, m, tw[t], tw[2 * t], tw[3 * t], tw[4 * t], ya, yb);
      Step5(a, cur, fout[..], w, m, fstride, b, u, ya, yb,
        TurnedLeg(a, w, 5, m, fstride, b, u, 1), TurnedLeg(a, w, 5, m, fstride, b, u, 2),
        TurnedLeg(a, w, 5, m, fstride, b, u, 3), TurnedLeg(a, w, 5, m, fstride, b, u, 4));
      u := u + 1;
    }
  }
}
