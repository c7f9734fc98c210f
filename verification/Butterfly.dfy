/** What one butterfly must compute and where: exact roots, turned inputs, and sweeps done up to a point. */
module Butterfly {
  import opened ComplexNumbers
  import opened Integers
  import opened FftPlan
  import opened Dft

  const MINUS_I := Complex(0.0, -1.0)

  /** The twiddle table's root: an exact primitive n-th root of unity turning clockwise;
      c is the constant the radix-2 butterfly uses for cos(pi / 4). */
  ghost predicate ExactRoot(w: Complex, n: nat, c: real) {
    && n >= 1
    && Pow(w, n) == ONE
    && NormSq(w) == 1.0
    && (forall k :: 0 < k < n ==> Pow(w, k) != ONE)
    && (n % 4 == 0 ==> Pow(w, n / 4) == MINUS_I)
    && (n % 8 == 0 ==> Pow(w, n / 8) == Complex(c, -c))
  }

  ghost predicate ExactTable(tw: seq<Complex>, w: Complex, n: nat) {
    && |tw| == n
    && forall k :: 0 <= k < n ==> tw[k] == Pow(w, k)
  }

  // ----- what one butterfly must produce -----

  /** Leg q of the butterfly for residue u in block b, already turned by its twiddle. */
  function TurnedLeg(a: seq<Complex>, w: Complex, p: int, m: int, s: int, b: int, u: int, q: int): Complex {
    Mul(Twiddle(w, s, q, u), At(a, b * (p * m) + q * m + u))
  }

  /** Output j of a radix-p butterfly on the turned legs l0, l1, ..., with z the p-th root of unity. */
  function Combine(p: nat, z: Complex, j: int, legs: int -> Complex): Complex {
    Sum(p, q => Mul(Pow(z, q * j), legs(q)))
  }

  lemma OutputPosition(p: nat, m: nat, b: nat, j: nat, u: nat)
    requires p >= 1 && m >= 1 && j < p && u < m
    ensures p * m >= 1
    ensures b * (p * m) + j * m + u >= 0 && (j * m + u) % m == u
    ensures Freq(p, m, b * (p * m) + j * m + u) == j * m + u
    ensures forall q :: Leg(p, m, b * (p * m) + j * m + u, q) == b * (p * m) + q * m + u
  {
    MulPositive(p, m);
    assert 0 <= j * m + u < p * m by {
      DistributeRight(j + 1, p - (j + 1), m);
      DistributeRight(j, 1, m);
    }
    DivUnique(b * (p * m) + j * m + u, p * m, b, j * m + u);
    DivUnique(j * m + u, m, j, u);
  }

  lemma TwiddleSplit(w: Complex, s: nat, m: nat, q: nat, j: nat, u: nat)
    ensures s * m >= 0
    ensures Twiddle(w, s, q, j * m + u) == Mul(Pow(Pow(w, s * m), q * j), Twiddle(w, s, q, u))
  {
    hide Mul, Pow;
    assert s * q * (j * m + u) == (s * m) * (q * j) + s * q * u by {
      DistributeLeft(s * q, j * m, u);
      Rearrange(s, q, j, m);
    }
    NonNegative3(s, q, u);
    assert (s * m) * (q * j) >= 0;
    PowAdd(w, (s * m) * (q * j), s * q * u);
    PowMul(w, s * m, q * j);
  }

  lemma DistributeLeft(a: int, b: int, c: int)
    ensures a * (b + c) == a * b + a * c
  {
  }

  lemma Rearrange(s: int, q: int, j: int, m: int)
    ensures s * q * (j * m) == (s * m) * (q * j)
  {
  }

  /** The stage's value at output j of butterfly (b, u) is the radix-p combination of the turned legs. */
  lemma StageIsCombine(a: seq<Complex>, w: Complex, p: nat, m: nat, s: nat, b: nat, j: nat, u: nat,
                       legs: int -> Complex)
    requires p >= 1 && m >= 1 && j < p && u < m
    requires forall q :: 0 <= q < p ==> legs(q) == TurnedLeg(a, w, p, m, s, b, u, q)
    ensures s * m >= 0 && p * m >= 1
    ensures StageAt(a, w, p, m, s, b * (p * m) + j * m + u) == Combine(p, Pow(w, s * m), j, legs)
  {
    hide Mul, Pow, Twiddle, Leg, At, Add, Freq;
    OutputPosition(p, m, b, j, u);
    assert s * m >= 0;
    var k := b * (p * m) + j * m + u;
    var got := (q: int) => Mul(Twiddle(w, s, q, Freq(p, m, k)), At(a, Leg(p, m, k, q)));
    var want := (q: int) => Mul(Pow(Pow(w, s * m), q * j), legs(q));
    forall q | 0 <= q < p ensures got(q) == want(q) {
      TwiddleSplit(w, s, m, q, j, u);
      MulAssoc(Pow(Pow(w, s * m), q * j), Twiddle(w, s, q, u), At(a, b * (p * m) + q * m + u));
    }
    SumCong(p, got, want);
    StageIsSum(a, w, p, m, s, k, got);
  }

  // ----- a stage in progress -----

  /** Position k is finished when butterflies up to residue u of block b are done. */
  ghost predicate Finished(p: int, m: int, b: int, u: int, k: int)
    requires m >= 1
  {
    k < b * (p * m) || (k < b * (p * m) + p * m && (k - b * (p * m)) % m < u)
  }

  /** cur is the stage applied to the finished positions of a. */
  ghost predicate Partial(cur: seq<Complex>, a: seq<Complex>, w: Complex, p: nat, m: nat, s: int, b: int, u: int)
    requires p >= 1 && m >= 1
  {
    && |cur| == |a|
    && forall k :: 0 <= k < |a| ==>
      cur[k] == if Finished(p, m, b, u, k) then StageAt(a, w, p, m, s, k) else a[k]
  }

  /** next differs from cur only in the outputs of butterfly (b, u), which hold the combinations. */
  ghost predicate ButterflyDone(cur: seq<Complex>, next: seq<Complex>, p: nat, m: nat, b: nat, u: nat,
                                z: Complex, legs: int -> Complex)
  {
    && |next| == |cur|
    && (forall j :: 0 <= j < p ==>
         && 0 <= Slot(p, m, b, u, j) < |next|
         && next[Slot(p, m, b, u, j)] == Combine(p, z, j, legs))
    && (forall k :: 0 <= k < |cur| && (forall j :: 0 <= j < p ==> k != Slot(p, m, b, u, j)) ==> next[k] == cur[k])
  }

  function Slot(p: int, m: int, b: int, u: int, j: int): int {
    b * (p * m) + j * m + u
  }

  lemma SlotOf(p: nat, m: nat, b: nat, u: nat, k: int)
    requires p >= 1 && m >= 1 && p * m >= 1
    requires b * (p * m) <= k < b * (p * m) + p * m && (k - b * (p * m)) % m == u
    ensures exists j :: 0 <= j < p && k == Slot(p, m, b, u, j)
  {
    var d := k - b * (p * m);
    DivSplit(d, m);
    DivBound(d, m, p);
    assert k == Slot(p, m, b, u, d / m);
  }

  lemma SlotResidue(p: nat, m: nat, b: nat, u: nat, j: nat)
    requires p >= 1 && m >= 1 && j < p && u < m
    ensures p * m >= 1
    ensures b * (p * m) <= Slot(p, m, b, u, j) < b * (p * m) + p * m
    ensures (Slot(p, m, b, u, j) - b * (p * m)) % m == u
  {
    OutputPosition(p, m, b, j, u);
  }

  /** Every slot of a block is inside the array. */
  lemma SlotInside(p: nat, m: nat, s: nat, b: nat, u: nat, j: nat, n: nat)
    requires p >= 1 && m >= 1 && j < p && u < m && b < s && s * (p * m) == n
    ensures 0 <= Slot(p, m, b, u, j) < n
  {
    SlotResidue(p, m, b, u, j);
    DistributeRight(b + 1, s - (b + 1), p * m);
    DistributeRight(b, 1, p * m);
  }

  /** One butterfly moves the stage one residue forward. */
  lemma PartialStep(a: seq<Complex>, cur: seq<Complex>, next: seq<Complex>, w: Complex,
                    p: nat, m: nat, s: nat, b: nat, u: nat, legs: int -> Complex)
    requires p >= 1 && m >= 1 && u < m && p * m >= 1 && s * m >= 0
    requires Partial(cur, a, w, p, m, s, b, u)
    requires forall q :: 0 <= q < p ==> legs(q) == TurnedLeg(a, w, p, m, s, b, u, q)
    requires ButterflyDone(cur, next, p, m, b, u, Pow(w, s * m), legs)
    ensures Partial(next, a, w, p, m, s, b, u + 1)
  {
    hide StageAt, Combine, TurnedLeg, Pow, Slot;
    forall k | 0 <= k < |a|
      ensures next[k] == if Finished(p, m, b, u + 1, k) then StageAt(a, w, p, m, s, k) else a[k]
    {
      if j :| 0 <= j < p && k == Slot(p, m, b, u, j) {
        SlotResidue(p, m, b, u, j);
        StageIsCombine(a, w, p, m, s, b, j, u, legs);
        assert k == b * (p * m) + j * m + u by { SlotDef(p, m, b, u, j); }
      } else {
        assert next[k] == cur[k];
        if b * (p * m) <= k < b * (p * m) + p * m && (k - b * (p * m)) % m == u {
          SlotOf(p, m, b, u, k);
        }
      }
    }
  }

  lemma SlotDef(p: int, m: int, b: int, u: int, j: int)
    ensures Slot(p, m, b, u, j) == b * (p * m) + j * m + u
  {
  }

  /** The legs of a pending butterfly still hold the stage's input. */
  lemma LegsPending(a: seq<Complex>, cur: seq<Complex>, w: Complex, p: nat, m: nat, s: nat, b: nat, u: nat, q: nat)
    requires p >= 1 && m >= 1 && u < m && q < p && b < s && s * (p * m) == |a|
    requires Partial(cur, a, w, p, m, s, b, u)
    ensures 0 <= Slot(p, m, b, u, q) < |a| && cur[Slot(p, m, b, u, q)] == At(a, Slot(p, m, b, u, q))
  {
    SlotInside(p, m, s, b, u, q, |a|);
    SlotResidue(p, m, b, u, q);
  }

  lemma PartialStart(a: seq<Complex>, w: Complex, p: nat, m: nat, s: int)
    requires p >= 1 && m >= 1
    ensures Partial(a, a, w, p, m, s, 0, 0)
  {
    forall k | 0 <= k < |a| ensures !Finished(p, m, 0, 0, k) {
      assert 0 * (p * m) == 0;
      DivSplit(k, m);
    }
  }

  /** Finishing all residues of block b is starting block b + 1. */
  lemma PartialNextBlock(a: seq<Complex>, cur: seq<Complex>, w: Complex, p: nat, m: nat, s: int, b: nat)
    requires p >= 1 && m >= 1
    requires Partial(cur, a, w, p, m, s, b, m)
    ensures Partial(cur, a, w, p, m, s, b + 1, 0)
  {
    hide StageAt;
    DistributeRight(b, 1, p * m);
    MulPositive(p, m);
    forall k | 0 <= k < |a| ensures Finished(p, m, b + 1, 0, k) == Finished(p, m, b, m, k) {
      DivSplit(k - b * (p * m), m);
      DivSplit(k - (b + 1) * (p * m), m);
    }
  }

  lemma PartialEnd(a: seq<Complex>, cur: seq<Complex>, w: Complex, p: nat, m: nat, s: nat)
    requires p >= 1 && m >= 1 && s * (p * m) == |a|
    requires Partial(cur, a, w, p, m, s, s, 0)
    ensures |cur| == |a| && forall k :: 0 <= k < |a| ==> cur[k] == StageAt(a, w, p, m, s, k)
  {
    hide StageAt;
  }
}
