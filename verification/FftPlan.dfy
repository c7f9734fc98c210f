/** The shape of a transform plan: radices, stage lengths, strides and digit reversal. */
module FftPlan {
  import opened Integers

  /** Stages a factor buffer has room for, and entries of the stage walk's stride buffer. */
  const MAXFACTORS := 8

  /** Radix of stage i in a factor table p0, m0, p1, m1, ... */
  function Radix(factors: seq<int>, i: int): int {
    if 0 <= 2 * i < |factors| then factors[2 * i] else 0
  }

  /** Length of the sub-transforms that stage i combines. */
  function SubLen(factors: seq<int>, i: int): int {
    if 0 <= 2 * i && 2 * i + 1 < |factors| then factors[2 * i + 1] else 0
  }

  /** Length of the blocks that stage i produces. */
  function BlockLen(factors: seq<int>, n: int, i: int): int {
    if i <= 0 then n else SubLen(factors, i - 1)
  }

  /** A plan for length n with the given number of stages; radix 2 stages only combine lengths 1 and 4. */
  ghost predicate IsPlan(factors: seq<int>, stages: nat, n: nat) {
    && n >= 1
    && 1 <= stages
    && (n == 1 ==> stages == 1)
    && 2 * stages <= |factors|
    && SubLen(factors, stages - 1) == 1
    && forall i :: 0 <= i < stages ==>
      && StageOk(factors, i, n)
  }

  ghost predicate StageOk(factors: seq<int>, i: nat, n: nat) {
    var p, m := Radix(factors, i), SubLen(factors, i);
    && (2 <= p <= 5 || (p == 1 && n == 1))
    && m >= 1
    && p * m == BlockLen(factors, n, i)
    && (p == 2 ==> m == 1 || m == 4)
  }

  /** Number of blocks at stage i, which is also the input stride inside a block. */
  function Stride(factors: seq<int>, i: nat): int {
    if i == 0 then 1 else Stride(factors, i - 1) * Radix(factors, i - 1)
  }

  /** First input index that block b of stage i transforms (the digits of b reversed). */
  function Offset(factors: seq<int>, i: nat, b: int): int {
    if i == 0 || Radix(factors, i - 1) < 1 then 0
    else
      var p := Radix(factors, i - 1);
      Offset(factors, i - 1, b / p) + Stride(factors, i - 1) * (b % p)
  }

  lemma {:induction false} StrideTimesLen(factors: seq<int>, stages: nat, n: nat, i: nat)
    requires IsPlan(factors, stages, n) && i <= stages
    ensures Stride(factors, i) >= 1 && BlockLen(factors, n, i) >= 1
    ensures Stride(factors, i) * BlockLen(factors, n, i) == n
  {
    if i > 0 {
      StrideTimesLen(factors, stages, n, i - 1);
      assert StageOk(factors, i - 1, n);
      var s, p, m := Stride(factors, i - 1), Radix(factors, i - 1), SubLen(factors, i - 1);
      MulAssocInt(s, p, m);
      MulPositive(s, p);
    }
  }

  // ----- digit reversal -----

  lemma {:induction false} OffsetBound(factors: seq<int>, stages: nat, n: nat, i: nat, b: int)
    requires IsPlan(factors, stages, n) && i <= stages
    requires 0 <= b < Stride(factors, i)
    ensures 0 <= Offset(factors, i, b) < Stride(factors, i)
  {
    if i > 0 {
      assert StageOk(factors, i - 1, n);
      var p, s := Radix(factors, i - 1), Stride(factors, i - 1);
      StrideTimesLen(factors, stages, n, i - 1);
      DivBound(b, p, s);
      OffsetBound(factors, stages, n, i - 1, b / p);
      SumBelow(Offset(factors, i - 1, b / p), s, b % p, p);
    }
  }

  /** The offset of a child block is the parent's offset plus its digit times the stride. */
  lemma OffsetChild(factors: seq<int>, i: nat, b: int, q: int)
    requires Radix(factors, i) >= 1 && 0 <= q < Radix(factors, i)
    ensures Offset(factors, i + 1, b * Radix(factors, i) + q) == Offset(factors, i, b) + Stride(factors, i) * q
  {
    DivUnique(b * Radix(factors, i) + q, Radix(factors, i), b, q);
  }

  /** Distinct blocks start at distinct input indices. */
  lemma {:induction false} OffsetInjective(factors: seq<int>, stages: nat, n: nat, i: nat, b: int, c: int)
    requires IsPlan(factors, stages, n) && i <= stages
    requires 0 <= b < Stride(factors, i) && 0 <= c < Stride(factors, i)
    requires Offset(factors, i, b) == Offset(factors, i, c)
    ensures b == c
  {
    if i > 0 {
      assert StageOk(factors, i - 1, n);
      var p, s := Radix(factors, i - 1), Stride(factors, i - 1);
      StrideTimesLen(factors, stages, n, i - 1);
      DivBound(b, p, s);
      DivBound(c, p, s);
      DivSplit(b, p);
      DivSplit(c, p);
      var ob, oc := Offset(factors, i - 1, b / p), Offset(factors, i - 1, c / p);
      OffsetBound(factors, stages, n, i - 1, b / p);
      OffsetBound(factors, stages, n, i - 1, c / p);
      MulCommInt(s, b % p);
      MulCommInt(s, c % p);
      DivUnique(ob + s * (b % p), s, b % p, ob);
      DivUnique(oc + s * (c % p), s, c % p, oc);
      OffsetInjective(factors, stages, n, i - 1, b / p, c / p);
    }
  }

  /** Position k of the permuted input lies in block k / length of stage i; its offset agrees modulo the stride. */
  lemma {:induction false} OffsetModStride(factors: seq<int>, stages: nat, n: nat, i: nat, k: int)
    requires IsPlan(factors, stages, n) && i <= stages
    requires 0 <= k < n
    ensures Stride(factors, i) >= 1 && BlockLen(factors, n, i) >= 1
    ensures Offset(factors, stages, k) % Stride(factors, i) == Offset(factors, i, k / BlockLen(factors, n, i))
    decreases stages - i
  {
    StrideTimesLen(factors, stages, n, i);
    if i == stages {
      assert BlockLen(factors, n, i) == 1 && Stride(factors, i) == n;
      OffsetBound(factors, stages, n, i, k);
      var o := Offset(factors, i, k);
      DivUnique(o, n, 0, o);
      DivUnique(k, 1, k, 0);
    } else {
      OffsetModStride(factors, stages, n, i + 1, k);
      ModStrideStep(factors, stages, n, i, Offset(factors, stages, k), k);
    }
  }

  lemma ModStrideStep(factors: seq<int>, stages: nat, n: nat, i: nat, o: int, pos: int)
    requires IsPlan(factors, stages, n) && i < stages
    requires Stride(factors, i + 1) >= 1 && BlockLen(factors, n, i + 1) >= 1
    requires Stride(factors, i) >= 1 && BlockLen(factors, n, i) >= 1
    requires o % Stride(factors, i + 1) == Offset(factors, i + 1, pos / BlockLen(factors, n, i + 1))
    requires 0 <= pos < n
    ensures o % Stride(factors, i) == Offset(factors, i, pos / BlockLen(factors, n, i))
  {
    assert StageOk(factors, i, n);
    var p, s, m := Radix(factors, i), Stride(factors, i), SubLen(factors, i);
    var b := pos / m;
    StrideTimesLen(factors, stages, n, i);
    StrideTimesLen(factors, stages, n, i + 1);
    DivBound(pos, m, s * p);
    DivBound(b, p, s);
    var ob := Offset(factors, i, b / p);
    OffsetBound(factors, stages, n, i, b / p);
    assert o % (s * p) == ob + s * (b % p);
    ModOfMod(o, s, p, ob, b % p);
    DivOfDiv(pos, m, p);
    MulCommInt(p, m);
  }

}
