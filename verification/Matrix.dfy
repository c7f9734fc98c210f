/** Dense and block-sparse matrix-vector kernels, and the check that guards the sparse index table. */
module Matrix {
  import opened Integers
  import opened RealSums

  // ----- dense kernels -----

  /** Row r of a column-major matrix applied to x. */
  function MatVec(weights: seq<real>, cols: nat, stride: int, x: seq<real>, r: int): real {
    Sum(cols, j => Prod(At(weights, j * stride + r), At(x, j)))
  }

  lemma MatVecStep(weights: seq<real>, j: nat, stride: int, x: seq<real>, r: int)
    ensures MatVec(weights, j + 1, stride, x, r)
         == MatVec(weights, j, stride, x, r) + Prod(At(weights, j * stride + r), At(x, j))
  {
  }

  /** Adds column j's entries for `lanes` neighbouring rows, scaled by x[j]. */
  method AddColumn(out: array<real>, i: nat, lanes: nat, weights: seq<real>, j: nat, stride: nat, x: seq<real>)
    requires i + lanes <= out.Length && j < |x| && j * stride + i + lanes <= |weights|
    requires forall r :: i <= r < i + lanes ==> out[r] == MatVec(weights, j, stride, x, r)
    modifies out
    ensures forall r :: i <= r < i + lanes ==> out[r] == MatVec(weights, j + 1, stride, x, r)
    ensures forall r :: 0 <= r < out.Length && !(i <= r < i + lanes) ==> out[r] == old(out[r])
  {
    hide MatVec, Prod;
    var xj := x[j];
    var w := j * stride + i;
    var k := 0;
    while k < lanes
      invariant 0 <= k <= lanes
      invariant forall r :: i <= r < i + k ==> out[r] == MatVec(weights, j + 1, stride, x, r)
      invariant forall r :: i + k <= r < i + lanes ==> out[r] == MatVec(weights, j, stride, x, r)
      invariant forall r :: 0 <= r < out.Length && !(i <= r < i + lanes) ==> out[r] == old(out[r])
    {
      MatVecStep(weights, j, stride, x, i + k);
      assert At(weights, w + k) == weights[w + k];
      out[i + k] := out[i + k] + Prod(weights[w + k], xj);
      k := k + 1;
    }
  }

  lemma ColumnInside(j: nat, cols: nat, stride: nat, rows: nat, i: nat, lanes: nat, size: nat)
    requires j < cols && i + lanes <= rows <= stride && cols >= 1 && (cols - 1) * stride + rows <= size
    ensures j * stride + i + lanes <= size
  {
    assert (cols - 1 - j) * stride >= 0;
    assert j * stride + (cols - 1 - j) * stride == (cols - 1) * stride;
  }

  method Clear(out: array<real>, n: nat)
    requires n <= out.Length
    modifies out
    ensures forall r :: 0 <= r < n ==> out[r] == 0.0
    ensures forall r :: n <= r < out.Length ==> out[r] == old(out[r])
  {
    var i := 0;
    while i < n
      invariant 0 <= i <= n
      invariant forall r :: 0 <= r < i ==> out[r] == 0.0
      invariant forall r :: n <= r < out.Length ==> out[r] == old(out[r])
    {
      out[i] := 0.0;
      i := i + 1;
    }
  }

  /** The 16-row and 8-row forms: a strip of `lanes` rows at a time. */
  method SgemvStrips(out: array<real>, weights: seq<real>, rows: nat, cols: nat, stride: nat, x: seq<real>, lanes: nat)
    requires lanes >= 1 && rows % lanes == 0 && rows <= out.Length && rows <= stride && cols <= |x|
    requires cols >= 1 ==> (cols - 1) * stride + rows <= |weights|
    modifies out
    ensures forall r :: 0 <= r < rows ==> out[r] == MatVec(weights, cols, stride, x, r)
    ensures forall r :: rows <= r < out.Length ==> out[r] == old(out[r])
  {
    hide Prod, Sum, At;
    Clear(out, rows);
    var i := 0;
    while i < rows
      invariant 0 <= i <= rows && i % lanes == 0
      invariant forall r :: 0 <= r < i ==> out[r] == MatVec(weights, cols, stride, x, r)
      invariant forall r :: i <= r < rows ==> out[r] == 0.0
      invariant forall r :: rows <= r < out.Length ==> out[r] == old(out[r])
      decreases rows - i
    {
      StripInside(i, lanes, rows);
      var j := 0;
      NoColumns(weights, stride, x);
      while j < cols
        invariant 0 <= j <= cols
        invariant forall r :: i <= r < i + lanes ==> out[r] == MatVec(weights, j, stride, x, r)
        invariant forall r :: 0 <= r < i ==> out[r] == MatVec(weights, cols, stride, x, r)
        invariant forall r :: i + lanes <= r < rows ==> out[r] == 0.0
        invariant forall r :: rows <= r < out.Length ==> out[r] == old(out[r])
      {
        ColumnInside(j, cols, stride, rows, i, lanes, |weights|);
        AddColumn(out, i, lanes, weights, j, stride, x);
        j := j + 1;
      }
      i := i + lanes;
    }
  }

  lemma NoColumns(weights: seq<real>, stride: int, x: seq<real>)
    ensures forall r {:trigger MatVec(weights, 0, stride, x, r)} :: MatVec(weights, 0, stride, x, r) == 0.0
  {
  }

  lemma StripInside(i: nat, lanes: nat, rows: nat)
    requires lanes >= 1 && i % lanes == 0 && rows % lanes == 0 && i < rows
    ensures i + lanes <= rows && (i + lanes) % lanes == 0
  {
    DivSplit(i, lanes);
    DivSplit(rows, lanes);
    var a, b := i / lanes, rows / lanes;
    LessCancel(a, b, lanes);
    MulMono(a + 1, b, lanes);
    DistributeOne(a, lanes);
    DivUnique(i + lanes, lanes, a + 1, 0);
  }

  lemma LessCancel(a: int, b: int, c: int)
    requires c >= 1 && a * c < b * c
    ensures a < b
  {
  }

  lemma MulMono(a: int, b: int, c: nat)
    requires a <= b
    ensures a * c <= b * c
  {
  }

  lemma DistributeOne(a: int, c: int)
    ensures (a + 1) * c == a * c + c
  {
  }

  /** Dense product: strips of 16 or 8 rows when the height allows, row by row otherwise. */
  method Sgemv(out: array<real>, weights: seq<real>, rows: nat, cols: nat, stride: nat, x: seq<real>)
    requires rows <= out.Length && rows <= stride && cols <= |x|
    requires cols >= 1 ==> (cols - 1) * stride + rows <= |weights|
    modifies out
    ensures forall r :: 0 <= r < rows ==> out[r] == MatVec(weights, cols, stride, x, r)
    ensures forall r :: rows <= r < out.Length ==> out[r] == old(out[r])
  {
    hide Prod, Sum, At;
    if rows % 16 == 0 {
      SgemvStrips(out, weights, rows, cols, stride, x, 16);
    } else if rows % 8 == 0 {
      SgemvStrips(out, weights, rows, cols, stride, x, 8);
    } else {
      var i := 0;
      while i < rows
        invariant 0 <= i <= rows
        invariant forall r :: 0 <= r < i ==> out[r] == MatVec(weights, cols, stride, x, r)
        invariant forall r :: rows <= r < out.Length ==> out[r] == old(out[r])
      {
        NoColumns(weights, stride, x);
        out[i] := 0.0;
        var j := 0;
        while j < cols
          invariant 0 <= j <= cols && out[i] == MatVec(weights, j, stride, x, i)
          invariant forall r :: 0 <= r < i ==> out[r] == MatVec(weights, cols, stride, x, r)
          invariant forall r :: rows <= r < out.Length ==> out[r] == old(out[r])
        {
          ColumnInside(j, cols, stride, rows, i, 1, |weights|);
          AddColumn(out, i, 1, weights, j, stride, x);
          j := j + 1;
        }
        i := i + 1;
      }
    }
  }

  // ----- the sparse index table -----

  /** Entry of the table, zero outside. */
  function Entry(idx: seq<int>, i: int): int {
    if 0 <= i < |idx| then idx[i] else 0
  }

  /** Position entries that a group with this block count makes the walk read. */
  function Taken(count: int): nat {
    if count < 0 then 0 else count
  }

  /** Where group g of eight rows starts: a block count followed by that many column positions. */
  function GroupStart(idx: seq<int>, g: nat): (start: nat) {
    if g == 0 then 0 else GroupStart(idx, g - 1) + 1 + Taken(Entry(idx, GroupStart(idx, g - 1)))
  }

  function GroupCount(idx: seq<int>, g: nat): int {
    Entry(idx, GroupStart(idx, g))
  }

  function Position(idx: seq<int>, g: nat, j: int): int {
    Entry(idx, GroupStart(idx, g) + 1 + j)
  }

  /** Blocks in the first g groups. */
  function BlocksBefore(idx: seq<int>, g: nat): int {
    if g == 0 then 0 else BlocksBefore(idx, g - 1) + GroupCount(idx, g - 1)
  }

  /** What the loader checks of one group: it fits the table, its positions are multiples of four,
      and four inputs from each position on do not run past the last input. */
  ghost predicate GroupOk(idx: seq<int>, g: nat, nbIn: int) {
    && 0 <= GroupStart(idx, g) < |idx|
    && 0 <= GroupCount(idx, g)
    && GroupStart(idx, g) + 1 + GroupCount(idx, g) <= |idx|
    && forall j :: 0 <= j < GroupCount(idx, g) ==> PositionOk(idx, g, j, nbIn)
  }

  predicate PositionOk(idx: seq<int>, g: nat, j: int, nbIn: int) {
    Position(idx, g, j) + 3 < nbIn && Position(idx, g, j) % 4 == 0
  }

  /** The table holds exactly one group for every eight outputs, and nothing else. */
  ghost predicate Accepted(idx: seq<int>, nbIn: int, nbOut: int) {
    && nbOut >= 0 && nbOut % 8 == 0
    && GroupStart(idx, nbOut / 8) == |idx|
    && forall g :: 0 <= g < nbOut / 8 ==> GroupOk(idx, g, nbIn)
  }

  /** Groups before g are in order, so the walk stands at group g. */
  ghost predicate Walked(idx: seq<int>, g: nat, nbIn: int) {
    forall k :: 0 <= k < g ==> GroupOk(idx, k, nbIn)
  }

  lemma WalkedStart(idx: seq<int>, g: nat, k: nat, nbIn: int)
    requires Walked(idx, g, nbIn) && k < g
    ensures GroupStart(idx, k) < |idx|
  {
    assert GroupOk(idx, k, nbIn);
  }

  lemma EndAfter(idx: seq<int>, g: nat, h: nat, nbIn: int)
    requires Walked(idx, g, nbIn) && GroupStart(idx, h) >= |idx|
    ensures g <= h
  {
    if h < g {
      WalkedStart(idx, g, h, nbIn);
    }
  }

  /** The walk reaches the end of the table at one group number only. */
  lemma EndIsUnique(idx: seq<int>, g: nat, h: nat, nbIn: int)
    requires Walked(idx, g, nbIn) && Walked(idx, h, nbIn)
    requires GroupStart(idx, g) >= |idx| && GroupStart(idx, h) >= |idx|
    ensures g == h
  {
    EndAfter(idx, g, h, nbIn);
    EndAfter(idx, h, g, nbIn);
  }

  lemma RejectGroup(idx: seq<int>, g: nat, nbIn: int, nbOut: int)
    requires Walked(idx, g, nbIn) && GroupStart(idx, g) < |idx| && !GroupOk(idx, g, nbIn)
    ensures !Accepted(idx, nbIn, nbOut)
  {
    if Accepted(idx, nbIn, nbOut) {
      EndAfter(idx, g, nbOut / 8, nbIn);
    }
  }

  lemma AcceptIff(idx: seq<int>, g: nat, nbIn: int, nbOut: int)
    requires Walked(idx, g, nbIn) && GroupStart(idx, g) == |idx|
    ensures Accepted(idx, nbIn, nbOut) <==> nbOut == 8 * g
  {
    if nbOut == 8 * g {
      assert nbOut / 8 == g;
    }
    if Accepted(idx, nbIn, nbOut) {
      EndIsUnique(idx, g, nbOut / 8, nbIn);
    }
  }

  // ----- the walk, whatever the counts are -----

  /** What the loader believes is left of the table before group g. */
  function Remain(idx: seq<int>, g: nat): int {
    if g == 0 then |idx| else Remain(idx, g - 1) - (GroupCount(idx, g - 1) + 1)
  }

  /** By how much that belief exceeds the truth. */
  function Slack(idx: seq<int>, g: nat): int {
    Remain(idx, g) - (|idx| - GroupStart(idx, g))
  }

  /** Group g is read inside the table and not refused. */
  ghost predicate Passed(idx: seq<int>, g: nat, nbIn: int) {
    && Remain(idx, g) > 0 && GroupStart(idx, g) < |idx|
    && GroupCount(idx, g) + 1 <= Remain(idx, g)
    && GroupStart(idx, g) + 1 + Taken(GroupCount(idx, g)) <= |idx|
    && forall j :: 0 <= j < Taken(GroupCount(idx, g)) ==> PositionOk(idx, g, j, nbIn)
  }

  ghost predicate AllPassed(idx: seq<int>, g: nat, nbIn: int) {
    forall k :: 0 <= k < g ==> Passed(idx, k, nbIn)
  }

  /** At group g the loader reads past the end: it still believes something is left, and either the table is
      used up or the group's positions run over the end with none refused before. */
  ghost predicate RunsPast(idx: seq<int>, g: nat, nbIn: int) {
    && Remain(idx, g) > 0
    && (GroupStart(idx, g) >= |idx|
        || (&& GroupCount(idx, g) + 1 <= Remain(idx, g)
            && GroupStart(idx, g) + 1 + Taken(GroupCount(idx, g)) > |idx|
            && forall j :: 0 <= j < |idx| - GroupStart(idx, g) - 1 ==> PositionOk(idx, g, j, nbIn)))
  }

  ghost predicate ReadsPastTheEnd(idx: seq<int>, nbIn: int) {
    exists g: nat :: AllPassed(idx, g, nbIn) && RunsPast(idx, g, nbIn)
  }

  /** The belief is right as long as no negative count has been met, and too high from the first one on. */
  lemma {:induction false} SlackCounts(idx: seq<int>, g: nat)
    ensures Slack(idx, g) >= 0
    ensures Slack(idx, g) == 0 <==> forall k :: 0 <= k < g ==> GroupCount(idx, k) >= 0
  {
    if g > 0 {
      SlackCounts(idx, g - 1);
      var last: nat := g - 1;
      assert Slack(idx, g) == Slack(idx, last) + Taken(GroupCount(idx, last)) - GroupCount(idx, last);
    }
  }

  /** Reading past the end takes a negative block count met before. */
  lemma PastNeedsNegative(idx: seq<int>, nbIn: int)
    requires ReadsPastTheEnd(idx, nbIn)
    ensures exists k: nat :: GroupCount(idx, k) < 0 && AllPassed(idx, k + 1, nbIn)
  {
    var g: nat :| AllPassed(idx, g, nbIn) && RunsPast(idx, g, nbIn);
    SlackCounts(idx, g);
    var k: nat :| k < g && GroupCount(idx, k) < 0;
    assert AllPassed(idx, k + 1, nbIn);
  }

  /** No table with a negative count that the walk meets is accepted. */
  lemma {:induction false} NegativeNotAccepted(idx: seq<int>, g: nat, nbIn: int, nbOut: int)
    requires AllPassed(idx, g, nbIn) && Slack(idx, g) > 0
    ensures !Accepted(idx, nbIn, nbOut)
  {
    hide Accepted, PositionOk, Slack;
    SlackCounts(idx, 0);
    var last: nat := g - 1;
    SlackCounts(idx, last);
    SlackCounts(idx, g);
    if Slack(idx, last) > 0 {
      NegativeNotAccepted(idx, last, nbIn, nbOut);
    } else {
      PassedIsWalked(idx, last, nbIn);
      assert Passed(idx, last, nbIn) && GroupCount(idx, last) < 0;
      RejectGroup(idx, last, nbIn, nbOut);
    }
  }

  lemma PassedIsWalked(idx: seq<int>, g: nat, nbIn: int)
    requires AllPassed(idx, g, nbIn) && Slack(idx, g) == 0
    ensures Walked(idx, g, nbIn)
  {
    hide PositionOk, Slack;
    SlackCounts(idx, g);
    forall k | 0 <= k < g ensures GroupOk(idx, k, nbIn) {
      assert Passed(idx, k, nbIn);
    }
  }

  /** A walk that ends at group g, refused or used up, never reads past the end. */
  lemma EndsInside(idx: seq<int>, g: nat, nbIn: int)
    requires AllPassed(idx, g, nbIn) && !Passed(idx, g, nbIn) && !RunsPast(idx, g, nbIn)
    ensures !ReadsPastTheEnd(idx, nbIn)
  {
    forall h: nat | AllPassed(idx, h, nbIn) ensures !RunsPast(idx, h, nbIn) {
      if h < g { assert Passed(idx, h, nbIn); }
    }
  }

  /** Refused inside the table, the table is not acceptable. */
  lemma RefusedInside(idx: seq<int>, g: nat, nbIn: int, nbOut: int)
    requires AllPassed(idx, g, nbIn) && GroupStart(idx, g) < |idx| && Remain(idx, g) > 0
    requires GroupCount(idx, g) + 1 > Remain(idx, g)
             || exists j :: && 0 <= j < Taken(GroupCount(idx, g)) && GroupStart(idx, g) + 1 + j < |idx|
                            && !PositionOk(idx, g, j, nbIn)
    ensures !Accepted(idx, nbIn, nbOut) && !ReadsPastTheEnd(idx, nbIn)
  {
    hide Accepted, PositionOk;
    EndsInside(idx, g, nbIn);
    SlackCounts(idx, g);
    if Slack(idx, g) > 0 {
      NegativeNotAccepted(idx, g, nbIn, nbOut);
    } else {
      PassedIsWalked(idx, g, nbIn);
      RejectGroup(idx, g, nbIn, nbOut);
    }
  }

  lemma StartInside(idx: seq<int>, g: nat, nbIn: int)
    requires AllPassed(idx, g, nbIn)
    ensures GroupStart(idx, g) <= |idx|
  {
    hide PositionOk;
    if g > 0 {
      var last: nat := g - 1;
      assert Passed(idx, last, nbIn);
    }
  }

  lemma NothingLeft(idx: seq<int>, g: nat, nbIn: int)
    requires Remain(idx, g) <= 0
    ensures !Passed(idx, g, nbIn) && !RunsPast(idx, g, nbIn)
  {
  }

  /** Used up exactly: the belief was right all along. */
  lemma UsedUp(idx: seq<int>, g: nat, nbIn: int)
    requires AllPassed(idx, g, nbIn) && Remain(idx, g) <= 0
    ensures GroupStart(idx, g) == |idx| && Walked(idx, g, nbIn) && !ReadsPastTheEnd(idx, nbIn)
  {
    hide Passed, AllPassed, RunsPast, Walked, ReadsPastTheEnd, GroupStart, Remain;
    NothingLeft(idx, g, nbIn);
    EndsInside(idx, g, nbIn);
    SlackCounts(idx, g);
    StartInside(idx, g, nbIn);
    PassedIsWalked(idx, g, nbIn);
  }

  /** How the check ends: with the number of blocks, refused, or by reading past the end of the table. */
  datatype Verdict = Accept(totalBlocks: int) | Refuse | PastTheEnd

  /** The loader's check, on every table: it accepts exactly the tables described above and counts their
      blocks; it reads past the end exactly when a walk that has met a negative count is not refused in time. */
  method FindIdxCheck(idx: seq<int>, nbIn: int, nbOut: int) returns (v: Verdict)
    ensures v.Accept? <==> Accepted(idx, nbIn, nbOut)
    ensures v.PastTheEnd? <==> ReadsPastTheEnd(idx, nbIn)
    ensures v.Accept? ==> v.totalBlocks == BlocksBefore(idx, nbOut / 8)
  {
    hide Accepted, ReadsPastTheEnd;
    var remain, at, left, totalBlocks := |idx|, 0, nbOut, 0;
    ghost var g := 0;
    while remain > 0
      invariant at == GroupStart(idx, g) <= |idx| && remain == Remain(idx, g)
      invariant left == nbOut - 8 * g && totalBlocks == BlocksBefore(idx, g)
      invariant AllPassed(idx, g, nbIn)
      decreases |idx| - at, remain > 0
    {
      if at >= |idx| {
        OverTheEnd(idx, g, nbIn, nbOut);
        return PastTheEnd;
      }
      var nbBlocks := idx[at];
      assert GroupCount(idx, g) == nbBlocks;
      if remain < nbBlocks + 1 {
        RefusedInside(idx, g, nbIn, nbOut);
        return Refuse;
      }
      var i := 0;
      while i < nbBlocks
        invariant 0 <= i <= Taken(nbBlocks) && at + 1 + i <= |idx|
        invariant forall j :: 0 <= j < i ==> PositionOk(idx, g, j, nbIn)
      {
        if at + 1 + i >= |idx| {
          OverTheEnd(idx, g, nbIn, nbOut);
          return PastTheEnd;
        }
        var pos := idx[at + 1 + i];
        assert pos == Position(idx, g, i);
        if pos + 3 >= nbIn || pos % 4 != 0 {
          assert !PositionOk(idx, g, i, nbIn);
          RefusedInside(idx, g, nbIn, nbOut);
          return Refuse;
        }
        i := i + 1;
      }
      assert Passed(idx, g, nbIn);
      at := at + 1 + i;
      left := left - 8;
      remain := remain - (nbBlocks + 1);
      totalBlocks := totalBlocks + nbBlocks;
      g := g + 1;
    }
    UsedUp(idx, g, nbIn);
    AcceptIff(idx, g, nbIn, nbOut);
    if left != 0 { return Refuse; }
    v := Accept(totalBlocks);
  }

  lemma OverTheEnd(idx: seq<int>, g: nat, nbIn: int, nbOut: int)
    requires AllPassed(idx, g, nbIn) && RunsPast(idx, g, nbIn)
    ensures ReadsPastTheEnd(idx, nbIn) && !Accepted(idx, nbIn, nbOut)
  {
    hide Accepted, PositionOk;
    SlackCounts(idx, g);
    NegativeNotAccepted(idx, g, nbIn, nbOut);
  }

  /** The shortest table that makes the check read past its end. */
  lemma NegativeCountReadsPast(nbIn: int)
    ensures ReadsPastTheEnd([-1], nbIn)
  {
    var idx := [-1];
    assert GroupCount(idx, 0) == -1;
    assert GroupStart(idx, 1) == 1 && Remain(idx, 1) == 1;
    assert Passed(idx, 0, nbIn);
    assert AllPassed(idx, 1, nbIn) && RunsPast(idx, 1, nbIn);
  }

  /** No position the table names is negative. */
  ghost predicate PositionsNonNegative(idx: seq<int>, groups: nat) {
    forall g: nat, j: nat :: g < groups && j < GroupCount(idx, g) ==> 0 <= Position(idx, g, j)
  }

  /** The four inputs that block j of group g reads are all inside the input vector. */
  ghost predicate ReadsInside(idx: seq<int>, g: nat, j: nat, nbIn: int) {
    0 <= Position(idx, g, j) && Position(idx, g, j) + 3 < nbIn
  }

  ghost predicate AllReadsInside(idx: seq<int>, groups: nat, nbIn: int) {
    forall g: nat, j: nat :: g < groups && j < GroupCount(idx, g) ==> ReadsInside(idx, g, j, nbIn)
  }

  /** An accepted table only makes the kernel read valid inputs exactly when no position is negative:
      the loader bounds positions from above and checks their alignment, but not their sign. */
  lemma ReadsInsideIff(idx: seq<int>, nbIn: int, nbOut: int)
    requires Accepted(idx, nbIn, nbOut)
    ensures PositionsNonNegative(idx, nbOut / 8) <==> AllReadsInside(idx, nbOut / 8, nbIn)
  {
    if PositionsNonNegative(idx, nbOut / 8) {
      forall g: nat, j: nat | g < nbOut / 8 && j < GroupCount(idx, g) ensures ReadsInside(idx, g, j, nbIn) {
        assert GroupOk(idx, g, nbIn) && PositionOk(idx, g, j, nbIn);
      }
    }
    if AllReadsInside(idx, nbOut / 8, nbIn) {
      forall g: nat, j: nat | g < nbOut / 8 && j < GroupCount(idx, g) ensures 0 <= Position(idx, g, j) {
        assert ReadsInside(idx, g, j, nbIn);
      }
    }
  }

  /** A table with a negative position that the loader accepts. */
  lemma NegativePositionAccepted()
    ensures var idx := [1, -4]; Accepted(idx, 4, 8) && !PositionsNonNegative(idx, 1)
  {
    var idx := [1, -4];
    assert Entry(idx, 0) == 1 && Entry(idx, 1) == -4;
    assert GroupStart(idx, 0) == 0;
    assert GroupCount(idx, 0) == 1;
    assert GroupStart(idx, 1) == 2;
    assert Position(idx, 0, 0) == -4;
    assert PositionOk(idx, 0, 0, 4);
    assert GroupOk(idx, 0, 4);
    assert 8 / 8 == 1;
  }
}
