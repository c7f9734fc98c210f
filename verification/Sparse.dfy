/** The block-sparse kernel computes the same product as the dense one on the expanded matrix. */
module SparseKernel {
  import opened Integers
  import opened RealSums
  import opened Matrix

  // Weights come in blocks of 32: eight rows by four neighbouring columns, stored column by column.
  function BlockWeight(w: seq<real>, block: int, lane: int, k: int): real {
    At(w, 32 * block + 8 * k + lane)
  }

  /** What block b of group g puts in column c of its row `lane`. */
  function Window(idx: seq<int>, w: seq<real>, g: nat, b: int, lane: int, c: int): real {
    var k := c - Position(idx, g, b);
    if 0 <= k < 4 then BlockWeight(w, BlocksBefore(idx, g) + b, lane, k) else 0.0
  }

  /** Matrix entry of the first n blocks of group g; blocks over the same columns add up. */
  function SparseEntry(idx: seq<int>, w: seq<real>, g: nat, n: nat, lane: int, c: int): real {
    Sum(n, b => Window(idx, w, g, b, lane, c))
  }

  /** The dense column-major matrix that a table and its blocks stand for. */
  function Expanded(idx: seq<int>, w: seq<real>, rows: nat, cols: nat): (m: seq<real>)
    ensures |m| == rows * cols
  {
    if rows == 0 then [] else seq(rows * cols, k requires 0 <= k => ExpandedAt(idx, w, k % rows, k / rows))
  }

  function ExpandedAt(idx: seq<int>, w: seq<real>, r: nat, c: int): real {
    SparseEntry(idx, w, r / 8, CountOf(idx, r / 8), r % 8, c)
  }

  function CountOf(idx: seq<int>, g: nat): nat {
    Taken(GroupCount(idx, g))
  }

  /** What one block adds to one row of the output. */
  function BlockTerm(idx: seq<int>, w: seq<real>, x: seq<real>, g: nat, b: int, lane: int): real {
    var block, pos := BlocksBefore(idx, g) + b, Position(idx, g, b);
    Lane(w, block, lane, x, pos, 4)
  }

  /** The first k of the four columns of a block, for one row. */
  function Lane(w: seq<real>, block: int, lane: int, x: seq<real>, pos: int, k: nat): real {
    Sum(k, i => Prod(BlockWeight(w, block, lane, i), At(x, pos + i)))
  }

  function SparseRow(idx: seq<int>, w: seq<real>, x: seq<real>, g: nat, n: nat, lane: int): real {
    Sum(n, b => BlockTerm(idx, w, x, g, b, lane))
  }

  /** A sum that is zero outside [p, p + 4) is the sum of the four terms inside. */
  lemma SumWindow(n: nat, p: nat, f: int -> real, h: int -> real)
    requires p + 4 <= n
    requires forall c :: 0 <= c < n && !(p <= c < p + 4) ==> f(c) == 0.0
    requires forall i :: 0 <= i < 4 ==> h(i) == f(p + i)
    ensures Sum(n, f) == Sum(4, h)
  {
    var tail := (i: int) => f(p + 4 + i);
    SumSplit(p, 4, f, h);
    SumSplit(p + 4, n - (p + 4), f, tail);
    SumZero(p, f);
    SumZero(n - (p + 4), tail);
  }

  lemma OneBlock(idx: seq<int>, w: seq<real>, x: seq<real>, g: nat, b: nat, lane: int, cols: nat)
    requires ReadsInside(idx, g, b, cols)
    ensures Sum(cols, c => Prod(Window(idx, w, g, b, lane, c), At(x, c))) == BlockTerm(idx, w, x, g, b, lane)
  {
    hide Prod, Sum, At, BlockWeight, BlocksBefore, Position;
    var p, block := Position(idx, g, b), BlocksBefore(idx, g) + b;
    var f := (c: int) => Prod(Window(idx, w, g, b, lane, c), At(x, c));
    var h := (i: int) => Prod(BlockWeight(w, block, lane, i), At(x, p + i));
    forall c | 0 <= c < cols && !(p <= c < p + 4) ensures f(c) == 0.0 {
      ProdUnits(At(x, c));
    }
    SumWindow(cols, p, f, h);
  }

  /** Summing block by block or column by column gives the same row. */
  lemma {:induction false} BlocksOrColumns(idx: seq<int>, w: seq<real>, x: seq<real>, g: nat, n: nat, lane: int, cols: nat)
    requires forall b: nat :: b < n ==> ReadsInside(idx, g, b, cols)
    ensures Sum(cols, c => Prod(SparseEntry(idx, w, g, n, lane, c), At(x, c))) == SparseRow(idx, w, x, g, n, lane)
  {
    hide Prod, At, Window, BlockTerm, ReadsInside;
    var h := (c: int) => Prod(SparseEntry(idx, w, g, n, lane, c), At(x, c));
    if n == 0 {
      forall c | 0 <= c < cols ensures h(c) == 0.0 {
        ProdUnits(At(x, c));
      }
      SumZero(cols, h);
    } else {
      BlocksOrColumns(idx, w, x, g, n - 1, lane, cols);
      OneBlock(idx, w, x, g, n - 1, lane, cols);
      var f0 := (c: int) => Prod(SparseEntry(idx, w, g, n - 1, lane, c), At(x, c));
      var f1 := (c: int) => Prod(Window(idx, w, g, n - 1, lane, c), At(x, c));
      forall c | 0 <= c < cols ensures h(c) == f0(c) + f1(c) {
        ProdAdd(At(x, c), SparseEntry(idx, w, g, n - 1, lane, c), Window(idx, w, g, n - 1, lane, c));
      }
      SumAdd(cols, f0, f1, h);
    }
  }

  lemma ExpandedEntry(idx: seq<int>, w: seq<real>, rows: nat, cols: nat, r: nat, c: nat)
    requires r < rows && c < cols
    ensures At(Expanded(idx, w, rows, cols), c * rows + r) == ExpandedAt(idx, w, r, c)
  {
    hide ExpandedAt;
    DivUnique(c * rows + r, rows, c, r);
    CellInside(c, cols, rows, r);
  }

  lemma CellInside(c: nat, cols: nat, rows: nat, r: nat)
    requires r < rows && c < cols
    ensures 0 <= c * rows + r < rows * cols
  {
    assert (cols - 1 - c) * rows >= 0;
    assert c * rows + (cols - 1 - c) * rows == (cols - 1) * rows;
  }

  /** A row of the sparse product is the same row of the dense product on the expanded matrix. */
  lemma SparseIsDense(idx: seq<int>, w: seq<real>, x: seq<real>, rows: nat, cols: nat, r: nat)
    requires Accepted(idx, cols, rows) && PositionsNonNegative(idx, rows / 8) && r < rows
    ensures MatVec(Expanded(idx, w, rows, cols), cols, rows, x, r)
         == SparseRow(idx, w, x, r / 8, CountOf(idx, r / 8), r % 8)
  {
    var g, lane := r / 8, r % 8;
    assert GroupOk(idx, g, cols);
    ReadsInsideIff(idx, cols, rows);
    assert forall b: nat :: b < CountOf(idx, g) ==> ReadsInside(idx, g, b, cols);
    RowAsColumns(idx, w, x, rows, cols, r);
  }

  lemma RowAsColumns(idx: seq<int>, w: seq<real>, x: seq<real>, rows: nat, cols: nat, r: nat)
    requires r < rows
    requires forall b: nat :: b < CountOf(idx, r / 8) ==> ReadsInside(idx, r / 8, b, cols)
    ensures MatVec(Expanded(idx, w, rows, cols), cols, rows, x, r)
         == SparseRow(idx, w, x, r / 8, CountOf(idx, r / 8), r % 8)
  {
    hide Prod, At, CountOf, SparseRow, ReadsInside, Expanded, SparseEntry, Sum;
    var g, lane, m := r / 8, r % 8, Expanded(idx, w, rows, cols);
    var dense := (j: int) => Prod(At(m, j * rows + r), At(x, j));
    var sparse := (c: int) => Prod(SparseEntry(idx, w, g, CountOf(idx, g), lane, c), At(x, c));
    forall c | 0 <= c < cols ensures dense(c) == sparse(c) {
      ExpandedEntry(idx, w, rows, cols, r, c);
    }
    SumCong(cols, dense, sparse);
    BlocksOrColumns(idx, w, x, g, CountOf(idx, g), lane, cols);
  }

  /** One block over a matrix of its own shape is that matrix, column by column. */
  lemma OneBlockIsDense(w: seq<real>)
    requires |w| == 32
    ensures Expanded([1, 0], w, 8, 4) == w
  {
    hide SparseEntry, CountOf, At;
    var idx := [1, 0];
    forall k: nat | k < 32 ensures Expanded(idx, w, 8, 4)[k] == w[k] {
      OnlyBlock(w, k % 8, k / 8);
      assert At(w, k) == w[k] by { InBlock(w, k); }
    }
  }

  lemma InBlock(w: seq<real>, k: nat)
    requires k < |w|
    ensures At(w, k) == w[k]
  {
  }

  lemma OnlyBlock(w: seq<real>, r: nat, c: nat)
    requires r < 8 && c < 4
    ensures ExpandedAt([1, 0], w, r, c) == At(w, 8 * c + r)
  {
    hide At, BlocksBefore, Position, SparseEntry, Window, BlockWeight, CountOf;
    OneBlockTable();
    SingleEntry([1, 0], w, r, c);
    AtOrigin([1, 0], w, r, c);
  }

  lemma OneBlockTable()
    ensures CountOf([1, 0], 0) == 1 && BlocksBefore([1, 0], 0) == 0 && Position([1, 0], 0, 0) == 0
  {
    assert GroupStart([1, 0], 0) == 0;
  }

  lemma SingleEntry(idx: seq<int>, w: seq<real>, lane: int, c: int)
    ensures SparseEntry(idx, w, 0, 1, lane, c) == Window(idx, w, 0, 0, lane, c)
  {
    hide Window;
  }

  lemma AtOrigin(idx: seq<int>, w: seq<real>, r: nat, c: nat)
    requires c < 4 && BlocksBefore(idx, 0) == 0 && Position(idx, 0, 0) == 0
    ensures Window(idx, w, 0, 0, r, c) == At(w, 8 * c + r)
  {
    hide At, BlocksBefore, Position;
  }

  // ----- the kernel itself -----

  /** Adds one column of a block to eight rows. */
  method AddLane(out: array<real>, i: nat, w: seq<real>, ghost block: int, at: nat, x: seq<real>, pos: nat, k: nat,
                 ghost base: seq<real>)
    requires i + 8 <= out.Length && at == 32 * block && k < 4 && at + 32 <= |w| && pos + k < |x| && |base| == 8
    requires forall r :: i <= r < i + 8 ==> out[r] == base[r - i] + Lane(w, block, r - i, x, pos, k)
    modifies out
    ensures forall r :: i <= r < i + 8 ==> out[r] == base[r - i] + Lane(w, block, r - i, x, pos, k + 1)
    ensures forall r :: 0 <= r < out.Length && !(i <= r < i + 8) ==> out[r] == old(out[r])
  {
    hide Lane, Prod;
    var next := k + 1;
    var lane := 0;
    while lane < 8
      invariant 0 <= lane <= 8
      invariant forall r :: i <= r < i + lane ==> out[r] == base[r - i] + Lane(w, block, r - i, x, pos, next)
      invariant forall r :: i + lane <= r < i + 8 ==> out[r] == base[r - i] + Lane(w, block, r - i, x, pos, k)
      invariant forall r :: 0 <= r < out.Length && !(i <= r < i + 8) ==> out[r] == old(out[r])
    {
      LaneStep(w, block, lane, x, pos, k);
      assert out[i + lane] == base[i + lane - i] + Lane(w, block, i + lane - i, x, pos, k);
      out[i + lane] := out[i + lane] + Prod(w[at + 8 * k + lane], x[pos + k]);
      lane := lane + 1;
    }
  }

  lemma LaneStep(w: seq<real>, block: int, lane: int, x: seq<real>, pos: int, k: nat)
    ensures Lane(w, block, lane, x, pos, k + 1)
         == Lane(w, block, lane, x, pos, k) + Prod(At(w, 32 * block + 8 * k + lane), At(x, pos + k))
  {
  }

  lemma NoLanes(w: seq<real>, block: int, x: seq<real>, pos: int)
    ensures forall lane {:trigger Lane(w, block, lane, x, pos, 0)} :: Lane(w, block, lane, x, pos, 0) == 0.0
  {
  }

  lemma NoBlocks(idx: seq<int>, w: seq<real>, x: seq<real>, g: nat)
    ensures forall lane {:trigger SparseRow(idx, w, x, g, 0, lane)} :: SparseRow(idx, w, x, g, 0, lane) == 0.0
  {
  }

  /** Adds one 8-by-4 block to eight rows. */
  method AddBlock(out: array<real>, i: nat, w: seq<real>, at: nat, x: seq<real>, pos: nat,
                  ghost idx: seq<int>, ghost g: nat, ghost j: nat)
    requires i + 8 <= out.Length && at + 32 <= |w| && pos + 4 <= |x|
    requires at == 32 * (BlocksBefore(idx, g) + j) && pos == Position(idx, g, j)
    requires forall r :: i <= r < i + 8 ==> out[r] == SparseRow(idx, w, x, g, j, r - i)
    modifies out
    ensures forall r :: i <= r < i + 8 ==> out[r] == SparseRow(idx, w, x, g, j + 1, r - i)
    ensures forall r :: 0 <= r < out.Length && !(i <= r < i + 8) ==> out[r] == old(out[r])
  {
    hide Lane, Sum, At, Prod, BlocksBefore, Position;
    ghost var base := out[i..i + 8];
    ghost var block := BlocksBefore(idx, g) + j;
    NoLanes(w, block, x, pos);
    var k := 0;
    while k < 4
      invariant 0 <= k <= 4
      invariant forall r :: i <= r < i + 8 ==> out[r] == base[r - i] + Lane(w, block, r - i, x, pos, k)
      invariant forall r :: 0 <= r < out.Length && !(i <= r < i + 8) ==> out[r] == old(out[r])
    {
      AddLane(out, i, w, block, at, x, pos, k, base);
      k := k + 1;
    }
    forall r | i <= r < i + 8 ensures out[r] == SparseRow(idx, w, x, g, j + 1, r - i) {
      assert base[r - i] == SparseRow(idx, w, x, g, j, r - i);
      RowStep(idx, w, x, g, j, r - i);
    }
  }

  lemma RowStep(idx: seq<int>, w: seq<real>, x: seq<real>, g: nat, j: nat, lane: int)
    ensures SparseRow(idx, w, x, g, j + 1, lane) == SparseRow(idx, w, x, g, j, lane)
                                                  + Lane(w, BlocksBefore(idx, g) + j, lane, x, Position(idx, g, j), 4)
  {
  }

  /** The blocks of the first g groups come before those of any later group. */
  lemma {:induction false} BlocksMonotone(idx: seq<int>, g: nat, h: nat, nbIn: int)
    requires g <= h && Walked(idx, h, nbIn)
    ensures 0 <= BlocksBefore(idx, g) <= BlocksBefore(idx, h)
  {
    if h > 0 {
      assert GroupOk(idx, h - 1, nbIn);
      if g < h {
        BlocksMonotone(idx, g, h - 1, nbIn);
      } else {
        BlocksMonotone(idx, h - 1, h - 1, nbIn);
      }
    }
  }

  /** The kernel walks the table and the weights with two cursors. On an accepted table with no negative
      position it ends exactly at the end of both and computes the dense product. */
  method SparseSgemv8x4(out: array<real>, w: seq<real>, idx: seq<int>, rows: nat, x: seq<real>, ghost cols: nat)
      returns (idxUsed: nat, weightsUsed: nat)
    requires Accepted(idx, cols, rows) && PositionsNonNegative(idx, rows / 8)
    requires |w| == 32 * BlocksBefore(idx, rows / 8) && rows <= out.Length && cols <= |x|
    modifies out
    ensures idxUsed == |idx| && weightsUsed == |w|
    ensures forall r :: 0 <= r < rows ==> out[r] == MatVec(Expanded(idx, w, rows, cols), cols, rows, x, r)
    ensures forall r :: rows <= r < out.Length ==> out[r] == old(out[r])
  {
    hide Sum, At, Prod, Expanded, MatVec, SparseRow;
    ReadsInsideIff(idx, cols, rows);
    Clear(out, rows);
    idxUsed, weightsUsed := 0, 0;
    var i := 0;
    ghost var g := 0;
    while i < rows
      invariant i == 8 * g && i <= rows && idxUsed == GroupStart(idx, g) && weightsUsed == 32 * BlocksBefore(idx, g)
      invariant forall r :: 0 <= r < i ==> out[r] == MatVec(Expanded(idx, w, rows, cols), cols, rows, x, r)
      invariant forall r :: i <= r < rows ==> out[r] == 0.0
      invariant forall r :: rows <= r < out.Length ==> out[r] == old(out[r])
    {
      assert GroupOk(idx, g, cols);
      BlocksMonotone(idx, g + 1, rows / 8, cols);
      BlocksMonotone(idx, g, rows / 8, cols);
      NoBlocks(idx, w, x, g);
      var count := idx[idxUsed];
      idxUsed := idxUsed + 1;
      var j := 0;
      while j < count
        invariant 0 <= j <= count && idxUsed == GroupStart(idx, g) + 1 + j
        invariant weightsUsed == 32 * (BlocksBefore(idx, g) + j)
        invariant forall r :: i <= r < i + 8 ==> out[r] == SparseRow(idx, w, x, g, j, r - i)
        invariant forall r :: 0 <= r < i ==> out[r] == MatVec(Expanded(idx, w, rows, cols), cols, rows, x, r)
        invariant forall r :: i + 8 <= r < rows ==> out[r] == 0.0
        invariant forall r :: rows <= r < out.Length ==> out[r] == old(out[r])
      {
        assert ReadsInside(idx, g, j, cols);
        var pos := idx[idxUsed];
        idxUsed := idxUsed + 1;
        AddBlock(out, i, w, weightsUsed, x, pos, idx, g, j);
        weightsUsed := weightsUsed + 32;
        j := j + 1;
      }
      forall r | i <= r < i + 8 ensures out[r] == MatVec(Expanded(idx, w, rows, cols), cols, rows, x, r) {
        SparseIsDense(idx, w, x, rows, cols, r);
        assert r / 8 == g && r % 8 == r - i;
      }
      i := i + 8;
      g := g + 1;
    }
  }
}
