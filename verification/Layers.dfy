/** Loading and evaluating the network's linear layers, dense or block-sparse. */
module Layers {
  import Integers
  import opened RealSums
  import opened Matrix
  import opened SparseKernel
  import opened Wrappers

  /** One named array of the weight file: its size in bytes, and its whole four-byte words read as floats or
      as integers. */
  datatype WeightArray = WeightArray(name: string, size: nat, floats: seq<real>, ints: seq<int>)

  ghost predicate WordsAgree(arrays: seq<WeightArray>) {
    forall i :: 0 <= i < |arrays| ==> |arrays[i].floats| == arrays[i].size / 4 == |arrays[i].ints|
  }

  datatype LinearLayer = LinearLayer(
    bias: Option<seq<real>>, floatWeights: Option<seq<real>>, weightsIdx: Option<seq<int>>,
    diag: Option<seq<real>>, nbInputs: nat, nbOutputs: nat)

  /** First array of that name, as the source's walk to the terminator finds it. */
  function FindArray(arrays: seq<WeightArray>, name: string): (r: Option<WeightArray>)
    ensures r.Some? ==> r.value in arrays && r.value.name == name
    ensures r.None? ==> forall a :: a in arrays ==> a.name != name
  {
    if arrays == [] then None
    else if arrays[0].name == name then Some(arrays[0])
    else FindArray(arrays[1..], name)
  }

  /** Entry i is the first of that name. */
  ghost predicate FirstNamed(arrays: seq<WeightArray>, name: string, i: nat) {
    i < |arrays| && arrays[i].name == name && forall j :: 0 <= j < i ==> arrays[j].name != name
  }

  /** The lookup stops at the first array of the name, and a request for floats is met exactly when that array, and no
      later one, has the size of as many floats. */
  lemma {:induction false} FirstIsFound(arrays: seq<WeightArray>, name: string, i: nat, count: int)
    requires FirstNamed(arrays, name, i) && WordsAgree(arrays)
    ensures FindArray(arrays, name) == Some(arrays[i])
    ensures FindFloats(arrays, name, count) == if arrays[i].size == 4 * count then Some(arrays[i].floats) else None
  {
    if i > 0 {
      FirstIsFound(arrays[1..], name, i - 1, count);
    }
  }

  /** The array of that name, if it has exactly the size of `count` floats. */
  function FindFloats(arrays: seq<WeightArray>, name: string, count: int): (r: Option<seq<real>>)
    requires WordsAgree(arrays)
    ensures r.Some? ==> |r.value| == count
  {
    var a := FindArray(arrays, name);
    if a.Some? && a.value.size == 4 * count then Some(a.value.floats) else None
  }

  /** The shape the evaluation code relies on. */
  ghost predicate WellShaped(layer: LinearLayer) {
    && (layer.bias.Some? ==> |layer.bias.value| == layer.nbOutputs)
    && (layer.diag.Some? ==> |layer.diag.value| == layer.nbOutputs)
    && (layer.weightsIdx.Some? ==> Accepted(layer.weightsIdx.value, layer.nbInputs, layer.nbOutputs))
    && (layer.floatWeights.Some? ==>
          |layer.floatWeights.value| == if layer.weightsIdx.Some?
                                        then 32 * BlocksBefore(layer.weightsIdx.value, layer.nbOutputs / 8)
                                        else layer.nbInputs * layer.nbOutputs)
  }

  /** No position in the sparse table is negative, which loading does not check. */
  ghost predicate SignsOk(layer: LinearLayer) {
    layer.weightsIdx.Some? ==> PositionsNonNegative(layer.weightsIdx.value, layer.nbOutputs / 8)
  }

  /** The integers the table check walks over. For a name that is not in the list these are whatever the list's
      terminator designates: nothing while the list still has its first, zeroed allocation, arbitrary memory
      once it has been reallocated, because only the terminator's name is ever written. */
  function TableOf(arrays: seq<WeightArray>, terminator: Option<seq<int>>, name: string): Option<seq<int>> {
    var found := FindArray(arrays, name);
    if found.Some? then Some(found.value.ints) else terminator
  }

  /** The parts of a layer asked for by name. */
  datatype Request = Request(bias: Option<string>, floatWeights: Option<string>, weightsIdx: Option<string>,
                             diag: Option<string>, nbInputs: nat, nbOutputs: nat)

  ghost predicate FloatsOk(arrays: seq<WeightArray>, name: Option<string>, count: int)
    requires WordsAgree(arrays)
  {
    name.Some? ==> FindFloats(arrays, name.value, count).Some?
  }

  ghost predicate TableOk(arrays: seq<WeightArray>, terminator: Option<seq<int>>, q: Request) {
    q.weightsIdx.Some? ==>
      var table := TableOf(arrays, terminator, q.weightsIdx.value);
      table.Some? && Accepted(table.value, q.nbInputs, q.nbOutputs)
  }

  /** Float weights the layer has room for. */
  function WeightCount(arrays: seq<WeightArray>, terminator: Option<seq<int>>, q: Request): int {
    if q.weightsIdx.None? then q.nbInputs * q.nbOutputs
    else
      var table := TableOf(arrays, terminator, q.weightsIdx.value);
      if table.None? then 0 else 32 * BlocksBefore(table.value, q.nbOutputs / 8)
  }

  /** Float weights may be missing, but not of the wrong size. */
  ghost predicate WeightsOk(arrays: seq<WeightArray>, terminator: Option<seq<int>>, q: Request)
    requires WordsAgree(arrays)
  {
    q.floatWeights.Some? && FindArray(arrays, q.floatWeights.value).Some? ==>
      FindFloats(arrays, q.floatWeights.value, WeightCount(arrays, terminator, q)).Some?
  }

  datatype Outcome = Loaded(layer: LinearLayer) | Failed | PastTheEnd

  /** Loading a layer succeeds exactly when every part asked for is there with its size and the table is
      well-formed, and reads past the table exactly when its check does. What loads is what was asked for. */
  method LinearInit(arrays: seq<WeightArray>, terminator: Option<seq<int>>, q: Request) returns (r: Outcome)
    requires WordsAgree(arrays)
    ensures r.Loaded? <==> FloatsOk(arrays, q.bias, q.nbOutputs) && TableOk(arrays, terminator, q)
                           && WeightsOk(arrays, terminator, q) && FloatsOk(arrays, q.diag, q.nbOutputs)
    ensures r.PastTheEnd? <==>
              FloatsOk(arrays, q.bias, q.nbOutputs) && q.weightsIdx.Some?
              && var table := TableOf(arrays, terminator, q.weightsIdx.value);
                 table.Some? && ReadsPastTheEnd(table.value, q.nbInputs)
    ensures r.Loaded? ==> WellShaped(r.layer) && r.layer.nbInputs == q.nbInputs && r.layer.nbOutputs == q.nbOutputs
    ensures r.Loaded? ==>
              && r.layer.bias == Sought(arrays, q.bias) && r.layer.diag == Sought(arrays, q.diag)
              && r.layer.floatWeights == Sought(arrays, q.floatWeights)
              && r.layer.weightsIdx == if q.weightsIdx.None? then None else TableOf(arrays, terminator, q.weightsIdx.value)
  {
    hide Accepted, BlocksBefore, ReadsPastTheEnd, FindArray;
    var layer := LinearLayer(None, None, None, None, q.nbInputs, q.nbOutputs);
    if q.bias.Some? {
      layer := layer.(bias := FindFloats(arrays, q.bias.value, q.nbOutputs));
      if layer.bias.None? { return Failed; }
    }
    var count := q.nbInputs * q.nbOutputs;
    if q.weightsIdx.Some? {
      var table := TableOf(arrays, terminator, q.weightsIdx.value);
      if table.None? { return Failed; }
      var v := FindIdxCheck(table.value, q.nbInputs, q.nbOutputs);
      if v.PastTheEnd? { return Outcome.PastTheEnd; }
      if v.Refuse? { return Failed; }
      layer := layer.(weightsIdx := table);
      count := 32 * v.totalBlocks;
    }
    if q.floatWeights.Some? {
      var found := FindArray(arrays, q.floatWeights.value);
      if found.Some? {
        layer := layer.(floatWeights := FindFloats(arrays, q.floatWeights.value, count));
        if layer.floatWeights.None? { return Failed; }
      }
    }
    if q.diag.Some? {
      layer := layer.(diag := FindFloats(arrays, q.diag.value, q.nbOutputs));
      if layer.diag.None? { return Failed; }
    }
    return Loaded(layer);
  }

  /** The floats of the first array of that name. */
  function Sought(arrays: seq<WeightArray>, name: Option<string>): Option<seq<real>> {
    if name.None? then None
    else
      var a := FindArray(arrays, name.value);
      if a.None? then None else Some(a.value.floats)
  }

  // ----- evaluation -----

  /** The column-major matrix a layer applies, whichever way its weights are stored. */
  function Weights(layer: LinearLayer): seq<real> {
    if layer.floatWeights.None? then []
    else if layer.weightsIdx.Some? then
      Expanded(layer.weightsIdx.value, layer.floatWeights.value, layer.nbOutputs, layer.nbInputs)
    else layer.floatWeights.value
  }

  function OrZero(v: Option<seq<real>>, r: int): real {
    if v.Some? then At(v.value, r) else 0.0
  }

  /** Output r of the layer: matrix, bias and, for recurrent weights, the diagonal of each gate. */
  function LinearAt(layer: LinearLayer, x: seq<real>, r: int): real {
    MatVec(Weights(layer), layer.nbInputs, layer.nbOutputs, x, r)
      + OrZero(layer.bias, r) + Diagonal(layer, x, r)
  }

  function Diagonal(layer: LinearLayer, x: seq<real>, r: int): real {
    if layer.diag.Some? && layer.nbInputs > 0
    then Prod(At(layer.diag.value, r), At(x, r % layer.nbInputs)) else 0.0
  }

  /** The input that is one at j and zero elsewhere. */
  function Unit(n: nat, j: nat): (e: seq<real>)
    ensures |e| == n
  {
    seq(n, i => if i == j then 1.0 else 0.0)
  }

  /** What each part of a layer is for: the silent input gives the bias, and input j alone adds the weight in column
      j, row r, and the diagonal entry of the gate that r is in where r is j's own unit. */
  lemma LayerMeaning(layer: LinearLayer, j: nat, r: nat)
    requires j < layer.nbInputs && r < layer.nbOutputs
    ensures LinearAt(layer, seq(layer.nbInputs, i => 0.0), r) == OrZero(layer.bias, r)
    ensures LinearAt(layer, Unit(layer.nbInputs, j), r)
         == OrZero(layer.bias, r) + At(Weights(layer), j * layer.nbOutputs + r)
            + (if layer.diag.Some? && r % layer.nbInputs == j then At(layer.diag.value, r) else 0.0)
  {
    hide Prod, Weights, Sum, Unit;
    var n, W := layer.nbInputs, Weights(layer);
    ColumnOf(W, n, layer.nbOutputs, j, r);
    SilentRow(W, n, layer.nbOutputs, r);
    UnitAt(n, j, r % n);
    ProdUnits(At(if layer.diag.Some? then layer.diag.value else [], r));
  }

  lemma UnitAt(n: nat, j: nat, i: nat)
    requires i < n
    ensures At(Unit(n, j), i) == if i == j then 1.0 else 0.0
  {
  }

  lemma ColumnOf(W: seq<real>, cols: nat, stride: int, j: nat, r: int)
    requires j < cols
    ensures MatVec(W, cols, stride, Unit(cols, j), r) == At(W, j * stride + r)
  {
    hide Prod, Sum, Unit;
    var f := (i: int) => Prod(At(W, i * stride + r), At(Unit(cols, j), i));
    forall i | 0 <= i < cols ensures f(i) == if i == j then At(W, j * stride + r) else 0.0 {
      UnitAt(cols, j, i);
      ProdUnits(At(W, i * stride + r));
    }
    SumOne(cols, j, f);
  }

  lemma SilentRow(W: seq<real>, cols: nat, stride: int, r: int)
    ensures MatVec(W, cols, stride, seq(cols, i => 0.0), r) == 0.0
  {
    hide Prod, Sum;
    var f := (i: int) => Prod(At(W, i * stride + r), At(seq(cols, i => 0.0), i));
    forall i | 0 <= i < cols ensures f(i) == 0.0 {
      ProdUnits(At(W, i * stride + r));
    }
    SumZero(cols, f);
  }

  lemma NoWeights(cols: nat, stride: int, x: seq<real>, r: int)
    ensures MatVec([], cols, stride, x, r) == 0.0
  {
    hide Prod, Sum;
    var f := (j: int) => Prod(At([], j * stride + r), At(x, j));
    forall j | 0 <= j < cols ensures f(j) == 0.0 {
      ProdUnits(At(x, j));
    }
    SumZero(cols, f);
  }

  lemma DenseFits(cols: nat, rows: nat)
    requires cols >= 1
    ensures (cols - 1) * rows + rows == cols * rows
  {
  }

  method AddVector(out: array<real>, v: seq<real>)
    requires |v| <= out.Length
    modifies out
    ensures forall r :: 0 <= r < |v| ==> out[r] == old(out[r]) + v[r]
    ensures forall r :: |v| <= r < out.Length ==> out[r] == old(out[r])
  {
    var i := 0;
    while i < |v|
      invariant 0 <= i <= |v|
      invariant forall r :: 0 <= r < i ==> out[r] == old(out[r]) + v[r]
      invariant forall r :: i <= r < out.Length ==> out[r] == old(out[r])
    {
      out[i] := out[i] + v[i];
      i := i + 1;
    }
  }

  /** Index r taken into the first of three gates of size M. */
  function Third(r: int, M: int): int {
    if r < M then r else if r < 2 * M then r - M else r - 2 * M
  }

  method AddDiagonal(out: array<real>, diag: seq<real>, x: seq<real>, M: nat)
    requires |diag| == 3 * M <= out.Length && M <= |x|
    modifies out
    ensures forall r :: 0 <= r < 3 * M ==> out[r] == old(out[r]) + Prod(diag[r], x[Third(r, M)])
    ensures forall r :: 3 * M <= r < out.Length ==> out[r] == old(out[r])
  {
    hide Prod;
    ghost var was := out[..];
    var i := 0;
    while i < M
      invariant 0 <= i <= M
      invariant forall r :: 0 <= r < 3 * M ==>
                  out[r] == if Third(r, M) < i then was[r] + Prod(diag[r], x[Third(r, M)]) else was[r]
      invariant forall r :: 3 * M <= r < out.Length ==> out[r] == was[r]
    {
      out[i] := out[i] + Prod(diag[i], x[i]);
      out[i + M] := out[i + M] + Prod(diag[i + M], x[i]);
      out[i + 2 * M] := out[i + 2 * M] + Prod(diag[i + 2 * M], x[i]);
      i := i + 1;
    }
  }

  lemma ThirdOf(r: nat, M: nat)
    requires r < 3 * M
    ensures r % M == Third(r, M)
  {
    if r < M {
    } else if r < 2 * M {
      Integers.DivUnique(r, M, 1, r - M);
    } else {
      Integers.DivUnique(r, M, 2, r - 2 * M);
    }
  }

  method ComputeLinear(layer: LinearLayer, out: array<real>, x: seq<real>)
    requires WellShaped(layer) && SignsOk(layer)
    requires layer.nbInputs <= |x| && layer.nbOutputs <= out.Length
    requires layer.diag.Some? ==> 3 * layer.nbInputs == layer.nbOutputs
    modifies out
    ensures forall r :: 0 <= r < layer.nbOutputs ==> out[r] == LinearAt(layer, x, r)
    ensures forall r :: layer.nbOutputs <= r < out.Length ==> out[r] == old(out[r])
  {
    hide MatVec, Prod, PositionsNonNegative, Accepted, BlocksBefore, Expanded;
    var M, N := layer.nbInputs, layer.nbOutputs;
    ghost var W := Weights(layer);
    if layer.floatWeights.Some? {
      var w := layer.floatWeights.value;
      if layer.weightsIdx.Some? {
        var idxUsed, weightsUsed := SparseSgemv8x4(out, w, layer.weightsIdx.value, N, x, M);
      } else {
        if M >= 1 { DenseFits(M, N); }
        Sgemv(out, w, N, M, N, x);
      }
    } else {
      Clear(out, N);
      forall r | 0 <= r < N ensures out[r] == MatVec(W, M, N, x, r) {
        NoWeights(M, N, x, r);
      }
    }
    assert forall r :: 0 <= r < N ==> out[r] == MatVec(W, M, N, x, r);
    if layer.bias.Some? {
      AddVector(out, layer.bias.value);
    }
    assert forall r :: 0 <= r < N ==> out[r] == MatVec(W, M, N, x, r) + OrZero(layer.bias, r);
    if layer.diag.Some? {
      AddDiagonal(out, layer.diag.value, x, M);
      forall r | 0 <= r < N ensures out[r] == LinearAt(layer, x, r) {
        ThirdOf(r, M);
      }
    }
  }
}
