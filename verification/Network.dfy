/** The recurrent network: its state is updated in place, frame after frame, and stays bounded for ever. */
module Network {
  import opened Activation
  import opened Gains
  import opened Layers
  import opened RealSums

  // ----- what each layer computes, as a function of values -----

  ghost predicate Usable(layer: LinearLayer, nbIn: nat, nbOut: nat) {
    && WellShaped(layer) && SignsOk(layer) && layer.nbInputs == nbIn && layer.nbOutputs == nbOut
    && (layer.diag.Some? ==> 3 * nbIn == nbOut)
  }

  function Dense(layer: LinearLayer, x: seq<real>, kind: Kind): (y: seq<real>)
    ensures |y| == layer.nbOutputs
  {
    seq(layer.nbOutputs, i => Activate(kind, LinearAt(layer, x, i)))
  }

  function UpdateGate(inL: LinearLayer, recL: LinearLayer, s: seq<real>, x: seq<real>, i: int): real
  {
    SigmoidApprox(LinearAt(inL, x, i) + LinearAt(recL, s, i))
  }

  function Candidate(inL: LinearLayer, recL: LinearLayer, s: seq<real>, x: seq<real>, n: nat, i: int): real
  {
    TanhApprox(LinearAt(inL, x, 2 * n + i)
               + Prod(LinearAt(recL, s, 2 * n + i), UpdateGate(inL, recL, s, x, n + i)))
  }

  /** Gated recurrent unit: gates z and r, candidate h, new state z*s + (1-z)*h. */
  function Gru(inL: LinearLayer, recL: LinearLayer, s: seq<real>, x: seq<real>): (t: seq<real>)
    ensures |t| == |s|
  {
    seq(|s|, i requires 0 <= i < |s| =>
      Mix(UpdateGate(inL, recL, s, x, i), s[i], Candidate(inL, recL, s, x, |s|, i)))
  }

  function Mix(z: real, s: real, h: real): real {
    Prod(z, s) + Prod(1.0 - z, h)
  }

  ghost predicate Bounded(s: seq<real>) {
    forall i :: 0 <= i < |s| ==> -1.0 <= s[i] <= 1.0
  }

  lemma MixBetween(z: real, s: real, h: real, low: real, high: real)
    requires 0.0 <= z <= 1.0 && low <= s <= high && low <= h <= high
    ensures low <= Mix(z, s, h) <= high
  {
    ProdNonNegative(z, s - low);
    ProdNonNegative(1.0 - z, h - low);
    ProdNonNegative(z, high - s);
    ProdNonNegative(1.0 - z, high - h);
  }

  /** One step keeps the state in [-1, 1], for any weights and any input. */
  lemma GruKeepsBound(inL: LinearLayer, recL: LinearLayer, s: seq<real>, x: seq<real>)
    requires Bounded(s)
    ensures Bounded(Gru(inL, recL, s, x))
  {
    hide TanhApprox, SigmoidApprox, LinearAt, Mix, Prod;
    forall i | 0 <= i < |s| ensures -1.0 <= Gru(inL, recL, s, x)[i] <= 1.0 {
      MixBetween(UpdateGate(inL, recL, s, x, i), s[i], Candidate(inL, recL, s, x, |s|, i), -1.0, 1.0);
    }
  }

  /** A closed update gate keeps a unit's state, an open one replaces it. */
  lemma GateEnds(inL: LinearLayer, recL: LinearLayer, s: seq<real>, x: seq<real>, i: nat)
    requires i < |s|
    ensures UpdateGate(inL, recL, s, x, i) == 1.0 ==> Gru(inL, recL, s, x)[i] == s[i]
    ensures UpdateGate(inL, recL, s, x, i) == 0.0 ==> Gru(inL, recL, s, x)[i] == Candidate(inL, recL, s, x, |s|, i)
  {
    hide TanhApprox, SigmoidApprox, LinearAt, Mix, Candidate;
    MixEnds(s[i], Candidate(inL, recL, s, x, |s|, i));
  }

  /** In between the state moves towards the candidate without passing it, from below or from above. */
  lemma GateMeaning(inL: LinearLayer, recL: LinearLayer, s: seq<real>, x: seq<real>, i: nat)
    requires i < |s|
    ensures var h, t := Candidate(inL, recL, s, x, |s|, i), Gru(inL, recL, s, x)[i];
            if s[i] <= h then s[i] <= t <= h else h <= t <= s[i]
  {
    hide TanhApprox, SigmoidApprox, LinearAt, Mix, Candidate;
    var z, h := UpdateGate(inL, recL, s, x, i), Candidate(inL, recL, s, x, |s|, i);
    if s[i] <= h { MixBetween(z, s[i], h, s[i], h); } else { MixBetween(z, s[i], h, h, s[i]); }
  }

  /** A closed reset gate makes the candidate forget the state; an open one lets the recurrent part through whole. */
  lemma ResetGateMeaning(inL: LinearLayer, recL: LinearLayer, s: seq<real>, x: seq<real>, i: nat)
    requires i < |s|
    ensures var n, r, h := |s|, UpdateGate(inL, recL, s, x, |s| + i), Candidate(inL, recL, s, x, |s|, i);
            && (r == 0.0 ==> h == TanhApprox(LinearAt(inL, x, 2 * n + i)))
            && (r == 1.0 ==> h == TanhApprox(LinearAt(inL, x, 2 * n + i) + LinearAt(recL, s, 2 * n + i)))
  {
    hide TanhApprox, SigmoidApprox, LinearAt;
    ProdUnits(LinearAt(recL, s, 2 * |s| + i));
  }

  lemma MixEnds(s: real, h: real)
    ensures Mix(1.0, s, h) == s && Mix(0.0, s, h) == h
  {
  }

  // ----- the imperative layers -----

  const MAX_RNN_NEURONS_ALL := 1024

  method ComputeGenericDense(layer: LinearLayer, output: array<real>, x: seq<real>, kind: Kind)
    requires Usable(layer, |x|, output.Length)
    modifies output
    ensures output[..] == Dense(layer, x, kind)
  {
    hide LinearAt, Activate, WellShaped, SignsOk;
    ComputeLinear(layer, output, x);
    ComputeActivation(output, 0, layer.nbOutputs, kind);
  }

  /** h += recur * r, gate by gate. */
  method AddGated(zrh: array<real>, recur: array<real>, n: nat)
    requires zrh != recur && 3 * n <= zrh.Length && 3 * n <= recur.Length
    modifies zrh
    ensures forall k :: 2 * n <= k < 3 * n ==> zrh[k] == old(zrh[k]) + Prod(recur[k], old(zrh[k - n]))
    ensures forall i :: 0 <= i < 2 * n ==> zrh[i] == old(zrh[i])
  {
    hide Prod;
    var i := 0;
    while i < n
      invariant 0 <= i <= n
      invariant forall k :: 2 * n <= k < 2 * n + i ==> zrh[k] == old(zrh[k]) + Prod(recur[k], old(zrh[k - n]))
      invariant forall k :: 2 * n + i <= k < 3 * n ==> zrh[k] == old(zrh[k])
      invariant forall k :: 0 <= k < 2 * n ==> zrh[k] == old(zrh[k])
    {
      zrh[2 * n + i] := zrh[2 * n + i] + Prod(recur[2 * n + i], zrh[n + i]);
      i := i + 1;
    }
  }

  /** h = z * state + (1 - z) * h. */
  method Blend(zrh: array<real>, s: seq<real>)
    requires 3 * |s| <= zrh.Length
    modifies zrh
    ensures forall k :: 2 * |s| <= k < 3 * |s| ==>
              zrh[k] == Mix(old(zrh[k - 2 * |s|]), s[k - 2 * |s|], old(zrh[k]))
  {
    hide Mix;
    ghost var was := zrh[..];
    var n, h := |s|, 2 * |s|;
    var i := 0;
    while i < n
      invariant 0 <= i <= n
      invariant forall k :: h <= k < h + i ==> zrh[k] == Mix(was[k - h], s[k - h], was[k])
      invariant zrh[h + i..] == was[h + i..] && zrh[..n] == was[..n]
    {
      assert zrh[h + i] == zrh[h + i..][0] && zrh[i] == zrh[..n][i];
      zrh[h + i] := Mix(zrh[i], s[i], zrh[h + i]);
      i := i + 1;
    }
  }

  method CopyFrom(state: array<real>, src: array<real>, start: nat)
    requires state != src && start + state.Length <= src.Length
    modifies state
    ensures state[..] == src[start..start + state.Length]
  {
    var i := 0;
    while i < state.Length
      invariant 0 <= i <= state.Length
      invariant state[..i] == src[start..start + i]
    {
      state[i] := src[start + i];
      i := i + 1;
    }
  }

  /** Both matrix products and the three gates, in scratch buffers. */
  method Gates(inL: LinearLayer, recL: LinearLayer, s: seq<real>, x: seq<real>) returns (zrh: array<real>)
    requires Usable(inL, |x|, 3 * |s|) && Usable(recL, |s|, 3 * |s|)
    requires |s| <= MAX_RNN_NEURONS_ALL
    ensures fresh(zrh) && zrh.Length == 3 * MAX_RNN_NEURONS_ALL
    ensures forall i :: 0 <= i < |s| ==> zrh[i] == UpdateGate(inL, recL, s, x, i)
    ensures forall k :: 2 * |s| <= k < 3 * |s| ==> zrh[k] == Candidate(inL, recL, s, x, |s|, k - 2 * |s|)
  {
    hide LinearAt, WellShaped, SignsOk, Mix, Prod, TanhApprox, SigmoidApprox;
    var n := |s|;
    zrh := new real[3 * MAX_RNN_NEURONS_ALL];
    var recur := new real[3 * MAX_RNN_NEURONS_ALL];
    ComputeLinear(inL, zrh, x);
    ComputeLinear(recL, recur, s);
    AddVector(zrh, recur[..2 * n]);
    ComputeActivation(zrh, 0, 2 * n, Sigmoid);
    assert forall i :: 0 <= i < 2 * n ==> zrh[i] == UpdateGate(inL, recL, s, x, i);
    AddGated(zrh, recur, n);
    ComputeActivation(zrh, 2 * n, n, Tanh);
  }

  /** The recurrent unit, updating `state` in place. */
  method ComputeGenericGru(inL: LinearLayer, recL: LinearLayer, state: array<real>, x: seq<real>)
    requires Usable(inL, |x|, 3 * state.Length) && Usable(recL, state.Length, 3 * state.Length)
    requires state.Length <= MAX_RNN_NEURONS_ALL
    modifies state
    ensures state[..] == Gru(inL, recL, old(state[..]), x)
  {
    hide LinearAt, WellShaped, SignsOk, Mix, UpdateGate, Candidate;
    var s := state[..];
    var zrh := Gates(inL, recL, s, x);
    Blend(zrh, s);
    CopyFrom(state, zrh, 2 * |s|);
  }

  // ----- streaming convolution -----

  const MAX_CONV_INPUTS_ALL := 1024

  /** A convolution over time: the layer sees the remembered samples followed by the new ones, and then
      remembers the newest samples it saw. */
  method ComputeGenericConv1d(layer: LinearLayer, output: array<real>, mem: array<real>, x: seq<real>, kind: Kind)
    requires Usable(layer, mem.Length + |x|, output.Length) && output != mem
    requires mem.Length + |x| <= MAX_CONV_INPUTS_ALL
    modifies output, mem
    ensures output[..] == Dense(layer, old(mem[..]) + x, kind)
    ensures mem[..] == (old(mem[..]) + x)[|x|..]
  {
    hide LinearAt, Activate, WellShaped, SignsOk;
    var kept := mem.Length;
    var tmp := new real[kept + |x|];
    ghost var seen := mem[..] + x;
    var i := 0;
    while i < kept
      invariant 0 <= i <= kept && tmp[..i] == seen[..i] && mem[..] == seen[..kept]
    {
      tmp[i] := mem[i];
      i := i + 1;
    }
    i := 0;
    while i < |x|
      invariant 0 <= i <= |x| && tmp[..kept + i] == seen[..kept + i]
    {
      tmp[kept + i] := x[i];
      i := i + 1;
    }
    assert tmp[..] == seen;
    ComputeLinear(layer, output, tmp[..]);
    ComputeActivation(output, 0, layer.nbOutputs, kind);
    assert output[..] == Dense(layer, seen, kind);
    CopyFrom(mem, tmp, |x|);
  }

  /** Over any run of calls, the memory holds exactly the newest samples of everything fed in. */
  function ConvMemory(mem: seq<real>, inputs: seq<seq<real>>): (r: seq<real>)
    ensures |r| == |mem|
  {
    if inputs == [] then mem
    else
      var before := ConvMemory(mem, inputs[..|inputs| - 1]);
      (before + inputs[|inputs| - 1])[|inputs[|inputs| - 1]|..]
  }

  function Joined(inputs: seq<seq<real>>): seq<real> {
    if inputs == [] then [] else Joined(inputs[..|inputs| - 1]) + inputs[|inputs| - 1]
  }

  lemma {:induction false} ConvRemembersNewest(mem: seq<real>, inputs: seq<seq<real>>)
    ensures ConvMemory(mem, inputs) == (mem + Joined(inputs))[|Joined(inputs)|..]
  {
    if inputs != [] {
      var init, last := inputs[..|inputs| - 1], inputs[|inputs| - 1];
      ConvRemembersNewest(mem, init);
      var all := mem + Joined(init);
      assert mem + Joined(inputs) == all + last;
      assert (all[|Joined(init)|..] + last)[|last|..] == (all + last)[|Joined(inputs)|..];
    }
  }

  // ----- the whole network -----

  /** The layers of the network. */
  datatype Model = Model(
    conv1: LinearLayer, conv2: LinearLayer,
    in1: LinearLayer, rec1: LinearLayer, in2: LinearLayer, rec2: LinearLayer, in3: LinearLayer, rec3: LinearLayer,
    denseOut: LinearLayer, vadDense: LinearLayer)

  datatype RnnState = RnnState(conv1: seq<real>, conv2: seq<real>, gru1: seq<real>, gru2: seq<real>, gru3: seq<real>)

  const INPUT_SIZE := 65
  const CONV1_OUT := 128
  const GRU_SIZE := 384

  ghost predicate ModelOk(m: Model) {
    && Usable(m.conv1, 3 * INPUT_SIZE, CONV1_OUT) && Usable(m.conv2, 3 * CONV1_OUT, GRU_SIZE)
    && Usable(m.in1, GRU_SIZE, 3 * GRU_SIZE) && Usable(m.rec1, GRU_SIZE, 3 * GRU_SIZE)
    && Usable(m.in2, GRU_SIZE, 3 * GRU_SIZE) && Usable(m.rec2, GRU_SIZE, 3 * GRU_SIZE)
    && Usable(m.in3, GRU_SIZE, 3 * GRU_SIZE) && Usable(m.rec3, GRU_SIZE, 3 * GRU_SIZE)
    && Usable(m.denseOut, GRU_SIZE, NB_BANDS) && Usable(m.vadDense, GRU_SIZE, 1)
  }

  ghost predicate StateShaped(s: RnnState) {
    && |s.conv1| == 2 * INPUT_SIZE && |s.conv2| == 2 * CONV1_OUT
    && |s.gru1| == GRU_SIZE && |s.gru2| == GRU_SIZE && |s.gru3| == GRU_SIZE
  }

  /** The first convolution remembers input features, which have no bound; the second remembers the first's
      tanh outputs. */
  ghost predicate StateBounded(s: RnnState) {
    Bounded(s.conv2) && Bounded(s.gru1) && Bounded(s.gru2) && Bounded(s.gru3)
  }

  /** One frame: the new state, the band gains and the voice probability. */
  ghost function RnnStep(m: Model, s: RnnState, x: seq<real>): (r: (RnnState, seq<real>, real))
    requires ModelOk(m) && StateShaped(s) && |x| == INPUT_SIZE
    ensures StateShaped(r.0) && |r.1| == NB_BANDS
  {
    hide LinearAt, SignsOk, WellShaped;
    var seen1 := s.conv1 + x;
    var tmp := Dense(m.conv1, seen1, Tanh);
    var seen2 := s.conv2 + tmp;
    var tmp2 := Dense(m.conv2, seen2, Tanh);
    var gru1 := Gru(m.in1, m.rec1, s.gru1, tmp2);
    var gru2 := Gru(m.in2, m.rec2, s.gru2, gru1);
    var gru3 := Gru(m.in3, m.rec3, s.gru3, gru2);
    (RnnState(seen1[INPUT_SIZE..], seen2[CONV1_OUT..], gru1, gru2, gru3),
     Dense(m.denseOut, gru3, Sigmoid), Dense(m.vadDense, gru3, Sigmoid)[0])
  }

  /** The network is a chain: between two frames, whatever their inputs and their states before, a unit whose own
      state was the same and whose predecessor's new state is the same has the same new state, and the heads see
      the third unit only. */
  lemma Chain(m: Model, s: RnnState, x: seq<real>, s': RnnState, x': seq<real>)
    requires ModelOk(m) && StateShaped(s) && StateShaped(s') && |x| == INPUT_SIZE == |x'|
    ensures var r, r' := RnnStep(m, s, x), RnnStep(m, s', x');
            && (r.0.conv1 == r'.0.conv1 && s.conv1 == s'.conv1 && s.conv2 == s'.conv2 ==> r.0.conv2 == r'.0.conv2)
            && (r.0.conv2 == r'.0.conv2 && s.conv2 == s'.conv2 && s.gru1 == s'.gru1 ==> r.0.gru1 == r'.0.gru1)
            && (r.0.gru1 == r'.0.gru1 && s.gru2 == s'.gru2 ==> r.0.gru2 == r'.0.gru2)
            && (r.0.gru2 == r'.0.gru2 && s.gru3 == s'.gru3 ==> r.0.gru3 == r'.0.gru3)
            && (r.0.gru3 == r'.0.gru3 ==> r.1 == r'.1 && r.2 == r'.2)
  {
    hide LinearAt, SignsOk, WellShaped, Gru, Activate, Dense;
    var r, r' := RnnStep(m, s, x), RnnStep(m, s', x');
    if r.0.conv1 == r'.0.conv1 && s.conv1 == s'.conv1 {
      NewestOf(s.conv1, x);
      NewestOf(s'.conv1, x');
    }
    if r.0.conv2 == r'.0.conv2 && s.conv2 == s'.conv2 {
      NewestOf(s.conv2, Dense(m.conv1, s.conv1 + x, Tanh));
      NewestOf(s'.conv2, Dense(m.conv1, s'.conv1 + x', Tanh));
    }
  }

  /** The newest samples can be read back from the memory. */
  lemma NewestOf(mem: seq<real>, x: seq<real>)
    requires |mem| >= |x|
    ensures (mem + x)[|x|..][|mem| - |x|..] == x
  {
  }

  /** What each part of the network reads: the third unit the second's new state, the second the first's, the
      first the second convolution of the newest three frames of the first. */
  lemma Reads(m: Model, s: RnnState, x: seq<real>)
    requires ModelOk(m) && StateShaped(s) && |x| == INPUT_SIZE
    ensures var (t, gains, vad) := RnnStep(m, s, x);
            && gains == Dense(m.denseOut, t.gru3, Sigmoid) && [vad] == Dense(m.vadDense, t.gru3, Sigmoid)
            && t.gru3 == Gru(m.in3, m.rec3, s.gru3, t.gru2) && t.gru2 == Gru(m.in2, m.rec2, s.gru2, t.gru1)
            && t.conv1 == s.conv1[INPUT_SIZE..] + x
            && t.conv2 == s.conv2[CONV1_OUT..] + Dense(m.conv1, s.conv1 + x, Tanh)
            && t.gru1 == Gru(m.in1, m.rec1, s.gru1, Dense(m.conv2, s.conv2 + Dense(m.conv1, s.conv1 + x, Tanh), Tanh))
  {
    hide LinearAt, SignsOk, WellShaped, Gru, Activate;
    assert (s.conv1 + x)[INPUT_SIZE..] == s.conv1[INPUT_SIZE..] + x;
    var tmp := Dense(m.conv1, s.conv1 + x, Tanh);
    assert (s.conv2 + tmp)[CONV1_OUT..] == s.conv2[CONV1_OUT..] + tmp;
  }

  /** Over every run of at least two frames the first convolution remembers exactly the last two. */
  lemma RemembersTwoFrames(m: Model, inputs: seq<seq<real>>)
    requires ModelOk(m) && Features(inputs) && |inputs| >= 2
    ensures StateAfter(m, inputs).conv1 == inputs[|inputs| - 2] + inputs[|inputs| - 1]
  {
    hide LinearAt, SignsOk, WellShaped, Gru, Activate, ModelOk, RnnStep;
    var n := |inputs|;
    var before := inputs[..n - 1];
    Reads(m, StateAfter(m, before), inputs[n - 1]);
    Reads(m, StateAfter(m, before[..n - 2]), before[n - 2]);
    assert before[n - 2] == inputs[n - 2];
  }

  lemma TanhBounded(layer: LinearLayer, x: seq<real>)
    ensures Bounded(Dense(layer, x, Tanh))
  {
    hide LinearAt, TanhApprox;
  }

  lemma NewestBounded(mem: seq<real>, x: seq<real>)
    requires Bounded(mem) && Bounded(x)
    ensures Bounded((mem + x)[|x|..])
  {
  }

  lemma StepBounded(m: Model, s: RnnState, x: seq<real>)
    requires ModelOk(m) && StateShaped(s) && StateBounded(s) && |x| == INPUT_SIZE
    ensures var r := RnnStep(m, s, x); StateBounded(r.0) && UnitInterval(r.1) && 0.0 <= r.2 <= 1.0
  {
    hide LinearAt, Gru, WellShaped, SignsOk, SigmoidApprox, TanhApprox;
    var r := RnnStep(m, s, x);
    TanhBounded(m.conv1, s.conv1 + x);
    NewestBounded(s.conv2, Dense(m.conv1, s.conv1 + x, Tanh));
    var tmp2 := Dense(m.conv2, s.conv2 + Dense(m.conv1, s.conv1 + x, Tanh), Tanh);
    GruKeepsBound(m.in1, m.rec1, s.gru1, tmp2);
    GruKeepsBound(m.in2, m.rec2, s.gru2, r.0.gru1);
    GruKeepsBound(m.in3, m.rec3, s.gru3, r.0.gru2);
  }

  function ResetState(): (s: RnnState)
    ensures StateShaped(s) && StateBounded(s)
  {
    var zeros := seq(GRU_SIZE, i => 0.0);
    RnnState(seq(2 * INPUT_SIZE, i => 0.0), seq(2 * CONV1_OUT, i => 0.0), zeros, zeros, zeros)
  }

  ghost predicate Features(inputs: seq<seq<real>>) {
    forall t :: 0 <= t < |inputs| ==> |inputs[t]| == INPUT_SIZE
  }

  /** State after a whole run of frames from reset. */
  ghost function StateAfter(m: Model, inputs: seq<seq<real>>): (s: RnnState)
    requires ModelOk(m) && Features(inputs)
    ensures StateShaped(s)
  {
    if inputs == [] then ResetState()
    else RnnStep(m, StateAfter(m, inputs[..|inputs| - 1]), inputs[|inputs| - 1]).0
  }

  /** After every run of frames, of any length and any content, the recurrent states and the second
      convolution's memory lie in [-1, 1] and the next frame's gains and voice probability lie in [0, 1]. */
  lemma {:induction false} RunBounded(m: Model, inputs: seq<seq<real>>, x: seq<real>)
    requires ModelOk(m) && Features(inputs) && |x| == INPUT_SIZE
    ensures StateBounded(StateAfter(m, inputs))
    ensures var r := RnnStep(m, StateAfter(m, inputs), x); UnitInterval(r.1) && 0.0 <= r.2 <= 1.0
  {
    hide RnnStep, ModelOk, UnitInterval, StateBounded;
    if inputs != [] {
      RunBounded(m, inputs[..|inputs| - 1], inputs[|inputs| - 1]);
      StepBounded(m, StateAfter(m, inputs[..|inputs| - 1]), inputs[|inputs| - 1]);
    }
    StepBounded(m, StateAfter(m, inputs), x);
  }

  method Silence(a: array<real>)
    modifies a
    ensures a[..] == seq(a.Length, i => 0.0)
  {
    var i := 0;
    while i < a.Length
      invariant 0 <= i <= a.Length && forall k :: 0 <= k < i ==> a[k] == 0.0
    {
      a[i] := 0.0;
      i := i + 1;
    }
  }

  /** The network object: five state buffers rewritten in place on every frame. */
  class Rnn {
    const model: Model
    const conv1: array<real>
    const conv2: array<real>
    const gru1: array<real>
    const gru2: array<real>
    const gru3: array<real>

    ghost predicate Valid()
      reads conv1, conv2, gru1, gru2, gru3
    {
      && ModelOk(model) && StateShaped(State())
      && conv1 != conv2 && gru1 != gru2 && gru1 != gru3 && gru2 != gru3
      && {conv1, conv2} !! {gru1, gru2, gru3}
    }

    ghost function State(): RnnState
      reads conv1, conv2, gru1, gru2, gru3
    {
      RnnState(conv1[..], conv2[..], gru1[..], gru2[..], gru3[..])
    }

    constructor (model: Model)
      requires ModelOk(model)
      ensures Valid() && State() == ResetState() && this.model == model
      ensures fresh(conv1) && fresh(conv2) && fresh(gru1) && fresh(gru2) && fresh(gru3)
    {
      this.model := model;
      conv1 := new real[2 * INPUT_SIZE](i => 0.0);
      conv2 := new real[2 * CONV1_OUT](i => 0.0);
      gru1 := new real[GRU_SIZE](i => 0.0);
      gru2 := new real[GRU_SIZE](i => 0.0);
      gru3 := new real[GRU_SIZE](i => 0.0);
    }

    /** Back to silence. */
    method Reset()
      requires Valid()
      modifies conv1, conv2, gru1, gru2, gru3
      ensures Valid() && State() == ResetState()
    {
      hide Usable;
      Silence(conv1);
      Silence(conv2);
      Silence(gru1);
      Silence(gru2);
      Silence(gru3);
    }

    method ComputeRnn(x: seq<real>) returns (gains: array<real>, vad: real)
      requires Valid() && |x| == INPUT_SIZE
      modifies conv1, conv2, gru1, gru2, gru3
      ensures Valid() && fresh(gains)
      ensures (State(), gains[..], vad) == RnnStep(model, old(State()), x)
      ensures gains[..] == Dense(model.denseOut, gru3[..], Sigmoid) && [vad] == Dense(model.vadDense, gru3[..], Sigmoid)
      ensures gru3[..] == Gru(model.in3, model.rec3, old(gru3[..]), gru2[..])
      ensures gru2[..] == Gru(model.in2, model.rec2, old(gru2[..]), gru1[..])
      ensures conv1[..] == old(conv1[..])[INPUT_SIZE..] + x
      ensures var tmp := Dense(model.conv1, old(conv1[..]) + x, Tanh);
              && conv2[..] == old(conv2[..])[CONV1_OUT..] + tmp
              && gru1[..] == Gru(model.in1, model.rec1, old(gru1[..]), Dense(model.conv2, old(conv2[..]) + tmp, Tanh))
    {
      hide LinearAt, Activate, WellShaped, SignsOk, Gru, Dense;
      Reads(model, State(), x);
      var tmp := new real[CONV1_OUT];
      var tmp2 := new real[GRU_SIZE];
      ComputeGenericConv1d(model.conv1, tmp, conv1, x, Tanh);
      ComputeGenericConv1d(model.conv2, tmp2, conv2, tmp[..], Tanh);
      ComputeGenericGru(model.in1, model.rec1, gru1, tmp2[..]);
      ComputeGenericGru(model.in2, model.rec2, gru2, gru1[..]);
      ComputeGenericGru(model.in3, model.rec3, gru3, gru2[..]);
      gains := new real[NB_BANDS];
      ComputeGenericDense(model.denseOut, gains, gru3[..], Sigmoid);
      var vads := new real[1];
      ComputeGenericDense(model.vadDense, vads, gru3[..], Sigmoid);
      vad := vads[0];
      assert vads[..][0] == vad;
    }
  }
}
