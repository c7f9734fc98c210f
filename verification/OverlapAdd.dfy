/** Windowed overlap-add: the frame memories of the denoiser and exact reconstruction over runs of frames. */
module OverlapAdd {
  import opened ComplexNumbers
  import opened Dft
  import opened Butterfly
  import opened Fft
  import opened Inversion
  import opened Transform

  // ----- specification on values -----

  /** The symmetric window whose first half is h, applied to a frame of twice its length. */
  function Windowed(x: seq<real>, h: seq<real>): (y: seq<real>)
    requires |x| == 2 * |h|
    ensures |y| == |x|
    ensures forall i :: 0 <= i < |x| ==> y[i] == Times(x[i], h[if i < |h| then i else |x| - 1 - i])
  {
    seq(|x|, i requires 0 <= i < |x| => Times(x[i], h[if i < |h| then i else |x| - 1 - i]))
  }

  ghost predicate PowerComplementary(h: seq<real>) {
    forall i :: 0 <= i < |h| ==> h[i] * h[i] + h[|h| - 1 - i] * h[|h| - 1 - i] == 1.0
  }

  function AddFrames(a: seq<real>, b: seq<real>): (c: seq<real>)
    requires |a| == |b|
    ensures |c| == |a| && forall i :: 0 <= i < |a| ==> c[i] == a[i] + b[i]
  {
    seq(|a|, i requires 0 <= i < |a| => a[i] + b[i])
  }

  function Zeros(n: nat): (z: seq<real>)
    ensures |z| == n && forall i :: 0 <= i < n ==> z[i] == 0.0
  {
    seq(n, i => 0.0)
  }

  /** Memories carried between frames. */
  datatype Memory = Memory(analysis: seq<real>, synthesis: seq<real>, delayed: seq<Complex>)

  ghost predicate Shaped(s: Memory, frame: nat) {
    frame >= 1 && |s.analysis| == frame && |s.synthesis| == frame && |s.delayed| == frame + 1
  }

  /** Spectrum of the window over the previous and the current input. */
  function Analyzed(s: Memory, x: seq<real>, h: seq<real>, w: Complex, scale: real): seq<Complex>
    requires |s.analysis| == |h| == |x|
  {
    Spectrum(Windowed(s.analysis + x, h), w, scale)
  }

  /** The windowed frame that spectrum X stands for. */
  function Resynthesized(X: seq<Complex>, h: seq<real>, w: Complex): (x: seq<real>)
    requires |h| >= 1 && |X| == |h| + 1
    ensures |x| == 2 * |h|
  {
    Windowed(Frame(X, w, 2 * |h|), h)
  }

  /** One frame on which the spectrum is left alone: analyse x, synthesise the delayed spectrum. */
  function Untouched(s: Memory, x: seq<real>, h: seq<real>, w: Complex, scale: real): (r: (Memory, seq<real>))
    requires Shaped(s, |h|) && |x| == |h|
    ensures Shaped(r.0, |h|) && |r.1| == |h|
  {
    var y := Resynthesized(s.delayed, h, w);
    (Memory(x, y[|h|..], Analyzed(s, x, h, w, scale)), AddFrames(y[..|h|], s.synthesis))
  }

  // ----- exact reconstruction -----

  /** A frame analysed and resynthesised is the frame under the squared window. */
  lemma TwiceWindowed(x: seq<real>, h: seq<real>, w: Complex, c: real, scale: real)
    requires |h| >= 1 && |x| == 2 * |h|
    requires ExactRoot(w, 2 * |h|, c) && scale * (2 * |h|) as real == 1.0
    ensures Resynthesized(Spectrum(Windowed(x, h), w, scale), h, w) == Windowed(Windowed(x, h), h)
  {
    hide Frame, Spectrum, Windowed;
    FrameOfSpectrum(Windowed(x, h), w, 2 * |h|, c, scale);
  }

  /** The second half of one doubly windowed frame and the first half of the next add up to the shared input. */
  lemma HalvesAdd(a: seq<real>, b: seq<real>, c: seq<real>, h: seq<real>)
    requires |a| == |b| == |c| == |h| && PowerComplementary(h)
    ensures AddFrames(Windowed(Windowed(b + c, h), h)[..|h|], Windowed(Windowed(a + b, h), h)[|h|..]) == b
  {
    hide Windowed, Times;
    var f := |h|;
    var first, second := Windowed(Windowed(b + c, h), h), Windowed(Windowed(a + b, h), h);
    forall i | 0 <= i < f ensures first[..f][i] + second[f..][i] == b[i] {
      assert first[i] == Times(Times(b[i], h[i]), h[i]);
      assert second[f + i] == Times(Times(b[i], h[f - 1 - i]), h[f - 1 - i]) by {
        assert (a + b)[f + i] == b[i];
      }
      WeightsAdd(b[i], h[i], h[f - 1 - i]);
    }
  }

  lemma WeightsAdd(x: real, p: real, q: real)
    requires p * p + q * q == 1.0
    ensures Times(Times(x, p), p) + Times(Times(x, q), q) == x
  {
    assert (x * p) * p + (x * q) * q == x * (p * p + q * q);
  }

  /** Input frame t of a run; frames before the start are silent zeros. */
  function Past(frames: seq<seq<real>>, t: int, f: nat): seq<real> {
    if 0 <= t < |frames| then frames[t] else Zeros(f)
  }

  ghost predicate Frames(frames: seq<seq<real>>, f: nat) {
    forall t :: 0 <= t < |frames| ==> |frames[t]| == f
  }

  lemma PastSize(frames: seq<seq<real>>, t: int, f: nat)
    requires Frames(frames, f)
    ensures |Past(frames, t, f)| == f
  {
  }

  /** Memories after the run `frames`: each is determined by the last three inputs. */
  ghost predicate Tracks(s: Memory, frames: seq<seq<real>>, h: seq<real>, w: Complex, scale: real)
    requires Frames(frames, |h|)
  {
    var f, t := |h|, |frames|;
    PastSize(frames, t - 1, f);
    PastSize(frames, t - 2, f);
    PastSize(frames, t - 3, f);
    && s.analysis == Past(frames, t - 1, f)
    && s.delayed == Spectrum(Windowed(Past(frames, t - 2, f) + Past(frames, t - 1, f), h), w, scale)
    && s.synthesis == Windowed(Windowed(Past(frames, t - 3, f) + Past(frames, t - 2, f), h), h)[f..]
  }

  /** Every untouched frame returns, exactly, the input of two frames before. */
  lemma UntouchedDelays(s: Memory, frames: seq<seq<real>>, x: seq<real>, h: seq<real>, w: Complex, c: real, scale: real)
    requires |h| >= 1 && |x| == |h| && Frames(frames, |h|) && PowerComplementary(h)
    requires ExactRoot(w, 2 * |h|, c) && scale * (2 * |h|) as real == 1.0
    requires Shaped(s, |h|) && Tracks(s, frames, h, w, scale)
    ensures Frames(frames + [x], |h|)
    ensures Tracks(Untouched(s, x, h, w, scale).0, frames + [x], h, w, scale)
    ensures Untouched(s, x, h, w, scale).1 == Past(frames, |frames| - 2, |h|)
  {
    hide Windowed, Spectrum, Frame, Resynthesized, PowerComplementary, ExactRoot, Past;
    var f, t := |h|, |frames|;
    var a, b, d := Past(frames, t - 3, f), Past(frames, t - 2, f), Past(frames, t - 1, f);
    PastSize(frames, t - 1, f);
    PastSize(frames, t - 2, f);
    PastSize(frames, t - 3, f);
    TwiceWindowed(b + d, h, w, c, scale);
    HalvesAdd(a, b, d, h);
    PastAfter(frames, x, f);
  }

  lemma PastAfter(frames: seq<seq<real>>, x: seq<real>, f: nat)
    requires Frames(frames, f) && |x| == f
    ensures var next, t := frames + [x], |frames|;
      && Frames(next, f)
      && Past(next, t, f) == x
      && Past(next, t - 1, f) == Past(frames, t - 1, f)
      && Past(next, t - 2, f) == Past(frames, t - 2, f)
  {
  }

  /** The memories after reset: all zero, which is the spectrum of silence. */
  function Reset(f: nat): Memory {
    Memory(Zeros(f), Zeros(f), seq(f + 1, i => ZERO))
  }

  lemma {:induction false} SilentSpectrum(w: Complex, scale: real, x: seq<real>)
    requires forall i :: 0 <= i < |x| ==> x[i] == 0.0
    ensures forall k :: 0 <= k < |x| / 2 + 1 ==> Spectrum(x, w, scale)[k] == ZERO
  {
    hide Mul, Pow;
    forall k | 0 <= k < |x| / 2 + 1 ensures Spectrum(x, w, scale)[k] == ZERO {
      var f := (j: int) => Mul(At(RealAsComplex(x), j), Pow(w, j * k));
      forall j | 0 <= j < |x| ensures f(j) == ZERO {
        MulOne(Pow(w, j * k));
      }
      SumZero(|x|, f);
    }
  }

  lemma ZeroWindow(f: nat, h: seq<real>)
    requires |h| == f
    ensures forall i :: 0 <= i < 2 * f ==> Windowed(Zeros(f) + Zeros(f), h)[i] == 0.0
  {
  }

  lemma ResetTracks(h: seq<real>, w: Complex, scale: real)
    requires |h| >= 1
    ensures Shaped(Reset(|h|), |h|) && Tracks(Reset(|h|), [], h, w, scale)
  {
    hide Spectrum;
    var f := |h|;
    var z := Zeros(f) + Zeros(f);
    ZeroWindow(f, h);
    SilentSpectrum(w, scale, Windowed(z, h));
    assert Reset(f).delayed == Spectrum(Windowed(z, h), w, scale);
    assert Windowed(Windowed(z, h), h)[f..] == Zeros(f);
  }

  /** Memories and outputs of a whole run of untouched frames from reset. */
  function Run(frames: seq<seq<real>>, h: seq<real>, w: Complex, scale: real): (r: (Memory, seq<seq<real>>))
    requires |h| >= 1 && (forall t :: 0 <= t < |frames| ==> |frames[t]| == |h|)
    ensures Shaped(r.0, |h|)
  {
    if |frames| == 0 then (Reset(|h|), [])
    else
      var before := Run(frames[..|frames| - 1], h, w, scale);
      var step := Untouched(before.0, frames[|frames| - 1], h, w, scale);
      (step.0, before.1 + [step.1])
  }

  /** Over every run of untouched frames, output t is exactly input t - 2. */
  lemma {:induction false} RunDelaysByTwo(frames: seq<seq<real>>, h: seq<real>, w: Complex, c: real, scale: real)
    requires |h| >= 1 && Frames(frames, |h|) && PowerComplementary(h)
    requires ExactRoot(w, 2 * |h|, c) && scale * (2 * |h|) as real == 1.0
    ensures Tracks(Run(frames, h, w, scale).0, frames, h, w, scale)
    ensures |Run(frames, h, w, scale).1| == |frames|
    ensures forall t :: 0 <= t < |frames| ==> Run(frames, h, w, scale).1[t] == Past(frames, t - 2, |h|)
  {
    hide Untouched, PowerComplementary, ExactRoot, Tracks, Past, Shaped;
    if |frames| == 0 {
      ResetTracks(h, w, scale);
      assert frames == [];
    } else {
      var l := |frames| - 1;
      var prefix := frames[..l];
      assert Frames(prefix, |h|);
      RunDelaysByTwo(prefix, h, w, c, scale);
      UntouchedDelays(Run(prefix, h, w, scale).0, prefix, frames[l], h, w, c, scale);
      assert prefix + [frames[l]] == frames;
      PastPrefix(frames, l, |h|);
    }
  }

  lemma PastPrefix(frames: seq<seq<real>>, l: nat, f: nat)
    requires l < |frames|
    ensures forall t :: t < l ==> Past(frames[..l], t, f) == Past(frames, t, f)
  {
  }

  // ----- the frame memories as the source keeps them -----

  /** Applies the window in place, both ends at once. */
  method ApplyWindow(x: array<real>, h: seq<real>)
    requires x.Length == 2 * |h|
    modifies x
    ensures x[..] == Windowed(old(x[..]), h)
  {
    hide Windowed, Times;
    var f := |h|;
    var i := 0;
    while i < f
      invariant 0 <= i <= f
      invariant forall k :: 0 <= k < i ==> x[k] == Times(old(x[k]), h[k])
      invariant forall k :: 2 * f - i <= k < 2 * f ==> x[k] == Times(old(x[k]), h[2 * f - 1 - k])
      invariant forall k :: i <= k < 2 * f - i ==> x[k] == old(x[k])
    {
      x[i] := Times(x[i], h[i]);
      x[2 * f - 1 - i] := Times(x[2 * f - 1 - i], h[i]);
      i := i + 1;
    }
  }

  /** The first half of x plus the memory. */
  method AddHalf(x: array<real>, mem: array<real>) returns (out: array<real>)
    requires mem.Length <= x.Length
    ensures fresh(out) && out[..] == AddFrames(x[..mem.Length], mem[..])
  {
    out := new real[mem.Length];
    var i := 0;
    while i < mem.Length
      invariant 0 <= i <= mem.Length
      invariant forall k :: 0 <= k < i ==> out[k] == x[k] + mem[k]
    {
      out[i] := x[i] + mem[i];
      i := i + 1;
    }
  }

  class FrameState {
    const st: FftState
    const h: seq<real>
    var analysisMem: array<real>
    var synthesisMem: array<real>
    var delayedX: array<Complex>

    ghost predicate Valid(stages: nat, w: Complex)
      reads this
    {
      && |h| >= 1 && st.nfft == 2 * |h| && Prepared(st, stages, w)
      && analysisMem.Length == |h| && synthesisMem.Length == |h| && delayedX.Length == |h| + 1
      && analysisMem != synthesisMem
    }

    ghost function Mem(): Memory
      reads this, analysisMem, synthesisMem, delayedX
    {
      Memory(analysisMem[..], synthesisMem[..], delayedX[..])
    }

    constructor (st: FftState, h: seq<real>, ghost stages: nat, ghost w: Complex)
      requires |h| >= 1 && st.nfft == 2 * |h| && Prepared(st, stages, w)
      ensures Valid(stages, w) && Mem() == Reset(|h|)
      ensures this.st == st && this.h == h
      ensures fresh(analysisMem) && fresh(synthesisMem) && fresh(delayedX)
    {
      this.st := st;
      this.h := h;
      analysisMem := new real[|h|](i => 0.0);
      synthesisMem := new real[|h|](i => 0.0);
      delayedX := new Complex[|h| + 1](i => ZERO);
    }

    /** Window over previous and current input, then transform; the input becomes the previous one. */
    method FrameAnalysis(input: array<real>, ghost stages: nat, ghost w: Complex) returns (X: array<Complex>)
      requires Valid(stages, w) && input.Length == |h| && input != analysisMem
      modifies analysisMem
      ensures fresh(X) && X[..] == Analyzed(old(Mem()), input[..], h, w, st.scale)
      ensures analysisMem[..] == input[..]
    {
      hide Prepared, Spectrum, Windowed;
      var f := |h|;
      var x := new real[2 * f];
      Copy(analysisMem, 0, x, 0, f);
      Copy(input, 0, x, f, f);
      assert x[..] == analysisMem[..] + input[..];
      ghost var both := x[..];
      Copy(input, 0, analysisMem, 0, f);
      assert analysisMem[..] == input[..];
      assert x[..] == both;
      ApplyWindow(x, h);
      X := ForwardTransform(st, x, stages, w);
    }

    /** Inverse transform, window, overlap with the kept half; the second half is kept. */
    method FrameSynthesis(X: seq<Complex>, ghost stages: nat, ghost w: Complex) returns (out: array<real>)
      requires Valid(stages, w) && |X| == |h| + 1
      modifies synthesisMem
      ensures fresh(out)
      ensures out[..] == AddFrames(Resynthesized(X, h, w)[..|h|], old(synthesisMem[..]))
      ensures synthesisMem[..] == Resynthesized(X, h, w)[|h|..]
    {
      hide Prepared, Frame, Windowed;
      var f := |h|;
      var x := InverseTransform(st, X, stages, w);
      ApplyWindow(x, h);
      out := AddHalf(x, synthesisMem);
      Copy(x, f, synthesisMem, 0, f);
    }

    /** A silent frame: the delayed spectrum is synthesised as it is, then replaced by the new one. */
    method ProcessSilentFrame(input: array<real>, ghost stages: nat, ghost w: Complex) returns (out: array<real>)
      requires Valid(stages, w) && input.Length == |h|
      requires input != analysisMem && input != synthesisMem
      modifies analysisMem, synthesisMem, delayedX
      ensures Valid(stages, w) && fresh(out)
      ensures var r := Untouched(old(Mem()), old(input[..]), h, w, st.scale);
        Mem() == r.0 && out[..] == r.1
    {
      var X := FrameAnalysis(input, stages, w);
      out := FrameSynthesis(delayedX[..], stages, w);
      CopyBins(X, delayedX);
    }
  }

  method Copy(src: array<real>, from: nat, dst: array<real>, to: nat, count: nat)
    requires from + count <= src.Length && to + count <= dst.Length && src != dst
    modifies dst
    ensures dst[..] == old(dst[..])[..to] + src[from..from + count] + old(dst[..])[to + count..]
  {
    var i := 0;
    while i < count
      invariant 0 <= i <= count
      invariant forall k :: to <= k < to + i ==> dst[k] == src[k - to + from]
      invariant forall k :: 0 <= k < to ==> dst[k] == old(dst[k])
      invariant forall k :: to + i <= k < dst.Length ==> dst[k] == old(dst[k])
      invariant src[..] == old(src[..])
    {
      dst[to + i] := src[from + i];
      i := i + 1;
    }
  }

  method CopyBins(src: array<Complex>, dst: array<Complex>)
    requires src.Length == dst.Length && src != dst
    modifies dst
    ensures dst[..] == src[..]
  {
    var i := 0;
    while i < src.Length
      invariant 0 <= i <= src.Length
      invariant forall k :: 0 <= k < i ==> dst[k] == src[k]
    {
      dst[i] := src[i];
      i := i + 1;
    }
  }
}
