/** Network, smoothing and interpolation together: the bin gains of every frame of a run. */
module FrameRun {
  import opened Gains
  import opened Network

  /** Raw gains the network gives on frame t of a run of voiced frames from reset. */
  ghost function RawGains(m: Model, voiced: seq<seq<real>>, t: nat): (g: seq<real>)
    requires ModelOk(m) && Features(voiced) && t < |voiced|
    ensures |g| == NB_BANDS
  {
    RnnStep(m, StateAfter(m, voiced[..t]), voiced[t]).1
  }

  /** Band b's smoothing history is the network's gains for that band, frame by frame. */
  ghost predicate Traced(seen: seq<Seen>, m: Model, voiced: seq<seq<real>>, b: nat)
    requires ModelOk(m) && Features(voiced) && b < NB_BANDS
  {
    |seen| == |voiced| && forall t :: 0 <= t < |voiced| ==> seen[t].raw == RawGains(m, voiced, t)[b]
  }

  lemma TraceGrows(seen: seq<Seen>, s: Seen, m: Model, voiced: seq<seq<real>>, x: seq<real>, b: nat)
    requires ModelOk(m) && Features(voiced) && |x| == INPUT_SIZE && b < NB_BANDS && Traced(seen, m, voiced, b)
    requires s.raw == RnnStep(m, StateAfter(m, voiced), x).1[b]
    ensures Features(voiced + [x]) && Traced(seen + [s], m, voiced + [x], b)
  {
    hide ModelOk, RnnStep, StateAfter;
    var all := voiced + [x];
    forall t | 0 <= t < |all| ensures (seen + [s])[t].raw == RawGains(m, all, t)[b] {
      if t < |voiced| {
        assert all[..t] == voiced[..t];
        assert seen[t].raw == RawGains(m, voiced, t)[b];
      } else {
        assert all[..t] == voiced;
      }
    }
  }

  lemma StateGrows(m: Model, voiced: seq<seq<real>>, x: seq<real>)
    requires ModelOk(m) && Features(voiced) && |x| == INPUT_SIZE
    ensures Features(voiced + [x]) && StateAfter(m, voiced + [x]) == RnnStep(m, StateAfter(m, voiced), x).0
  {
    hide ModelOk, RnnStep;
    assert (voiced + [x])[..|voiced|] == voiced;
  }

  class Suppressor {
    const rnn: Rnn
    const smoother: Smoother
    ghost var voiced: seq<seq<real>>

    /** The network has seen exactly the voiced frames so far, and the smoother exactly its gains for them. */
    ghost predicate Valid()
      reads this, rnn.conv1, rnn.conv2, rnn.gru1, rnn.gru2, rnn.gru3, smoother, smoother.lastg
    {
      && rnn.Valid() && smoother.Valid() && Features(voiced)
      && smoother.lastg !in {rnn.conv1, rnn.conv2, rnn.gru1, rnn.gru2, rnn.gru3}
      && rnn.State() == StateAfter(rnn.model, voiced)
      && forall b :: 0 <= b < NB_BANDS ==> Traced(smoother.seen[b], rnn.model, voiced, b)
    }

    constructor (model: Model)
      requires ModelOk(model)
      ensures Valid() && voiced == [] && rnn.model == model && smoother.strength == 0.6
      ensures forall b :: 0 <= b < NB_BANDS ==> smoother.seen[b] == []
      ensures fresh(smoother) && fresh(smoother.lastg)
      ensures fresh(rnn.conv1) && fresh(rnn.conv2) && fresh(rnn.gru1) && fresh(rnn.gru2) && fresh(rnn.gru3)
    {
      rnn := new Rnn(model);
      smoother := new Smoother();
      voiced := [];
    }

    method SetStrength(strength: real)
      requires Valid()
      modifies smoother`strength
      ensures Valid() && smoother.strength == Clamped(strength)
    {
      hide ModelOk, RnnStep, StateAfter, StateShaped, After, Legal, Traced;
      smoother.SetStrength(strength);
    }

    /** Forgets the run but keeps the strength. */
    method Reset()
      requires Valid()
      modifies this`voiced, rnn.conv1, rnn.conv2, rnn.gru1, rnn.gru2, rnn.gru3, smoother, smoother.lastg
      ensures Valid() && voiced == [] && smoother.strength == old(smoother.strength)
      ensures forall b :: 0 <= b < NB_BANDS ==> smoother.seen[b] == []
    {
      hide ModelOk, RnnStep, StateShaped, After, Legal;
      rnn.Reset();
      smoother.Reset();
      voiced := [];
    }

    /** A frame that is not silent: whatever its features, its bin gains lie in [0, 1], are zero above 20 kHz
        and interpolate the largest decayed gains of the run; and so does the voice probability lie in [0, 1]. */
    method VoicedFrame(x: seq<real>) returns (gf: array<real>, vad: real)
      requires Valid() && |x| == INPUT_SIZE
      modifies this`voiced, rnn.conv1, rnn.conv2, rnn.gru1, rnn.gru2, rnn.gru3, smoother`seen, smoother.lastg
      ensures Valid() && voiced == old(voiced) + [x] && fresh(gf) && gf.Length == FREQ_SIZE
      ensures UnitInterval(gf[..]) && 0.0 <= vad <= 1.0
      ensures SeenGrew(smoother.seen, old(smoother.seen), rnn.model, old(voiced), x, smoother.strength)
      ensures forall k :: 0 <= k < 400 ==> gf[k] == BinGain(smoother.lastg[..], k)
      ensures forall k :: 400 <= k < FREQ_SIZE ==> gf[k] == 0.0
    {
      hide ModelOk, RnnStep, StateAfter, StateBounded, StateShaped, After, BinGain, Legal, Edge, Traced, UnitInterval;
      RunBounded(rnn.model, voiced, x);
      ghost var was, seen := voiced, smoother.seen;
      var gains;
      gains, vad := rnn.ComputeRnn(x);
      ghost var raw := gains[..];
      TopEdge();
      gf := FrameGains(smoother, gains);
      StateGrows(rnn.model, was, x);
      voiced := was + [x];
      forall b | 0 <= b < NB_BANDS ensures Traced(smoother.seen[b], rnn.model, voiced, b) {
        TraceGrows(seen[b], Seen(raw[b], smoother.strength), rnn.model, was, x, b);
      }
    }
  }

  /** Every band has seen one more frame. */
  ghost predicate SeenGrew(now: seq<seq<Seen>>, was: seq<seq<Seen>>, m: Model, voiced: seq<seq<real>>, x: seq<real>, strength: real) {
    && ModelOk(m) && Features(voiced) && |x| == INPUT_SIZE && |now| == |was| == NB_BANDS
    && forall b :: 0 <= b < NB_BANDS ==> now[b] == was[b] + [SeenOn(m, voiced, x, strength, b)]
  }

  /** What band b sees on a frame: the gain the network gives it after these frames, and the strength then set. */
  ghost function SeenOn(m: Model, voiced: seq<seq<real>>, x: seq<real>, strength: real, b: nat): Seen
    requires ModelOk(m) && Features(voiced) && |x| == INPUT_SIZE && b < NB_BANDS
  {
    Seen(RnnStep(m, StateAfter(m, voiced), x).1[b], strength)
  }

  lemma TopEdge()
    ensures Edge(NB_BANDS + 1) == 400
  {
  }

  /** What a caller does: a frame that counts as silent, one that does not, a new strength, or a reset. */
  datatype Step = SilentFrame | Voiced(features: seq<real>) | Strength(value: real) | Restart

  ghost predicate Shaped(steps: seq<Step>) {
    forall t :: 0 <= t < |steps| && steps[t].Voiced? ==> |steps[t].features| == INPUT_SIZE
  }

  /** The voiced frames since the last reset. */
  ghost function VoicedOf(steps: seq<Step>): (v: seq<seq<real>>)
    requires Shaped(steps)
    ensures Features(v)
  {
    if steps == [] then []
    else
      var last := steps[|steps| - 1];
      if last.Restart? then []
      else VoicedOf(steps[..|steps| - 1]) + if last.Voiced? then [last.features] else []
  }

  /** The strength last set. */
  function StrengthOf(steps: seq<Step>): real {
    if steps == [] then 0.6
    else
      var last := steps[|steps| - 1];
      if last.Strength? then Clamped(last.value) else StrengthOf(steps[..|steps| - 1])
  }

  /** What band b has seen since the last reset: on each voiced frame, the network's gain on the run so far. */
  ghost function HistoryOf(m: Model, steps: seq<Step>, b: nat): seq<Seen>
    requires ModelOk(m) && Shaped(steps) && b < NB_BANDS
  {
    if steps == [] then []
    else
      var last, before := steps[|steps| - 1], steps[..|steps| - 1];
      match last
      case Restart => []
      case Voiced(x) => HistoryOf(m, before, b) + [SeenOn(m, VoicedOf(before), x, StrengthOf(before), b)]
      case _ => HistoryOf(m, before, b)
  }

  /** The bin gains of a voiced frame that ends these steps: interpolated decayed peaks of the bands' histories. */
  ghost predicate BinsOf(m: Model, steps: seq<Step>, bins: seq<real>)
    requires ModelOk(m) && Shaped(steps)
  {
    && |bins| == FREQ_SIZE
    && (forall k :: 0 <= k < 400 ==> k < Edge(NB_BANDS + 1) && bins[k] == BinGain(PeaksOf(m, steps), k))
    && (forall k :: 400 <= k < FREQ_SIZE ==> bins[k] == 0.0)
  }

  ghost function PeaksOf(m: Model, steps: seq<Step>): (p: seq<real>)
    requires ModelOk(m) && Shaped(steps)
    ensures |p| == NB_BANDS && forall b :: 0 <= b < NB_BANDS ==> p[b] == After(HistoryOf(m, steps, b))
  {
    seq(NB_BANDS, b requires 0 <= b < NB_BANDS => After(HistoryOf(m, steps, b)))
  }

  /** The suppressor holds exactly what these steps leave. */
  ghost predicate Holds(s: Suppressor, steps: seq<Step>)
    reads s, s.rnn.conv1, s.rnn.conv2, s.rnn.gru1, s.rnn.gru2, s.rnn.gru3, s.smoother, s.smoother.lastg
    requires Shaped(steps)
  {
    && s.Valid() && s.voiced == VoicedOf(steps) && s.smoother.strength == StrengthOf(steps)
    && forall b :: 0 <= b < NB_BANDS ==> s.smoother.seen[b] == HistoryOf(s.rnn.model, steps, b)
  }

  lemma ShapedPrefix(steps: seq<Step>, t: nat)
    requires Shaped(steps) && t < |steps|
    ensures Shaped(steps[..t]) && Shaped(steps[..t + 1])
    ensures steps[..t + 1][..t] == steps[..t] && steps[..t + 1][t] == steps[t]
  {
  }

  method OneStep(s: Suppressor, ghost steps: seq<Step>, step: Step) returns (out: seq<real>)
    requires Shaped(steps) && Shaped(steps + [step]) && Holds(s, steps)
    modifies s`voiced, s.smoother, s.smoother.lastg, s.rnn.conv1, s.rnn.conv2, s.rnn.gru1, s.rnn.gru2, s.rnn.gru3
    ensures Holds(s, steps + [step])
    ensures step.Voiced? ==> BinsOf(s.rnn.model, steps + [step], out) && UnitInterval(out)
  {
    hide ModelOk, Suppressor.Valid, UnitInterval, RnnStep, StateAfter, After, BinGain, Edge;
    ghost var now := steps + [step];
    assert now[..|steps|] == steps && now[|steps|] == step;
    out := [];
    match step {
      case SilentFrame =>
      case Voiced(features) =>
        assert |features| == INPUT_SIZE by { assert now[|steps|].features == features; }
        var gf, vad := s.VoicedFrame(features);
        out := gf[..];
        BandsHeld(s);
        TopEdge();
        assert s.smoother.lastg[..] == PeaksOf(s.rnn.model, now);
      case Strength(value) => s.SetStrength(value);
      case Restart => s.Reset();
    }
  }

  lemma BandsHeld(s: Suppressor)
    requires s.Valid()
    ensures s.smoother.lastg.Length == NB_BANDS == |s.smoother.seen| && ModelOk(s.rnn.model)
    ensures forall b :: 0 <= b < NB_BANDS ==> s.smoother.lastg[b] == After(s.smoother.seen[b])
  {
    hide ModelOk, RnnStep, StateAfter, After, Traced, Legal;
  }

  /** Over every run of steps the bin gains of every voiced frame are the interpolated decayed peaks of what the
      network gave on the voiced frames since the last reset, and lie in [0, 1]. Silent frames leave network and
      smoother alone. */
  method RunSteps(model: Model, steps: seq<Step>) returns (bins: seq<seq<real>>)
    requires ModelOk(model) && Shaped(steps)
    ensures |bins| == |steps|
    ensures forall t :: 0 <= t < |steps| && steps[t].Voiced? ==> |bins[t]| == FREQ_SIZE && UnitInterval(bins[t])
    ensures forall t :: 0 <= t < |steps| && steps[t].Voiced? ==> Shaped(steps[..t + 1]) && BinsOf(model, steps[..t + 1], bins[t])
  {
    hide ModelOk, Suppressor.Valid, UnitInterval, BinsOf, Holds, Shaped;
    var s := new Suppressor(model);
    assert Shaped([]) && Holds(s, []) by { Fresh(s); }
    bins := [];
    var t := 0;
    while t < |steps|
      invariant 0 <= t <= |steps| && |bins| == t && Shaped(steps[..t]) && Holds(s, steps[..t]) && s.rnn.model == model
      invariant fresh(s) && fresh(s.smoother) && fresh(s.smoother.lastg) && fresh(s.rnn.conv1) && fresh(s.rnn.conv2)
      invariant fresh(s.rnn.gru1) && fresh(s.rnn.gru2) && fresh(s.rnn.gru3)
      invariant forall j :: 0 <= j < t && steps[j].Voiced? ==> UnitInterval(bins[j])
      invariant forall j :: 0 <= j < t && steps[j].Voiced? ==> Shaped(steps[..j + 1]) && BinsOf(model, steps[..j + 1], bins[j])
    {
      ShapedPrefix(steps, t);
      assert steps[..t + 1] == steps[..t] + [steps[t]];
      var out := OneStep(s, steps[..t], steps[t]);
      bins := bins + [out];
      t := t + 1;
    }
    forall t | 0 <= t < |steps| && steps[t].Voiced? ensures |bins[t]| == FREQ_SIZE {
      BinsSize(model, steps[..t + 1], bins[t]);
    }
  }

  lemma BinsSize(m: Model, steps: seq<Step>, bins: seq<real>)
    requires ModelOk(m) && Shaped(steps) && BinsOf(m, steps, bins)
    ensures |bins| == FREQ_SIZE
  {
  }

  lemma Fresh(s: Suppressor)
    requires s.Valid() && s.voiced == [] && s.smoother.strength == 0.6
    requires forall b :: 0 <= b < NB_BANDS ==> s.smoother.seen[b] == []
    ensures Shaped([]) && Holds(s, [])
  {
    hide ModelOk, Suppressor.Valid, RnnStep, StateAfter;
  }
}
