/** The render thread's block-by-block choice of noise reduction, and the watchdog over the denoiser. */
module Pipeline {
  import opened Wrappers
  import Protocol

  const BLOCK := 480
  const WARMUP_UNDERFLOW_BLOCKS := 4
  const STEADY_UNDERFLOW_BLOCKS := 3
  const DPDFNET_REQUESTED := 1

  datatype Backend = Off | Rnnoise | Dpdfnet

  /** What becomes of a block. */
  datatype Fate = Bypassed | Plain | ByRnnoise | Denoised | Silent

  /** What one call of process reads from shared state, in order; other threads may change it in between.
      `result` is what the denoiser hands back, `rnnoised` what RNNoise would make of the block. */
  datatype Reading = Reading(
    nrOn: bool, requested: int, globalEpoch: nat,
    readyAtChoice: bool, readyAtBlock: bool, result: Option<seq<real>>, failedAfter: bool, readyAtDegrade: bool,
    rnnoised: seq<real>)

  /** Blocks since a stream reset: only plain ones, or blocks of the denoiser followed by RNNoise ones. */
  ghost predicate OneWay(h: seq<Fate>) {
    && (forall i :: 0 <= i < |h| ==> h[i] != Bypassed)
    && (forall i, j :: 0 <= i < j < |h| && h[i] == ByRnnoise ==> h[j] == ByRnnoise)
    && (forall i, j :: 0 <= i < |h| && 0 <= j < |h| ==> (h[i] == Plain <==> h[j] == Plain))
  }

  /** At most four blocks are silenced before the first denoised one. */
  ghost predicate ShortWarmUp(h: seq<Fate>) {
    forall k :: 0 <= k < |h| && h[k] == Silent && Denoised !in h[..k] ==> k < WARMUP_UNDERFLOW_BLOCKS
  }

  /** After a denoised block no three blocks in a row are silenced. */
  ghost predicate ShortGaps(h: seq<Fate>) {
    forall i, k :: 0 <= i < k < |h| - 2 && h[i] == Denoised ==> !ThreeSilent(h, k)
  }

  predicate ThreeSilent(h: seq<Fate>, k: nat)
    requires k + 2 < |h|
  {
    h[k] == Silent && h[k + 1] == Silent && h[k + 2] == Silent
  }

  ghost predicate BoundedSilence(h: seq<Fate>) {
    OneWay(h) && ShortWarmUp(h) && ShortGaps(h)
  }

  /** Silenced blocks at the very end. */
  function Tail(h: seq<Fate>): (n: nat)
    ensures n <= |h|
    ensures forall i :: |h| - n <= i < |h| ==> h[i] == Silent
    ensures n < |h| ==> h[|h| - n - 1] != Silent
  {
    if h == [] || h[|h| - 1] != Silent then 0 else Tail(h[..|h| - 1]) + 1
  }

  predicate OfDenoiser(h: seq<Fate>) {
    forall i :: 0 <= i < |h| ==> h[i] == Silent || h[i] == Denoised
  }

  /** What the watchdog's variables say about the blocks since the last reset. */
  ghost predicate Watched(h: seq<Fate>, active: Backend, seenOutput: bool, underflows: nat, degraded: bool) {
    && BoundedSilence(h) && (seenOutput <==> Denoised in h)
    && match active
       case Off => forall i :: 0 <= i < |h| ==> h[i] == Plain
       case Rnnoise => forall i :: 0 <= i < |h| ==> h[i] != Plain
       case Dpdfnet => OfDenoiser(h) && underflows == Tail(h) && !degraded && !GiveUp(seenOutput, underflows)
  }

  predicate GiveUp(seenOutput: bool, underflows: nat) {
    if seenOutput then underflows >= STEADY_UNDERFLOW_BLOCKS else underflows > WARMUP_UNDERFLOW_BLOCKS
  }

  /** The denoiser is ready for this block, stays alive through it and has output for it. */
  predicate Delivers(now: Reading) {
    now.readyAtBlock && !now.failedAfter && now.result.Some?
  }

  /** From the history alone, when one more block without output is one too many: the fifth of a stream without
      any, or the third in a row after a denoised block. */
  predicate FallsBack(h: seq<Fate>) {
    if Denoised in h then |h| >= 2 && h[|h| - 1] == Silent && h[|h| - 2] == Silent else |h| >= 4
  }

  lemma FallsBackIff(h: seq<Fate>, seenOutput: bool, underflows: nat)
    requires Watched(h, Dpdfnet, seenOutput, underflows, false)
    ensures FallsBack(h) <==> GiveUp(seenOutput, underflows + 1)
  {
    if Denoised in h { LastTwo(h); TailTwo(h); } else { AllSilent(h); }
  }

  lemma TailTwo(h: seq<Fate>)
    ensures Tail(h) >= 2 ==> |h| >= 2 && h[|h| - 1] == Silent && h[|h| - 2] == Silent
  {
  }

  /** The backend a new stream starts with. */
  function FreshBackend(now: Reading): Backend {
    if !now.nrOn then Off
    else if now.requested == DPDFNET_REQUESTED && now.readyAtChoice then Dpdfnet else Rnnoise
  }

  /** What becomes of a block under a backend and the watchdog's variables. */
  function FateOf(active: Backend, seenOutput: bool, underflows: nat, now: Reading): Fate {
    match active
    case Off => Plain
    case Rnnoise => ByRnnoise
    case Dpdfnet =>
      if !now.readyAtBlock || now.failedAfter then ByRnnoise
      else if now.result.Some? then Denoised
      else if GiveUp(seenOutput, underflows + 1) then ByRnnoise else Silent
  }

  lemma AddPlain(h: seq<Fate>, seenOutput: bool, underflows: nat, degraded: bool)
    requires Watched(h, Off, seenOutput, underflows, degraded)
    ensures Watched(h + [Plain], Off, seenOutput, underflows, degraded)
  {
  }

  lemma AddRnnoise(h: seq<Fate>, active: Backend, seenOutput: bool, underflows: nat, degraded: bool, u: nat, d: bool)
    requires active != Off && Watched(h, active, seenOutput, underflows, degraded)
    ensures Watched(h + [ByRnnoise], Rnnoise, seenOutput, u, d)
  {
    NoNewGap(h, ByRnnoise);
    var g := h + [ByRnnoise];
    assert forall k :: 0 <= k <= |h| ==> g[..k] == h[..k];
  }

  lemma AddDenoised(h: seq<Fate>, seenOutput: bool, underflows: nat)
    requires Watched(h, Dpdfnet, seenOutput, underflows, false)
    ensures Watched(h + [Denoised], Dpdfnet, true, 0, false)
  {
    hide OneWay, ShortWarmUp, ShortGaps;
    NoNewGap(h, Denoised);
    DenoisedOneWay(h);
    var g := h + [Denoised];
    assert g[|h|] in g;
  }

  lemma DenoisedOneWay(h: seq<Fate>)
    requires OfDenoiser(h) && ShortWarmUp(h)
    ensures OneWay(h + [Denoised]) && ShortWarmUp(h + [Denoised])
  {
    var g := h + [Denoised];
    assert forall k :: 0 <= k <= |h| ==> g[..k] == h[..k];
  }

  /** A block that is not silenced cannot complete a run of three. */
  lemma NoNewGap(h: seq<Fate>, f: Fate)
    requires ShortGaps(h) && f != Silent
    ensures ShortGaps(h + [f])
  {
    var g := h + [f];
    forall i, k | 0 <= i < k < |g| - 2 && g[i] == Denoised ensures !ThreeSilent(g, k) {
      if k + 2 < |h| { assert ThreeSilent(g, k) == ThreeSilent(h, k); }
    }
  }

  lemma AddSilent(h: seq<Fate>, seenOutput: bool, underflows: nat)
    requires Watched(h, Dpdfnet, seenOutput, underflows, false) && !GiveUp(seenOutput, underflows + 1)
    ensures Watched(h + [Silent], Dpdfnet, seenOutput, underflows + 1, false)
  {
    hide OneWay, ShortWarmUp, ShortGaps;
    var g := h + [Silent];
    assert g[..|h|] == h;
    StillOneWay(h);
    StillShortWarmUp(h, seenOutput);
    StillShortGaps(h, seenOutput);
  }

  lemma StillOneWay(h: seq<Fate>)
    requires OfDenoiser(h)
    ensures OneWay(h + [Silent])
  {
  }

  lemma StillShortWarmUp(h: seq<Fate>, seenOutput: bool)
    requires OfDenoiser(h) && ShortWarmUp(h) && (seenOutput <==> Denoised in h) && !GiveUp(seenOutput, Tail(h) + 1)
    ensures ShortWarmUp(h + [Silent])
  {
    var g, n := h + [Silent], |h|;
    assert forall k :: 0 <= k <= n ==> g[..k] == h[..k];
    assert h[..n] == h;
    if Denoised !in h { AllSilent(h); }
  }

  lemma StillShortGaps(h: seq<Fate>, seenOutput: bool)
    requires ShortGaps(h) && (seenOutput <==> Denoised in h) && !GiveUp(seenOutput, Tail(h) + 1)
    ensures ShortGaps(h + [Silent])
  {
    var g, n := h + [Silent], |h|;
    LastTwo(h);
    forall i, k | 0 <= i < k < |g| - 2 && g[i] == Denoised ensures !ThreeSilent(g, k) {
      assert h[i] == Denoised;
      if k + 2 < n { assert ThreeSilent(g, k) == ThreeSilent(h, k); }
    }
  }

  lemma LastTwo(h: seq<Fate>)
    ensures |h| >= 2 && h[|h| - 1] == Silent && h[|h| - 2] == Silent ==> Tail(h) >= 2
  {
  }

  lemma {:induction false} AllSilent(h: seq<Fate>)
    requires OfDenoiser(h) && Denoised !in h
    ensures Tail(h) == |h|
  {
    if h != [] {
      assert h[|h| - 1] in h;
      AllSilent(h[..|h| - 1]);
    }
  }

  class DspPipeline {
    var activeBackend: Backend
    var streamEpoch: nat
    var nrActive: bool
    var lastRequestedBackend: int
    var seenGlobalEpoch: nat
    var seenOutput: bool
    var underflows: nat
    var degraded: bool

    // published to other threads
    var effectiveBackend: Backend
    var publishedDegraded: bool
    var dpdfnetAvailable: bool

    // history: the fates since the last stream reset, and every call made to the denoiser
    ghost var sinceReset: seq<Fate>
    ghost var calls: seq<Protocol.Call>

    ghost predicate Valid()
      reads this
    {
      && effectiveBackend == activeBackend && (activeBackend == Off <==> !nrActive)
      && Watched(sinceReset, activeBackend, seenOutput, underflows, degraded)
      && (activeBackend == Dpdfnet ==> lastRequestedBackend == DPDFNET_REQUESTED)
      && NonDecreasing(calls, streamEpoch)
    }

    constructor (nrOn: bool, available: bool)
      ensures Valid() && streamEpoch == 1 && calls == [] && sinceReset == [] && nrActive == nrOn
      ensures lastRequestedBackend == -1
    {
      nrActive, lastRequestedBackend, seenGlobalEpoch, streamEpoch := nrOn, -1, 0, 1;
      seenOutput, underflows, degraded, publishedDegraded := false, 0, false, false;
      activeBackend := if nrOn then Rnnoise else Off;
      effectiveBackend := if nrOn then Rnnoise else Off;
      dpdfnetAvailable := available;
      sinceReset, calls := [], [];
    }

    function ChooseEffectiveBackend(requested: int, ready: bool): Backend
      reads this
    {
      if requested == DPDFNET_REQUESTED && ready && !degraded then Dpdfnet else Rnnoise
    }

    method ResetStreamState()
      modifies this`streamEpoch, this`seenOutput, this`underflows, this`degraded, this`publishedDegraded,
               this`sinceReset, this`calls
      requires NonDecreasing(calls, streamEpoch)
      ensures streamEpoch == old(streamEpoch) + 1 && calls == old(calls) + [Protocol.SetEpoch(streamEpoch)]
      ensures NonDecreasing(calls, streamEpoch)
      ensures !seenOutput && underflows == 0 && !degraded && !publishedDegraded && sinceReset == []
    {
      streamEpoch := streamEpoch + 1;
      calls := calls + [Protocol.SetEpoch(streamEpoch)];
      seenOutput, underflows, degraded, publishedDegraded := false, 0, false, false;
      sinceReset := [];
    }

    method RecordUnderflow() returns (giveUp: bool)
      modifies this`underflows
      ensures underflows == old(underflows) + 1
      ensures giveUp <==> GiveUp(seenOutput, underflows)
    {
      underflows := underflows + 1;
      if seenOutput { return underflows >= STEADY_UNDERFLOW_BLOCKS; }
      return underflows > WARMUP_UNDERFLOW_BLOCKS;
    }

    /** Falls back to RNNoise; output still pending for the old epoch goes stale. */
    method Degrade(processorReady: bool)
      requires NonDecreasing(calls, streamEpoch)
      modifies this`degraded, this`streamEpoch, this`calls, this`dpdfnetAvailable, this`publishedDegraded,
               this`activeBackend, this`effectiveBackend
      ensures degraded && activeBackend == Rnnoise && effectiveBackend == Rnnoise
      ensures NonDecreasing(calls, streamEpoch) && old(calls) <= calls
      ensures streamEpoch == old(streamEpoch) + if old(degraded) then 0 else 1
      ensures publishedDegraded == processorReady && (!processorReady ==> !dpdfnetAvailable)
    {
      if !degraded {
        degraded := true;
        streamEpoch := streamEpoch + 1;
        calls := calls + [Protocol.SetEpoch(streamEpoch)];
      }
      if !processorReady {
        dpdfnetAvailable := false;
        publishedDegraded := false;
      } else {
        publishedDegraded := true;
      }
      activeBackend := Rnnoise;
      effectiveBackend := Rnnoise;
    }

    ghost predicate SettingsChanged(now: Reading)
      reads this
    {
      now.nrOn != nrActive || now.requested != lastRequestedBackend || now.globalEpoch != seenGlobalEpoch
    }

    /** Starts a new stream and chooses its backend when a setting or the global epoch has changed. */
    method Refresh(now: Reading)
      requires Valid()
      modifies this
      ensures Valid() && old(calls) <= calls && nrActive == now.nrOn
      ensures lastRequestedBackend == now.requested && seenGlobalEpoch == now.globalEpoch
      ensures forall i :: |old(calls)| <= i < |calls| ==> calls[i].SetEpoch?
      ensures old(SettingsChanged(now)) ==> activeBackend == FreshBackend(now) && !seenOutput && underflows == 0
      ensures old(SettingsChanged(now)) ==>
                && (activeBackend == Dpdfnet <==> now.nrOn && now.requested == 1 && now.readyAtChoice)
                && (activeBackend == Off <==> !now.nrOn)
      ensures if old(SettingsChanged(now)) then streamEpoch > old(streamEpoch) && sinceReset == []
              else streamEpoch == old(streamEpoch) && sinceReset == old(sinceReset) && activeBackend == old(activeBackend)
                   && seenOutput == old(seenOutput) && underflows == old(underflows)
    {
      hide Watched, NonDecreasing;
      if now.nrOn != nrActive || now.requested != lastRequestedBackend || now.globalEpoch != seenGlobalEpoch {
        ResetStreamState();
        nrActive, lastRequestedBackend, seenGlobalEpoch := now.nrOn, now.requested, now.globalEpoch;
        activeBackend := if now.nrOn then ChooseEffectiveBackend(now.requested, now.readyAtChoice) else Off;
        effectiveBackend := activeBackend;
        EmptyHistory(activeBackend);
      }
    }

    /** One block. Whatever the worker does, silence stays bounded, a fall-back lasts until the next reset,
        the published backend is the active one, and the denoiser's epochs
        never go back. */
    method Process(samples: array<real>, now: Reading) returns (fate: Fate)
      requires Valid() && |now.rnnoised| == BLOCK && (now.result.Some? ==> |now.result.value| == BLOCK)
      modifies this, samples
      ensures Valid() && old(calls) <= calls && streamEpoch >= old(streamEpoch)
      ensures fate == Bypassed <==> samples.Length != BLOCK
      ensures fate == Bypassed ==> samples[..] == old(samples[..]) && sinceReset == old(sinceReset)
      ensures fate != Bypassed ==>
                && nrActive == now.nrOn && (effectiveBackend == Off <==> !now.nrOn)
                && sinceReset == (if old(SettingsChanged(now)) then [] else old(sinceReset)) + [fate]
                && (old(SettingsChanged(now)) ==> streamEpoch > old(streamEpoch))
      ensures fate != Bypassed ==>
                fate == if old(SettingsChanged(now)) then FateOf(FreshBackend(now), false, 0, now)
                        else FateOf(old(activeBackend), old(seenOutput), old(underflows), now)
      ensures fate != Bypassed ==> lastRequestedBackend == now.requested && seenGlobalEpoch == now.globalEpoch
      ensures fate != Bypassed && (now.nrOn != old(nrActive) || now.requested != old(lastRequestedBackend) || now.globalEpoch != old(seenGlobalEpoch)) ==>
                streamEpoch > old(streamEpoch)
      ensures fate != Bypassed && old(SettingsChanged(now)) && now.nrOn && now.requested == 1 && now.readyAtChoice && Delivers(now) ==>
                fate == Denoised
      ensures fate != Bypassed && old(SettingsChanged(now)) && now.nrOn && (now.requested != 1 || !now.readyAtChoice) ==>
                fate == ByRnnoise && forall i :: |old(calls)| <= i < |calls| ==> calls[i].SetEpoch?
      ensures fate == Denoised || fate == Silent ==> now.nrOn && now.requested == 1 && now.readyAtBlock && !now.failedAfter
      ensures fate != Bypassed && !old(SettingsChanged(now)) && old(activeBackend) == Dpdfnet && now.readyAtBlock && !now.failedAfter ==>
                if now.result.Some? then fate == Denoised
                else fate == if FallsBack(old(sinceReset)) then ByRnnoise else Silent
      ensures fate == ByRnnoise ==> samples[..] == now.rnnoised
      ensures fate == Denoised ==> now.result.Some? && samples[..] == now.result.value
      ensures fate == Denoised || fate == Silent ==> calls != [] && calls[|calls| - 1] == Protocol.ProcessBlock(streamEpoch)
      ensures fate == Silent ==> forall i :: 0 <= i < BLOCK ==> samples[i] == 0.0
      ensures fate == Plain ==> samples[..] == old(samples[..])
    {
      hide Watched, NonDecreasing, FallsBack;
      if samples.Length != BLOCK { return Bypassed; }
      Refresh(now);
      fate := ReduceNoise(samples, now);
    }

    /** What becomes of a block once the settings are taken over. */
    method ReduceNoise(samples: array<real>, now: Reading) returns (fate: Fate)
      requires Valid() && nrActive == now.nrOn && lastRequestedBackend == now.requested && samples.Length == BLOCK
      requires |now.rnnoised| == BLOCK && (now.result.Some? ==> |now.result.value| == BLOCK)
      modifies this`degraded, this`streamEpoch, this`calls, this`dpdfnetAvailable, this`publishedDegraded,
               this`activeBackend, this`effectiveBackend, this`sinceReset, this`seenOutput, this`underflows, samples
      ensures Valid() && fate != Bypassed && sinceReset == old(sinceReset) + [fate]
      ensures old(calls) <= calls && streamEpoch >= old(streamEpoch)
      ensures fate == FateOf(old(activeBackend), old(seenOutput), old(underflows), now)
      ensures old(activeBackend) != Dpdfnet ==> calls == old(calls) && fate == if now.nrOn then ByRnnoise else Plain
      ensures fate == Denoised || fate == Silent ==> now.nrOn && now.requested == 1 && now.readyAtBlock && !now.failedAfter
      ensures old(activeBackend) == Dpdfnet && now.readyAtBlock && !now.failedAfter ==>
                if now.result.Some? then fate == Denoised
                else fate == if FallsBack(old(sinceReset)) then ByRnnoise else Silent
      ensures fate == ByRnnoise ==> samples[..] == now.rnnoised
      ensures fate == Denoised ==> now.result.Some? && samples[..] == now.result.value
      ensures fate == Denoised || fate == Silent ==> calls != [] && calls[|calls| - 1] == Protocol.ProcessBlock(streamEpoch)
      ensures fate == Silent ==> forall i :: 0 <= i < BLOCK ==> samples[i] == 0.0
      ensures fate == Plain ==> samples[..] == old(samples[..])
    {
      hide Watched, NonDecreasing, FallsBack;
      if !now.nrOn {
        AddPlain(sinceReset, seenOutput, underflows, degraded);
        sinceReset := sinceReset + [Plain];
        return Plain;
      }
      if activeBackend == Dpdfnet {
        WatchedActive(sinceReset, seenOutput, underflows, degraded);
        FallsBackIff(sinceReset, seenOutput, underflows);
        fate := DenoiseBlock(samples, now);
      } else {
        AddRnnoise(sinceReset, Rnnoise, seenOutput, underflows, degraded, underflows, degraded);
        sinceReset := sinceReset + [ByRnnoise];
        Store(samples, now.rnnoised);
        fate := ByRnnoise;
      }
    }

    /** A block while the denoiser is active. */
    method DenoiseBlock(samples: array<real>, now: Reading) returns (fate: Fate)
      requires Valid() && activeBackend == Dpdfnet && samples.Length == BLOCK
      requires |now.rnnoised| == BLOCK && (now.result.Some? ==> |now.result.value| == BLOCK)
      modifies this`degraded, this`streamEpoch, this`calls, this`dpdfnetAvailable, this`publishedDegraded,
               this`activeBackend, this`effectiveBackend, this`sinceReset, this`seenOutput, this`underflows, samples
      ensures Valid() && sinceReset == old(sinceReset) + [fate]
      ensures old(calls) <= calls && streamEpoch >= old(streamEpoch)
      ensures fate == FateOf(Dpdfnet, old(seenOutput), old(underflows), now)
      ensures fate == ByRnnoise ==> samples[..] == now.rnnoised && activeBackend == Rnnoise && streamEpoch > old(streamEpoch)
      ensures fate != ByRnnoise ==> activeBackend == Dpdfnet && streamEpoch == old(streamEpoch)
      ensures fate == Denoised ==> now.result.Some? && samples[..] == now.result.value
      ensures fate == Denoised || fate == Silent ==> calls != [] && calls[|calls| - 1] == Protocol.ProcessBlock(streamEpoch)
      ensures fate == Silent ==> forall i :: 0 <= i < BLOCK ==> samples[i] == 0.0
    {
      hide Watched, NonDecreasing;
      var giveUp := !now.readyAtBlock;
      ghost var before := underflows;
      WatchedActive(sinceReset, seenOutput, underflows, degraded);
      if now.readyAtBlock {
        calls := calls + [Protocol.ProcessBlock(streamEpoch)];
        OneMoreCall(old(calls), Protocol.ProcessBlock(streamEpoch), streamEpoch);
        giveUp := now.failedAfter;
        if !giveUp && now.result.Some? {
          AddDenoised(sinceReset, seenOutput, underflows);
          seenOutput, underflows := true, 0;
          sinceReset := sinceReset + [Denoised];
          Store(samples, now.result.value);
          return Denoised;
        }
        if !giveUp {
          giveUp := RecordUnderflow();
        }
      }
      if giveUp {
        Degrade(now.readyAtDegrade);
        AddRnnoise(sinceReset, Dpdfnet, seenOutput, before, false, underflows, degraded);
        sinceReset := sinceReset + [ByRnnoise];
        Store(samples, now.rnnoised);
        return ByRnnoise;
      }
      AddSilent(sinceReset, seenOutput, before);
      sinceReset := sinceReset + [Silent];
      Store(samples, seq(BLOCK, _ => 0.0));
      return Silent;
    }
  }

  lemma WatchedActive(h: seq<Fate>, seenOutput: bool, underflows: nat, degraded: bool)
    requires Watched(h, Dpdfnet, seenOutput, underflows, degraded)
    ensures !degraded
  {
  }

  lemma OneMoreCall(calls: seq<Protocol.Call>, call: Protocol.Call, current: nat)
    requires NonDecreasing(calls, current) && call.epoch == current && call.ProcessBlock?
    ensures NonDecreasing(calls + [call], current)
  {
  }

  lemma EmptyHistory(active: Backend)
    ensures Watched([], active, false, 0, false)
  {
  }

  /** The epochs the denoiser is called with start at one, never go back and end at the current one;
      setEpoch always brings a new one, and each new one is told at once. */
  ghost predicate NonDecreasing(calls: seq<Protocol.Call>, current: nat) {
    && current >= 1 && (current == 1 || (calls != [] && calls[|calls| - 1].epoch == current))
    && (forall i, j :: 0 <= i < j < |calls| ==> calls[i].epoch <= calls[j].epoch)
    && (forall i :: 0 <= i < |calls| ==> 1 <= calls[i].epoch <= current)
    && (forall i, j :: 0 <= i < j < |calls| && calls[j].SetEpoch? ==> calls[i].epoch < calls[j].epoch)
  }

  method Store(a: array<real>, s: seq<real>)
    requires a.Length == |s|
    modifies a
    ensures a[..] == s
  {
    var i := 0;
    while i < |s|
      invariant 0 <= i <= |s| && a[..i] == s[..i]
    {
      a[i] := s[i];
      i := i + 1;
    }
  }
}
