/** Starting, stopping and abandoning the denoiser's worker thread. The thread may hang inside the native
    library for any length of time; nothing it may still use is ever released. */
module Lifecycle {
  import opened Wrappers

  datatype Thread = NoThread | Joinable | Detached

  /** How far preparing a session gets. */
  datatype Outcome =
    | NoFiles | NoLibrary | NoSymbols | NotCreated | WrongContract | NoWakeEvent(readyEv: bool) | NoReadyEvent
    | WarmUpFailed | WarmUpTimedOut | Started

  /** What can happen to a processor. `exits` says whether a worker that is told to stop leaves the native
      library within the time stopWorker waits; the last three are the worker thread's own doing. */
  datatype Op =
    | Prepare(outcome: Outcome, exitsBefore: bool, exitsAfter: bool)
    | Release(exits: bool)
    | WorkerFails | WorkerPublishes | WorkerExits

  /** The books of the native sessions made so far, 0 .. created - 1: each has been given back exactly once,
      except the one in use, which has not. */
  ghost predicate Ledger(created: nat, destroyed: seq<nat>, inUse: Option<nat>) {
    && (inUse.Some? ==> inUse.value < created && inUse.value !in destroyed)
    && (forall d :: d in destroyed ==> d < created)
    && (forall i, j :: 0 <= i < j < |destroyed| ==> destroyed[i] != destroyed[j])
    && (forall d :: 0 <= d < created ==> d in destroyed || inUse == Some(d))
  }

  lemma GiveBack(created: nat, destroyed: seq<nat>, d: nat)
    requires Ledger(created, destroyed, Some(d))
    ensures Ledger(created, destroyed + [d], None)
  {
  }

  lemma Make(created: nat, destroyed: seq<nat>)
    requires Ledger(created, destroyed, None)
    ensures Ledger(created + 1, destroyed, Some(created))
  {
  }

  class Processor {
    // the processor's own fields
    var denoiser: Option<nat>
    var library: bool
    var wakeEvent: bool
    var readyEvent: bool
    var ready: bool
    var failed: bool
    var workerExited: bool
    var workerAbandoned: bool
    var worker: Thread
    var stopRequested: bool

    // history: whether a worker thread can still execute, the sessions made and those given back,
    // and whether the object itself has been freed
    var running: bool
    var created: nat
    var destroyed: seq<nat>
    var freed: bool

    /** A worker that can still run has its session, its events and its library, and is never freed under;
        no session is given back twice, and the one in use has not been. */
    ghost predicate Valid()
      reads this
    {
      && (running ==> denoiser.Some? && library && wakeEvent && readyEvent && !freed && worker != NoThread)
      && (workerAbandoned <==> worker == Detached)
      && (worker == Joinable ==> (workerExited <==> !running))
      && (denoiser.Some? ==> library)
      && (workerAbandoned ==> denoiser.Some? && library && wakeEvent && readyEvent && !freed)
      && Ledger(created, destroyed, denoiser)
    }

    ghost predicate Idle()
      reads this
    {
      && worker == NoThread && !running && denoiser.None? && !library && !wakeEvent && !readyEvent && !ready
    }

    constructor ()
      ensures Valid() && Idle() && !workerAbandoned && !freed
    {
      denoiser, library, wakeEvent, readyEvent := None, false, false, false;
      ready, failed, workerExited, workerAbandoned := false, false, false, false;
      worker, stopRequested := NoThread, false;
      running, created, destroyed, freed := false, 0, [], false;
    }

    /** Stops the worker and gives everything back, or abandons everything if the worker does not stop. */
    method StopWorker(exits: bool)
      requires Valid() && !freed
      modifies this
      ensures Valid() && !freed && created == old(created) && old(destroyed) <= destroyed
      ensures workerAbandoned <==> old(workerAbandoned) || (old(running) && !exits)
      ensures old(workerAbandoned) ==> destroyed == old(destroyed) && running == old(running) && ready == old(ready)
      ensures failed == old(failed) && (!workerAbandoned ==> Idle())
      ensures workerAbandoned ==> denoiser == old(denoiser) && destroyed == old(destroyed)
    {
      hide Ledger;
      if workerAbandoned { return; }
      ready := false;
      stopRequested := true;
      if worker == Joinable {
        if exits && running {
          running, workerExited := false, true;
        }
        if workerExited {
          worker := NoThread;
        } else {
          worker, workerAbandoned := Detached, true;
          return;
        }
      }
      CloseAll();
    }

    /** Gives back events, session and library; nothing is running any more. */
    method CloseAll()
      requires Valid() && !freed && !running && worker == NoThread
      modifies this`readyEvent, this`wakeEvent, this`denoiser, this`destroyed, this`library, this`ready
      ensures Valid() && Idle() && old(destroyed) <= destroyed
    {
      hide Ledger;
      readyEvent := false;
      wakeEvent := false;
      if denoiser.Some? {
        GiveBack(created, destroyed, denoiser.value);
        destroyed := destroyed + [denoiser.value];
        denoiser := None;
      }
      ready := false;
      library := false;
    }

    /** Loads a session and starts its worker; refuses for ever once a worker has been abandoned. */
    method DoPrepare(outcome: Outcome, exitsBefore: bool, exitsAfter: bool) returns (ok: bool)
      requires Valid() && !freed
      modifies this
      ensures Valid() && !freed && old(created) <= created <= old(created) + 1 && old(destroyed) <= destroyed
      ensures old(workerAbandoned) ==> workerAbandoned && destroyed == old(destroyed)
      ensures ok <==> outcome.Started? && !old(workerAbandoned) && (old(running) ==> exitsBefore)
      ensures ok ==> IsReady() && running && denoiser == Some(old(created)) && created == old(created) + 1
      ensures !ok && !workerAbandoned ==> Idle()
      ensures ok ==> worker == Joinable && !stopRequested && ready && !failed
      ensures !old(workerAbandoned) && (old(running) ==> exitsBefore) ==> (failed <==> outcome.WarmUpFailed?)
      ensures workerAbandoned <==> old(workerAbandoned) || (old(running) && !exitsBefore) || (WarmsUpInVain(outcome) && !exitsAfter)
    {
      hide Ledger;
      if workerAbandoned { return false; }
      StopWorker(exitsBefore);
      if workerAbandoned { return false; }
      failed, ready := false, false;
      ok := LoadAndStart(outcome, exitsAfter);
    }

    /** The part of preparing that starts from nothing. */
    method LoadAndStart(outcome: Outcome, exitsAfter: bool) returns (ok: bool)
      requires Valid() && Idle() && !workerAbandoned && !freed && !failed
      modifies this
      ensures Valid() && !freed && old(created) <= created <= old(created) + 1 && old(destroyed) <= destroyed
      ensures ok <==> outcome.Started?
      ensures ok ==> IsReady() && running && denoiser == Some(old(created)) && created == old(created) + 1
      ensures !ok && !workerAbandoned ==> Idle()
      ensures ok ==> worker == Joinable && !stopRequested && ready && !failed
      ensures (workerAbandoned <==> WarmsUpInVain(outcome) && !exitsAfter) && (failed <==> outcome.WarmUpFailed?)
    {
      hide Ledger;
      if outcome.NoFiles? { return false; }
      library := !outcome.NoLibrary?;
      if outcome.NoLibrary? || outcome.NoSymbols? || outcome.NotCreated? {
        library := false;
        return false;
      }
      Make(created, destroyed);
      denoiser := Some(created);
      created := created + 1;
      if outcome.WrongContract? {
        StopWorker(exitsAfter);
        return false;
      }
      ok := StartWorker(outcome, exitsAfter);
    }

    method StartWorker(outcome: Outcome, exitsAfter: bool) returns (ok: bool)
      requires Valid() && worker == NoThread && !running && !workerAbandoned && !freed && !failed && denoiser.Some?
      requires outcome.NoWakeEvent? || outcome.NoReadyEvent? || outcome.WarmUpFailed? || outcome.WarmUpTimedOut?
               || outcome.Started?
      modifies this
      ensures Valid() && !freed && created == old(created) && old(destroyed) <= destroyed
      ensures ok <==> outcome.Started?
      ensures ok ==> IsReady() && running && denoiser == old(denoiser)
      ensures !ok && !workerAbandoned ==> Idle()
      ensures ok ==> worker == Joinable && !stopRequested && ready && !failed
      ensures (workerAbandoned <==> WarmsUpInVain(outcome) && !exitsAfter) && (failed <==> outcome.WarmUpFailed?)
    {
      hide Ledger;
      wakeEvent, readyEvent := !outcome.NoWakeEvent?, if outcome.NoWakeEvent? then outcome.readyEv else !outcome.NoReadyEvent?;
      if !wakeEvent || !readyEvent {
        StopWorker(exitsAfter);
        return false;
      }
      workerExited := false;
      worker, stopRequested, running := Joinable, false, true;
      failed := outcome.WarmUpFailed?;
      if !outcome.Started? {
        StopWorker(exitsAfter);
        return false;
      }
      ready := true;
      return true;
    }

    predicate IsReady()
      reads this
    {
      ready && !failed && !workerAbandoned
    }

    /** The destructor: frees the object only when no worker can still run. */
    method Destroy(exits: bool)
      requires Valid() && !freed
      modifies this
      ensures Valid() && (freed <==> !workerAbandoned)
      ensures workerAbandoned <==> old(workerAbandoned) || (old(running) && !exits)
      ensures freed ==> !running && denoiser.None? && forall d :: 0 <= d < created ==> d in destroyed
    {
      StopWorker(exits);
      if !workerAbandoned {
        freed := true;
      }
    }

    /** Between happenings a worker that is not abandoned is at work and ready unless it has failed; without a
        worker nothing is ready. */
    ghost predicate Settled()
      reads this
    {
      && (worker == Joinable ==> running && !stopRequested && ready == !failed)
      && (worker == NoThread ==> !running && !ready)
    }

    /** One thing happening, by the owner or by the worker. The worker may publish readiness even after it
        was told to stop, and even after it was abandoned. */
    method Happen(op: Op) returns (ok: bool)
      requires Valid() && Settled() && !freed
      modifies this
      ensures Valid() && Settled() && !freed && old(destroyed) <= destroyed && old(created) <= created
      ensures old(workerAbandoned) ==> workerAbandoned && !IsReady() && !ok && destroyed == old(destroyed)
      ensures ok <==> op.Prepare? && op.outcome.Started? && !old(workerAbandoned) && (old(worker) == Joinable ==> op.exitsBefore)
      ensures workerAbandoned <==> old(workerAbandoned) || Abandons(op, old(worker) == Joinable)
      ensures worker == Joinable <==> ok || (old(worker) == Joinable && !op.Prepare? && !op.Release?)
      ensures IsReady() <==> ok || (old(IsReady()) && (op.WorkerPublishes? || op.WorkerExits?))
    {
      ok := false;
      match op
      case Prepare(outcome, before, after) => ok := DoPrepare(outcome, before, after);
      case Release(exits) => StopWorker(exits);
      case WorkerFails => if running { failed := true; ready := false; }
      case WorkerPublishes => if running { ready := !failed; }
      case WorkerExits => if running && stopRequested { running := false; workerExited := true; }
    }
  }

  /** A worker was started, and preparing then stops it again. */
  predicate WarmsUpInVain(outcome: Outcome) {
    outcome.WarmUpFailed? || outcome.WarmUpTimedOut?
  }

  /** The happening stops a worker that does not stop: the one at work, or the one just started. */
  predicate Abandons(op: Op, working: bool) {
    match op
    case Prepare(outcome, before, after) => (working && !before) || (WarmsUpInVain(outcome) && !after)
    case Release(exits) => working && !exits
    case _ => false
  }

  /** A worker is at work after the first n happenings: some prepare succeeded and nothing has stopped it since. */
  ghost predicate Working(ops: seq<Op>, outcomes: seq<bool>, n: nat)
    requires n <= |ops| && n <= |outcomes|
  {
    exists k :: 0 <= k < n && outcomes[k] && forall l :: k < l < n ==> !ops[l].Prepare? && !ops[l].Release?
  }

  /** Ready after the first n happenings: some prepare succeeded, and since then nothing was stopped and no worker
      failed. */
  ghost predicate ReadyAfter(ops: seq<Op>, outcomes: seq<bool>, n: nat)
    requires n <= |ops| && n <= |outcomes|
  {
    exists k :: 0 <= k < n && outcomes[k] && forall l :: k < l < n ==> ops[l].WorkerPublishes? || ops[l].WorkerExits?
  }

  lemma WorkingStep(ops: seq<Op>, outcomes: seq<bool>, ok: bool)
    requires |outcomes| < |ops|
    ensures var op := ops[|outcomes|];
            Working(ops, outcomes + [ok], |outcomes| + 1)
            <==> ok || (Working(ops, outcomes, |outcomes|) && !op.Prepare? && !op.Release?)
  {
    var n, now := |outcomes|, outcomes + [ok];
    if ok { assert now[n]; }
    if k :| 0 <= k < n && outcomes[k] && forall l :: k < l < n ==> !ops[l].Prepare? && !ops[l].Release? {
      assert now[k];
    }
  }

  lemma ReadyStep(ops: seq<Op>, outcomes: seq<bool>, ok: bool)
    requires |outcomes| < |ops|
    ensures var op := ops[|outcomes|];
            ReadyAfter(ops, outcomes + [ok], |outcomes| + 1)
            <==> ok || (ReadyAfter(ops, outcomes, |outcomes|) && (op.WorkerPublishes? || op.WorkerExits?))
  {
    var n, now := |outcomes|, outcomes + [ok];
    if ok { assert now[n]; }
    if k :| 0 <= k < n && outcomes[k] && forall l :: k < l < n ==> ops[l].WorkerPublishes? || ops[l].WorkerExits? {
      assert now[k];
    }
  }

  /** What happened so far is all that matters. */
  lemma HistoryOnly(ops: seq<Op>, outcomes: seq<bool>, ok: bool, n: nat)
    requires n <= |outcomes| && n <= |ops|
    ensures Working(ops, outcomes + [ok], n) == Working(ops, outcomes, n)
    ensures ReadyAfter(ops, outcomes + [ok], n) == ReadyAfter(ops, outcomes, n)
  {
    var now := outcomes + [ok];
    assert forall k :: 0 <= k < n ==> now[k] == outcomes[k];
  }

  /** A prepare succeeds exactly when its session starts, no worker was abandoned before, and the worker then at
      work, if any, stops. */
  predicate Succeeds(op: Op, abandoned: bool, working: bool) {
    op.Prepare? && op.outcome.Started? && !abandoned && (working ==> op.exitsBefore)
  }

  /** What the history says of happening i. */
  ghost predicate Explained(ops: seq<Op>, outcomes: seq<bool>, readiness: seq<bool>, abandonedAt: nat, i: nat)
    requires i < |outcomes| == |readiness| <= |ops|
  {
    && (outcomes[i] <==> Succeeds(ops[i], abandonedAt < i, Working(ops, outcomes, i)))
    && (readiness[i] <==> ReadyAfter(ops, outcomes, i + 1))
    && (i < abandonedAt ==> !Abandons(ops[i], Working(ops, outcomes, i)))
    && (i == abandonedAt ==> Abandons(ops[i], Working(ops, outcomes, i)))
  }

  lemma StillExplained(ops: seq<Op>, outcomes: seq<bool>, readiness: seq<bool>, was: nat, abandonedAt: nat, ok: bool, ready: bool)
    requires |outcomes| == |readiness| < |ops| && (was == abandonedAt || (was == |ops| && abandonedAt == |outcomes|))
    requires forall i :: 0 <= i < |outcomes| ==> Explained(ops, outcomes, readiness, was, i)
    ensures forall i :: 0 <= i < |outcomes| ==> Explained(ops, outcomes + [ok], readiness + [ready], abandonedAt, i)
  {
    hide Working, ReadyAfter;
    forall i | 0 <= i < |outcomes| ensures Explained(ops, outcomes + [ok], readiness + [ready], abandonedAt, i) {
      assert Explained(ops, outcomes, readiness, was, i);
      HistoryOnly(ops, outcomes, ok, i);
      HistoryOnly(ops, outcomes, ok, i + 1);
    }
  }

  /** Any sequence of happenings, then destruction. The history tells exactly which prepares succeed, when the
      processor is ready and when a worker is abandoned. At the end every session has been given back exactly once
      and the object is freed, unless a worker was abandoned; once one is, no later prepare succeeds, the
      processor never reports ready again, and nothing is released. */
  method LifeOf(ops: seq<Op>, exits: bool) returns (p: Processor, outcomes: seq<bool>, readiness: seq<bool>, abandonedAt: nat)
    ensures fresh(p) && |outcomes| == |readiness| == |ops|
    ensures forall i :: 0 <= i < |ops| ==> Explained(ops, outcomes, readiness, abandonedAt, i)
    ensures abandonedAt <= |ops| && (p.workerAbandoned <==> abandonedAt < |ops| || (Working(ops, outcomes, |ops|) && !exits))
    ensures forall i :: abandonedAt < i < |ops| ==> !outcomes[i] && !readiness[i]
    ensures forall i :: 0 <= i < |ops| && outcomes[i] ==> ops[i].Prepare? && readiness[i]
    ensures p.Valid() && (p.freed <==> !p.workerAbandoned)
    ensures p.freed ==> !p.running && forall d :: 0 <= d < p.created ==> d in p.destroyed
    ensures forall i, j :: 0 <= i < j < |p.destroyed| ==> p.destroyed[i] != p.destroyed[j]
  {
    hide Working, ReadyAfter, Explained;
    p := new Processor();
    outcomes, readiness := [], [];
    abandonedAt := |ops|;
    NothingYet(ops);
    var i := 0;
    while i < |ops|
      invariant 0 <= i <= |ops| && |outcomes| == |readiness| == i
      invariant p.Valid() && p.Settled() && !p.freed && fresh(p)
      invariant p.worker == Joinable <==> Working(ops, outcomes, i)
      invariant p.IsReady() <==> ReadyAfter(ops, outcomes, i)
      invariant abandonedAt <= |ops| && (abandonedAt < |ops| <==> p.workerAbandoned) && (abandonedAt < |ops| ==> abandonedAt < i)
      invariant forall k :: 0 <= k < i ==> Explained(ops, outcomes, readiness, abandonedAt, k)
      invariant forall k :: abandonedAt < k < i ==> !outcomes[k] && !readiness[k]
      invariant forall k :: 0 <= k < i && outcomes[k] ==> ops[k].Prepare? && readiness[k]
    {
      ghost var was := abandonedAt;
      var ok := p.Happen(ops[i]);
      if p.workerAbandoned && abandonedAt == |ops| {
        abandonedAt := i;
      }
      var ready := p.IsReady();
      WorkingStep(ops, outcomes, ok);
      ReadyStep(ops, outcomes, ok);
      HistoryOnly(ops, outcomes, ok, i);
      StillExplained(ops, outcomes, readiness, was, abandonedAt, ok, ready);
      NowExplained(ops, outcomes, readiness, abandonedAt, ok, ready);
      outcomes, readiness := outcomes + [ok], readiness + [ready];
      i := i + 1;
    }
    p.Destroy(exits);
  }

  lemma NothingYet(ops: seq<Op>)
    ensures !Working(ops, [], 0) && !ReadyAfter(ops, [], 0)
  {
  }

  lemma NowExplained(ops: seq<Op>, outcomes: seq<bool>, readiness: seq<bool>, abandonedAt: nat, ok: bool, ready: bool)
    requires |outcomes| == |readiness| < |ops|
    requires var i := |outcomes|;
      && (ok <==> Succeeds(ops[i], abandonedAt < i, Working(ops, outcomes, i)))
      && (ready <==> ReadyAfter(ops, outcomes + [ok], i + 1))
      && (i < abandonedAt ==> !Abandons(ops[i], Working(ops, outcomes, i)))
      && (i == abandonedAt ==> Abandons(ops[i], Working(ops, outcomes, i)))
    ensures Explained(ops, outcomes + [ok], readiness + [ready], abandonedAt, |outcomes|)
  {
    hide Working, ReadyAfter;
    HistoryOnly(ops, outcomes, ok, |outcomes|);
  }
}
