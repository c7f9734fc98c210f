/** The render thread's own calls drive the hand-off: with the epochs the pipeline computes, the protocol's rule
    that epochs never go back needs no assumption. */
module RenderCalls {
  import opened Protocol
  import opened OutputFifo
  import Pipeline

  /** A render step that takes whatever call comes, with no rule about its epoch. */
  ghost predicate AnyRenderStep(s: State, t: State, e: Event) {
    if s.render.RIdle? then t.render.RReady? && t == s.(render := t.render) && e == Tau else RenderStep(s, t, e)
  }

  predicate Takes(s: State, t: State) {
    s.render.RIdle? && t.render.RReady?
  }

  /** The calls taken in the first n steps, in order. */
  function Taken(states: seq<State>, n: nat): seq<Call>
    requires n < |states|
  {
    if n == 0 then []
    else Taken(states, n - 1) + if Takes(states[n - 1], states[n]) then [states[n].render.call] else []
  }

  /** A run of the hand-off whose render thread makes these calls, or the first few of them so far. */
  ghost predicate RunOfCalls(states: seq<State>, events: seq<Event>, calls: seq<Call>) {
    && |states| == |events| + 1 && states[0] == Init()
    && (forall i :: 0 <= i < |events| ==>
          || AnyRenderStep(states[i], states[i + 1], events[i])
          || WorkerStep(states[i], states[i + 1], events[i])
          || ControlStep(states[i], states[i + 1], events[i]))
    && Taken(states, |events|) <= calls
  }

  /** The epoch of the newest call. */
  function Newest(taken: seq<Call>): nat {
    if taken == [] then 1 else taken[|taken| - 1].epoch
  }

  /** The requested epoch is at most the newest call's, which the render thread is busy with until it is stored. */
  ghost predicate Caught(s: State, taken: seq<Call>) {
    && s.requested <= Newest(taken)
    && match s.render
       case RReady(c) => IsLast(taken, c)
       case RFailed(c) => IsLast(taken, c)
       case RStore(c) => IsLast(taken, c)
       case RPush(epoch) => IsLast(taken, ProcessBlock(epoch))
       case RDiscard(epoch) => IsLast(taken, SetEpoch(epoch))
       case RDrop(epoch, n) => IsLast(taken, SetEpoch(epoch))
       case _ => true
  }

  predicate IsLast(taken: seq<Call>, c: Call) {
    taken != [] && taken[|taken| - 1] == c
  }

  /** Every submission was a processBlock call's. */
  ghost predicate Submits(submitted: seq<nat>, taken: seq<Call>) {
    forall i :: 0 <= i < |submitted| ==> ProcessBlock(submitted[i]) in taken
  }

  ghost predicate Rising(calls: seq<Call>) {
    && (forall i :: 0 <= i < |calls| ==> calls[i].epoch >= 1)
    && (forall i, j :: 0 <= i < j < |calls| ==> calls[i].epoch <= calls[j].epoch)
    && (forall i, j :: 0 <= i < j < |calls| && calls[j].SetEpoch? ==> calls[i].epoch < calls[j].epoch)
  }

  lemma NewestRises(taken: seq<Call>, c: Call, calls: seq<Call>)
    requires Rising(calls) && taken + [c] <= calls
    ensures Newest(taken) <= c.epoch == Newest(taken + [c])
  {
    var longer := taken + [c];
    assert longer[|taken|] == calls[|taken|] == c;
    if taken != [] {
      assert longer[|taken| - 1] == calls[|taken| - 1] == taken[|taken| - 1];
    }
  }

  /** One step: it is a step of the protocol, and stays caught up. */
  lemma CaughtStep(s: State, t: State, e: Event, taken: seq<Call>)
    requires Caught(s, taken)
    requires AnyRenderStep(s, t, e) || WorkerStep(s, t, e) || ControlStep(s, t, e)
    requires Takes(s, t) ==> t.render.call.epoch >= Newest(taken)
    ensures Step(s, t, e)
    ensures Caught(t, taken + if Takes(s, t) then [t.render.call] else [])
  {
    hide WorkerStep;
    if AnyRenderStep(s, t, e) {
      if Takes(s, t) { NewestIs(taken, t.render.call); } else { assert taken + [] == taken; }
    } else {
      if WorkerStep(s, t, e) { WorkerLeavesRender(s, t, e); } else { assert ControlStep(s, t, e); }
      assert taken + [] == taken;
    }
  }

  lemma NewestIs(taken: seq<Call>, c: Call)
    ensures Newest(taken + [c]) == c.epoch
  {
  }

  lemma {:induction false} CaughtUp(states: seq<State>, events: seq<Event>, calls: seq<Call>, n: nat)
    requires RunOfCalls(states, events, calls) && Rising(calls) && n <= |events|
    ensures Caught(states[n], Taken(states, n))
    ensures forall i :: 0 <= i < n ==> Step(states[i], states[i + 1], events[i])
  {
    hide AnyRenderStep, WorkerStep, ControlStep, Step, Caught, Rising;
    if n == 0 {
      StartsCaught();
    } else {
      var last: nat := n - 1;
      CaughtUp(states, events, calls, last);
      TakenGrows(states, n, |events|);
      var s, t, taken := states[last], states[n], Taken(states, last);
      if Takes(s, t) { NewestRises(taken, t.render.call, calls); }
      CaughtStep(s, t, events[last], taken);
    }
  }

  lemma StartsCaught()
    ensures Caught(Init(), [])
  {
  }

  lemma {:induction false} TakenGrows(states: seq<State>, m: nat, n: nat)
    requires m <= n < |states|
    ensures Taken(states, m) <= Taken(states, n)
  {
    if m < n {
      TakenGrows(states, m, n - 1);
    }
  }

  lemma SubmitsStep(s: State, t: State, e: Event, taken: seq<Call>)
    requires Caught(s, taken) && Submits(s.submitted, taken)
    requires AnyRenderStep(s, t, e) || WorkerStep(s, t, e) || ControlStep(s, t, e)
    ensures Submits(t.submitted, taken + if Takes(s, t) then [t.render.call] else [])
  {
    hide WorkerStep, Newest;
    var next := taken + if Takes(s, t) then [t.render.call] else [];
    assert forall c :: c in taken ==> c in next;
    if AnyRenderStep(s, t, e) {
      if s.render.RPush? { assert taken[|taken| - 1] in taken; }
    } else if WorkerStep(s, t, e) {
      WorkerLeavesSubmitted(s, t, e);
    }
  }

  lemma WorkerLeavesSubmitted(s: State, t: State, e: Event)
    requires WorkerStep(s, t, e)
    ensures t.submitted == s.submitted
  {
  }

  lemma {:induction false} AllSubmits(states: seq<State>, events: seq<Event>, calls: seq<Call>, n: nat)
    requires RunOfCalls(states, events, calls) && Rising(calls) && n <= |events|
    ensures Submits(states[n].submitted, Taken(states, n))
  {
    hide AnyRenderStep, WorkerStep, ControlStep, Step, Caught, Rising, Submits;
    if n == 0 {
      assert Submits([], []) by { NothingSubmitted(); }
    } else {
      var last: nat := n - 1;
      AllSubmits(states, events, calls, last);
      CaughtUp(states, events, calls, last);
      SubmitsStep(states[last], states[n], events[last], Taken(states, last));
    }
  }

  lemma NothingSubmitted()
    ensures Submits([], [])
  {
  }

  /** A setEpoch call of such a run only drops output of older epochs. */
  lemma DropsOnlyOlder(states: seq<State>, events: seq<Event>, calls: seq<Call>, n: nat, o: Output)
    requires RunOfCalls(states, events, calls) && Rising(calls) && n < |events|
    requires events[n].Dropped? && o in events[n].blocks
    ensures o.epoch < states[n].requested
  {
    hide AnyRenderStep, WorkerStep, ControlStep, Step, Caught, Rising, Submits, Inv;
    CallsMakeRuns(states, events, calls);
    RunInv(states, events, n);
    CaughtUp(states, events, calls, n);
    AllSubmits(states, events, calls, n);
    TakenGrows(states, n, |events|);
    DropStep(states[n], states[n + 1], events[n], o);
    var i := OutputWasLogged(states[n], o);
    OlderThanLast(states[n], Taken(states, n), calls, o.epoch);
  }

  lemma DropStep(s: State, t: State, e: Event, o: Output)
    requires Inv(s) && Step(s, t, e) && e.Dropped? && o in e.blocks
    ensures s.render.RDrop? && s.render.epoch == s.requested && o in s.output
  {
    hide WorkerStep, InputsOk, LogOk, SessionOk, BufferOk, WorkerOk, OutputsOk;
    if WorkerStep(s, t, e) { WorkerNeverDrops(s, t, e); }
  }

  lemma WorkerNeverDrops(s: State, t: State, e: Event)
    requires WorkerStep(s, t, e)
    ensures !e.Dropped?
  {
  }

  /** A queued block comes from the log, and so from a submission under its epoch. */
  lemma OutputWasLogged(s: State, o: Output) returns (i: nat)
    requires Inv(s) && o in s.output
    ensures i < |s.submitted| && s.submitted[i] == o.epoch
  {
    hide InputsOk, SessionOk, BufferOk, WorkerOk, EpochsOk, Ordered, Behind, Stream;
    var out := s.delivered + s.output;
    var k :| 0 <= k < |s.output| && s.output[k] == o;
    assert out[|s.delivered| + k] == o;
    var a := EntryOf(s.log, o.epoch);
    i := s.log[a].id;
  }

  lemma {:induction false} EntryOf(log: seq<Appended>, epoch: nat) returns (a: nat)
    requires Stream(log, epoch) != []
    ensures a < |log| && log[a].tag == epoch
  {
    var last: nat := |log| - 1;
    if log[last].tag == epoch { a := last; } else { a := EntryOf(log[..last], epoch); }
  }

  lemma OlderThanLast(s: State, taken: seq<Call>, calls: seq<Call>, epoch: nat)
    requires Caught(s, taken) && Submits(s.submitted, taken) && s.render.RDrop? && taken <= calls && Rising(calls)
    requires epoch in s.submitted
    ensures epoch < s.render.epoch
  {
    var i :| 0 <= i < |s.submitted| && s.submitted[i] == epoch;
    var k :| 0 <= k < |taken| && taken[k] == ProcessBlock(epoch);
    assert calls[k] == taken[k] && calls[|taken| - 1] == taken[|taken| - 1];
  }

  /** Any run whose calls never go back is a run of the protocol. */
  lemma CallsMakeRuns(states: seq<State>, events: seq<Event>, calls: seq<Call>)
    requires RunOfCalls(states, events, calls) && Rising(calls)
    ensures Run(states, events)
  {
    CaughtUp(states, events, calls, |events|);
  }

  /** Whatever a pipeline has called its denoiser with so far, from its first call or from any later one, and
      however the worker interleaves with it: every block a call returned is a whole block of the model's output
      for the inputs submitted under that call's epoch, returned blocks never repeat and never go back, and none is
      left out but those refused by a full output queue. */
  lemma PipelineIsEpochSafe(p: Pipeline.DspPipeline, from: nat, states: seq<State>, events: seq<Event>)
    requires p.Valid() && from <= |p.calls| && RunOfCalls(states, events, p.calls[from..])
    ensures Run(states, events)
    ensures var s, r := states[|events|], Returned(events);
            && (forall i :: 0 <= i < |r| ==>
                  var blocks := Chunks(Stream(s.log, r[i].epoch));
                  r[i].index < |blocks| && r[i].samples == blocks[r[i].index])
            && Ordered(r)
    ensures forall i :: 0 <= i < |events| && events[i].Deliver? ==>
              events[i].o.epoch == events[i].epoch <= p.streamEpoch
    ensures forall n, j: nat :: 0 <= n < |events| && events[n].Deliver? && j < events[n].o.index ==>
              ReturnedOrRefused(events, n, events[n].o.epoch, j)
  {
    hide RunOfCalls, Run, Step, Ordered, Stream, ReturnedOrRefused, Settled;
    CallsRise(p.calls, p.streamEpoch, from);
    CallsMakeRuns(states, events, p.calls[from..]);
    EpochSafety(states, events);
    DeliveredEpochs(states, events, p.calls[from..], p.streamEpoch);
    forall n, j: nat | 0 <= n < |events| && events[n].Deliver? && j < events[n].o.index
      ensures ReturnedOrRefused(events, n, events[n].o.epoch, j) {
      OnlyFullQueues(states, events, p.calls[from..], n, j);
    }
  }

  /** The block was returned, or refused by a full output queue, before step n. */
  ghost predicate ReturnedOrRefused(events: seq<Event>, n: nat, epoch: nat, index: nat) {
    exists i :: 0 <= i < n <= |events| && (events[i].Deliver? || events[i].Overflow?)
                && events[i].o.epoch == epoch && events[i].o.index == index
  }

  lemma OnlyFullQueues(states: seq<State>, events: seq<Event>, calls: seq<Call>, n: nat, j: nat)
    requires RunOfCalls(states, events, calls) && Rising(calls)
    requires n < |events| && events[n].Deliver? && j < events[n].o.index
    ensures ReturnedOrRefused(events, n, events[n].o.epoch, j)
  {
    hide RunOfCalls, Run, Step, Rising, Gone;
    CallsMakeRuns(states, events, calls);
    NoGaps(states, events, n, j);
    DeliverIsRequested(states, events, n);
    DeliveredTag(states, events, n);
    var epoch := events[n].o.epoch;
    var i :| 0 <= i < n && !events[i].Skip? && Contains(Gone(events[i]), epoch, j);
    if events[i].Dropped? {
      var o := DroppedBlock(events[i], epoch, j);
      DropsOnlyOlder(states, events, calls, i, o);
      RequestedLater(states, events, i, n);
    } else {
      GoneIsOne(events[i], epoch, j);
    }
  }

  lemma DeliveredTag(states: seq<State>, events: seq<Event>, n: nat)
    requires Run(states, events) && n < |events| && events[n].Deliver?
    ensures events[n].o.epoch == events[n].epoch
  {
    hide Step;
    DeliverIsFront(states[n], states[n + 1], events[n]);
  }

  lemma DroppedBlock(e: Event, epoch: nat, index: nat) returns (o: Output)
    requires e.Dropped? && Contains(Gone(e), epoch, index)
    ensures o in e.blocks && o.epoch == epoch
  {
    var i :| 0 <= i < |e.blocks| && e.blocks[i].epoch == epoch && e.blocks[i].index == index;
    o := e.blocks[i];
  }

  lemma GoneIsOne(e: Event, epoch: nat, index: nat)
    requires Contains(Gone(e), epoch, index) && !e.Skip? && !e.Dropped?
    ensures (e.Deliver? || e.Overflow?) && e.o.epoch == epoch && e.o.index == index
  {
  }

  lemma CallsRise(calls: seq<Call>, current: nat, from: nat)
    requires Pipeline.NonDecreasing(calls, current) && from <= |calls|
    ensures Rising(calls[from..]) && current >= 1 && forall i :: 0 <= i < |calls[from..]| ==> calls[from..][i].epoch <= current
  {
  }

  lemma DeliveredEpochs(states: seq<State>, events: seq<Event>, calls: seq<Call>, current: nat)
    requires RunOfCalls(states, events, calls) && Rising(calls) && current >= 1
    requires forall i :: 0 <= i < |calls| ==> calls[i].epoch <= current
    ensures forall i :: 0 <= i < |events| && events[i].Deliver? ==> events[i].epoch <= current
  {
    hide AnyRenderStep, WorkerStep, ControlStep, Step, Run, Rising, Caught, Newest;
    CallsMakeRuns(states, events, calls);
    forall i | 0 <= i < |events| && events[i].Deliver? ensures events[i].epoch <= current {
      CaughtUp(states, events, calls, i);
      TakenGrows(states, i, |events|);
      NewestWithin(Taken(states, i), calls, current);
      DeliverIsRequested(states, events, i);
      CaughtRequested(states[i], Taken(states, i));
    }
  }

  lemma CaughtRequested(s: State, taken: seq<Call>)
    requires Caught(s, taken)
    ensures s.requested <= Newest(taken)
  {
  }

  lemma NewestWithin(taken: seq<Call>, calls: seq<Call>, current: nat)
    requires taken <= calls && current >= 1 && forall i :: 0 <= i < |calls| ==> calls[i].epoch <= current
    ensures Newest(taken) <= current
  {
    if taken != [] { assert taken[|taken| - 1] == calls[|taken| - 1]; }
  }

  lemma DeliverIsRequested(states: seq<State>, events: seq<Event>, i: nat)
    requires Run(states, events) && i < |events| && events[i].Deliver?
    ensures events[i].epoch == states[i].requested
  {
    hide Inv, InLine;
    RunInv(states, events, i);
    DeliversRequested(states[i], states[i + 1], events[i]);
  }

  lemma DeliversRequested(s: State, t: State, e: Event)
    requires Inv(s) && Step(s, t, e) && e.Deliver?
    ensures e.epoch == s.requested
  {
    hide InputsOk, LogOk, SessionOk, BufferOk, OutputsOk, WorkerOk;
  }
}
