/** The hand-off between the render thread and the denoiser's worker, as interleaved atomic steps.
    The two rings appear as the atomic queues that QueueThreads proves they refine. */
module Protocol {
  import opened TaggedQueue
  import opened OutputFifo

  const QUEUE_CAPACITY := 32

  /** A submitted block: the tag it was pushed with and its serial number among all submissions. */
  datatype Input = Input(epoch: nat, id: nat)

  /** A queued block of output. `index` records which block of its epoch's output it is. */
  datatype Output = Output(epoch: nat, samples: seq<real>, index: nat)

  /** Model output that reached the buffer, with the tag and serial number of the input it came from. */
  datatype Appended = Appended(tag: nat, id: nat, samples: seq<real>)

  datatype Call = ProcessBlock(epoch: nat) | SetEpoch(epoch: nat)

  /** What the render thread does next. */
  datatype Render =
    | RIdle | RReady(call: Call) | RFailed(call: Call) | RStore(call: Call)
    | RPush(epoch: nat) | RPop(epoch: nat) | RDiscard(epoch: nat) | RDrop(epoch: nat, count: nat)

  /** What the worker does next. */
  datatype Worker =
    | WWarmUp | WWarmReset | WWarmEpoch | WPublish
    | WTop | WLoad | WPop | WGot(b: Input) | WNewer(b: Input) | WRecheck(b: Input) | WRun(b: Input)
    | WResult(b: Input, samples: seq<real>) | WDrain | WFail(warm: bool) | WExited

  /** Shared variables, the worker's own variables, and the history needed to say what is right. */
  datatype State = State(
    requested: nat, ready: bool, failed: bool, input: seq<Input>, output: seq<Output>,
    workerEpoch: nat, fifo: seq<real>, worker: Worker, render: Render,
    sent: nat,                  // blocks cut from the current epoch's output so far
    session: seq<nat>,          // tags of the inputs run since the denoiser's last reset
    log: seq<Appended>, delivered: seq<Output>,
    submitted: seq<nat>)        // tag of every block the render thread tried to submit, by serial number

  datatype Event =
    | Tau | Ran(b: Input, samples: seq<real>) | Discard(b: Input) | Lost(b: Input) | Overflow(o: Output)
    | Skip(o: Output) | Deliver(epoch: nat, o: Output) | Silence(epoch: nat) | Dropped(blocks: seq<Output>)

  function Init(): State {
    State(1, false, false, [], [], 1, [], WWarmUp, RIdle, 0, [], [], [], [])
  }

  // ----- the render thread -----

  ghost predicate RenderStep(s: State, t: State, e: Event) {
    match s.render
    case RIdle =>
      && t.render.RReady? && t == s.(render := t.render) && e == Tau
      && t.render.call.epoch >= s.requested
    case RReady(c) =>
      t == s.(render := if s.ready then RFailed(c) else RIdle) && e == Tau
    case RFailed(c) =>
      t == s.(render := if s.failed then RIdle else RStore(c)) && e == Tau
    case RStore(c) =>
      && t == s.(requested := c.epoch, render := if c.ProcessBlock? then RPush(c.epoch) else RDiscard(c.epoch))
      && e == Tau
    case RPush(epoch) =>
      && t == s.(input := if |s.input| < QUEUE_CAPACITY - 1 then s.input + [Input(epoch, |s.submitted|)] else s.input,
                 submitted := s.submitted + [epoch], render := RPop(epoch))
      && e == Tau
    case RPop(epoch) =>
      if s.output == [] then t == s.(render := RIdle) && e == Silence(epoch)
      else if s.output[0].epoch == epoch then
        && t == s.(output := s.output[1..], delivered := s.delivered + [s.output[0]], render := RIdle)
        && e == Deliver(epoch, s.output[0])
      else t == s.(output := s.output[1..]) && e == Skip(s.output[0])
    case RDiscard(epoch) =>
      t == s.(render := RDrop(epoch, |s.output|)) && e == Tau
    case RDrop(epoch, n) =>
      n <= |s.output| && t == s.(output := s.output[n..], render := RIdle) && e == Dropped(s.output[..n])
  }

  // ----- the worker -----

  /** resetWorkerState: resets the denoiser and drops the partial block; queued inputs stay. */
  function Reset(s: State, epoch: nat): State {
    s.(workerEpoch := epoch, fifo := [], sent := 0, session := [])
  }

  ghost predicate WorkerStep(s: State, t: State, e: Event) {
    match s.worker
    case WWarmUp =>
      e == Tau && (t == s.(worker := WWarmReset) || t == s.(failed := true, worker := WFail(true)))
    case WWarmReset =>
      e == Tau && t == s.(worker := if s.failed then WPublish else WWarmEpoch)
    case WWarmEpoch =>
      e == Tau && t == Reset(s, s.requested).(worker := WPublish)
    case WPublish =>
      e == Tau && t == s.(ready := !s.failed, worker := WTop)
    case WTop =>
      e == Tau && (t == s.(worker := WExited) || (if s.failed then t == s else t == s.(worker := WLoad)))
    case WLoad =>
      e == Tau && t == (if s.requested != s.workerEpoch then Reset(s, s.requested) else s).(worker := WPop)
    case WPop =>
      e == Tau && if s.input == [] then t == s.(worker := WTop)
                  else t == s.(input := s.input[1..], worker := WGot(s.input[0]))
    case WGot(b) =>
      if s.failed then t == s.(worker := WTop) && e == Lost(b)
      else if b.epoch < s.workerEpoch then t == s.(worker := WTop) && e == Discard(b)
      else t == s.(worker := if b.epoch > s.workerEpoch then WNewer(b) else WRecheck(b)) && e == Tau
    case WNewer(b) =>
      if s.requested > b.epoch then t == s.(worker := WTop) && e == Discard(b)
      else t == Reset(s, b.epoch).(worker := WRecheck(b)) && e == Tau
    case WRecheck(b) =>
      if b.epoch != s.workerEpoch || s.requested != s.workerEpoch then t == s.(worker := WTop) && e == Discard(b)
      else t == s.(worker := WRun(b)) && e == Tau
    case WRun(b) =>
      var ran := s.(session := s.session + [b.epoch]);
      || (t == ran.(worker := WTop) && e == Lost(b))
      || (t == ran.(failed := true, worker := WFail(false)) && e == Lost(b))
      || (&& t.worker.WResult? && t.worker.b == b && |t.worker.samples| <= MAX_OUTPUT_SAMPLES
          && t == ran.(worker := t.worker) && e == Ran(b, t.worker.samples))
    case WResult(b, samples) =>
      if s.requested != s.workerEpoch then t == s.(worker := WTop) && e == Discard(b)
      else
        && t == s.(fifo := s.fifo + samples, log := s.log + [Appended(b.epoch, b.id, samples)], worker := WDrain)
        && e == Tau
    case WDrain =>
      if |s.fifo| < BLOCK_SAMPLES then t == s.(worker := WTop) && e == Tau
      else
        var cut := s.(fifo := s.fifo[BLOCK_SAMPLES..], sent := s.sent + 1);
        var o := Output(s.workerEpoch, s.fifo[..BLOCK_SAMPLES], s.sent);
        if |s.output| < QUEUE_CAPACITY - 1 then t == cut.(output := s.output + [o]) && e == Tau
        else t == cut && e == Overflow(o)
    case WFail(warm) =>
      e == Tau && t == s.(ready := false, worker := if warm then WWarmReset else WTop)
    case WExited =>
      t == s && e == Tau
  }

  /** The controlling thread: prepare publishes readiness once more after the worker has, stopping withdraws it. */
  ghost predicate ControlStep(s: State, t: State, e: Event) {
    e == Tau && (t == s.(ready := false) || (t == s.(ready := true) && !InWarmUp(s.worker)))
  }

  predicate InWarmUp(w: Worker) {
    w.WWarmUp? || w.WWarmReset? || w.WWarmEpoch? || w.WPublish? || w == WFail(true)
  }

  ghost predicate Step(s: State, t: State, e: Event) {
    RenderStep(s, t, e) || WorkerStep(s, t, e) || ControlStep(s, t, e)
  }

  // ----- what the history means -----

  /** Everything the model returned for inputs tagged with this epoch, concatenated. */
  function Stream(log: seq<Appended>, epoch: nat): seq<real> {
    if log == [] then []
    else
      var last := log[|log| - 1];
      Stream(log[..|log| - 1], epoch) + if last.tag == epoch then last.samples else []
  }

  ghost predicate IsBlock(s: seq<real>, k: nat, b: seq<real>) {
    BLOCK_SAMPLES * (k + 1) <= |s| && b == s[BLOCK_SAMPLES * k..BLOCK_SAMPLES * (k + 1)]
  }

  /** Earlier epoch, or an earlier block of the same epoch. */
  predicate Before(a: Output, b: Output) {
    a.epoch < b.epoch || (a.epoch == b.epoch && a.index < b.index)
  }

  ghost predicate Ordered(out: seq<Output>) {
    forall i, j :: 0 <= i < j < |out| ==> Before(out[i], out[j])
  }

  ghost predicate Genuine(out: seq<Output>, log: seq<Appended>) {
    forall i :: 0 <= i < |out| ==> IsBlock(Stream(log, out[i].epoch), out[i].index, out[i].samples)
  }

  /** Nothing queued or delivered is ahead of what the worker has cut. */
  ghost predicate Behind(out: seq<Output>, workerEpoch: nat, sent: nat) {
    forall i :: 0 <= i < |out| ==>
      out[i].epoch < workerEpoch || (out[i].epoch == workerEpoch && out[i].index < sent)
  }

  /** The block the worker holds, if any. */
  function Held(w: Worker): seq<Input> {
    match w
    case WGot(b) => [b]
    case WNewer(b) => [b]
    case WRecheck(b) => [b]
    case WRun(b) => [b]
    case WResult(b, samples) => [b]
    case _ => []
  }

  // ----- invariants -----

  /** The worker never runs ahead of the render thread, which works for the epoch it last requested. */
  ghost predicate EpochsOk(workerEpoch: nat, requested: nat, render: Render, queued: nat) {
    && workerEpoch <= requested
    && match render
       case RReady(c) => c.epoch >= requested
       case RFailed(c) => c.epoch >= requested
       case RStore(c) => c.epoch >= requested
       case RPush(epoch) => epoch == requested
       case RPop(epoch) => epoch == requested
       case RDiscard(epoch) => epoch == requested
       case RDrop(epoch, n) => epoch == requested && n <= queued
       case RIdle => true
  }

  predicate Submitted(submitted: seq<nat>, tag: nat, id: nat) {
    id < |submitted| && submitted[id] == tag
  }

  /** Held and queued inputs keep submission order, with non-decreasing tags none past the requested epoch. */
  ghost predicate InputsOk(q: seq<Input>, requested: nat, submitted: seq<nat>) {
    && (forall i :: 0 <= i < |q| ==> q[i].epoch <= requested && Submitted(submitted, q[i].epoch, q[i].id))
    && (forall i, j :: 0 <= i < j < |q| ==> q[i].epoch <= q[j].epoch && q[i].id < q[j].id)
  }

  /** Output was appended in submission order, before anything still held or queued. */
  ghost predicate LogOk(log: seq<Appended>, q: seq<Input>, workerEpoch: nat, submitted: seq<nat>) {
    && (forall i, j :: 0 <= i < |log| && 0 <= j < |q| ==> log[i].id < q[j].id)
    && (forall i, j :: 0 <= i < j < |log| ==> log[i].id < log[j].id)
    && (forall i :: 0 <= i < |log| ==> log[i].tag <= workerEpoch && Submitted(submitted, log[i].tag, log[i].id))
  }

  /** The denoiser has only been run on the worker's epoch since its last reset. */
  ghost predicate SessionOk(session: seq<nat>, workerEpoch: nat) {
    forall i :: 0 <= i < |session| ==> session[i] == workerEpoch
  }

  ghost predicate WorkerOk(w: Worker, workerEpoch: nat, fifo: seq<real>, log: seq<Appended>, sent: nat) {
    && (!w.WDrain? ==> |fifo| < BLOCK_SAMPLES)
    && |fifo| < BLOCK_SAMPLES + MAX_OUTPUT_SAMPLES <= FIFO_CAPACITY
    && (InWarmUp(w) ==> log == [] && sent == 0)
    && match w
       case WNewer(b) => b.epoch > workerEpoch
       case WRecheck(b) => b.epoch == workerEpoch
       case WRun(b) => b.epoch == workerEpoch
       case WResult(b, samples) => b.epoch == workerEpoch && |samples| <= MAX_OUTPUT_SAMPLES
       case _ => true
  }

  /** The buffer holds exactly what is left of the epoch's output after the blocks already cut. */
  ghost predicate BufferOk(fifo: seq<real>, log: seq<Appended>, workerEpoch: nat, sent: nat) {
    var stream := Stream(log, workerEpoch);
    BLOCK_SAMPLES * sent + |fifo| == |stream| && fifo == stream[BLOCK_SAMPLES * sent..]
  }

  /** Every queued or delivered block is a genuine block of its epoch's output, in order. */
  ghost predicate OutputsOk(out: seq<Output>, log: seq<Appended>, workerEpoch: nat, sent: nat) {
    Ordered(out) && Genuine(out, log) && Behind(out, workerEpoch, sent)
  }

  ghost predicate RoomOk(s: State) {
    |s.input| <= QUEUE_CAPACITY - 1 && |s.output| <= QUEUE_CAPACITY - 1
  }

  ghost predicate Inv(s: State) {
    var q := Held(s.worker) + s.input;
    && RoomOk(s)
    && EpochsOk(s.workerEpoch, s.requested, s.render, |s.output|)
    && InputsOk(q, s.requested, s.submitted)
    && LogOk(s.log, q, s.workerEpoch, s.submitted)
    && SessionOk(s.session, s.workerEpoch)
    && WorkerOk(s.worker, s.workerEpoch, s.fifo, s.log, s.sent)
    && BufferOk(s.fifo, s.log, s.workerEpoch, s.sent)
    && OutputsOk(s.delivered + s.output, s.log, s.workerEpoch, s.sent)
  }

  lemma InitInv()
    ensures Inv(Init())
  {
  }

  // ----- streams under append and reset -----

  lemma {:induction false} NoEntries(log: seq<Appended>, epoch: nat)
    requires forall i :: 0 <= i < |log| ==> log[i].tag < epoch
    ensures Stream(log, epoch) == []
  {
    if log != [] {
      NoEntries(log[..|log| - 1], epoch);
    }
  }

  lemma AppendTo(log: seq<Appended>, a: Appended, epoch: nat)
    ensures Stream(log + [a], epoch) == Stream(log, epoch) + if a.tag == epoch then a.samples else []
  {
    assert (log + [a])[..|log|] == log;
  }

  lemma GenuineAfterAppend(out: seq<Output>, log: seq<Appended>, a: Appended)
    requires Genuine(out, log)
    ensures Genuine(out, log + [a])
  {
    forall i | 0 <= i < |out| ensures IsBlock(Stream(log + [a], out[i].epoch), out[i].index, out[i].samples) {
      AppendTo(log, a, out[i].epoch);
    }
  }

  /** Taking blocks out of the middle of an ordered list keeps it ordered. */
  lemma Fewer(d: seq<Output>, out: seq<Output>, n: nat, log: seq<Appended>, workerEpoch: nat, sent: nat)
    requires n <= |out| && OutputsOk(d + out, log, workerEpoch, sent)
    ensures OutputsOk(d + out[n..], log, workerEpoch, sent)
  {
    hide IsBlock, Stream;
    var before, now := d + out, d + out[n..];
    assert forall i :: 0 <= i < |now| ==> now[i] == before[if i < |d| then i else i + n];
  }

  lemma OneMore(out: seq<Output>, o: Output, log: seq<Appended>, workerEpoch: nat, sent: nat)
    requires OutputsOk(out, log, workerEpoch, sent)
    requires o.epoch == workerEpoch && o.index == sent && IsBlock(Stream(log, workerEpoch), sent, o.samples)
    ensures OutputsOk(out + [o], log, workerEpoch, sent + 1) && OutputsOk(out, log, workerEpoch, sent + 1)
  {
    hide IsBlock, Stream;
  }

  // ----- every step keeps the invariants -----

  lemma TakeInput(q: seq<Input>, log: seq<Appended>, requested: nat, submitted: seq<nat>, workerEpoch: nat)
    requires q != [] && InputsOk(q, requested, submitted) && LogOk(log, q, workerEpoch, submitted)
    ensures InputsOk(q[1..], requested, submitted) && LogOk(log, q[1..], workerEpoch, submitted)
  {
    assert forall i :: 0 <= i < |q[1..]| ==> q[1..][i] == q[i + 1];
  }

  lemma AddInput(q: seq<Input>, log: seq<Appended>, requested: nat, submitted: seq<nat>, workerEpoch: nat)
    requires InputsOk(q, requested, submitted) && LogOk(log, q, workerEpoch, submitted)
    ensures InputsOk(q, requested, submitted + [requested]) && LogOk(log, q, workerEpoch, submitted + [requested])
    ensures InputsOk(q + [Input(requested, |submitted|)], requested, submitted + [requested])
    ensures LogOk(log, q + [Input(requested, |submitted|)], workerEpoch, submitted + [requested])
  {
  }

  lemma LaterRequest(q: seq<Input>, requested: nat, newer: nat, submitted: seq<nat>)
    requires InputsOk(q, requested, submitted) && requested <= newer
    ensures InputsOk(q, newer, submitted)
  {
  }

  lemma LogInput(q: seq<Input>, log: seq<Appended>, requested: nat, submitted: seq<nat>, workerEpoch: nat, samples: seq<real>)
    requires q != [] && InputsOk(q, requested, submitted) && LogOk(log, q, workerEpoch, submitted) && q[0].epoch == workerEpoch
    ensures LogOk(log + [Appended(q[0].epoch, q[0].id, samples)], q[1..], workerEpoch, submitted)
  {
  }

  lemma RenderKeeps(s: State, t: State, e: Event)
    requires Inv(s) && RenderStep(s, t, e)
    ensures Inv(t)
  {
    hide InputsOk, LogOk, SessionOk, WorkerOk, BufferOk, OutputsOk;
    var q := Held(s.worker) + s.input;
    match s.render
    case RStore(c) => LaterRequest(q, s.requested, c.epoch, s.submitted);
    case RPush(epoch) =>
      AddInput(q, s.log, s.requested, s.submitted, s.workerEpoch);
      assert Held(s.worker) + (s.input + [Input(epoch, |s.submitted|)]) == q + [Input(epoch, |s.submitted|)];
    case RPop(epoch) =>
      if s.output != [] {
        assert s.delivered + [s.output[0]] + s.output[1..] == s.delivered + s.output;
        Fewer(s.delivered, s.output, 1, s.log, s.workerEpoch, s.sent);
      }
    case RDrop(epoch, n) => Fewer(s.delivered, s.output, n, s.log, s.workerEpoch, s.sent);
    case _ =>
  }

  /** A reset to epoch e keeps everything, whatever the worker does next and whether or not it holds a block. */
  lemma ResetKeeps(s: State, epoch: nat, next: Worker)
    requires Inv(s) && Held(next) == Held(s.worker) && epoch <= s.requested
    requires epoch > s.workerEpoch || (epoch == s.workerEpoch && InWarmUp(s.worker))
    requires (next == WPublish && InWarmUp(s.worker)) || next == WPop || (next.WRecheck? && next.b.epoch == epoch)
    ensures Inv(Reset(s, epoch).(worker := next))
  {
    hide InputsOk, LogOk, OutputsOk, Stream;
    var q := Held(s.worker) + s.input;
    LaterEpoch(s.log, q, s.workerEpoch, s.submitted, epoch);
    OutputsAtReset(s.delivered + s.output, s.log, s.workerEpoch, s.sent, epoch);
  }

  lemma LaterEpoch(log: seq<Appended>, q: seq<Input>, workerEpoch: nat, submitted: seq<nat>, epoch: nat)
    requires LogOk(log, q, workerEpoch, submitted) && (epoch > workerEpoch || (epoch == workerEpoch && log == []))
    ensures LogOk(log, q, epoch, submitted) && Stream(log, epoch) == []
  {
    NoEntries(log, epoch);
  }

  lemma OutputsAtReset(out: seq<Output>, log: seq<Appended>, workerEpoch: nat, sent: nat, epoch: nat)
    requires OutputsOk(out, log, workerEpoch, sent) && (epoch > workerEpoch || (epoch == workerEpoch && sent == 0))
    ensures OutputsOk(out, log, epoch, 0)
  {
    hide Ordered, Genuine;
  }

  lemma AppendKeeps(s: State, t: State, e: Event)
    requires Inv(s) && WorkerStep(s, t, e) && s.worker.WResult? && e.Tau?
    ensures Inv(t)
  {
    hide InputsOk, LogOk, SessionOk, BufferOk, OutputsOk, EpochsOk;
    var b, samples := s.worker.b, s.worker.samples;
    var q, a := Held(s.worker) + s.input, Appended(b.epoch, b.id, samples);
    LogInput(q, s.log, s.requested, s.submitted, s.workerEpoch, samples);
    TakeInput(q, s.log, s.requested, s.submitted, s.workerEpoch);
    assert q[1..] == Held(WDrain) + s.input;
    BufferAppend(s.fifo, s.log, s.workerEpoch, s.sent, a);
    OutputsAppend(s.delivered + s.output, s.log, a, s.workerEpoch, s.sent);
  }

  lemma BufferAppend(fifo: seq<real>, log: seq<Appended>, workerEpoch: nat, sent: nat, a: Appended)
    requires BufferOk(fifo, log, workerEpoch, sent) && a.tag == workerEpoch
    ensures BufferOk(fifo + a.samples, log + [a], workerEpoch, sent)
  {
    hide Stream;
    AppendTo(log, a, workerEpoch);
    var stream, n := Stream(log, workerEpoch), BLOCK_SAMPLES * sent;
    assert (stream + a.samples)[n..] == stream[n..] + a.samples;
  }

  lemma OutputsAppend(out: seq<Output>, log: seq<Appended>, a: Appended, workerEpoch: nat, sent: nat)
    requires OutputsOk(out, log, workerEpoch, sent)
    ensures OutputsOk(out, log + [a], workerEpoch, sent)
  {
    hide Ordered, Genuine, Behind;
    GenuineAfterAppend(out, log, a);
  }

  lemma CutKeeps(s: State)
    requires Inv(s) && s.worker.WDrain? && |s.fifo| >= BLOCK_SAMPLES
    ensures var cut := s.(fifo := s.fifo[BLOCK_SAMPLES..], sent := s.sent + 1);
            var o := Output(s.workerEpoch, s.fifo[..BLOCK_SAMPLES], s.sent);
            Inv(cut) && (|s.output| < QUEUE_CAPACITY - 1 ==> Inv(cut.(output := s.output + [o])))
  {
    hide InputsOk, LogOk, SessionOk, OutputsOk, Stream;
    var stream, n := Stream(s.log, s.workerEpoch), BLOCK_SAMPLES * s.sent;
    var o, out := Output(s.workerEpoch, s.fifo[..BLOCK_SAMPLES], s.sent), s.delivered + s.output;
    assert stream[n..][BLOCK_SAMPLES..] == stream[n + BLOCK_SAMPLES..];
    assert stream[n..][..BLOCK_SAMPLES] == stream[n..n + BLOCK_SAMPLES];
    OneMore(out, o, s.log, s.workerEpoch, s.sent);
    assert s.delivered + (s.output + [o]) == out + [o];
  }

  /** Going on to `next`, with the held block kept or let go, and nothing else changed. */
  lemma MoveKeeps(s: State, next: Worker)
    requires Inv(s) && (Held(next) == Held(s.worker) || Held(next) == [])
    requires WorkerOk(next, s.workerEpoch, s.fifo, s.log, s.sent)
    ensures Inv(s.(worker := next))
  {
    hide InputsOk, LogOk, SessionOk, WorkerOk, BufferOk, OutputsOk, EpochsOk;
    var q := Held(s.worker) + s.input;
    if Held(next) != Held(s.worker) {
      TakeInput(q, s.log, s.requested, s.submitted, s.workerEpoch);
      assert q[1..] == Held(next) + s.input;
    }
  }

  lemma WarmUpKeeps(s: State, t: State, e: Event)
    requires Inv(s) && WorkerStep(s, t, e) && InWarmUp(s.worker)
    ensures Inv(t)
  {
    hide InputsOk, LogOk, SessionOk, BufferOk, OutputsOk, EpochsOk;
    match s.worker
    case WWarmEpoch => WarmResetEpoch(s); ResetKeeps(s, s.requested, WPublish);
    case _ => MoveKeeps(s, t.worker);
  }

  lemma WarmResetEpoch(s: State)
    requires Inv(s)
    ensures s.workerEpoch <= s.requested
  {
  }

  lemma HeldKeeps(s: State, t: State, e: Event)
    requires Inv(s) && WorkerStep(s, t, e) && (s.worker.WGot? || s.worker.WNewer? || s.worker.WRecheck?)
    ensures Inv(t)
  {
    hide InputsOk, LogOk, SessionOk, BufferOk, OutputsOk, EpochsOk;
    if s.worker.WNewer? && s.requested <= s.worker.b.epoch {
      HeldTag(s);
      ResetKeeps(s, s.worker.b.epoch, WRecheck(s.worker.b));
    } else {
      MoveKeeps(s, t.worker);
    }
  }

  /** The held block's tag never passes the requested epoch. */
  lemma HeldTag(s: State)
    requires Inv(s) && Held(s.worker) != []
    ensures Held(s.worker)[0].epoch <= s.requested
  {
    assert (Held(s.worker) + s.input)[0] == Held(s.worker)[0];
  }

  lemma RunKeeps(s: State, t: State, e: Event)
    requires Inv(s) && WorkerStep(s, t, e) && s.worker.WRun?
    ensures Inv(t)
  {
    hide InputsOk, LogOk, BufferOk, OutputsOk, EpochsOk;
    MoveKeeps(s, t.worker);
  }

  lemma PopKeeps(s: State, t: State, e: Event)
    requires Inv(s) && WorkerStep(s, t, e) && s.worker.WPop?
    ensures Inv(t)
  {
    hide InputsOk, LogOk, BufferOk, OutputsOk, EpochsOk, SessionOk;
    if s.input == [] {
      MoveKeeps(s, WTop);
    } else {
      assert Held(s.worker) + s.input == Held(t.worker) + t.input;
    }
  }

  lemma WorkerKeeps(s: State, t: State, e: Event)
    requires Inv(s) && WorkerStep(s, t, e)
    ensures Inv(t)
  {
    hide InputsOk, LogOk, SessionOk, BufferOk, OutputsOk, EpochsOk;
    if InWarmUp(s.worker) {
      WarmUpKeeps(s, t, e);
    } else {
      match s.worker
      case WLoad =>
        if s.requested != s.workerEpoch { WarmResetEpoch(s); ResetKeeps(s, s.requested, WPop); } else { MoveKeeps(s, WPop); }
      case WPop => PopKeeps(s, t, e);
      case WGot(b) => HeldKeeps(s, t, e);
      case WNewer(b) => HeldKeeps(s, t, e);
      case WRecheck(b) => HeldKeeps(s, t, e);
      case WRun(b) => RunKeeps(s, t, e);
      case WResult(b, samples) =>
        if s.requested == s.workerEpoch { AppendKeeps(s, t, e); } else { MoveKeeps(s, WTop); }
      case WDrain => if |s.fifo| >= BLOCK_SAMPLES { CutKeeps(s); } else { MoveKeeps(s, WTop); }
      case _ => MoveKeeps(s, t.worker);
    }
  }

  lemma StepKeeps(s: State, t: State, e: Event)
    requires Inv(s) && Step(s, t, e)
    ensures Inv(t)
  {
    hide RenderStep, WorkerStep, InputsOk, LogOk, SessionOk, BufferOk, OutputsOk, EpochsOk;
    if RenderStep(s, t, e) { RenderKeeps(s, t, e); }
    else if WorkerStep(s, t, e) { WorkerKeeps(s, t, e); }
  }

  // ----- what holds over every run -----

  ghost predicate Run(states: seq<State>, events: seq<Event>) {
    && |states| == |events| + 1 && states[0] == Init()
    && forall i :: 0 <= i < |events| ==> Step(states[i], states[i + 1], events[i])
  }

  lemma {:induction false} RunInv(states: seq<State>, events: seq<Event>, n: nat)
    requires Run(states, events) && n <= |events|
    ensures Inv(states[n])
  {
    hide Inv, Step;
    if n == 0 {
      InitInv();
    } else {
      RunInv(states, events, n - 1);
      StepKeeps(states[n - 1], states[n], events[n - 1]);
    }
  }

  /** Blocks that processBlock returned, in order. */
  function Returned(events: seq<Event>): seq<Output> {
    if events == [] then []
    else
      var e := events[|events| - 1];
      Returned(events[..|events| - 1]) + if e.Deliver? then [e.o] else []
  }

  lemma {:induction false} ReturnedAreDelivered(states: seq<State>, events: seq<Event>)
    requires Run(states, events)
    ensures states[|events|].delivered == Returned(events)
  {
    if events != [] {
      var n := |events| - 1;
      ReturnedAreDelivered(states[..|events|], events[..n]);
      DeliveredStep(states[n], states[n + 1], events[n]);
    }
  }

  lemma DeliveredStep(s: State, t: State, e: Event)
    requires Step(s, t, e)
    ensures t.delivered == s.delivered + if e.Deliver? then [e.o] else []
    ensures e.Deliver? ==> e.o.epoch == e.epoch
  {
    hide RenderStep, WorkerStep;
    if RenderStep(s, t, e) { RenderDelivers(s, t, e); }
    else if WorkerStep(s, t, e) { WorkerDelivers(s, t, e); }
  }

  lemma RenderDelivers(s: State, t: State, e: Event)
    requires RenderStep(s, t, e)
    ensures t.delivered == s.delivered + if e.Deliver? then [e.o] else []
    ensures e.Deliver? ==> e.o.epoch == e.epoch
  {
    if !e.Deliver? { assert t.delivered == s.delivered; }
  }

  lemma WorkerDelivers(s: State, t: State, e: Event)
    requires WorkerStep(s, t, e)
    ensures t.delivered == s.delivered && !e.Deliver?
  {
  }

  /** Block k of a stream, as the buffer cuts it. */
  lemma {:induction false} BlockIsChunk(s: seq<real>, k: nat, b: seq<real>)
    ensures IsBlock(s, k, b) <==> k < |Chunks(s)| && b == Chunks(s)[k]
    decreases k
  {
    if |s| >= BLOCK_SAMPLES {
      assert Chunks(s)[0] == s[..BLOCK_SAMPLES];
      if k > 0 {
        var rest := s[BLOCK_SAMPLES..];
        BlockIsChunk(rest, k - 1, b);
        assert Chunks(s)[1..] == Chunks(rest);
        if BLOCK_SAMPLES * (k + 1) <= |s| {
          assert rest[BLOCK_SAMPLES * (k - 1)..BLOCK_SAMPLES * k] == s[BLOCK_SAMPLES * k..BLOCK_SAMPLES * (k + 1)];
        }
      }
    }
  }

  // ----- the log is what the model returned -----

  ghost predicate FromModel(events: seq<Event>, a: Appended) {
    exists i :: 0 <= i < |events| && events[i] == Ran(Input(a.tag, a.id), a.samples)
  }

  /** Every logged entry, and a result the worker still holds, is what a run of the model returned. */
  lemma {:induction false} RunFromModel(states: seq<State>, events: seq<Event>, n: nat)
    requires Run(states, events) && n <= |events|
    ensures forall i :: 0 <= i < |states[n].log| ==> FromModel(events, states[n].log[i])
    ensures states[n].worker.WResult? ==>
              FromModel(events, Appended(states[n].worker.b.epoch, states[n].worker.b.id, states[n].worker.samples))
  {
    hide Step, FromModel;
    if n > 0 {
      RunFromModel(states, events, n - 1);
      ResultStep(states[n - 1], states[n], events, n - 1);
    }
  }

  lemma ResultStep(s: State, t: State, events: seq<Event>, n: nat)
    requires n < |events| && Step(s, t, events[n])
    ensures t.log == s.log || (s.worker.WResult? && t.log == s.log + [Appended(s.worker.b.epoch, s.worker.b.id, s.worker.samples)])
    ensures t.worker.WResult? ==> t.worker == s.worker || FromModel(events, Appended(t.worker.b.epoch, t.worker.b.id, t.worker.samples))
  {
    hide RenderStep, WorkerStep, FromModel;
    if RenderStep(s, t, events[n]) { RenderLogs(s, t, events[n]); }
    else if WorkerStep(s, t, events[n]) { WorkerResult(s, t, events, n); }
  }

  lemma WorkerResult(s: State, t: State, events: seq<Event>, n: nat)
    requires n < |events| && WorkerStep(s, t, events[n])
    ensures t.log == s.log || (s.worker.WResult? && t.log == s.log + [Appended(s.worker.b.epoch, s.worker.b.id, s.worker.samples)])
    ensures t.worker.WResult? ==> FromModel(events, Appended(t.worker.b.epoch, t.worker.b.id, t.worker.samples))
  {
  }

  // ----- what becomes of output -----

  /** A block of this epoch with this index is among these. */
  ghost predicate Contains(out: seq<Output>, epoch: nat, index: nat) {
    exists i :: 0 <= i < |out| && out[i].epoch == epoch && out[i].index == index
  }

  /** The blocks an event takes from the output, or keeps from getting there. */
  function Gone(e: Event): seq<Output> {
    match e
    case Overflow(o) => [o]
    case Skip(o) => [o]
    case Deliver(epoch, o) => [o]
    case Dropped(blocks) => blocks
    case _ => []
  }

  ghost predicate GoneWithin(events: seq<Event>, k: nat, n: nat, epoch: nat, index: nat) {
    exists i :: k <= i < n <= |events| && Contains(Gone(events[i]), epoch, index)
  }

  /** The block is queued after n steps, or some event named it. */
  ghost predicate Known(out: seq<Output>, events: seq<Event>, n: nat, epoch: nat, index: nat) {
    Contains(out, epoch, index) || GoneWithin(events, 0, n, epoch, index)
  }

  ghost predicate KnownBelow(out: seq<Output>, events: seq<Event>, n: nat, epoch: nat, index: nat) {
    forall j: nat :: j < index ==> Known(out, events, n, epoch, j)
  }

  /** Every block cut in this epoch, and every block before a queued one, is known. */
  ghost predicate AllKnown(s: State, events: seq<Event>, n: nat) {
    && KnownBelow(s.output, events, n, s.workerEpoch, s.sent)
    && forall i :: 0 <= i < |s.output| ==> KnownBelow(s.output, events, n, s.output[i].epoch, s.output[i].index)
  }

  /** What the worker's step cuts, if anything. */
  ghost predicate Cuts(s: State, t: State, e: Event) {
    && s.worker.WDrain? && |s.fifo| >= BLOCK_SAMPLES && t.workerEpoch == s.workerEpoch && t.sent == s.sent + 1
    && var o := Output(s.workerEpoch, s.fifo[..BLOCK_SAMPLES], s.sent);
       (t.output == s.output && e == Overflow(o) && |s.output| >= QUEUE_CAPACITY - 1) || t.output == s.output + [o]
  }

  /** A step cuts one block, or takes off the front of the output exactly what its event names. */
  lemma OutputStep(s: State, t: State, e: Event)
    requires Step(s, t, e)
    ensures Cuts(s, t, e)
            || (s.output == Gone(e) + t.output && !e.Overflow?
                && (t.sent == 0 || (t.workerEpoch == s.workerEpoch && t.sent == s.sent)))
  {
    hide RenderStep, WorkerStep, Cuts;
    assert [] + t.output == t.output;
    if RenderStep(s, t, e) { RenderOutput(s, t, e); }
    else if WorkerStep(s, t, e) { WorkerOutput(s, t, e); }
  }

  lemma RenderOutput(s: State, t: State, e: Event)
    requires RenderStep(s, t, e)
    ensures s.output == Gone(e) + t.output && !e.Overflow?
    ensures t.sent == s.sent && t.workerEpoch == s.workerEpoch
  {
    if s.render.RDrop? { assert s.output == s.output[..s.render.count] + s.output[s.render.count..]; }
  }

  lemma WorkerOutput(s: State, t: State, e: Event)
    requires WorkerStep(s, t, e)
    ensures Cuts(s, t, e)
            || (t.output == s.output && Gone(e) == [] && !e.Overflow?
                && (t.sent == 0 || (t.workerEpoch == s.workerEpoch && t.sent == s.sent)))
  {
  }

  lemma StaysKnown(s: State, t: State, events: seq<Event>, n: nat, epoch: nat, index: nat)
    requires n < |events| && (Cuts(s, t, events[n]) || s.output == Gone(events[n]) + t.output)
    requires Known(s.output, events, n, epoch, index)
    ensures Known(t.output, events, n + 1, epoch, index)
  {
    hide Gone;
    if Contains(s.output, epoch, index) {
      var i :| 0 <= i < |s.output| && s.output[i].epoch == epoch && s.output[i].index == index;
      var gone := Gone(events[n]);
      if Cuts(s, t, events[n]) {
        assert t.output[i] == s.output[i];
      } else if i < |gone| {
        assert gone[i] == s.output[i];
      } else {
        assert t.output[i - |gone|] == s.output[i];
      }
    }
  }

  lemma CutIsKnown(s: State, t: State, events: seq<Event>, n: nat)
    requires n < |events| && Cuts(s, t, events[n])
    ensures Known(t.output, events, n + 1, s.workerEpoch, s.sent)
  {
    var o := Output(s.workerEpoch, s.fifo[..BLOCK_SAMPLES], s.sent);
    if t.output == s.output + [o] {
      assert t.output[|s.output|] == o;
    } else {
      assert Gone(events[n])[0] == o;
    }
  }

  lemma KnownStep(s: State, t: State, events: seq<Event>, n: nat)
    requires n < |events| && Step(s, t, events[n]) && AllKnown(s, events, n)
    ensures AllKnown(t, events, n + 1)
  {
    hide Step, KnownBelow, Gone, Cuts;
    var e := events[n];
    OutputStep(s, t, e);
    BelowStays(s, t, events, n, s.workerEpoch, s.sent);
    if Cuts(s, t, e) { CutBelow(s, t, events, n); } else if t.sent == 0 { NothingBelow(t.output, events, n + 1, t.workerEpoch); }
    forall i | 0 <= i < |t.output| ensures KnownBelow(t.output, events, n + 1, t.output[i].epoch, t.output[i].index) {
      QueuedBefore(s, t, e, i);
      if k :| 0 <= k < |s.output| && s.output[k] == t.output[i] {
        BelowStays(s, t, events, n, s.output[k].epoch, s.output[k].index);
      }
    }
  }

  lemma BelowStays(s: State, t: State, events: seq<Event>, n: nat, epoch: nat, index: nat)
    requires n < |events| && (Cuts(s, t, events[n]) || s.output == Gone(events[n]) + t.output)
    requires KnownBelow(s.output, events, n, epoch, index)
    ensures KnownBelow(t.output, events, n + 1, epoch, index)
  {
    hide Known, Gone, Cuts;
    var next := n + 1;
    forall j: nat | j < index ensures Known(t.output, events, next, epoch, j) {
      StaysKnown(s, t, events, n, epoch, j);
    }
  }

  lemma CutBelow(s: State, t: State, events: seq<Event>, n: nat)
    requires n < |events| && Cuts(s, t, events[n]) && KnownBelow(t.output, events, n + 1, s.workerEpoch, s.sent)
    ensures KnownBelow(t.output, events, n + 1, t.workerEpoch, t.sent)
  {
    hide Known;
    CutIsKnown(s, t, events, n);
  }

  lemma NothingBelow(out: seq<Output>, events: seq<Event>, n: nat, epoch: nat)
    ensures KnownBelow(out, events, n, epoch, 0)
  {
  }

  /** A queued block was queued before, or has just been cut. */
  lemma QueuedBefore(s: State, t: State, e: Event, i: nat)
    requires Cuts(s, t, e) || s.output == Gone(e) + t.output
    requires i < |t.output|
    ensures (exists k :: 0 <= k < |s.output| && s.output[k] == t.output[i])
            || (Cuts(s, t, e) && t.output[i].epoch == s.workerEpoch && t.output[i].index == s.sent)
  {
    hide Gone;
    if Cuts(s, t, e) {
      if i < |s.output| { assert s.output[i] == t.output[i]; }
    } else {
      assert s.output[|Gone(e)| + i] == t.output[i];
    }
  }

  lemma {:induction false} RunKnown(states: seq<State>, events: seq<Event>, n: nat)
    requires Run(states, events) && n <= |events|
    ensures AllKnown(states[n], events, n)
  {
    hide Step, AllKnown;
    if n == 0 {
      NothingCut(events);
    } else {
      RunKnown(states, events, n - 1);
      KnownStep(states[n - 1], states[n], events, n - 1);
    }
  }

  lemma NothingCut(events: seq<Event>)
    ensures AllKnown(Init(), events, 0)
  {
  }

  /** processBlock skips only blocks of older epochs than its own, gives silence only when the queue is empty, and
      a block is refused only by a full queue. */
  lemma OutputLossExplained(states: seq<State>, events: seq<Event>, n: nat)
    requires Run(states, events) && n < |events|
    ensures events[n].Skip? ==> events[n].o.epoch < states[n].requested
    ensures events[n].Deliver? ==> events[n].epoch == states[n].requested
    ensures events[n].Silence? ==> states[n].output == [] && events[n].epoch == states[n].requested
    ensures events[n].Overflow? ==> |states[n].output| == QUEUE_CAPACITY - 1
  {
    hide Step;
    RunInv(states, events, n);
    LossStep(states[n], states[n + 1], events[n]);
  }

  lemma LossStep(s: State, t: State, e: Event)
    requires Inv(s) && Step(s, t, e)
    ensures e.Skip? ==> e.o.epoch < s.requested
    ensures e.Deliver? ==> e.epoch == s.requested
    ensures e.Silence? ==> s.output == [] && e.epoch == s.requested
    ensures e.Overflow? ==> |s.output| == QUEUE_CAPACITY - 1
  {
    hide RenderStep, WorkerStep, InputsOk, LogOk, SessionOk, BufferOk, WorkerOk, Ordered, Genuine;
    if RenderStep(s, t, e) { RenderLoss(s, t, e); }
    else if WorkerStep(s, t, e) { WorkerLoss(s, t, e); }
  }

  lemma WorkerLoss(s: State, t: State, e: Event)
    requires WorkerStep(s, t, e) && RoomOk(s)
    ensures !e.Skip? && !e.Deliver? && !e.Silence? && (e.Overflow? ==> |s.output| == QUEUE_CAPACITY - 1)
  {
  }

  lemma RenderLoss(s: State, t: State, e: Event)
    requires RenderStep(s, t, e) && EpochsOk(s.workerEpoch, s.requested, s.render, |s.output|)
    requires Behind(s.delivered + s.output, s.workerEpoch, s.sent)
    ensures e.Skip? ==> e.o.epoch < s.requested
    ensures e.Deliver? ==> e.epoch == s.requested
    ensures e.Silence? ==> s.output == [] && e.epoch == s.requested
    ensures !e.Overflow?
  {
    if s.output != [] { assert (s.delivered + s.output)[|s.delivered|] == s.output[0]; }
  }

  ghost predicate DroppedWithin(events: seq<Event>, k: nat, n: nat, o: Output) {
    exists i :: k <= i < n <= |events| && events[i].Dropped? && o in events[i].blocks
  }

  /** No lost output: a queued block whose epoch is still the requested one at the end is then queued or has been
      returned, unless a setEpoch call dropped it. */
  lemma {:induction false} QueuedIsReturned(states: seq<State>, events: seq<Event>, k: nat, n: nat, o: Output)
    requires Run(states, events) && k <= n <= |events|
    requires o in states[k].output && o.epoch >= states[n].requested
    ensures o in states[n].output || o in Returned(events[..n]) || DroppedWithin(events, k, n, o)
  {
    hide Step, Inv;
    if k < n {
      var s, t, e := states[n - 1], states[n], events[n - 1];
      RunInv(states, events, n - 1);
      RequestedGrows(s, t, e);
      QueuedIsReturned(states, events, k, n - 1, o);
      assert events[..n][..n - 1] == events[..n - 1];
      if o in s.output {
        OutputStep(s, t, e);
        LossStep(s, t, e);
      }
    }
  }

  /** The block was returned, refused by a full output queue, or dropped by a setEpoch call, before step n. */
  ghost predicate Settled(events: seq<Event>, n: nat, epoch: nat, index: nat) {
    exists i :: 0 <= i < n <= |events| && !events[i].Skip? && Contains(Gone(events[i]), epoch, index)
  }

  /** No gaps: when a block is returned, every earlier block of its epoch has been returned already, unless the
      output queue was full when it was cut or a setEpoch call dropped it. */
  lemma NoGaps(states: seq<State>, events: seq<Event>, n: nat, j: nat)
    requires Run(states, events) && n < |events| && events[n].Deliver? && j < events[n].o.index
    ensures Settled(events, n, events[n].o.epoch, j)
  {
    hide Step, Inv, Gone;
    var s, o := states[n], events[n].o;
    RunKnown(states, events, n);
    RunInv(states, events, n);
    DeliverIsFront(s, states[n + 1], events[n]);
    OutputLossExplained(states, events, n);
    FrontIsLeast(s, j);
    assert KnownBelow(s.output, events, n, s.output[0].epoch, s.output[0].index);
    assert Known(s.output, events, n, o.epoch, j);
    var i :| 0 <= i < n && Contains(Gone(events[i]), o.epoch, j);
    if events[i].Skip? {
      OutputLossExplained(states, events, i);
      RequestedLater(states, events, i, n);
      SkipNames(events[i], o.epoch, j);
    }
  }

  lemma DeliverIsFront(s: State, t: State, e: Event)
    requires Step(s, t, e) && e.Deliver?
    ensures s.output != [] && s.output[0] == e.o && e.o.epoch == e.epoch
  {
  }

  lemma FrontIsLeast(s: State, j: nat)
    requires Inv(s) && s.output != [] && j < s.output[0].index
    ensures !Contains(s.output, s.output[0].epoch, j)
  {
    hide InputsOk, LogOk, SessionOk, BufferOk, WorkerOk, Genuine, EpochsOk;
    var out, d := s.delivered + s.output, |s.delivered|;
    assert forall i :: 0 < i < |s.output| ==> out[d + i] == s.output[i] && out[d] == s.output[0] && Before(out[d], out[d + i]);
  }

  lemma SkipNames(e: Event, epoch: nat, index: nat)
    requires e.Skip? && Contains(Gone(e), epoch, index)
    ensures e.o.epoch == epoch
  {
  }

  lemma {:induction false} RequestedLater(states: seq<State>, events: seq<Event>, k: nat, n: nat)
    requires Run(states, events) && k <= n <= |events|
    ensures states[k].requested <= states[n].requested
  {
    hide Step, Inv;
    if k < n {
      RequestedLater(states, events, k, n - 1);
      RunInv(states, events, n - 1);
      RequestedGrows(states[n - 1], states[n], events[n - 1]);
    }
  }

  /** Epoch safety. In every interleaving, every block that processBlock(e) returned is tagged e and is one of
      the whole blocks of the model's output for the inputs that were submitted with tag e, concatenated in
      submission order; returned blocks never repeat and never go back, within an epoch or across epochs; and
      none is left out but those refused by a full output queue or dropped by a setEpoch call. */
  lemma EpochSafety(states: seq<State>, events: seq<Event>)
    requires Run(states, events)
    ensures var s, r := states[|events|], Returned(events);
            && (forall i :: 0 <= i < |r| ==>
                  var blocks := Chunks(Stream(s.log, r[i].epoch));
                  r[i].index < |blocks| && r[i].samples == blocks[r[i].index])
            && Ordered(r)
            && (forall i :: 0 <= i < |s.log| ==> Submitted(s.submitted, s.log[i].tag, s.log[i].id))
            && (forall i, j :: 0 <= i < j < |s.log| ==> s.log[i].id < s.log[j].id)
            && (forall i :: 0 <= i < |s.log| ==> FromModel(events, s.log[i]))
    ensures forall i :: 0 <= i < |events| && events[i].Deliver? ==> events[i].o.epoch == events[i].epoch
    ensures forall n, j: nat :: 0 <= n < |events| && events[n].Deliver? && j < events[n].o.index ==>
              Settled(events, n, events[n].o.epoch, j)
  {
    hide IsBlock, Stream, Step, InputsOk, BufferOk, EpochsOk, WorkerOk, SessionOk, Settled, FromModel;
    var s, r := states[|events|], Returned(events);
    RunInv(states, events, |events|);
    ReturnedAreDelivered(states, events);
    var out := s.delivered + s.output;
    forall i | 0 <= i < |r| ensures
      var blocks := Chunks(Stream(s.log, r[i].epoch));
      r[i].index < |blocks| && r[i].samples == blocks[r[i].index] {
      assert out[i] == r[i];
      BlockIsChunk(Stream(s.log, r[i].epoch), r[i].index, r[i].samples);
    }
    assert forall i :: 0 <= i < |r| ==> out[i] == r[i];
    RunFromModel(states, events, |events|);
    forall n, j: nat | 0 <= n < |events| && events[n].Deliver? && j < events[n].o.index
      ensures Settled(events, n, events[n].o.epoch, j) {
      NoGaps(states, events, n, j);
    }
    forall i | 0 <= i < |events| && events[i].Deliver? ensures events[i].o.epoch == events[i].epoch {
      DeliveredStep(states[i], states[i + 1], events[i]);
    }
  }

  /** With no block refused or dropped, blocks of an epoch that are returned one after the other have indices one
      apart, and the first of an epoch has index zero. */
  lemma ReturnedInSequence(states: seq<State>, events: seq<Event>, i: nat)
    requires Run(states, events) && i < |Returned(events)|
    requires forall k :: 0 <= k < |events| ==> !events[k].Overflow? && !events[k].Dropped?
    ensures var r := Returned(events);
            r[i].index == if i > 0 && r[i - 1].epoch == r[i].epoch then r[i - 1].index + 1 else 0
  {
    hide Step, Gone, Ordered;
    var r := Returned(events);
    EpochSafety(states, events);
    var least := if i > 0 && r[i - 1].epoch == r[i].epoch then r[i - 1].index + 1 else 0;
    NoneBetween(r, i, least);
    if least < r[i].index {
      var n := DeliveredAt(events, i);
      NoGaps(states, events, n, least);
      var k :| 0 <= k < n && !events[k].Skip? && Contains(Gone(events[k]), r[i].epoch, least);
      GoneIsDelivered(events[k], r[i].epoch, least);
      var m := ReturnedAt(events, n, k);
    }
  }

  lemma NoneBetween(r: seq<Output>, i: nat, least: nat)
    requires Ordered(r) && i < |r|
    requires least == if i > 0 && r[i - 1].epoch == r[i].epoch then r[i - 1].index + 1 else 0
    ensures least <= r[i].index && forall m :: 0 <= m < i ==> r[m].epoch != r[i].epoch || r[m].index < least
  {
    if i > 0 { assert Before(r[i - 1], r[i]); }
    forall m | 0 <= m < i ensures r[m].epoch != r[i].epoch || r[m].index < least {
      if m < i - 1 { assert Before(r[m], r[i - 1]) && Before(r[m], r[i]); }
    }
  }

  lemma GoneIsDelivered(e: Event, epoch: nat, index: nat)
    requires Contains(Gone(e), epoch, index) && !e.Skip? && !e.Overflow? && !e.Dropped?
    ensures e.Deliver? && e.o.epoch == epoch && e.o.index == index
  {
  }

  /** The step that returned block i. */
  lemma {:induction false} DeliveredAt(events: seq<Event>, i: nat) returns (n: nat)
    requires i < |Returned(events)|
    ensures n < |events| && events[n].Deliver? && events[n].o == Returned(events)[i] && Returned(events[..n]) == Returned(events)[..i]
  {
    var last: nat := |events| - 1;
    var before := events[..last];
    if i < |Returned(before)| {
      n := DeliveredAt(before, i);
      assert before[..n] == events[..n] && Returned(before)[..i] == Returned(events)[..i];
    } else {
      n := last;
    }
  }

  /** Where in the returned blocks step k's block is. */
  lemma {:induction false} ReturnedAt(events: seq<Event>, n: nat, k: nat) returns (m: nat)
    requires k < n <= |events| && events[k].Deliver?
    ensures m < |Returned(events[..n])| && Returned(events[..n])[m] == events[k].o
  {
    assert events[..n][..n - 1] == events[..n - 1];
    if k < n - 1 {
      m := ReturnedAt(events, n - 1, k);
    } else {
      m := |Returned(events[..n])| - 1;
    }
  }

  /** Whenever the model runs, everything it has seen since its last reset carries the same tag. */
  lemma SessionsArePure(states: seq<State>, events: seq<Event>, n: nat, b: Input)
    requires Run(states, events) && n <= |events| && states[n].worker == WRun(b)
    ensures b.epoch == states[n].workerEpoch
    ensures forall i :: 0 <= i < |states[n].session| ==> states[n].session[i] == b.epoch
  {
    hide Step;
    RunInv(states, events, n);
  }

  /** When the worker decides to run a block, and when it keeps a result, the block's epoch is the one requested at that
      moment. */
  lemma RunsOnlyRequested(states: seq<State>, events: seq<Event>, n: nat)
    requires Run(states, events) && n < |events|
    ensures states[n].worker.WRecheck? && states[n + 1].worker.WRun? ==> states[n].worker.b.epoch == states[n].requested
    ensures states[n + 1].log != states[n].log ==>
              states[n].worker.WResult? && states[n].worker.b.epoch == states[n].requested
  {
    hide Step;
    RunInv(states, events, n);
    RequestedStep(states[n], states[n + 1], events[n]);
  }

  lemma RequestedStep(s: State, t: State, e: Event)
    requires Inv(s) && Step(s, t, e)
    ensures s.worker.WRecheck? && t.worker.WRun? ==> s.worker.b.epoch == s.requested
    ensures t.log != s.log ==> s.worker.WResult? && s.worker.b.epoch == s.requested
  {
    hide RenderStep, WorkerStep, InputsOk, LogOk, SessionOk, BufferOk, OutputsOk, EpochsOk;
    if RenderStep(s, t, e) { RenderLogs(s, t, e); }
    else if WorkerStep(s, t, e) { RequestedWork(s, t, e); }
  }

  lemma RequestedWork(s: State, t: State, e: Event)
    requires WorkerOk(s.worker, s.workerEpoch, s.fifo, s.log, s.sent) && WorkerStep(s, t, e)
    ensures s.worker.WRecheck? && t.worker.WRun? ==> s.worker.b.epoch == s.requested
    ensures t.log != s.log ==> s.worker.WResult? && s.worker.b.epoch == s.requested
  {
  }

  /** A worker that has failed withdraws readiness and never publishes it again. */
  lemma FailureWithdrawsReady(s: State, t: State, e: Event)
    requires WorkerStep(s, t, e)
    ensures t.ready && !s.ready ==> !s.failed && !t.failed
    ensures s.worker.WFail? ==> !t.ready
    ensures t.failed && !s.failed ==> t.worker.WFail?
  {
  }

  /** No lost hand-off: the worker only throws a block or its result away after a newer epoch was requested. */
  lemma DiscardsOnlyStale(states: seq<State>, events: seq<Event>, n: nat)
    requires Run(states, events) && n < |events| && events[n].Discard?
    ensures events[n].b.epoch < states[n].requested
  {
    hide Step;
    RunInv(states, events, n);
    DiscardIsStale(states[n], states[n + 1], events[n]);
  }

  lemma DiscardIsStale(s: State, t: State, e: Event)
    requires Inv(s) && Step(s, t, e) && e.Discard?
    ensures e.b.epoch < s.requested
  {
    hide InputsOk, LogOk, SessionOk, BufferOk, OutputsOk;
    assert WorkerStep(s, t, e);
    HeldTag(s);
  }

  ghost predicate LoggedNow(s: State, t: State, b: Input) {
    exists samples :: t.log == s.log + [Appended(b.epoch, b.id, samples)]
  }

  predicate InLine(s: State, b: Input) {
    b in Held(s.worker) + s.input
  }

  ghost predicate Logged(log: seq<Appended>, b: Input) {
    exists i :: 0 <= i < |log| && log[i].tag == b.epoch && log[i].id == b.id
  }

  ghost predicate LostWithin(events: seq<Event>, k: nat, n: nat, b: Input) {
    exists i :: k <= i < n <= |events| && events[i] == Lost(b)
  }

  /** So a block of the newest epoch, its first one included, stays in line through every run, resets among its
      steps, until the model has run it; only a failure or an empty result can lose it. That its epoch is still the
      one requested at the end says it was all along. */
  lemma {:induction false} NewestSurvives(states: seq<State>, events: seq<Event>, k: nat, n: nat, b: Input)
    requires Run(states, events) && k <= n <= |events|
    requires InLine(states[k], b) && b.epoch >= states[n].requested
    ensures InLine(states[n], b) || Logged(states[n].log, b) || LostWithin(events, k, n, b)
  {
    hide Step, Inv, InLine, Logged;
    if k < n {
      var s, t, e := states[n - 1], states[n], events[n - 1];
      RunInv(states, events, n - 1);
      RequestedGrows(s, t, e);
      NewestSurvives(states, events, k, n - 1, b);
      if InLine(s, b) {
        StaysInLine(s, t, e, b);
        if LoggedNow(s, t, b) { NowLogged(s, t, b); }
      } else if Logged(s.log, b) {
        LogGrows(s, t, e);
        StillLogged(s.log, t.log, b);
      }
    }
  }

  /** What a submission puts in line: a block pushed while there is room. */
  lemma SubmittedIsInLine(s: State, t: State, e: Event, epoch: nat)
    requires s.render == RPush(epoch) && RenderStep(s, t, e) && |s.input| < QUEUE_CAPACITY - 1
    ensures InLine(t, Input(epoch, |s.submitted|))
  {
    assert t.input[|s.input|] == Input(epoch, |s.submitted|);
  }

  lemma RequestedGrows(s: State, t: State, e: Event)
    requires Inv(s) && Step(s, t, e)
    ensures s.requested <= t.requested
  {
    hide InputsOk, LogOk, SessionOk, BufferOk, OutputsOk, WorkerOk, RenderStep, WorkerStep;
    if RenderStep(s, t, e) { RenderRaises(s, t, e); }
    else if WorkerStep(s, t, e) { WorkerLeavesRender(s, t, e); }
  }

  lemma RenderRaises(s: State, t: State, e: Event)
    requires EpochsOk(s.workerEpoch, s.requested, s.render, |s.output|) && RenderStep(s, t, e)
    ensures s.requested <= t.requested
  {
  }

  lemma WorkerLeavesRender(s: State, t: State, e: Event)
    requires WorkerStep(s, t, e)
    ensures t.render == s.render && t.requested == s.requested
  {
  }

  lemma LogGrows(s: State, t: State, e: Event)
    requires Step(s, t, e)
    ensures s.log <= t.log
  {
    hide RenderStep, WorkerStep;
    if RenderStep(s, t, e) { RenderLogs(s, t, e); }
    else if WorkerStep(s, t, e) { WorkerLogs(s, t, e); }
  }

  lemma RenderLogs(s: State, t: State, e: Event)
    requires RenderStep(s, t, e)
    ensures t.log == s.log && t.worker == s.worker
  {
  }

  lemma WorkerLogs(s: State, t: State, e: Event)
    requires WorkerStep(s, t, e)
    ensures t.log == s.log || (s.worker.WResult? && |t.log| == |s.log| + 1 && t.log[..|s.log|] == s.log)
  {
    if s.worker.WResult? { assert t.log == s.log || t.log[..|s.log|] == s.log; }
  }

  lemma NowLogged(s: State, t: State, b: Input)
    requires LoggedNow(s, t, b)
    ensures Logged(t.log, b)
  {
    var samples :| t.log == s.log + [Appended(b.epoch, b.id, samples)];
    assert t.log[|s.log|] == Appended(b.epoch, b.id, samples);
  }

  lemma StillLogged(log: seq<Appended>, longer: seq<Appended>, b: Input)
    requires Logged(log, b) && log <= longer
    ensures Logged(longer, b)
  {
    var i :| 0 <= i < |log| && log[i].tag == b.epoch && log[i].id == b.id;
    assert longer[i] == log[i];
  }

  /** One step of it. */
  lemma StaysInLine(s: State, t: State, e: Event, b: Input)
    requires Inv(s) && Step(s, t, e) && InLine(s, b) && b.epoch >= s.requested
    ensures InLine(t, b) || e == Lost(b) || LoggedNow(s, t, b)
  {
    hide InputsOk, LogOk, SessionOk, BufferOk, OutputsOk, LoggedNow;
    if WorkerStep(s, t, e) {
      if e.Discard? { DiscardIsStale(s, t, e); }
      WorkerLine(s, t, e, b);
    } else {
      LineStays(s, t, e, b);
    }
  }

  lemma LineStays(s: State, t: State, e: Event, b: Input)
    requires (RenderStep(s, t, e) || ControlStep(s, t, e)) && InLine(s, b)
    ensures InLine(t, b)
  {
  }

  lemma WorkerLine(s: State, t: State, e: Event, b: Input)
    requires WorkerStep(s, t, e) && b in Held(s.worker) + s.input && !(e == Discard(b))
    ensures b in Held(t.worker) + t.input || e == Lost(b) || LoggedNow(s, t, b)
  {
    hide LoggedNow;
    if s.worker.WPop? && s.input != [] {
      assert Held(s.worker) + s.input == Held(t.worker) + t.input;
    } else {
      InputUntouched(s, t, e);
      if b !in s.input { HeldGoesOn(s, t, e, b); }
    }
  }

  lemma InputUntouched(s: State, t: State, e: Event)
    requires WorkerStep(s, t, e) && (!s.worker.WPop? || s.input == [])
    ensures t.input == s.input
  {
  }

  lemma HeldGoesOn(s: State, t: State, e: Event, b: Input)
    requires WorkerStep(s, t, e) && Held(s.worker) == [b] && !(e == Discard(b))
    ensures Held(t.worker) == [b] || e == Lost(b) || LoggedNow(s, t, b)
  {
    if s.worker.WResult? {
      assert t.log == s.log + [Appended(b.epoch, b.id, s.worker.samples)];
    }
  }

  // ----- the worker gets on -----

  /** How far the worker is from its next block: less is nearer. */
  function Rank(s: State): nat {
    match s.worker
    case WWarmUp => 20004
    case WFail(warm) => if warm then 20003 else 10
    case WWarmReset => 20002
    case WWarmEpoch => 20001
    case WPublish => 20000
    case WDrain => 10 + |s.fifo|
    case WTop => 9
    case WLoad => 8
    case WPop => 7
    case WGot(b) => 6
    case WNewer(b) => 5
    case WRecheck(b) => 4
    case WRun(b) => 3
    case WResult(b, samples) => 2
    case WExited => 0
  }

  /** While a block waits, every step of a worker that is not failed and not stopped shortens the line or brings the
      worker nearer to the first block in it, so no block waits for ever. */
  lemma WorkerGetsOn(s: State, t: State, e: Event)
    requires WorkerStep(s, t, e) && !s.failed && t.worker != WExited && s.worker != WExited
    requires Held(s.worker) + s.input != []
    ensures var was, now := |Held(s.worker) + s.input|, |Held(t.worker) + t.input|;
            now < was || (now == was && Rank(t) < Rank(s))
  {
  }

  // ----- a render call gets through -----

  /** A call is given up only when the processor is not ready or has failed; otherwise its epoch is requested. */
  lemma CallsGetThrough(s: State, t: State, e: Event)
    requires RenderStep(s, t, e) && (s.render.RReady? || s.render.RFailed? || s.render.RStore?)
    ensures t.render == RIdle ==> if s.render.RReady? then !s.ready else s.render.RFailed? && s.failed
    ensures s.render.RStore? ==> t.requested == s.render.call.epoch && (t.render.RPush? <==> s.render.call.ProcessBlock?)
  {
  }

  /** Output that was queued when setEpoch looked is not queued when it returns. */
  lemma SetEpochClears(states: seq<State>, events: seq<Event>, k: nat, n: nat, o: Output)
    requires Run(states, events) && k < n < |events| && states[k].render.RDiscard?
    requires forall i :: k < i <= n ==> states[i].render.RDrop?
    requires states[n + 1].render == RIdle && o in states[k].output
    ensures o !in states[n + 1].output
  {
    hide Step, Inv;
    OutputGrows(states, events, k, n);
    RunInv(states, events, n);
    DropLeaves(states[n], states[n + 1], events[n], states[k].output, o);
  }

  lemma {:induction false} OutputGrows(states: seq<State>, events: seq<Event>, k: nat, n: nat)
    requires Run(states, events) && k < n < |events|
    requires states[k].render.RDiscard? && forall i :: k < i <= n ==> states[i].render.RDrop?
    ensures states[k].output <= states[n].output && states[n].render.count == |states[k].output|
  {
    hide Step, Inv;
    var last: nat := n - 1;
    if k < last { OutputGrows(states, events, k, last); }
    KeepsOutput(states[last], states[n], events[last]);
  }

  lemma KeepsOutput(s: State, t: State, e: Event)
    requires Step(s, t, e) && (s.render.RDiscard? || s.render.RDrop?) && t.render.RDrop?
    ensures s.output <= t.output
    ensures t.render.count == if s.render.RDiscard? then |s.output| else s.render.count
  {
    hide RenderStep, WorkerStep;
    if RenderStep(s, t, e) { RenderKeepsOutput(s, t, e); }
    else if WorkerStep(s, t, e) { WorkerOutput(s, t, e); WorkerLeavesRender(s, t, e); }
  }

  lemma RenderKeepsOutput(s: State, t: State, e: Event)
    requires RenderStep(s, t, e) && (s.render.RDiscard? || s.render.RDrop?) && t.render.RDrop?
    ensures s.output == t.output && s.render.RDiscard? && t.render.count == |s.output|
  {
  }

  lemma DropLeaves(s: State, t: State, e: Event, seen: seq<Output>, o: Output)
    requires Inv(s) && Step(s, t, e) && s.render.RDrop? && s.render.count == |seen| && t.render == RIdle
    requires seen <= s.output && o in seen
    ensures o !in t.output
  {
    hide WorkerStep, InputsOk, LogOk, SessionOk, BufferOk, WorkerOk, Genuine, Behind, EpochsOk;
    if WorkerStep(s, t, e) { WorkerLeavesRender(s, t, e); }
    assert RenderStep(s, t, e);
    var out, d := s.delivered + s.output, |s.delivered|;
    var i :| 0 <= i < |seen| && seen[i] == o;
    forall j | 0 <= j < |t.output| ensures t.output[j] != o {
      assert t.output[j] == s.output[|seen| + j] == out[d + |seen| + j] && out[d + i] == o;
      assert Before(out[d + i], out[d + |seen| + j]);
    }
  }
}
