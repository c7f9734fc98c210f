/** The tagged ring used by two threads at once: every load, copied word and store is a step of its own. */
module QueueThreads {
  import opened RingIndex
  import opened TaggedQueue

  /** Where the producer is inside push. `words` counts what it has copied: the tag first, then samples. */
  datatype Producer =
    | PIdle
    | PStarted(block: Block, write: nat)
    | PCopying(block: Block, write: nat, next: nat, words: nat)

  /** Where the consumer is inside pop, or inside discardAll; `present` only records the number of blocks
      that were queued when discardAll loaded the write index. */
  datatype Consumer =
    | CIdle
    | CStarted(read: nat)
    | CCopying(read: nat, epoch: nat, words: nat, got: seq<real>)
    | CDiscarding(write: nat, present: nat)

  datatype State = State(blocks: seq<Block>, read: nat, write: nat, producer: Producer, consumer: Consumer)

  datatype Event =
    | Silent | PushOk(block: Block) | PushFull | PopOk(block: Block) | PopEmpty
    | DiscardSeen(count: nat) | Discarded(count: nat)

  function Init(capacity: nat): (s: State)
    requires capacity > 0
  {
    State(seq(capacity, _ => Block(0, seq(BLOCK_SAMPLES, _ => 0.0))), 0, 0, PIdle, CIdle)
  }

  /** A slot with its first `words` words taken from `block`. */
  function Overlaid(slot: Block, block: Block, words: nat): Block
    requires words <= BLOCK_SAMPLES + 1 && |slot.samples| == |block.samples| == BLOCK_SAMPLES
  {
    if words == 0 then slot
    else Block(block.epoch, block.samples[..words - 1] + slot.samples[words - 1..])
  }

  ghost predicate ProducerStep(s: State, t: State, e: Event)
    requires Inv(s)
  {
    && t.consumer == s.consumer && t.read == s.read && |t.blocks| == |s.blocks|
    && match s.producer
       case PIdle =>
         && t.producer.PStarted? && |t.producer.block.samples| == BLOCK_SAMPLES
         && t.producer.write == s.write
         && t.blocks == s.blocks && t.write == s.write && e == Silent
       case PStarted(b, w) =>
         && t.blocks == s.blocks && t.write == s.write
         && var next := (w + 1) % |s.blocks|;
            if next == s.read then t.producer == PIdle && e == PushFull
            else t.producer == PCopying(b, w, next, 0) && e == Silent
       case PCopying(b, w, next, words) =>
         if words <= BLOCK_SAMPLES then
           && t.producer == PCopying(b, w, next, words + 1)
           && t.blocks == s.blocks[w := Overlaid(s.blocks[w], b, words + 1)]
           && t.write == s.write && e == Silent
         else
           t.producer == PIdle && t.blocks == s.blocks && t.write == next && e == PushOk(b)
  }

  ghost predicate ConsumerStep(s: State, t: State, e: Event)
    requires Inv(s)
  {
    && t.producer == s.producer && t.write == s.write && t.blocks == s.blocks
    && match s.consumer
       case CIdle =>
         && t.read == s.read
         && ((t.consumer == CStarted(s.read) && e == Silent)
             || (t.consumer == CDiscarding(s.write, Count(s.read, s.write, |s.blocks|))
                 && e == DiscardSeen(Count(s.read, s.write, |s.blocks|))))
       case CStarted(r) =>
         && t.read == s.read
         && if r == s.write then t.consumer == CIdle && e == PopEmpty
            else t.consumer == CCopying(r, 0, 0, []) && e == Silent
       case CCopying(r, epoch, words, got) =>
         if words == 0 then
           t.consumer == CCopying(r, s.blocks[r].epoch, 1, []) && t.read == s.read && e == Silent
         else if words <= BLOCK_SAMPLES then
           && t.consumer == CCopying(r, epoch, words + 1, got + [s.blocks[r].samples[words - 1]])
           && t.read == s.read && e == Silent
         else
           t.consumer == CIdle && t.read == (r + 1) % |s.blocks| && e == PopOk(Block(epoch, got))
       case CDiscarding(w, present) =>
         t.consumer == CIdle && t.read == w && e == Discarded(present)
  }

  ghost predicate Step(s: State, t: State, e: Event)
    requires Inv(s)
  {
    ProducerStep(s, t, e) || ConsumerStep(s, t, e)
  }

  ghost predicate Inv(s: State) {
    && s.read < |s.blocks| && s.write < |s.blocks|
    && (forall i :: 0 <= i < |s.blocks| ==> |s.blocks[i].samples| == BLOCK_SAMPLES)
    && ProducerOk(s) && ConsumerOk(s)
  }

  /** While it copies, the producer owns the slot at the write index and keeps one slot free beyond it. */
  ghost predicate ProducerOk(s: State)
    requires s.read < |s.blocks| && s.write < |s.blocks|
    requires forall i :: 0 <= i < |s.blocks| ==> |s.blocks[i].samples| == BLOCK_SAMPLES
  {
    match s.producer
    case PIdle => true
    case PStarted(b, w) => w == s.write && |b.samples| == BLOCK_SAMPLES
    case PCopying(b, w, next, words) =>
      && w == s.write && next == Wrap(w + 1, |s.blocks|) && next != s.read
      && |b.samples| == BLOCK_SAMPLES && words <= BLOCK_SAMPLES + 1
      && (words > 0 ==> s.blocks[w].epoch == b.epoch && s.blocks[w].samples[..words - 1] == b.samples[..words - 1])
  }

  /** While it copies, the consumer holds an exact prefix of the oldest queued block. */
  ghost predicate ConsumerOk(s: State)
    requires s.read < |s.blocks| && s.write < |s.blocks|
    requires forall i :: 0 <= i < |s.blocks| ==> |s.blocks[i].samples| == BLOCK_SAMPLES
  {
    match s.consumer
    case CIdle => true
    case CStarted(r) => r == s.read
    case CCopying(r, epoch, words, got) =>
      && r == s.read && r != s.write && words <= BLOCK_SAMPLES + 1
      && (words == 0 ==> got == [])
      && (words > 0 ==> epoch == s.blocks[r].epoch && got == s.blocks[r].samples[..words - 1])
    case CDiscarding(w, present) =>
      && w < |s.blocks| && present == Count(s.read, w, |s.blocks|)
      && present <= Count(s.read, s.write, |s.blocks|)
  }

  /** What the shared memory means: the queue an observer of the two indices sees. */
  function Abstract(s: State): seq<Block>
    requires s.read < |s.blocks| && s.write < |s.blocks|
  {
    Queued(s.blocks, s.read, s.write)
  }

  /** The atomic bounded FIFO: capacity - 1 blocks, push at the back, pop and drop at the front. */
  ghost predicate FifoStep(a: seq<Block>, b: seq<Block>, capacity: nat, e: Event) {
    match e
    case Silent => b == a
    case PushOk(block) => |a| < capacity - 1 && b == a + [block]
    case PushFull => |a| == capacity - 1 && b == a
    case PopOk(block) => a != [] && block == a[0] && b == a[1..]
    case PopEmpty => a == [] && b == a
    case DiscardSeen(n) => n == |a| && b == a
    case Discarded(n) => n <= |a| && b == a[n..]
  }

  lemma InitInv(capacity: nat)
    requires capacity > 0
    ensures Inv(Init(capacity)) && Abstract(Init(capacity)) == []
  {
  }

  lemma ProducerRefines(s: State, t: State, e: Event)
    requires Inv(s) && ProducerStep(s, t, e)
    ensures Inv(t) && FifoStep(Abstract(s), Abstract(t), |s.blocks|, e)
  {
    hide Queued;
    match s.producer
    case PIdle =>
    case PStarted(b, w) => WrapIsMod(w + 1, |s.blocks|);
    case PCopying(b, w, next, words) =>
      if words <= BLOCK_SAMPLES {
        WriteSlotIsFree(s.blocks, s.read, w, t.blocks[w]);
      } else {
        assert s.blocks[w] == b by { assert b.samples[..BLOCK_SAMPLES] == b.samples; }
        PublishAppends(s.blocks, s.read, w, b);
        assert s.blocks[w := b] == s.blocks;
      }
  }

  lemma ConsumerRefines(s: State, t: State, e: Event)
    requires Inv(s) && ConsumerStep(s, t, e)
    ensures Inv(t) && FifoStep(Abstract(s), Abstract(t), |s.blocks|, e)
  {
    hide Queued;
    match s.consumer
    case CIdle =>
    case CStarted(r) =>
    case CCopying(r, epoch, words, got) =>
      if words > BLOCK_SAMPLES {
        WrapIsMod(r + 1, |s.blocks|);
        AdvanceDrops(s.blocks, r, s.write);
      }
    case CDiscarding(w, present) =>
      JumpDrops(s.blocks, s.read, w, s.write);
  }

  /** No slot is written while it is being copied out. */
  lemma NoTornCopy(s: State)
    requires Inv(s) && s.producer.PCopying? && s.consumer.CCopying?
    ensures s.producer.write != s.consumer.read
  {
  }

  // ----- whole runs -----

  ghost predicate Run(states: seq<State>, events: seq<Event>, capacity: nat) {
    && capacity > 0 && |states| == |events| + 1 && states[0] == Init(capacity)
    && forall i :: 0 <= i < |events| ==> Inv(states[i]) ==> Step(states[i], states[i + 1], events[i])
  }

  /** How a run takes blocks out: popped one by one, or dropped unseen by discardAll. */
  datatype Exit = Popped(block: Block) | Dropped

  function NewlyPushed(e: Event): seq<Block> {
    if e.PushOk? then [e.block] else []
  }

  function NewExits(e: Event): seq<Exit> {
    if e.PopOk? then [Popped(e.block)] else if e.Discarded? then seq(e.count, _ => Dropped) else []
  }

  /** Blocks whose push succeeded, in order. */
  function Pushed(events: seq<Event>): seq<Block> {
    if events == [] then [] else Pushed(events[..|events| - 1]) + NewlyPushed(events[|events| - 1])
  }

  function Exits(events: seq<Event>): seq<Exit> {
    if events == [] then [] else Exits(events[..|events| - 1]) + NewExits(events[|events| - 1])
  }

  /** Blocks leave in the order they were pushed: exit k concerns pushed block k. */
  ghost predicate InOrder(exits: seq<Exit>, pushed: seq<Block>) {
    && |exits| <= |pushed|
    && forall k :: 0 <= k < |exits| ==> exits[k].Popped? ==> exits[k].block == pushed[k]
  }

  lemma Prefix(states: seq<State>, events: seq<Event>, capacity: nat)
    requires Run(states, events, capacity) && events != []
    ensures Run(states[..|events|], events[..|events| - 1], capacity)
  {
  }

  /** In every interleaving, what was pushed is exactly what has left followed by what is queued; popped
      blocks are the pushed blocks, whole and in order, and never more than capacity - 1 are queued. */
  lemma {:induction false} RunIsFifo(states: seq<State>, events: seq<Event>, capacity: nat)
    requires Run(states, events, capacity)
    ensures var s := states[|events|];
            && Inv(s) && |s.blocks| == capacity && |Abstract(s)| <= capacity - 1
            && InOrder(Exits(events), Pushed(events))
            && Pushed(events)[|Exits(events)|..] == Abstract(s)
  {
    hide Inv, Queued, ProducerStep, ConsumerStep;
    if events == [] {
      InitInv(capacity);
      InitSize(capacity);
    } else {
      Prefix(states, events, capacity);
      var n := |events| - 1;
      RunIsFifo(states[..|events|], events[..n], capacity);
      var s, t, e := states[n], states[n + 1], events[n];
      assert Step(s, t, e);
      if ProducerStep(s, t, e) { ProducerRefines(s, t, e); ProducerKeepsSize(s, t, e); }
      else { ConsumerRefines(s, t, e); ConsumerKeepsSize(s, t, e); }
      Bounds(s);
      Bounds(t);
      FifoKeepsOrder(Exits(events[..n]), Pushed(events[..n]), Abstract(s), Abstract(t), capacity, e);
    }
  }

  lemma InitSize(capacity: nat)
    requires capacity > 0
    ensures |Init(capacity).blocks| == capacity
  {
  }

  lemma ProducerKeepsSize(s: State, t: State, e: Event)
    requires Inv(s) && ProducerStep(s, t, e)
    ensures |t.blocks| == |s.blocks|
  {
  }

  lemma ConsumerKeepsSize(s: State, t: State, e: Event)
    requires Inv(s) && ConsumerStep(s, t, e)
    ensures |t.blocks| == |s.blocks|
  {
  }

  lemma Bounds(s: State)
    requires Inv(s)
    ensures s.read < |s.blocks| && s.write < |s.blocks| && |Abstract(s)| <= |s.blocks| - 1
  {
  }

  lemma FifoKeepsOrder(exits: seq<Exit>, pushed: seq<Block>, a: seq<Block>, b: seq<Block>, capacity: nat, e: Event)
    requires FifoStep(a, b, capacity, e) && InOrder(exits, pushed) && pushed[|exits|..] == a
    ensures InOrder(exits + NewExits(e), pushed + NewlyPushed(e))
    ensures (pushed + NewlyPushed(e))[|exits + NewExits(e)|..] == b
  {
    match e
    case PopOk(block) => assert pushed[|exits|] == a[0];
    case Discarded(n) =>
    case PushOk(block) => assert (pushed + [block])[|exits|..] == a + [block];
    case Silent =>
    case PushFull =>
    case PopEmpty =>
    case DiscardSeen(n) =>
  }
}
