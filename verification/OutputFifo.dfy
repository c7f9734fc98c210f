/** The worker's output buffer: model output of any length goes in, whole 480-sample blocks come out. */
module OutputFifo {
  import opened TaggedQueue

  const FIFO_CAPACITY := BLOCK_SAMPLES * 64
  const MAX_OUTPUT_SAMPLES := BLOCK_SAMPLES * 4

  // ----- cutting a stream into blocks -----

  /** The whole blocks of a stream, in order. */
  function Chunks(s: seq<real>): (c: seq<seq<real>>)
    ensures forall k :: 0 <= k < |c| ==> |c[k]| == BLOCK_SAMPLES
    decreases |s|
  {
    if |s| < BLOCK_SAMPLES then [] else [s[..BLOCK_SAMPLES]] + Chunks(s[BLOCK_SAMPLES..])
  }

  /** What is left over after the last whole block. */
  function Residue(s: seq<real>): (r: seq<real>)
    ensures |r| < BLOCK_SAMPLES
    decreases |s|
  {
    if |s| < BLOCK_SAMPLES then s else Residue(s[BLOCK_SAMPLES..])
  }

  function Flat(c: seq<seq<real>>): seq<real> {
    if c == [] then [] else c[0] + Flat(c[1..])
  }

  /** Nothing is lost or reordered by cutting. */
  lemma {:induction false} ChunksAndResidue(s: seq<real>)
    ensures Flat(Chunks(s)) + Residue(s) == s
    decreases |s|
  {
    if |s| >= BLOCK_SAMPLES {
      var rest := s[BLOCK_SAMPLES..];
      ChunksAndResidue(rest);
      assert Chunks(s)[1..] == Chunks(rest);
      assert s[..BLOCK_SAMPLES] + Flat(Chunks(rest)) + Residue(rest) == s[..BLOCK_SAMPLES] + rest;
    }
  }

  /** Cutting as samples arrive gives the same blocks as cutting the whole stream at the end. */
  lemma {:induction false} StreamingCut(a: seq<real>, b: seq<real>)
    ensures Chunks(a + b) == Chunks(a) + Chunks(Residue(a) + b)
    ensures Residue(a + b) == Residue(Residue(a) + b)
    decreases |a|
  {
    if |a| >= BLOCK_SAMPLES {
      var rest := a[BLOCK_SAMPLES..];
      StreamingCut(rest, b);
      assert (a + b)[..BLOCK_SAMPLES] == a[..BLOCK_SAMPLES];
      assert (a + b)[BLOCK_SAMPLES..] == rest + b;
    }
  }

  // ----- the buffer -----

  function Tag(epoch: nat, c: seq<seq<real>>): (t: seq<Block>)
    ensures |t| == |c|
  {
    seq(|c|, k requires 0 <= k < |c| => Block(epoch, c[k]))
  }

  /** How many of `done` blocks a queue with that much room takes. */
  ghost function Sent(done: nat, room: int): (n: nat)
    requires room >= 0
    ensures n <= done
  {
    if done <= room then done else room
  }

  class OutputBuffer {
    const fifo: array<real>
    var count: nat
    const queue: TaggedBlockQueue
    var outputDrops: nat

    ghost predicate Valid()
      reads this, queue, queue.blocks
    {
      && fifo.Length == FIFO_CAPACITY && count < BLOCK_SAMPLES && queue.Valid()
    }

    ghost function Pending(): seq<real>
      requires count <= fifo.Length
      reads this, fifo
    {
      fifo[..count]
    }

    constructor (capacity: nat)
      requires capacity > 0
      ensures Valid() && Pending() == [] && queue.Contents() == [] && outputDrops == 0 && queue.capacity == capacity
      ensures fresh(fifo) && fresh(queue) && fresh(queue.blocks)
    {
      fifo := new real[FIFO_CAPACITY](_ => 0.0);
      count := 0;
      outputDrops := 0;
      queue := new TaggedBlockQueue(capacity);
    }

    /** Sends the oldest block off, or counts it as dropped when the queue is full, and closes the gap. */
    method DrainOne(epoch: nat)
      requires fifo.Length == FIFO_CAPACITY && BLOCK_SAMPLES <= count <= FIFO_CAPACITY && queue.Valid()
      modifies this`count, this`outputDrops, fifo, queue, queue.blocks
      ensures count == old(count) - BLOCK_SAMPLES && Pending() == old(Pending())[BLOCK_SAMPLES..] && queue.Valid()
      ensures var room := |old(queue.Contents())| < queue.capacity - 1;
              && queue.Contents() == old(queue.Contents())
                                     + (if room then [Block(epoch, old(Pending())[..BLOCK_SAMPLES])] else [])
              && outputDrops == old(outputDrops) + if room then 0 else 1
    {
      ghost var was := fifo[..count];
      var drained := fifo[..BLOCK_SAMPLES];
      assert drained == was[..BLOCK_SAMPLES] && drained[..BLOCK_SAMPLES] == drained;
      var ok := queue.Push(epoch, drained);
      if !ok {
        outputDrops := outputDrops + 1;
      }
      count := count - BLOCK_SAMPLES;
      assert fifo[BLOCK_SAMPLES..BLOCK_SAMPLES + count] == was[BLOCK_SAMPLES..];
      ShiftDown(fifo, count);
    }

    /** Appends model output of at most four blocks and drains every whole block. The buffer always ends
        below one block, its full branch is never taken, and what is queued or dropped, followed by what
        stays pending, is exactly what was pending followed by the new samples. */
    method AppendOutput(samples: seq<real>, epoch: nat)
      requires Valid() && |samples| <= MAX_OUTPUT_SAMPLES
      modifies this`count, this`outputDrops, fifo, queue, queue.blocks
      ensures Valid()
      ensures Pending() == Residue(old(Pending()) + samples)
      ensures var blocks := Tag(epoch, Chunks(old(Pending()) + samples));
              var room := queue.capacity - 1 - |old(queue.Contents())|;
              && queue.Contents() == old(queue.Contents()) + blocks[..Sent(|blocks|, room)]
              && outputDrops == old(outputDrops) + (|blocks| - Sent(|blocks|, room))
    {
      ghost var all := Pending() + samples;
      if |samples| == 0 {
        assert all == Pending();
        return;
      }
      Fill(samples);
      Drain(epoch);
    }

    /** Copies everything in; the branch that would drop the buffer because it is full cannot be reached. */
    method Fill(samples: seq<real>)
      requires Valid() && |samples| <= MAX_OUTPUT_SAMPLES
      modifies this`count, fifo
      ensures count == old(count) + |samples| <= FIFO_CAPACITY && Pending() == old(Pending()) + samples
    {
      ghost var all := Pending() + samples;
      var offset := 0;
      while offset < |samples|
        invariant offset <= |samples| && count == old(count) + offset
        invariant fifo[..count] == all[..count]
      {
        var freeSpace := FIFO_CAPACITY - count;
        if freeSpace == 0 {
          assert false;
        }
        var copyCount := if freeSpace <= |samples| - offset then freeSpace else |samples| - offset;
        CopyIn(fifo, count, samples, offset, copyCount);
        count := count + copyCount;
        offset := offset + copyCount;
      }
      assert fifo[..count] == all;
    }

    method Drain(epoch: nat)
      requires fifo.Length == FIFO_CAPACITY && count <= FIFO_CAPACITY && queue.Valid()
      modifies this`count, this`outputDrops, fifo, queue, queue.blocks
      ensures Valid() && Pending() == Residue(old(Pending()))
      ensures var blocks := Tag(epoch, Chunks(old(Pending())));
              var room := queue.capacity - 1 - |old(queue.Contents())|;
              && queue.Contents() == old(queue.Contents()) + blocks[..Sent(|blocks|, room)]
              && outputDrops == old(outputDrops) + (|blocks| - Sent(|blocks|, room))
    {
      ghost var queued, drops := queue.Contents(), outputDrops;
      ghost var room := queue.capacity - 1 - |queued|;
      ghost var done := 0;
      ghost var blocks := Tag(epoch, Chunks(fifo[..count]));
      while count >= BLOCK_SAMPLES
        invariant count <= FIFO_CAPACITY && queue.Valid() && done <= |blocks|
        invariant Residue(fifo[..count]) == Residue(old(Pending()))
        invariant Tag(epoch, Chunks(fifo[..count])) == blocks[done..]
        invariant queue.Contents() == queued + blocks[..Sent(done, room)]
        invariant outputDrops + Sent(done, room) == drops + done
        decreases count
      {
        ghost var now := fifo[..count];
        TagNext(epoch, now);
        assert blocks[done] == blocks[done..][0] == Block(epoch, now[..BLOCK_SAMPLES]);
        assert blocks[done + 1..] == blocks[done..][1..];
        DrainOne(epoch);
        done := done + 1;
      }
      assert blocks[done..] == [];
    }
  }

  lemma TagNext(epoch: nat, now: seq<real>)
    requires |now| >= BLOCK_SAMPLES
    ensures var t := Tag(epoch, Chunks(now));
            t != [] && t[0] == Block(epoch, now[..BLOCK_SAMPLES])
            && t[1..] == Tag(epoch, Chunks(now[BLOCK_SAMPLES..]))
  {
    assert Chunks(now)[1..] == Chunks(now[BLOCK_SAMPLES..]);
  }

  method ShiftDown(a: array<real>, count: nat)
    requires count + BLOCK_SAMPLES <= a.Length
    modifies a
    ensures a[..count] == old(a[BLOCK_SAMPLES..BLOCK_SAMPLES + count])
  {
    var i := 0;
    while i < count
      invariant 0 <= i <= count
      invariant a[..i] == old(a[BLOCK_SAMPLES..BLOCK_SAMPLES + i])
      invariant a[BLOCK_SAMPLES + i..] == old(a[BLOCK_SAMPLES + i..])
    {
      assert a[BLOCK_SAMPLES + i] == a[BLOCK_SAMPLES + i..][0];
      a[i] := a[BLOCK_SAMPLES + i];
      i := i + 1;
    }
  }

  method CopyIn(a: array<real>, to: nat, src: seq<real>, from: nat, n: nat)
    requires to + n <= a.Length && from + n <= |src|
    modifies a
    ensures a[..to] == old(a[..to]) && a[to..to + n] == src[from..from + n]
  {
    var i := 0;
    while i < n
      invariant 0 <= i <= n
      invariant a[..to] == old(a[..to]) && a[to..to + i] == src[from..from + i]
    {
      a[to + i] := src[from + i];
      i := i + 1;
    }
  }
}
