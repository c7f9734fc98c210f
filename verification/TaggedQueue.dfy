/** The epoch-tagged ring of audio blocks. */
module TaggedQueue {
  import opened RingIndex

  const BLOCK_SAMPLES := 480

  datatype Block = Block(epoch: nat, samples: seq<real>)

  class TaggedBlockQueue {
    const capacity: nat
    const blocks: array<Block>
    var read: nat
    var write: nat

    ghost predicate Valid()
      reads this, blocks
    {
      blocks.Length == capacity && read < capacity && write < capacity
    }

    ghost function Contents(): (q: seq<Block>)
      requires Valid()
      reads this, blocks
      ensures |q| < capacity
    {
      Queued(blocks[..], read, write)
    }

    constructor (capacity: nat)
      requires capacity > 0
      ensures Valid() && Contents() == [] && this.capacity == capacity && fresh(blocks)
    {
      this.capacity := capacity;
      blocks := new Block[capacity](_ => Block(0, seq(BLOCK_SAMPLES, _ => 0.0)));
      read, write := 0, 0;
    }

    /** Refuses short spans and a ring that already holds capacity - 1 blocks; otherwise appends. */
    method Push(epoch: nat, samples: seq<real>) returns (ok: bool)
      requires Valid()
      modifies this`write, blocks
      ensures Valid()
      ensures ok <==> |samples| >= BLOCK_SAMPLES && |old(Contents())| < capacity - 1
      ensures Contents() == old(Contents()) + if ok then [Block(epoch, samples[..BLOCK_SAMPLES])] else []
    {
      hide Queued;
      if |samples| < BLOCK_SAMPLES { return false; }
      var next := (write + 1) % capacity;
      WrapIsMod(write + 1, capacity);
      if next == read { return false; }
      ghost var was := blocks[..];
      var block := Block(epoch, samples[..BLOCK_SAMPLES]);
      PublishAppends(was, read, write, block);
      blocks[write] := block;
      assert blocks[..] == was[write := block];
      write := next;
      return true;
    }

    method Pop() returns (ok: bool, block: Block)
      requires Valid()
      modifies this`read
      ensures Valid()
      ensures ok <==> old(Contents()) != []
      ensures ok ==> block == old(Contents())[0] && Contents() == old(Contents())[1..]
      ensures !ok ==> Contents() == old(Contents())
    {
      hide Queued;
      block := blocks[read];
      if read == write { return false, block; }
      AdvanceDrops(blocks[..], read, write);
      WrapIsMod(read + 1, capacity);
      read := (read + 1) % capacity;
      ok := true;
    }

    method DiscardAll()
      requires Valid()
      modifies this`read
      ensures Valid() && Contents() == []
    {
      read := write;
    }
  }
}
