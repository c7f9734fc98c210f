/** Positions around a ring whose read and write indices tell what is queued; one slot always stays free. */
module RingIndex {

  /** Slot that follows position k < 2 * capacity around the ring. */
  function Wrap(k: int, capacity: nat): int {
    if k < capacity then k else k - capacity
  }

  lemma WrapIsMod(k: nat, capacity: nat)
    requires capacity > 0 && k < 2 * capacity
    ensures k % capacity == Wrap(k, capacity)
  {
    if k >= capacity {
      assert k == capacity * 1 + (k - capacity);
    }
  }

  function Count(read: int, write: int, capacity: nat): int {
    if write >= read then write - read else write + capacity - read
  }

  /** Elements from the read index up to the write index, in ring order. */
  function Queued<T>(blocks: seq<T>, read: nat, write: nat): (q: seq<T>)
    requires read < |blocks| && write < |blocks|
    ensures |q| == Count(read, write, |blocks|) < |blocks|
    ensures forall i :: 0 <= i < |q| ==> q[i] == blocks[Wrap(read + i, |blocks|)]
  {
    var n := Count(read, write, |blocks|);
    seq(n, i requires 0 <= i < n => blocks[Wrap(read + i, |blocks|)])
  }

  /** Filling the slot at the write index and publishing it appends to the queue. */
  lemma PublishAppends<T>(blocks: seq<T>, read: nat, write: nat, b: T)
    requires read < |blocks| && write < |blocks| && Wrap(write + 1, |blocks|) != read
    ensures Queued(blocks[write := b], read, Wrap(write + 1, |blocks|)) == Queued(blocks, read, write) + [b]
  {
    var after, before := Queued(blocks[write := b], read, Wrap(write + 1, |blocks|)), Queued(blocks, read, write);
    assert |after| == |before| + 1;
    assert forall i :: 0 <= i < |before| ==> after[i] == before[i];
  }

  lemma AdvanceDrops<T>(blocks: seq<T>, read: nat, write: nat)
    requires read < |blocks| && write < |blocks| && read != write
    ensures Queued(blocks, read, write)[0] == blocks[read]
    ensures Queued(blocks, Wrap(read + 1, |blocks|), write) == Queued(blocks, read, write)[1..]
  {
    var after, before := Queued(blocks, Wrap(read + 1, |blocks|), write), Queued(blocks, read, write);
    assert |after| == |before| - 1;
    assert forall i :: 0 <= i < |after| ==> after[i] == before[1..][i];
  }

  /** Moving the read index to an earlier value of the write index drops exactly what was queued then. */
  lemma JumpDrops<T>(blocks: seq<T>, read: nat, mid: nat, write: nat)
    requires read < |blocks| && mid < |blocks| && write < |blocks|
    requires Count(read, mid, |blocks|) <= Count(read, write, |blocks|)
    ensures Queued(blocks, mid, write) == Queued(blocks, read, write)[Count(read, mid, |blocks|)..]
  {
    var n := Count(read, mid, |blocks|);
    var after, before := Queued(blocks, mid, write), Queued(blocks, read, write);
    assert |after| == |before| - n;
    assert forall i :: 0 <= i < |after| ==> after[i] == before[n..][i];
  }

  /** What slot k holds once `data` has been placed from the write index on, around the end if need be. */
  function Overwritten<T>(slots: seq<T>, write: nat, data: seq<T>, k: nat): T
    requires write < |slots| && k < |slots|
  {
    var i := if k >= write then k - write else k + |slots| - write;
    if i < |data| then data[i] else slots[k]
  }

  /** Filling free slots after the write index appends all of `data`. */
  lemma BulkAppends<T>(before: seq<T>, after: seq<T>, read: nat, write: nat, data: seq<T>)
    requires |before| == |after| && read < |before| && write < |before|
    requires Count(read, write, |before|) + |data| < |before|
    requires forall k :: 0 <= k < |after| ==> after[k] == Overwritten(before, write, data, k)
    ensures Queued(after, read, Wrap(write + |data|, |after|)) == Queued(before, read, write) + data
  {
    var was, now := Queued(before, read, write), Queued(after, read, Wrap(write + |data|, |after|));
    assert |now| == |was| + |data|;
    assert forall i :: 0 <= i < |was| ==> now[i] == was[i];
    forall i | |was| <= i < |now| ensures now[i] == data[i - |was|] {
      assert Wrap(read + i, |after|) == Wrap(write + (i - |was|), |after|);
    }
    assert now == was + data;
  }

  /** The oldest elements, read off the ring in one or two pieces. */
  lemma FrontPieces<T>(blocks: seq<T>, read: nat, write: nat, size: nat)
    requires read < |blocks| && write < |blocks| && size <= Count(read, write, |blocks|)
    ensures Queued(blocks, read, write)[..size]
         == if read + size <= |blocks| then blocks[read..read + size]
            else blocks[read..] + blocks[..size - (|blocks| - read)]
  {
    var front := Queued(blocks, read, write)[..size];
    if read + size <= |blocks| {
      assert forall i :: 0 <= i < size ==> front[i] == blocks[read..read + size][i];
    } else {
      var pieces := blocks[read..] + blocks[..size - (|blocks| - read)];
      assert |pieces| == size;
      assert forall i :: 0 <= i < size ==> front[i] == pieces[i];
    }
  }

  /** Moving the read index past `count` elements drops exactly those. */
  lemma BulkDrops<T>(blocks: seq<T>, read: nat, write: nat, count: nat)
    requires read < |blocks| && write < |blocks| && count <= Count(read, write, |blocks|)
    ensures Queued(blocks, Wrap(read + count, |blocks|), write) == Queued(blocks, read, write)[count..]
  {
    JumpDrops(blocks, read, Wrap(read + count, |blocks|), write);
  }

  /** The slot at the write index is outside the queue, so writing it disturbs nothing queued. */
  lemma WriteSlotIsFree<T>(blocks: seq<T>, read: nat, write: nat, b: T)
    requires read < |blocks| && write < |blocks|
    ensures Queued(blocks[write := b], read, write) == Queued(blocks, read, write)
  {
    var after, before := Queued(blocks[write := b], read, write), Queued(blocks, read, write);
    assert |after| == |before|;
    assert forall i :: 0 <= i < |after| ==> after[i] == before[i];
  }
}
