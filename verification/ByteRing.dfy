/** The byte ring between the network and the sound card. */
module ByteRing {
  import opened RingIndex
  import opened Wrappers

  method CopyBytes(dst: array<byte>, to: nat, src: seq<byte>, from: nat, n: nat)
    requires to + n <= dst.Length && from + n <= |src|
    modifies dst
    ensures forall k :: 0 <= k < dst.Length ==> dst[k] == if to <= k < to + n then src[from + k - to] else old(dst[k])
  {
    var i := 0;
    while i < n
      invariant 0 <= i <= n
      invariant forall k :: 0 <= k < dst.Length ==> dst[k] == if to <= k < to + i then src[from + k - to] else old(dst[k])
    {
      dst[to + i] := src[from + i];
      i := i + 1;
    }
  }

  class SPSCRingBuffer {
    const buffer: array<byte>
    const capacity: nat
    var readPos: nat
    var writePos: nat

    ghost predicate Valid()
      reads this
    {
      buffer.Length == capacity && readPos < capacity && writePos < capacity
    }

    ghost function Contents(): (s: seq<byte>)
      requires Valid()
      reads this, buffer
      ensures |s| < capacity
    {
      Queued(buffer[..], readPos, writePos)
    }

    constructor (capacity: nat)
      requires capacity > 0
      ensures Valid() && Contents() == [] && this.capacity == capacity && fresh(buffer)
    {
      buffer := new byte[capacity](_ => 0);
      this.capacity := capacity;
      readPos, writePos := 0, 0;
    }

    function AvailableRead(): (n: nat)
      requires Valid()
      reads this, buffer
      ensures n == |Contents()|
    {
      if writePos >= readPos then writePos - readPos else capacity - readPos + writePos
    }

    function AvailableWrite(): nat
      requires Valid()
      reads this, buffer
    {
      capacity - AvailableRead() - 1
    }

    /** All of the data or none of it, in one or two pieces. */
    method Push(data: seq<byte>) returns (ok: bool)
      requires Valid()
      modifies this`writePos, buffer
      ensures Valid() && (ok <==> |old(Contents())| + |data| < capacity)
      ensures Contents() == old(Contents()) + if ok then data else []
    {
      var size := |data|;
      if size > AvailableWrite() { return false; }
      ghost var was := buffer[..];
      Place(data);
      WrapIsMod(writePos + size, capacity);
      BulkAppends(was, buffer[..], readPos, writePos, data);
      writePos := (writePos + size) % capacity;
      return true;
    }

    /** The copies of a push: one piece, or two when the data runs past the end of the buffer. */
    method Place(data: seq<byte>)
      requires Valid() && |data| < capacity
      modifies buffer
      ensures forall k :: 0 <= k < capacity ==> buffer[k] == Overwritten(old(buffer[..]), writePos, data, k)
    {
      var size := |data|;
      if writePos + size <= capacity {
        CopyBytes(buffer, writePos, data, 0, size);
      } else {
        var first := capacity - writePos;
        CopyBytes(buffer, writePos, data, 0, first);
        CopyBytes(buffer, 0, data, first, size - first);
      }
    }

    method Pop(size: nat) returns (ok: bool, data: seq<byte>)
      requires Valid()
      modifies this`readPos
      ensures Valid() && (ok <==> size <= |old(Contents())|)
      ensures ok ==> data == old(Contents())[..size] && Contents() == old(Contents())[size..]
      ensures !ok ==> Contents() == old(Contents())
    {
      hide Queued;
      data := [];
      if size > AvailableRead() { return false, data; }
      if readPos + size <= capacity {
        data := buffer[readPos..readPos + size];
      } else {
        var first := capacity - readPos;
        data := buffer[readPos..readPos + first] + buffer[..size - first];
      }
      FrontPieces(buffer[..], readPos, writePos, size);
      assert data == Contents()[..size];
      WrapIsMod(readPos + size, capacity);
      BulkDrops(buffer[..], readPos, writePos, size);
      readPos := (readPos + size) % capacity;
      ok := true;
    }

    method Reset()
      requires Valid()
      modifies this`readPos, this`writePos
      ensures Valid() && Contents() == []
    {
      readPos := 0;
      writePos := 0;
    }

    method Size() returns (n: nat)
      requires Valid()
      ensures n == |Contents()|
    {
      n := AvailableRead();
    }

    method SizeBlocks(blockSize: nat) returns (n: nat)
      requires Valid() && blockSize > 0
      ensures n == |Contents()| / blockSize
    {
      var size := Size();
      n := size / blockSize;
    }

    /** Drops that many bytes from the front, or everything. */
    method Discard(bytes: nat)
      requires Valid()
      modifies this`readPos
      ensures Valid()
      ensures Contents() == old(Contents())[if bytes <= |old(Contents())| then bytes else |old(Contents())|..]
    {
      var avail := AvailableRead();
      if bytes >= avail {
        readPos := writePos;
      } else {
        WrapIsMod(readPos + bytes, capacity);
        BulkDrops(buffer[..], readPos, writePos, bytes);
        readPos := (readPos + bytes) % capacity;
      }
    }
  }
}
