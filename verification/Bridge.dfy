/** The bridge's receive loop: the demand gate, the watermark that bounds latency, and the block counters. */
module Bridge {
  import opened ByteRing
  import opened Wrappers

  const BLOCK_SIZE := 960
  const RING_BUFFER_BLOCKS := 128
  const MAX_QUEUED := 3
  const TARGET_QUEUED := 2

  /** What the loop reads for one received block. */
  datatype Reading = Reading(micRequested: bool, demandMode: bool, renderStalled: bool, alwaysHot: bool)

  predicate EffectiveActive(now: Reading) {
    !now.demandMode || (now.micRequested && !now.renderStalled)
  }

  ghost predicate IsSuffix(s: seq<byte>, all: seq<byte>) {
    |s| <= |all| && s == all[|all| - |s|..]
  }

  predicate Whole(s: seq<byte>) {
    |s| % BLOCK_SIZE == 0
  }

  function Blocks(s: seq<byte>): nat {
    |s| / BLOCK_SIZE
  }

  class Receiver {
    const ring: SPSCRingBuffer
    var idleCount: nat
    var wasIdle: bool
    var connected: bool
    var received: nat
    var discarded: nat
    var pushed: nat
    var dropped: nat
    var denoiseResets: nat
    ghost var stream: seq<byte>     // every block accepted for playing, in order

    /** The ring holds whole blocks, the newest ones accepted. */
    ghost predicate RingOk()
      reads this, ring, ring.buffer
    {
      && ring.Valid() && ring.capacity == BLOCK_SIZE * RING_BUFFER_BLOCKS
      && Whole(ring.Contents()) && IsSuffix(ring.Contents(), stream) && |stream| == BLOCK_SIZE * pushed
    }

    /** Every block received was either discarded while idle or pushed. */
    ghost predicate Valid()
      reads this, ring, ring.buffer
    {
      RingOk() && received == discarded + pushed
    }

    ghost function Queued(): nat
      requires ring.Valid()
      reads ring, ring.buffer
    {
      Blocks(ring.Contents())
    }

    constructor ()
      ensures Valid() && Queued() == 0 && received == 0 && wasIdle && connected && idleCount == 0
      ensures fresh(ring) && fresh(ring.buffer)
    {
      ring := new SPSCRingBuffer(BLOCK_SIZE * RING_BUFFER_BLOCKS);
      idleCount, wasIdle, connected := 0, true, true;
      received, discarded, pushed, dropped, denoiseResets := 0, 0, 0, 0, 0;
      stream := [];
    }

    /** Taking one whole block off the front, if there is one. */
    method TakeBlock()
      requires RingOk()
      modifies ring
      ensures RingOk() && Queued() == if old(Queued()) > 0 then old(Queued()) - 1 else 0
    {
      hide Whole, IsSuffix, Blocks;
      FrontBlock(ring.Contents(), stream);
      var ok, data := ring.Pop(BLOCK_SIZE);
    }

    /** The render thread, between two ring calls of the bridge. */
    method Play(n: nat)
      requires RingOk()
      modifies ring
      ensures RingOk() && Queued() <= old(Queued())
      ensures n == 0 ==> ring.Contents() == old(ring.Contents())
    {
      hide Whole, IsSuffix, Blocks;
      var i := 0;
      while i < n
        invariant 0 <= i <= n && RingOk() && Queued() <= old(Queued())
        invariant n == 0 ==> ring.Contents() == old(ring.Contents())
      {
        TakeBlock();
        i := i + 1;
      }
    }

    /** Trims a backlog of more than three blocks to two. Playing may go on between any two ring calls. */
    method Trim(plays: seq<nat>)
      requires RingOk()
      modifies this`dropped, ring
      ensures RingOk() && Queued() <= MAX_QUEUED && Queued() <= old(Queued())
      ensures old(Queued()) <= MAX_QUEUED ==> ring.Contents() == old(ring.Contents()) && dropped == old(dropped)
      ensures old(Queued()) > 3 ==> dropped == old(dropped) + old(Queued()) - 2
      ensures old(Queued()) > 3 && plays == [] ==> Queued() == 2
    {
      hide Whole, IsSuffix;
      var queueSize := ring.SizeBlocks(BLOCK_SIZE);
      if queueSize > MAX_QUEUED {
        var toDrop := queueSize - TARGET_QUEUED;
        var i := 0;
        while i < toDrop
          invariant 0 <= i <= toDrop && RingOk() && Queued() <= queueSize - i
          invariant plays == [] ==> Queued() == queueSize - i
          modifies ring
        {
          if i < |plays| { Play(plays[i]); }
          TakeBlock();
          i := i + 1;
        }
        dropped := dropped + toDrop;
      }
    }

    /** One received block. Idle, it is discarded; every fiftieth idle block empties the ring and a long idle
        stretch disconnects. Active, it is always pushed, with at most four blocks then waiting, however the
        render thread's pops fall in between. The denoiser is reset exactly when idle and active swap. */
    method OnBlock(buffer: seq<byte>, now: Reading, plays: seq<nat>, playBeforePush: nat)
      requires Valid() && connected && |buffer| == BLOCK_SIZE
      modifies this, ring, ring.buffer
      ensures Valid() && received == old(received) + 1
      ensures EffectiveActive(now) ==> pushed == old(pushed) + 1 && stream == old(stream) + buffer
                                       && 1 <= Queued() <= 4 && idleCount == 0 && connected
      ensures EffectiveActive(now) && plays == [] && playBeforePush == 0 ==>
                Queued() == 1 + if old(Queued()) > 3 then 2 else old(Queued())
      ensures !EffectiveActive(now) ==> discarded == old(discarded) + 1 && idleCount == old(idleCount) + 1
                                        && stream == old(stream)
                                        && Queued() == (if idleCount % 50 == 0 then 0 else old(Queued()))
                                        && (connected <==> now.alwaysHot || idleCount <= 500)
      ensures !now.demandMode || (now.micRequested && !now.renderStalled) ==> pushed == old(pushed) + 1
      ensures now.demandMode && (!now.micRequested || now.renderStalled) ==> discarded == old(discarded) + 1
      ensures wasIdle == !EffectiveActive(now)
      ensures denoiseResets == old(denoiseResets) + if wasIdle != old(wasIdle) then 1 else 0
    {
      hide Whole, IsSuffix, Blocks;
      received := received + 1;
      var effectiveActive := !now.demandMode || (now.micRequested && !now.renderStalled);
      if !effectiveActive {
        Idle(now.alwaysHot);
        return;
      }
      idleCount := 0;
      if wasIdle {
        denoiseResets := denoiseResets + 1;
        wasIdle := false;
      }
      Accept(buffer, plays, playBeforePush);
    }

    /** A block that arrives while nobody listens. */
    method Idle(alwaysHot: bool)
      requires RingOk() && received == discarded + pushed + 1 && connected
      modifies this`discarded, this`denoiseResets, this`idleCount, this`wasIdle, this`connected, ring
      ensures Valid() && discarded == old(discarded) + 1 && idleCount == old(idleCount) + 1 && wasIdle
      ensures Queued() == if idleCount % 50 == 0 then 0 else old(Queued())
      ensures connected <==> alwaysHot || idleCount <= 500
      ensures denoiseResets == old(denoiseResets) + if old(wasIdle) then 0 else 1
    {
      hide Whole, IsSuffix, Blocks;
      discarded := discarded + 1;
      if !wasIdle { denoiseResets := denoiseResets + 1; }
      idleCount := idleCount + 1;
      wasIdle := true;
      if idleCount % 50 == 0 {
        EmptyRing(stream);
        ring.Reset();
      }
      if !alwaysHot && idleCount > 500 {
        connected := false;
      }
    }

    /** The watermark and the push. */
    method Accept(buffer: seq<byte>, plays: seq<nat>, playBeforePush: nat)
      requires RingOk() && |buffer| == BLOCK_SIZE
      modifies this`pushed, this`dropped, this`stream, ring, ring.buffer
      ensures RingOk() && pushed == old(pushed) + 1 && stream == old(stream) + buffer
      ensures 1 <= Queued() <= MAX_QUEUED + 1
      ensures plays == [] && playBeforePush == 0 ==>
                Queued() == 1 + if old(Queued()) > 3 then 2 else old(Queued())
    {
      hide Whole, IsSuffix, Blocks;
      Trim(plays);
      Play(playBeforePush);
      Room(ring.Contents());
      ghost var before := ring.Contents();
      GrowBlock(before, stream, buffer);
      var ok := ring.Push(buffer);
      if !ok {
        assert false;      // the block would be counted as dropped; there is always room
      }
      pushed := pushed + 1;
      stream := stream + buffer;
    }
  }

  lemma FrontBlock(s: seq<byte>, all: seq<byte>)
    requires Whole(s) && IsSuffix(s, all)
    ensures |s| >= BLOCK_SIZE <==> Blocks(s) > 0
    ensures |s| >= BLOCK_SIZE ==>
              && Whole(s[BLOCK_SIZE..]) && IsSuffix(s[BLOCK_SIZE..], all) && Blocks(s[BLOCK_SIZE..]) == Blocks(s) - 1
  {
  }

  lemma Room(s: seq<byte>)
    requires Blocks(s) <= MAX_QUEUED
    ensures |s| + BLOCK_SIZE < BLOCK_SIZE * RING_BUFFER_BLOCKS
  {
  }

  lemma GrowBlock(s: seq<byte>, all: seq<byte>, data: seq<byte>)
    requires Whole(s) && IsSuffix(s, all) && |data| == BLOCK_SIZE
    ensures Whole(s + data) && IsSuffix(s + data, all + data) && Blocks(s + data) == Blocks(s) + 1
  {
  }

  lemma EmptyRing(all: seq<byte>)
    ensures Whole([]) && IsSuffix([], all) && Blocks([]) == 0
  {
  }
}
