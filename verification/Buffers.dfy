/** The buffer pool and its two lists, as the driver keeps them in memory. */
module Buffers {
  import opened Bytes
  import opened Stream

  class Buffer {
    const nr: nat
    const ptr: array<byte>
    var actualSize: nat
    var readpos: nat

    constructor (nr: nat, maxsize: nat)
      ensures this.nr == nr && ptr.Length == maxsize && fresh(ptr)
      ensures actualSize == 0 && readpos == 0
    {
      this.nr := nr;
      ptr := new byte[maxsize](_ => 0);
      actualSize, readpos := 0, 0;
    }
  }

  /** A buffer that is somewhere once moves to the end of the free list. */
  lemma RelinkKeepsParts(free: seq<Buffer>, used: seq<Buffer>, hand: multiset<Buffer>, all: multiset<Buffer>, b: Buffer)
    requires multiset(free) + multiset(used) + hand == all && all[b] <= 1
    requires b in used || b in free
    ensures multiset(Unlink(free, b) + [b]) + multiset(Unlink(used, b)) + hand == all
  {
    UnlinkRemovesOne(free, b);
    UnlinkRemovesOne(used, b);
    assert multiset(free)[b] + multiset(used)[b] + hand[b] == all[b];
  }

  lemma TakenOut(free: seq<Buffer>, pool: set<Buffer>)
    requires free != [] && multiset(free) == multiset(pool)
    ensures free == [free[0]] + free[1..] && multiset(free[1..]) == multiset(pool - {free[0]})
  {
    assert free == [free[0]] + free[1..];
    assert free[0] in multiset(pool);
    assert multiset(pool - {free[0]}) == multiset(pool) - multiset{free[0]};
  }

  lemma OneMoreUsed(used: seq<Buffer>, b: Buffer)
    ensures multiset(used + [b]) == multiset(used) + multiset([b])
  {
  }

  lemma UnreadMore(chunks: seq<Chunk>, payload: seq<byte>)
    requires WellRead(chunks)
    ensures WellRead(chunks + [Chunk(payload, 0)])
  {
  }

  lemma HeadRelinks(free: seq<Buffer>, used: seq<Buffer>, b: Buffer)
    ensures used != [] && used[0] == b ==> Unlink(used, b) == used[1..]
    ensures b !in free ==> Unlink(free, b) == free
  {
    UnlinkRemovesOne(free, b);
  }

  class Pool {
    const bufferSize: nat
    var free: seq<Buffer>
    var used: seq<Buffer>
    var overrun: nat
    var bytesReceived: nat
    var buffersReceived: nat
    var notReady: nat

    /** Every buffer allocated and not yet freed. */
    ghost var pool: set<Buffer>
    /** The buffer the producer has taken and not yet given back, if any. */
    ghost var hand: seq<Buffer>
    /** The contents of the used list. */
    ghost var chunks: seq<Chunk>

    ghost function Ptrs(): set<array<byte>>
      reads this
    {
      set b | b in pool :: b.ptr
    }

    /** Each buffer is in exactly one of the free list, the used list and the hand. */
    ghost predicate Parted()
      reads this
    {
      multiset(free) + multiset(used) + multiset(hand) == multiset(pool)
    }

    ghost predicate Holds(b: Buffer, c: Chunk)
      reads b, b.ptr
    {
      && b.readpos == c.pos
      && b.actualSize == |c.payload| <= b.ptr.Length
      && b.ptr[..b.actualSize] == c.payload
    }

    ghost predicate Valid()
      reads this, pool, Ptrs()
    {
      && (forall b | b in pool :: b.ptr.Length == bufferSize)
      && (forall b, c | b in pool && c in pool && b != c :: b.ptr != c.ptr)
      && Parted()
      && |chunks| == |used|
      && WellRead(chunks)
      && (forall b | b in used :: b in pool)
      && (forall i | 0 <= i < |used| :: Holds(used[i], chunks[i]))
    }

    /** The value the call-level model works on. */
    ghost function Abs(): State
      reads this
    {
      State(|free|, chunks, overrun, bytesReceived, buffersReceived, notReady)
    }

    constructor (bufferSize: nat)
      ensures Valid() && pool == {} && hand == [] && Abs() == State(0, [], 0, 0, 0, 0)
      ensures this.bufferSize == bufferSize
    {
      this.bufferSize := bufferSize;
      free, used, pool, hand, chunks := [], [], {}, [], [];
      overrun, bytesReceived, buffersReceived, notReady := 0, 0, 0, 0;
    }

    method StatisticsReset()
      requires Valid()
      modifies this`overrun, this`bytesReceived, this`buffersReceived, this`notReady
      ensures Valid() && Abs() == State(|free|, chunks, 0, 0, 0, 0)
    {
      overrun, bytesReceived, buffersReceived, notReady := 0, 0, 0, 0;
    }

    method CountReceived(n: nat)
      requires Valid()
      modifies this`bytesReceived, this`buffersReceived
      ensures Valid() && bytesReceived == old(bytesReceived) + n && buffersReceived == old(buffersReceived) + 1
    {
      bytesReceived := bytesReceived + n;
      buffersReceived := buffersReceived + 1;
    }

    /** What the partition says about single buffers. */
    lemma Apart()
      requires Valid()
      ensures forall b | b in free || b in hand :: b in pool && b !in used
      ensures forall b | b in free :: b !in hand
      ensures forall i, j | 0 <= i < j < |used| :: used[i] != used[j]
    {
      assert forall b :: b in multiset(pool) <==> b in pool;
      assert forall b :: multiset(pool)[b] <= 1;
      forall b | b in free || b in hand ensures b in pool && b !in used {
        assert b in multiset(free) || b in multiset(hand);
      }
      forall i, j | 0 <= i < j < |used| ensures used[i] != used[j] {
        assert used[i] in multiset(used);
        CountedOnce(used, i, j);
      }
    }

    lemma InHand(b: Buffer)
      requires Valid() && b in hand
      ensures b in pool && b !in used
    {
      Apart();
    }

    lemma HeadOnce()
      requires Valid() && used != []
      ensures used[0] in pool && used[0] !in free
      ensures forall j | 0 < j < |used| :: used[j] != used[0]
    {
      Apart();
    }

    function PeekUsed(): Buffer?
      reads this
    {
      if used == [] then null else used[0]
    }

    method NextUsed() returns (buf: Buffer?)
      requires Valid() && hand == []
      modifies this`used, this`chunks, this`hand
      ensures Valid()
      ensures old(used) == [] ==> buf == null && used == [] && hand == [] && chunks == []
      ensures old(used) != [] ==> buf == old(used[0]) && used == old(used[1..])
                                  && chunks == old(chunks[1..]) && hand == [buf]
      ensures Abs() == if old(chunks) == [] then old(Abs()) else old(Abs()).(used := old(chunks[1..]))
    {
      buf := null;
      if used != [] {
        buf := used[0];
        assert used == [used[0]] + used[1..];
        used := used[1..];
        chunks := chunks[1..];
        hand := [buf];
      }
    }

    /** The first lock section of `hdcapm_buffer_next_free`. */
    method TakeFree() returns (buf: Buffer?)
      requires Valid() && hand == []
      modifies this`free, this`hand
      ensures Valid()
      ensures old(free) == [] ==> buf == null && free == [] && hand == []
      ensures old(free) != [] ==> buf == old(free[0]) && free == old(free[1..]) && hand == [buf]
      ensures Abs() == if old(free) == [] then old(Abs()) else old(Abs()).(nfree := old(|free|) - 1)
    {
      buf := null;
      if free != [] {
        buf := free[0];
        assert free == [free[0]] + free[1..];
        free := free[1..];
        hand := [buf];
      }
    }

    method CountOverrun()
      requires Valid()
      modifies this`overrun
      ensures Valid() && Abs() == old(Abs()).(overrun := old(overrun) + 1)
    {
      overrun := overrun + 1;
    }

    /** A free buffer, else the oldest used one; null only when there is neither. */
    method NextFree() returns (buf: Buffer?)
      requires Valid() && hand == []
      modifies this`free, this`used, this`chunks, this`hand, this`overrun
      ensures Valid()
      ensures Abs() == TakeBuffer(old(Abs()))
      ensures buf == null <==> !HasBuffer(old(Abs()))
      ensures hand == if buf == null then [] else [buf]
      ensures buf != null ==> buf == if old(free) != [] then old(free[0]) else old(used[0])
    {
      buf := TakeFree();
      if buf == null {
        buf := NextUsed();
        CountOverrun();
      }
    }

    method AddToFree(buf: Buffer)
      requires Valid() && hand == [buf]
      modifies this`free, this`hand
      ensures Valid() && hand == [] && free == old(free) + [buf]
    {
      free := free + [buf];
      hand := [];
    }

    method AddToUsed(buf: Buffer)
      requires Valid() && hand == [buf]
      requires buf.readpos == 0 && buf.actualSize <= bufferSize
      modifies this`used, this`hand, this`chunks
      ensures Valid() && hand == [] && used == old(used) + [buf]
      ensures chunks == old(chunks) + [Chunk(buf.ptr[..buf.actualSize], 0)]
    {
      InHand(buf);
      ghost var c := Chunk(buf.ptr[..buf.actualSize], 0);
      assert Holds(buf, c);
      OneMoreUsed(used, buf);
      UnreadMore(chunks, c.payload);
      used := used + [buf];
      chunks := chunks + [c];
      hand := [];
    }

    /** The reader is done with a buffer: it leaves the list it is on and joins the free list. */
    method MoveToFree(buf: Buffer)
      requires Parted() && (buf in used || buf in free)
      modifies this`free, this`used
      ensures Parted()
      ensures used == Unlink(old(used), buf) && free == Unlink(old(free), buf) + [buf]
      ensures old(used != [] && used[0] == buf && buf !in free) ==>
                used == old(used[1..]) && free == old(free) + [buf]
    {
      RelinkKeepsParts(free, used, multiset(hand), multiset(pool), buf);
      HeadRelinks(free, used, buf);
      used := Unlink(used, buf);
      free := Unlink(free, buf) + [buf];
    }

    /** `hdcapm_buffers_move_all` from the used to the free list. */
    method MoveAll()
      requires Valid()
      modifies this`free, this`used, this`chunks
      ensures Valid() && used == [] && chunks == [] && free == old(free + used)
    {
      chunks := [];
      ghost var all := free + used;
      while used != []
        invariant Parted() && chunks == []
        invariant free + used == all
        decreases |used|
      {
        var buf, rest := used[0], used[1..];
        assert used == [buf] + rest;
        Assoc(free, [buf], rest);
        used := rest;
        free := free + [buf];
      }
      NilUnit(free);
    }

    /** `hdcapm_buffers_free_all` on the free list: the buffers freed, in order. */
    method FreeAll() returns (freed: seq<Buffer>)
      requires Valid() && hand == [] && used == []
      modifies this`free, this`pool
      ensures Valid() && free == [] && pool == {} && freed == old(free)
      ensures multiset(freed) == multiset(old(pool))
    {
      freed := [];
      while free != []
        invariant Valid()
        invariant freed + free == old(free)
        decreases |free|
      {
        var buf, rest := free[0], free[1..];
        TakenOut(free, pool);
        Assoc(freed, [buf], rest);
        free := rest;
        freed := freed + [buf];
        pool := pool - {buf};
      }
      assert freed == old(free);
      assert multiset(pool) == multiset{};
    }

    /** Unread bytes and buffers on the used list. */
    method UsedQueueStats() returns (bytes: nat, items: nat)
      requires Valid()
      ensures bytes == |Queue(chunks)| && items == |used|
    {
      bytes, items := 0, 0;
      while items < |used|
        invariant items <= |used|
        invariant bytes + |Queue(chunks[items..])| == |Queue(chunks)|
      {
        assert Holds(used[items], chunks[items]);
        assert chunks[items..][1..] == chunks[items + 1..];
        bytes := bytes + (used[items].actualSize - used[items].readpos);
        items := items + 1;
      }
    }
  }
}
