/** `usb_read`, `fops_read`, and the life of the buffers from probe to disconnect. */
module Capture {
  import opened Bytes
  import opened DwordFixup
  import opened Stream
  import opened Buffers

  /** What a transfer from the codec leaves at the start of the buffer. */
  method DmaRead(buf: Buffer, data: seq<byte>)
    requires |data| <= buf.ptr.Length
    modifies buf.ptr
    ensures buf.ptr[..|data|] == data
    ensures buf.ptr[|data|..] == old(buf.ptr[|data|..])
  {
    var i := 0;
    while i < |data|
      invariant 0 <= i <= |data|
      invariant buf.ptr[..i] == data[..i]
      invariant forall k | |data| <= k < buf.ptr.Length :: buf.ptr[k] == old(buf.ptr[k])
    {
      buf.ptr[i] := data[i];
      i := i + 1;
    }
  }

  /** A buffer in the producer's hand takes a payload; the used list does not notice. */
  method Fill(dev: Pool, buf: Buffer, data: seq<byte>)
    requires dev.Valid() && dev.hand == [buf] && |data| <= buf.ptr.Length
    modifies buf.ptr
    ensures dev.Valid() && buf.ptr[..|data|] == data
  {
    dev.InHand(buf);
    DmaRead(buf, data);
  }

  /** The fix-up of the buffer in hand; the used list does not notice. */
  method FixUp(dev: Pool, buf: Buffer, n: nat)
    requires dev.Valid() && dev.hand == [buf] && n % 4 == 0 && n <= buf.ptr.Length
    modifies buf.ptr
    ensures dev.Valid() && buf.ptr[..n] == Swapped(old(buf.ptr[..n]))
  {
    dev.InHand(buf);
    SwapInPlace(buf.ptr, n);
  }

  /** Sizes of the buffer in hand; the used list does not notice this either. */
  method SetSizes(dev: Pool, buf: Buffer, n: nat)
    requires dev.Valid() && dev.hand == [buf]
    modifies buf
    ensures dev.Valid() && buf.actualSize == n && buf.readpos == 0 && buf.ptr.Length == dev.bufferSize
  {
    dev.InHand(buf);
    buf.actualSize := n;
    buf.readpos := 0;
  }

  /** Statistics and hand-over of a buffer that is turned round. */
  method HandOver(dev: Pool, buf: Buffer, n: nat)
    requires dev.Valid() && dev.hand == [buf] && n <= buf.ptr.Length
    modifies buf, dev`used, dev`hand, dev`chunks, dev`bytesReceived, dev`buffersReceived
    ensures dev.Valid() && dev.hand == []
    ensures dev.Abs() == old(dev.Abs()).(used := old(dev.chunks) + [Chunk(buf.ptr[..n], 0)],
                                         bytesReceived := old(dev.bytesReceived) + n,
                                         buffersReceived := old(dev.buffersReceived) + 1)
  {
    dev.CountReceived(n);
    SetSizes(dev, buf, n);
    dev.AddToUsed(buf);
  }

  /** Fix-up, statistics and hand-over of a filled buffer. */
  method Publish(dev: Pool, buf: Buffer, n: nat)
    requires dev.Valid() && dev.hand == [buf] && n % 4 == 0 && n <= buf.ptr.Length
    modifies buf, buf.ptr, dev`used, dev`hand, dev`chunks, dev`bytesReceived, dev`buffersReceived
    ensures dev.Valid() && dev.hand == []
    ensures dev.Abs() == old(dev.Abs()).(used := old(dev.chunks) + [Chunk(Swapped(old(buf.ptr[..n])), 0)],
                                         bytesReceived := old(dev.bytesReceived) + n,
                                         buffersReceived := old(dev.buffersReceived) + 1)
  {
    FixUp(dev, buf, n);
    HandOver(dev, buf, n);
  }

  /** The value model of a reception that succeeds. */
  lemma Succeeds(t: State, p: Poll, payload: seq<byte>, n: nat)
    requires p.Sane() && p.xfer.ok && payload == p.xfer.data && n == p.Bytes()
    ensures Stream.Receive(t, p) == (t.(used := t.used + [Chunk(Swapped(payload), 0)],
                                        bytesReceived := t.bytesReceived + n,
                                        buffersReceived := t.buffersReceived + 1), Received)
  {
  }

  /** The part of `usb_read` that holds a buffer. */
  method Receive(dev: Pool, buf: Buffer, p: Poll) returns (res: UsbResult)
    requires dev.Valid() && dev.hand == [buf] && p.Sane() && p.Bytes() <= buf.ptr.Length
    modifies buf, buf.ptr, dev`free, dev`used, dev`hand, dev`chunks, dev`bytesReceived, dev`buffersReceived
    ensures dev.Valid() && dev.hand == []
    ensures dev.Abs() == Stream.Receive(old(dev.Abs()), p).0 && res == Stream.Receive(old(dev.Abs()), p).1
  {
    Fill(dev, buf, p.xfer.data);
    if !p.xfer.ok {
      dev.AddToFree(buf);
      res := Failed;
    } else {
      var n := p.Bytes();
      Succeeds(dev.Abs(), p, buf.ptr[..n], n);
      Publish(dev, buf, n);
      res := Received;
    }
  }

  /** The part of `usb_read` after the status checks: a buffer, the transfer, the hand-over. */
  method Acquire(dev: Pool, p: Poll) returns (res: UsbResult)
    requires dev.Valid() && dev.hand == [] && p.Sane() && p.Transfers() && p.Bytes() <= dev.bufferSize
    modifies dev, dev.pool, dev.Ptrs()
    ensures dev.Valid() && dev.hand == [] && dev.pool == old(dev.pool)
    ensures (dev.Abs(), res) == Stream.UsbRead(old(dev.Abs()), p)
  {
    var buf := dev.NextFree();
    if buf == null {
      res := Failed;
    } else {
      assert buf in dev.pool by { dev.InHand(buf); }
      assert dev.Abs() == TakeBuffer(old(dev.Abs()));
      res := Receive(dev, buf, p);
    }
  }

  /** One poll of the codec, against the call-level model; the pool stays partitioned and the
      producer's hand is empty again, whatever goes wrong. */
  method UsbRead(dev: Pool, p: Poll) returns (res: UsbResult)
    requires dev.Valid() && dev.hand == [] && p.Sane() && p.FitsIn(dev.bufferSize)
    modifies dev, dev.pool, dev.Ptrs()
    ensures dev.Valid() && dev.hand == [] && dev.pool == old(dev.pool)
    ensures (dev.Abs(), res) == Stream.UsbRead(old(dev.Abs()), p)
  {
    if p.status == None {
      return Failed;
    }
    if !p.status.value.ready {
      dev.notReady := dev.notReady + 1;
      return NotReady;
    }
    if !p.status.value.fixedOk || p.Bytes() > MAX_TRANSFER {
      return Bug;
    }
    res := Acquire(dev, p);
  }

  /** The bytes handed to user space for one bite out of the head buffer. */
  method CopyToUser(dst: array<byte>, at: nat, buf: Buffer, cnt: nat)
    requires at + cnt <= dst.Length && buf.readpos + cnt <= buf.ptr.Length && dst != buf.ptr
    modifies dst
    ensures dst[..at + cnt] == old(dst[..at]) + buf.ptr[..][buf.readpos..buf.readpos + cnt]
  {
    forall j | 0 <= j < cnt {
      dst[at + j] := buf.ptr[buf.readpos + j];
    }
  }

  /** The used list with the read position of its head moved. */
  function Moved(used: seq<Chunk>, n: nat): seq<Chunk>
    requires used != []
  {
    used[0 := used[0].(pos := used[0].pos + n)]
  }

  lemma MovedWellRead(used: seq<Chunk>, n: nat)
    requires used != [] && WellRead(used) && n <= |used[0].Rest()|
    ensures WellRead(Moved(used, n)) && Moved(used, n)[1..] == used[1..]
  {
  }

  /** Moving the read position of the head buffer. */
  method Advance(dev: Pool, ubuf: Buffer, cnt: nat)
    requires dev.Valid() && dev.used != [] && dev.used[0] == ubuf && cnt <= |dev.chunks[0].Rest()|
    modifies ubuf`readpos, dev`chunks
    ensures dev.Valid() && ubuf.readpos == old(ubuf.readpos) + cnt
    ensures dev.chunks == Moved(old(dev.chunks), cnt) && dev.chunks[1..] == old(dev.chunks[1..])
  {
    dev.HeadOnce();
    assert dev.Holds(ubuf, dev.chunks[0]);
    MovedWellRead(dev.chunks, cnt);
    ubuf.readpos := ubuf.readpos + cnt;
    dev.chunks := Moved(dev.chunks, cnt);
  }

  /** The head buffer has been read to its end: back to the free list. */
  method Recycle(dev: Pool, ubuf: Buffer)
    requires dev.Valid() && dev.used != [] && dev.used[0] == ubuf
    modifies ubuf`readpos, dev`free, dev`used, dev`chunks
    ensures dev.Valid()
    ensures dev.used == old(dev.used[1..]) && dev.chunks == old(dev.chunks[1..])
    ensures dev.free == old(dev.free) + [ubuf]
  {
    dev.HeadOnce();
    ubuf.readpos := 0;
    dev.MoveToFree(ubuf);
    dev.chunks := dev.chunks[1..];
  }

  /** The copy of one bite leaves the pool alone. */
  method CopyBite(dev: Pool, ubuf: Buffer, dst: array<byte>, at: nat, cnt: nat)
    requires dev.Valid() && dev.used != [] && dev.used[0] == ubuf && cnt <= |dev.chunks[0].Rest()|
    requires at + cnt <= dst.Length && dst !in dev.Ptrs()
    modifies dst
    ensures dev.Valid() && ubuf.readpos + cnt <= ubuf.actualSize
    ensures ubuf.readpos + cnt == ubuf.actualSize <==> cnt == |dev.chunks[0].Rest()|
    ensures dst[..at + cnt] == old(dst[..at]) + dev.chunks[0].Rest()[..cnt]
  {
    assert dev.Holds(ubuf, dev.chunks[0]);
    SliceOfSlice(ubuf.ptr[..], ubuf.actualSize, ubuf.readpos, cnt);
    CopyToUser(dst, at, ubuf, cnt);
  }

  /** What is left on the list after a bite of n bytes. */
  function Bitten(used: seq<Chunk>, n: nat): seq<Chunk>
    requires used != []
  {
    if n == |used[0].Rest()| then used[1..] else Moved(used, n)
  }

  /** One bite: copied, read position moved, and the buffer recycled if that exhausts it. */
  method Bite(dev: Pool, ubuf: Buffer, dst: array<byte>, at: nat, cnt: nat) returns (exhausted: bool)
    requires dev.Valid() && dev.used != [] && dev.used[0] == ubuf && cnt <= |dev.chunks[0].Rest()|
    requires at + cnt <= dst.Length && dst !in dev.Ptrs()
    modifies dst, ubuf`readpos, dev`free, dev`used, dev`chunks
    ensures dev.Valid()
    ensures dst[..at + cnt] == old(dst[..at]) + old(dev.chunks[0].Rest()[..cnt])
    ensures exhausted <==> cnt == |old(dev.chunks[0].Rest())|
    ensures dev.chunks == Bitten(old(dev.chunks), cnt)
    ensures dev.used == if exhausted then old(dev.used[1..]) else old(dev.used)
    ensures dev.free == if exhausted then old(dev.free) + [ubuf] else old(dev.free)
  {
    CopyBite(dev, ubuf, dst, at, cnt);
    Advance(dev, ubuf, cnt);
    exhausted := ubuf.readpos == ubuf.actualSize;
    if exhausted {
      Recycle(dev, ubuf);
    }
  }

  /** Reading `count` bytes reaches past these chunks, and asks for more before each of them. */
  ghost predicate Fits(gone: seq<Chunk>, count: int)
    decreases |gone|
  {
    if gone == [] then count >= 0
    else count > 0 && Fits(gone[1..], count - |gone[0].Rest()|)
  }

  lemma {:induction false} FitsMore(gone: seq<Chunk>, c: Chunk, count: int)
    requires Fits(gone, count) && |Queue(gone)| < count && |Queue(gone)| + |c.Rest()| <= count
    ensures Fits(gone + [c], count)
    ensures Queue(gone + [c]) == Queue(gone) + c.Rest()
    decreases |gone|
  {
    if gone == [] {
      assert [] + [c] == [c];
      assert Fits([], count - |c.Rest()|);
    } else {
      FitsMore(gone[1..], c, count - |gone[0].Rest()|);
      assert (gone + [c])[1..] == gone[1..] + [c];
      Assoc(gone[0].Rest(), Queue(gone[1..]), c.Rest());
    }
  }

  lemma AfterTwice(a: seq<byte>, b: seq<byte>, n: nat, c: Copied)
    ensures After(a, 1, After(b, n, c)) == After(a + b, n + 1, c)
    ensures After([], 0, c) == c
  {
    Assoc(a, b, c.out);
    NilUnit(c.out);
  }

  lemma OneTurn(head: Chunk, tail: seq<Chunk>, count: nat, nonblock: bool, faultAt: nat)
    requires count > 0 && faultAt > 0 && count >= |head.Rest()| && (nonblock || tail != [])
    ensures CopyLoop([head] + tail, count, nonblock, faultAt)
            == After(head.Rest(), 1, CopyLoop(tail, count - |head.Rest()|, nonblock, faultAt - 1))
  {
    assert ([head] + tail)[1..] == tail;
  }

  /** Chunks that fit do not exceed the count. */
  lemma {:induction false} FitsBounds(gone: seq<Chunk>, count: int)
    requires Fits(gone, count)
    ensures |Queue(gone)| <= count
    decreases |gone|
  {
    if gone != [] {
      FitsBounds(gone[1..], count - |gone[0].Rest()|);
    }
  }

  lemma HeadApart(gone: seq<Chunk>, used: seq<Chunk>)
    requires gone != []
    ensures gone + used == [gone[0]] + (gone[1..] + used)
  {
  }

  lemma OneMoreInFront(gone: seq<Chunk>, used: seq<Chunk>, count: nat, nonblock: bool, faultAt: nat, c: Copied)
    requires gone != [] && count > 0 && faultAt > 0 && count >= |gone[0].Rest()| && (nonblock || used != [])
    requires CopyLoop(gone[1..] + used, count - |gone[0].Rest()|, nonblock, faultAt - 1)
             == After(Queue(gone[1..]), |gone[1..]|, c)
    ensures CopyLoop(gone + used, count, nonblock, faultAt) == After(Queue(gone), |gone|, c)
  {
    HeadApart(gone, used);
    OneTurn(gone[0], gone[1..] + used, count, nonblock, faultAt);
    AfterTwice(gone[0].Rest(), Queue(gone[1..]), |gone[1..]|, c);
  }

  /** The copy loop after the turns that emptied `gone`. */
  lemma {:induction false} CopyLoopAfter(gone: seq<Chunk>, used: seq<Chunk>, count: nat, left: nat, nonblock: bool,
                                         faultAt: nat, fault: nat)
    requires faultAt == |gone| + fault && count == |Queue(gone)| + left
    requires (nonblock || used != []) && Fits(gone, count)
    ensures CopyLoop(gone + used, count, nonblock, faultAt)
            == After(Queue(gone), |gone|, CopyLoop(used, left, nonblock, fault))
    decreases |gone|
  {
    if gone == [] {
      NilUnit(used);
      AfterTwice([], [], 0, CopyLoop(used, left, nonblock, fault));
    } else {
      CopyLoopAfter(gone[1..], used, count - |gone[0].Rest()|, left, nonblock, faultAt - 1, fault);
      OneMoreInFront(gone, used, count, nonblock, faultAt, CopyLoop(used, left, nonblock, fault));
    }
  }

  /** Where the copy loop over u stands once `gone` is empty. */
  ghost predicate Stands(dev: Pool, u: seq<Chunk>, gone: seq<Chunk>, count0: nat, nonblock: bool, faultAt: nat)
    reads dev
  {
    && u == gone + dev.chunks
    && |gone| <= faultAt && (nonblock || dev.chunks != [])
    && Fits(gone, count0)
  }

  /** A bite that empties the head buffer: the loop goes on, or a signal ends it. */
  lemma BiteEmpties(gone: seq<Chunk>, used: seq<Chunk>, count: nat, nonblock: bool, faultAt: nat)
    requires |gone| < faultAt && used != [] && Fits(gone, count)
    requires |Queue(gone)| < count && |Queue(gone)| + |used[0].Rest()| <= count
    ensures Fits(gone + [used[0]], count) && gone + used == (gone + [used[0]]) + used[1..]
    ensures Queue(gone + [used[0]]) == Queue(gone) + used[0].Rest()
    ensures used[1..] == [] && !nonblock ==>
              CopyLoop(gone + used, count, nonblock, faultAt)
              == Copied(used[1..], Queue(gone) + used[0].Rest(), |gone| + 1, Interrupted)
  {
    FitsMore(gone, used[0], count);
    HeadMoves(gone, used);
    if used[1..] == [] && !nonblock {
      BiteInterrupted(gone, used, count, faultAt);
    }
  }

  lemma HeadMoves(gone: seq<Chunk>, used: seq<Chunk>)
    requires used != []
    ensures gone + used == (gone + [used[0]]) + used[1..]
  {
    assert used == [used[0]] + used[1..];
    Assoc(gone, [used[0]], used[1..]);
  }

  lemma BiteInterrupted(gone: seq<Chunk>, used: seq<Chunk>, count: nat, faultAt: nat)
    requires |gone| < faultAt && |used| == 1 && Fits(gone, count)
    requires |Queue(gone)| < count && |Queue(gone)| + |used[0].Rest()| <= count
    ensures CopyLoop(gone + used, count, false, faultAt)
            == Copied([], Queue(gone) + used[0].Rest(), |gone| + 1, Interrupted)
  {
    var left, fault := count - |Queue(gone)|, faultAt - |gone|;
    CopyLoopAfter(gone, used, count, left, false, faultAt, fault);
  }

  /** A bite that leaves something in the head buffer is the last one. */
  lemma BiteEnds(gone: seq<Chunk>, used: seq<Chunk>, count: nat, nonblock: bool, faultAt: nat)
    requires |gone| < faultAt && used != [] && Fits(gone, count)
    requires 0 < count - |Queue(gone)| < |used[0].Rest()|
    ensures var cnt := count - |Queue(gone)|;
            CopyLoop(gone + used, count, nonblock, faultAt)
            == Copied(Moved(used, cnt), Queue(gone) + used[0].Rest()[..cnt], |gone|, Done)
  {
    var left, fault := count - |Queue(gone)|, faultAt - |gone|;
    CopyLoopAfter(gone, used, count, left, nonblock, faultAt, fault);
    InsideHead(used, left, nonblock, fault);
  }

  lemma InsideHead(used: seq<Chunk>, count: nat, nonblock: bool, faultAt: nat)
    requires used != [] && 0 < count < |used[0].Rest()| && faultAt > 0
    ensures CopyLoop(used, count, nonblock, faultAt) == Copied(Moved(used, count), used[0].Rest()[..count], 0, Done)
  {
  }

  /** What a turn means for the copy loop over gone + used. */
  lemma BiteMeans(gone: seq<Chunk>, used: seq<Chunk>, count: nat, nonblock: bool, faultAt: nat, cnt: nat)
    requires |gone| < faultAt && used != [] && Fits(gone, count) && |Queue(gone)| < count
    requires cnt == Min(count - |Queue(gone)|, |used[0].Rest()|)
    ensures var after, out := Bitten(used, cnt), Queue(gone) + used[0].Rest()[..cnt];
            var c, all := CopyLoop(gone + used, count, nonblock, faultAt), gone + [used[0]];
            if cnt == |used[0].Rest()| then
              && Fits(all, count) && gone + used == all + after && Queue(all) == out
              && (after == [] && !nonblock ==> c == Copied(after, out, |gone| + 1, Interrupted))
            else c == Copied(after, out, |gone|, Done)
  {
    if cnt == |used[0].Rest()| {
      BiteEmpties(gone, used, count, nonblock, faultAt);
    } else {
      BiteEnds(gone, used, count, nonblock, faultAt);
    }
  }

  /** One turn of the copy loop; the bite either empties the head buffer or is the last one. */
  method Turn(dev: Pool, ubuf: Buffer, count: nat, dst: array<byte>, at: nat,
              ghost u: seq<Chunk>, ghost gone: seq<Chunk>, ghost nonblock: bool, ghost faultAt: nat,
              ghost total: nat)
    returns (cnt: nat, exhausted: bool, ghost gone': seq<Chunk>)
    requires dev.Valid() && dev.used != [] && dev.used[0] == ubuf && count > 0 && |gone| < faultAt
    requires total == at + count <= dst.Length && dst !in dev.Ptrs()
    requires Stands(dev, u, gone, total, nonblock, faultAt) && dst[..at] == Queue(gone)
    modifies dst, ubuf`readpos, dev`free, dev`used, dev`chunks
    ensures dev.Valid() && cnt <= count
    ensures |dev.used| == |old(dev.used)| - (if exhausted then 1 else 0)
    ensures |dev.free| == |old(dev.free)| + (if exhausted then 1 else 0)
    ensures exhausted ==> |gone'| == |gone| + 1 && Fits(gone', total) && u == gone' + dev.chunks
                          && dst[..at + cnt] == Queue(gone')
    ensures exhausted && !nonblock && dev.chunks == [] ==>
              CopyLoop(u, total, nonblock, faultAt) == Copied(dev.chunks, dst[..at + cnt], |gone| + 1, Interrupted)
    ensures !exhausted ==>
              CopyLoop(u, total, nonblock, faultAt) == Copied(dev.chunks, dst[..at + cnt], |gone|, Done)
  {
    assert dev.Holds(ubuf, dev.chunks[0]);
    var rem := ubuf.actualSize - ubuf.readpos;
    cnt := if rem > count then count else rem;
    BiteMeans(gone, dev.chunks, total, nonblock, faultAt, cnt);
    gone' := gone + [dev.chunks[0]];
    exhausted := Bite(dev, ubuf, dst, at, cnt);
  }

  /** The copy fails. */
  lemma LoopFaults(gone: seq<Chunk>, used: seq<Chunk>, count: nat, nonblock: bool)
    requires used != [] && Fits(gone, count) && |Queue(gone)| < count
    ensures CopyLoop(gone + used, count, nonblock, |gone|) == Copied(used, Queue(gone), |gone|, Fault)
  {
    CopyLoopAfter(gone, used, count, count - |Queue(gone)|, nonblock, |gone|, 0);
    NilUnit(Queue(gone));
  }

  /** The copy loop has ended: what it took, what it left, and how many buffers went back. */
  ghost predicate Ended(dev: Pool, c: Copied, out: seq<byte>, recycled: int, end: LoopEnd)
    reads dev
  {
    c.used == dev.chunks && c.out == out && c.recycled == recycled && c.end == end
  }

  /** A turn with its ways out: the copy fails, the count is used up, or a signal ends the wait. The
      bytes before `next` are delivered then. */
  method TryTurn(dev: Pool, ubuf: Buffer, count: nat, dst: array<byte>, at: nat, copies: nat,
                 nonblock: bool, faultAt: nat, ghost u: seq<Chunk>, ghost gone: seq<Chunk>, ghost total: nat,
                 ghost free0: nat)
    returns (next: nat, more: bool, end: LoopEnd, ghost gone': seq<Chunk>, ghost out: seq<byte>)
    requires dev.Valid() && dev.used != [] && dev.used[0] == ubuf && count > 0 && copies == |gone|
    requires |dev.free| == free0 + copies
    requires total == at + count <= dst.Length && dst !in dev.Ptrs()
    requires Stands(dev, u, gone, total, nonblock, faultAt) && dst[..at] == Queue(gone)
    modifies dst, ubuf`readpos, dev`free, dev`used, dev`chunks
    ensures dev.Valid() && at <= next <= total && dst[..next] == out
    ensures more ==> Stands(dev, u, gone', total, nonblock, faultAt) && out == Queue(gone')
    ensures more ==> |gone'| == copies + 1 && |dev.free| == free0 + copies + 1 && |dev.used| == old(|dev.used|) - 1
    ensures !more ==> Ended(dev, CopyLoop(u, total, nonblock, faultAt), out, |dev.free| - free0, end)
  {
    next, more, end, gone', out := at, false, Fault, gone, dst[..at];
    if copies == faultAt {
      LoopFaults(gone, dev.chunks, total, nonblock);
      return;
    }
    var cnt, exhausted;
    cnt, exhausted, gone' := Turn(dev, ubuf, count, dst, at, u, gone, nonblock, faultAt, total);
    next, out := at + cnt, dst[..at + cnt];
    if !exhausted {
      // cnt is count, which ends the loop
      end := Done;
    } else if !nonblock && dev.used == [] {
      assert |dev.chunks| == |dev.used|;
      end := Interrupted;
    } else {
      more := true;
    }
  }

  /** The loop condition fails: the list is empty, or the count used up. */
  lemma LoopIsOver(gone: seq<Chunk>, used: seq<Chunk>, count: nat, nonblock: bool, faultAt: nat)
    requires |gone| <= faultAt && (nonblock || used != []) && Fits(gone, count)
    requires used == [] || |Queue(gone)| == count
    ensures CopyLoop(gone + used, count, nonblock, faultAt)
            == Copied(used, Queue(gone), |gone|, if used == [] then Empty else Done)
  {
    FitsBounds(gone, count);
    var left, fault := count - |Queue(gone)|, faultAt - |gone|;
    CopyLoopAfter(gone, used, count, left, nonblock, faultAt, fault);
    NilUnit(Queue(gone));
  }

  /** The copy loop. The reader never touches payloads: only read positions, the lists and the
      user's buffer change. Until the last turn every turn empties one buffer. */
  method CopyOut(dev: Pool, count0: nat, nonblock: bool, faultAt: nat, dst: array<byte>)
    returns (bytes: nat, end: LoopEnd)
    requires dev.Valid() && count0 <= dst.Length && dst !in dev.Ptrs()
    requires nonblock || dev.used != []
    modifies dev`free, dev`used, dev`chunks, dev.pool`readpos, dst
    ensures dev.Valid() && bytes <= count0
    ensures Ended(dev, CopyLoop(old(dev.chunks), count0, nonblock, faultAt), dst[..bytes],
                  |dev.free| - old(|dev.free|), end)
  {
    ghost var u, gone, free0, out := dev.chunks, [], |dev.free|, [];
    NilUnit(u);
    bytes, end := 0, Done;
    var count, copies := count0, 0;
    var ubuf := dev.PeekUsed();
    var more := true;
    while more && count > 0 && ubuf != null
      invariant dev.Valid() && bytes + count == count0 && 0 <= count && dst[..bytes] == out
      invariant more ==> ubuf == dev.PeekUsed() && |gone| == copies && |dev.free| == free0 + copies
      invariant more ==> Stands(dev, u, gone, count0, nonblock, faultAt) && out == Queue(gone)
      invariant !more ==> Ended(dev, CopyLoop(u, count0, nonblock, faultAt), out, |dev.free| - free0, end)
      decreases more, count + |dev.used|
    {
      bytes, more, end, gone, out :=
        TryTurn(dev, ubuf, count, dst, bytes, copies, nonblock, faultAt, u, gone, count0, free0);
      copies, count := copies + 1, count0 - bytes;
      ubuf := dev.PeekUsed();
    }
    if more {
      end := if ubuf == null then Empty else Done;
      assert (dev.chunks == [] <==> ubuf == null) && |out| == bytes;
      LoopIsOver(gone, dev.chunks, count0, nonblock, faultAt);
    }
  }

  /** The copy loop and the result it leads to. */
  method ReadSome(dev: Pool, r: ReadCall, dst: array<byte>) returns (ret: int)
    requires dev.Valid() && r.count <= dst.Length && dst !in dev.Ptrs() && (r.nonblock || dev.used != [])
    modifies dev`free, dev`used, dev`chunks, dev.pool`readpos, dst
    ensures dev.Valid()
    ensures var c := CopyLoop(old(dev.chunks), r.count, r.nonblock, r.faultAt);
            && dev.Abs() == old(dev.Abs()).(used := c.used, nfree := old(|dev.free|) + c.recycled)
            && ret == ReadResult(c) && |c.out| <= r.count && dst[..|c.out|] == c.out
  {
    var bytes, end := CopyOut(dev, r.count, r.nonblock, r.faultAt, dst);
    ret := bytes;
    if ret == 0 && end == Fault {
      ret := -EFAULT;
    } else if ret == 0 && end == Empty {
      ret := -EAGAIN;
    }
  }

  /** The read call of a handle that is already streaming. */
  method FopsRead(dev: Pool, r: ReadCall, dst: array<byte>) returns (ret: int)
    requires dev.Valid() && r.count <= dst.Length && dst !in dev.Ptrs()
    modifies dev`free, dev`used, dev`chunks, dev.pool`readpos, dst
    ensures dev.Valid()
    ensures var o := Stream.FopsRead(old(dev.Abs()), r);
            dev.Abs() == o.s && ret == o.result && |o.out| <= r.count && dst[..|o.out|] == o.out
  {
    if r.offset != 0 {
      return -ESPIPE;
    }
    if !r.nonblock && dev.PeekUsed() == null {
      return -EINVAL;
    }
    ret := ReadSome(dev, r, dst);
  }

  // ---------------------------------------------------------------- probe and disconnect

  /** A pool filled at probe time: count buffers, all free. */
  ghost predicate Filled(dev: Pool, count: nat)
    reads dev, dev.pool, dev.Ptrs()
  {
    dev.Valid() && dev.used == [] && dev.hand == [] && |dev.free| == count && |dev.pool| == count
  }

  method AddNew(dev: Pool, nr: nat)
    requires Filled(dev, nr)
    modifies dev`free, dev`pool
    ensures Filled(dev, nr + 1) && dev.pool >= old(dev.pool) && fresh(dev.pool - old(dev.pool))
    ensures fresh(dev.Ptrs() - old(dev.Ptrs()))
  {
    var buf := new Buffer(nr, dev.bufferSize);
    assert multiset(dev.pool + {buf}) == multiset(dev.pool) + multiset{buf};
    dev.pool := dev.pool + {buf};
    dev.free := dev.free + [buf];
  }

  /** The buffers at probe time. The allocation numbered failAt fails (counting from 0); then
      everything allocated so far is freed again, each buffer once. */
  method Probe(count: nat, bufferSize: nat, failAt: nat)
    returns (dev: Pool, ok: bool, freed: seq<Buffer>, ghost made: set<Buffer>)
    ensures ok <==> count <= failAt
    ensures |made| == Min(count, failAt)
    ensures ok ==> Filled(dev, count) && dev.pool == made && dev.Abs() == State(count, [], 0, 0, 0, 0)
    ensures !ok ==> dev.pool == {} && dev.free == [] && multiset(freed) == multiset(made)
  {
    dev := new Pool(bufferSize);
    ok, freed := true, [];
    var i := 0;
    while i < count
      invariant 0 <= i <= count && i <= failAt
      invariant Filled(dev, i) && dev.Abs() == State(i, [], 0, 0, 0, 0)
      invariant fresh(dev) && fresh(dev.pool) && fresh(dev.Ptrs())
    {
      if i == failAt {
        made := dev.pool;
        ok := false;
        dev.MoveAll();
        freed := dev.FreeAll();
        return;
      }
      AddNew(dev, i);
      i := i + 1;
    }
    made := dev.pool;
  }

  /** Disconnect, with the worker thread gone: every buffer of the pool is freed exactly once. */
  method Disconnect(dev: Pool) returns (freed: seq<Buffer>)
    requires dev.Valid() && dev.hand == []
    modifies dev`free, dev`used, dev`chunks, dev`pool
    ensures dev.free == [] && dev.used == [] && dev.pool == {}
    ensures multiset(freed) == multiset(old(dev.pool))
  {
    dev.MoveAll();
    freed := dev.FreeAll();
  }
}
