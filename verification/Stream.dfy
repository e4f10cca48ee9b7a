/**
 What one call of `usb_read` and one call of `fops_read` do to the queue of received
 payloads, on values, and what holds after every sequence of such calls.
 */
module Stream {
  import opened Bytes
  import opened DwordFixup

  /** Largest transfer `usb_read` accepts; anything above hits its BUG(). */
  const MAX_TRANSFER := 256000

  const EAGAIN := 11
  const EFAULT := 14
  const EINVAL := 22
  const ESPIPE := 29

  /** A buffer on the used list: its payload and how much of it the reader has taken. */
  datatype Chunk = Chunk(payload: seq<byte>, pos: nat) {
    function Rest(): seq<byte> {
      if pos <= |payload| then payload[pos..] else []
    }
  }

  /** The unread bytes of the used list, oldest first: the byte FIFO behind the driver. */
  function Queue(used: seq<Chunk>): seq<byte> {
    if used == [] then [] else used[0].Rest() + Queue(used[1..])
  }

  /** Only the head of the used list is ever partly read. */
  ghost predicate WellRead(used: seq<Chunk>) {
    && (forall i | 0 <= i < |used| :: used[i].pos <= |used[i].payload|)
    && (forall i | 0 < i < |used| :: used[i].pos == 0)
  }

  /** The pool as the two calls see it: how many buffers are free, what the used ones hold,
      and the statistics counters. */
  datatype State = State(nfree: nat, used: seq<Chunk>, overrun: nat, bytesReceived: nat,
                         buffersReceived: nat, notReady: nat)

  // ---------------------------------------------------------------- usb_read

  /** The seven status words at 0x6b0, as far as `usb_read` looks at them:
      word 6 non-zero, low byte of word 1 equal to 0x83, and word 4. */
  datatype Status = Status(ready: bool, fixedOk: bool, dwords: nat)

  /** One transfer from the codec: whether it succeeded and what it left in the buffer. */
  datatype Transfer = Transfer(ok: bool, data: seq<byte>)

  datatype Poll = Poll(status: Option<Status>, xfer: Transfer) {
    /** `bytes_to_read` is a u32. */
    function Bytes(): nat {
      if status.Some? then status.value.dwords * 4 % 0x1_0000_0000 else 0
    }

    /** The transfer writes at most what was asked for, and all of it when it succeeds. */
    ghost predicate Sane() {
      |xfer.data| <= Bytes() && (xfer.ok ==> |xfer.data| == Bytes())
    }

    /** A transfer is no larger than a buffer. Buffers of MAX_TRANSFER bytes suffice. */
    predicate FitsIn(bufferSize: nat) {
      Transfers() ==> Bytes() <= bufferSize
    }

    /** Control reaches the transfer. */
    predicate Transfers() {
      status.Some? && status.value.ready && status.value.fixedOk && Bytes() <= MAX_TRANSFER
    }
  }

  datatype UsbResult = Received | NotReady | Failed | Bug

  /** `hdcapm_buffer_next_free` in one piece: a free buffer, else the oldest used one. */
  function TakeBuffer(s: State): State {
    if s.nfree > 0 then s.(nfree := s.nfree - 1)
    else if s.used != [] then s.(used := s.used[1..], overrun := s.overrun + 1)
    else s.(overrun := s.overrun + 1)
  }

  predicate HasBuffer(s: State) {
    s.nfree > 0 || s.used != []
  }

  /** With a buffer in hand: the transfer, then the buffer goes to one list or the other. */
  function Receive(t: State, p: Poll): (State, UsbResult)
    requires p.Sane()
  {
    if !p.xfer.ok then (t.(nfree := t.nfree + 1), Failed)
    else
      (t.(used := t.used + [Chunk(Swapped(p.xfer.data), 0)],
          bytesReceived := t.bytesReceived + |p.xfer.data|,
          buffersReceived := t.buffersReceived + 1), Received)
  }

  function UsbRead(s: State, p: Poll): (State, UsbResult)
    requires p.Sane()
  {
    if p.status.None? then (s, Failed)
    else if !p.status.value.ready then (s.(notReady := s.notReady + 1), NotReady)
    else if !p.Transfers() then (s, Bug)
    else if !HasBuffer(s) then (TakeBuffer(s), Failed)
    else Receive(TakeBuffer(s), p)
  }

  /** What is assumed of a transfer: of 4 bytes for each word the status announces, in 32 bits, it
      delivers all when it succeeds, and never more. */
  lemma SaneIff(p: Poll)
    ensures p.Sane() <==>
              var bytes := if p.status == None then 0 else 4 * p.status.value.dwords % 0x1_0000_0000;
              |p.xfer.data| <= bytes && (p.xfer.ok ==> |p.xfer.data| == bytes)
  {
  }

  /** What a poll without a transfer comes to, from the status words alone. */
  lemma UsbReadRefuses(s: State, p: Poll)
    requires p.Sane()
    ensures p.status == None ==> UsbRead(s, p) == (s, Failed)
    ensures p.status.Some? && !p.status.value.ready ==>
              UsbRead(s, p) == (s.(notReady := s.notReady + 1), NotReady)
    ensures p.status.Some? && p.status.value.ready ==>
              (UsbRead(s, p).1 == Bug
               <==> !p.status.value.fixedOk || 4 * p.status.value.dwords % 0x1_0000_0000 > 256000)
    ensures UsbRead(s, p).1 == Bug ==> UsbRead(s, p).0 == s
    ensures UsbRead(s, p).1 == NotReady ==> p.status.Some? && !p.status.value.ready
  {
  }

  /** A status that lets the transfer happen, in terms of the words. */
  predicate Good(st: Status) {
    st.ready && st.fixedOk && 4 * st.dwords % 0x1_0000_0000 <= 256000
  }

  /** What the transfer comes to: with a buffer, free or stolen, it is received if and only if it
      succeeds; with none, the call fails and only the overrun is counted. */
  lemma UsbReadOutcome(s: State, p: Poll)
    requires p.Sane() && p.status.Some? && Good(p.status.value)
    ensures s.nfree == 0 && s.used == [] ==> UsbRead(s, p) == (s.(overrun := s.overrun + 1), Failed)
    ensures s.nfree > 0 || s.used != [] ==>
              var (t, res) := UsbRead(s, p);
              var stolen := if s.nfree == 0 then 1 else 0;
              && res == (if p.xfer.ok then Received else Failed)
              && t.overrun == s.overrun + stolen && t.notReady == s.notReady
              && t.nfree == s.nfree + stolen - (if p.xfer.ok then 1 else 0)
              && t.used == s.used[stolen..] + (if p.xfer.ok then [Chunk(Swapped(p.xfer.data), 0)] else [])
              && t.bytesReceived == s.bytesReceived + (if p.xfer.ok then |p.xfer.data| else 0)
              && t.buffersReceived == s.buffersReceived + (if p.xfer.ok then 1 else 0)
  {
    NilUnit(s.used);
    if s.used != [] {
      NilUnit(s.used[1..]);
    }
  }

  // ---------------------------------------------------------------- fops_read

  /** A read call. The copy to user space numbered faultAt fails (counting from 0). */
  datatype ReadCall = ReadCall(offset: int, count: nat, nonblock: bool, faultAt: nat)

  /** How the copy loop ended. */
  datatype LoopEnd = Done | Empty | Interrupted | Fault

  datatype Copied = Copied(used: seq<Chunk>, out: seq<byte>, recycled: nat, end: LoopEnd)

  /** The copy loop. With nobody else running, a blocking wait on an empty list can only be
      ended by a signal. */
  function CopyLoop(used: seq<Chunk>, count: nat, nonblock: bool, faultAt: nat): Copied
    decreases |used|
  {
    if used == [] then Copied(used, [], 0, Empty)
    else if count == 0 then Copied(used, [], 0, Done)
    else if faultAt == 0 then Copied(used, [], 0, Fault)
    else
      var rest := used[0].Rest();
      if count < |rest| then
        Copied([used[0].(pos := used[0].pos + count)] + used[1..], rest[..count], 0, Done)
      else if |used| == 1 && !nonblock then Copied([], rest, 1, Interrupted)
      else
        var c := CopyLoop(used[1..], count - |rest|, nonblock, faultAt - 1);
        c.(out := rest + c.out, recycled := c.recycled + 1)
  }

  function ReadResult(c: Copied): int {
    if c.out == [] && c.end == Fault then -EFAULT
    else if c.out == [] && c.end == Empty then -EAGAIN
    else |c.out|
  }

  datatype ReadOutcome = ReadOutcome(s: State, out: seq<byte>, result: int, recycled: nat)

  function FopsRead(s: State, r: ReadCall): ReadOutcome {
    if r.offset != 0 then ReadOutcome(s, [], -ESPIPE, 0)
    else if !r.nonblock && s.used == [] then ReadOutcome(s, [], -EINVAL, 0)
    else
      var c := CopyLoop(s.used, r.count, r.nonblock, r.faultAt);
      ReadOutcome(s.(used := c.used, nfree := s.nfree + c.recycled), c.out, ReadResult(c), c.recycled)
  }

  // ---------------------------------------------------------------- the read contract

  /** The result of a copy loop with bytes and emptied buffers in front. */
  function After(front: seq<byte>, n: nat, c: Copied): Copied {
    c.(out := front + c.out, recycled := n + c.recycled)
  }

  /** The loop empties the head buffer and goes on. */
  predicate GoesOn(used: seq<Chunk>, count: nat, nonblock: bool, faultAt: nat) {
    used != [] && count > 0 && faultAt > 0 && count >= |used[0].Rest()| && (|used| > 1 || nonblock)
  }

  lemma TurnOver(used: seq<Chunk>, count: nat, nonblock: bool, faultAt: nat)
    requires GoesOn(used, count, nonblock, faultAt)
    ensures CopyLoop(used, count, nonblock, faultAt)
            == After(used[0].Rest(), 1, CopyLoop(used[1..], count - |used[0].Rest()|, nonblock, faultAt - 1))
  {
  }

  /** How the loop ends otherwise: at once, inside the head buffer, or with the last one. */
  lemma LastTurn(used: seq<Chunk>, count: nat, nonblock: bool, faultAt: nat)
    requires !GoesOn(used, count, nonblock, faultAt)
    ensures var c := CopyLoop(used, count, nonblock, faultAt);
            || (c.used == used && c.out == [] && c.recycled == 0 && (c.end == Empty ==> used == []))
            || (used != [] && count <= |used[0].Rest()| && c.out == used[0].Rest()[..count] && c.recycled == 0
                && c.used == [used[0].(pos := used[0].pos + count)] + used[1..] && c.end == Done)
            || (|used| == 1 && c.used == [] && c.out == used[0].Rest() && |c.out| <= count && c.recycled == 1)
  {
  }

  lemma PrefixMore(used: seq<Chunk>, count: nat, d: Copied)
    requires used != [] && |used[0].Rest()| <= count
    requires Queue(used[1..]) == d.out + Queue(d.used) && |d.out| <= count - |used[0].Rest()|
    ensures var c := After(used[0].Rest(), 1, d); Queue(used) == c.out + Queue(c.used) && |c.out| <= count
  {
    Assoc(used[0].Rest(), d.out, Queue(d.used));
  }

  lemma PrefixAtEnd(used: seq<Chunk>, count: nat, nonblock: bool, faultAt: nat)
    requires WellRead(used) && !GoesOn(used, count, nonblock, faultAt)
    ensures var c := CopyLoop(used, count, nonblock, faultAt);
            Queue(used) == c.out + Queue(c.used) && |c.out| <= count
  {
    LastTurn(used, count, nonblock, faultAt);
    NilUnit(Queue(used));
    if used != [] && count <= |used[0].Rest()| {
      PartialHead(used, count);
    }
    if |used| == 1 {
      assert used[1..] == [];
    }
  }

  /** The copy loop takes a prefix off the queue. */
  lemma {:induction false} CopyLoopTakesPrefix(used: seq<Chunk>, count: nat, nonblock: bool, faultAt: nat)
    requires WellRead(used)
    ensures var c := CopyLoop(used, count, nonblock, faultAt);
            Queue(used) == c.out + Queue(c.used) && |c.out| <= count
  {
    if GoesOn(used, count, nonblock, faultAt) {
      var left := count - |used[0].Rest()|;
      TurnOver(used, count, nonblock, faultAt);
      CopyLoopTakesPrefix(used[1..], left, nonblock, faultAt - 1);
      PrefixMore(used, count, CopyLoop(used[1..], left, nonblock, faultAt - 1));
    } else {
      PrefixAtEnd(used, count, nonblock, faultAt);
    }
  }

  lemma PartialHead(used: seq<Chunk>, n: nat)
    requires WellRead(used) && used != [] && n <= |used[0].Rest()|
    ensures Queue(used) == used[0].Rest()[..n] + Queue([used[0].(pos := used[0].pos + n)] + used[1..])
  {
    var rest, tail := used[0].Rest(), used[1..];
    var head := used[0].(pos := used[0].pos + n);
    assert head.Rest() == rest[n..];
    assert ([head] + tail)[1..] == tail;
    SplitAt(rest, n);
    Assoc(rest[..n], rest[n..], Queue(tail));
  }

  /** What a copy loop may leave of a used list: buffers gone from the front, the others as they were
      except for the read position of the new head. */
  ghost predicate Remains(used: seq<Chunk>, c: Copied) {
    && |used| == |c.used| + c.recycled
    && (c.used != [] ==> c.used[0].payload == used[c.recycled].payload && c.used[1..] == used[c.recycled + 1..])
    && (c.end == Empty ==> c.used == [])
  }

  lemma RemainsMore(used: seq<Chunk>, front: seq<byte>, d: Copied)
    requires used != [] && Remains(used[1..], d)
    ensures Remains(used, After(front, 1, d))
  {
    if d.used != [] {
      assert used[1..][d.recycled + 1..] == used[d.recycled + 2..];
    }
  }

  /** It removes buffers from the front, recycles exactly those, and leaves the others untouched except
      that the new head may be partly read. */
  lemma {:induction false} CopyLoopRemovesFront(used: seq<Chunk>, count: nat, nonblock: bool, faultAt: nat)
    ensures Remains(used, CopyLoop(used, count, nonblock, faultAt))
  {
    if GoesOn(used, count, nonblock, faultAt) {
      var left := count - |used[0].Rest()|;
      TurnOver(used, count, nonblock, faultAt);
      CopyLoopRemovesFront(used[1..], left, nonblock, faultAt - 1);
      RemainsMore(used, used[0].Rest(), CopyLoop(used[1..], left, nonblock, faultAt - 1));
    } else {
      LastTurn(used, count, nonblock, faultAt);
    }
  }

  lemma {:induction false} CopyLoopStaysWellRead(used: seq<Chunk>, count: nat, nonblock: bool, faultAt: nat)
    requires WellRead(used)
    ensures WellRead(CopyLoop(used, count, nonblock, faultAt).used)
  {
    if GoesOn(used, count, nonblock, faultAt) {
      TurnOver(used, count, nonblock, faultAt);
      CopyLoopStaysWellRead(used[1..], count - |used[0].Rest()|, nonblock, faultAt - 1);
    } else {
      LastTurn(used, count, nonblock, faultAt);
    }
  }

  /** The bytes a read can reach: those before the buffer whose copy fails. */
  function Reach(used: seq<Chunk>, faultAt: nat): nat {
    |Queue(used[..Min(faultAt, |used|)])|
  }

  lemma ReachMore(used: seq<Chunk>, faultAt: nat)
    requires used != [] && faultAt > 0
    ensures Reach(used, faultAt) == |used[0].Rest()| + Reach(used[1..], faultAt - 1)
  {
    var k := Min(faultAt, |used|);
    assert used[..k][1..] == used[1..][..k - 1];
  }

  lemma ReachAll(used: seq<Chunk>, faultAt: nat)
    requires faultAt >= |used|
    ensures Reach(used, faultAt) == |Queue(used)|
  {
    assert used[..|used|] == used;
  }

  /** A read, blocking or not, takes all that is asked for and within reach. */
  lemma {:induction false} CopyLoopTakesAll(used: seq<Chunk>, count: nat, nonblock: bool, faultAt: nat)
    ensures |CopyLoop(used, count, nonblock, faultAt).out| == Min(count, Reach(used, faultAt))
  {
    if GoesOn(used, count, nonblock, faultAt) {
      var left := count - |used[0].Rest()|;
      TurnOver(used, count, nonblock, faultAt);
      CopyLoopTakesAll(used[1..], left, nonblock, faultAt - 1);
      ReachMore(used, faultAt);
    } else {
      TakesAllAtEnd(used, count, nonblock, faultAt);
    }
  }

  lemma TakesAllAtEnd(used: seq<Chunk>, count: nat, nonblock: bool, faultAt: nat)
    requires !GoesOn(used, count, nonblock, faultAt)
    ensures |CopyLoop(used, count, nonblock, faultAt).out| == Min(count, Reach(used, faultAt))
  {
    if used != [] && faultAt > 0 {
      ReachMore(used, faultAt);
      if |used| == 1 {
        assert used[1..] == [];
      }
    }
  }

  /** A read ends with a failing copy exactly when more is asked for than what comes before it. */
  lemma {:induction false} FaultIff(used: seq<Chunk>, count: nat, nonblock: bool, faultAt: nat)
    ensures CopyLoop(used, count, nonblock, faultAt).end == Fault
            <==> faultAt < |used| && count > Reach(used, faultAt)
  {
    if GoesOn(used, count, nonblock, faultAt) {
      TurnOver(used, count, nonblock, faultAt);
      FaultIff(used[1..], count - |used[0].Rest()|, nonblock, faultAt - 1);
      ReachMore(used, faultAt);
    } else if used != [] && faultAt > 0 {
      ReachMore(used, faultAt);
    }
  }

  /** It finds nothing exactly when the list is empty, or a non-blocking read goes over empty buffers
      only. */
  lemma {:induction false} NothingThereIff(used: seq<Chunk>, count: nat, nonblock: bool, faultAt: nat)
    ensures var c := CopyLoop(used, count, nonblock, faultAt);
            c.out == [] && c.end == Empty
            <==> used == [] || (nonblock && count > 0 && faultAt >= |used| && Queue(used) == [])
  {
    if GoesOn(used, count, nonblock, faultAt) {
      TurnOver(used, count, nonblock, faultAt);
      NothingThereIff(used[1..], count - |used[0].Rest()|, nonblock, faultAt - 1);
    } else {
      NotEmptyAtEnd(used, count, nonblock, faultAt);
    }
  }

  lemma NotEmptyAtEnd(used: seq<Chunk>, count: nat, nonblock: bool, faultAt: nat)
    requires !GoesOn(used, count, nonblock, faultAt)
    ensures CopyLoop(used, count, nonblock, faultAt).end == Empty <==> used == []
    ensures used == [] || count == 0 || faultAt == 0 || !nonblock || |Queue(used)| > 0
  {
  }

  /** A non-negative result is the length of the prefix removed from the queue; a negative one
      removes nothing; and no buffer is lost. */
  lemma ReadContract(s: State, r: ReadCall)
    requires WellRead(s.used)
    ensures var o := FopsRead(s, r);
            && Queue(s.used) == o.out + Queue(o.s.used)
            && |o.out| <= r.count
            && (o.result >= 0 ==> o.result == |o.out|)
            && (o.result < 0 ==> o.out == [] && Queue(o.s.used) == Queue(s.used))
            && o.s.nfree + |o.s.used| == s.nfree + |s.used|
            && WellRead(o.s.used)
    ensures r.offset == 0 && r.nonblock && r.faultAt >= |s.used| ==>
              (FopsRead(s, r).result < 0 <==> FopsRead(s, r).s.used == [] && FopsRead(s, r).out == [])
  {
    CopyLoopTakesPrefix(s.used, r.count, r.nonblock, r.faultAt);
    CopyLoopRemovesFront(s.used, r.count, r.nonblock, r.faultAt);
    CopyLoopStaysWellRead(s.used, r.count, r.nonblock, r.faultAt);
    if r.nonblock && r.faultAt >= |s.used| {
      NoFault(s.used, r.count, r.faultAt);
    }
  }

  lemma {:induction false} NoFault(used: seq<Chunk>, count: nat, faultAt: nat)
    requires faultAt >= |used|
    ensures var c := CopyLoop(used, count, true, faultAt);
            (c.end == Empty && c.used == []) || (c.end == Done && c.used != [])
  {
    if used != [] && count > 0 && |used[0].Rest()| <= count {
      NoFault(used[1..], count - |used[0].Rest()|, faultAt - 1);
    }
  }

  /** What a read delivers, blocking or not: nothing if it seeks or if it waits in vain, otherwise all
      that is asked for and not behind a failing copy, from the front of the queue. The counters
      stay as they are. */
  lemma ReadDelivers(s: State, r: ReadCall)
    requires WellRead(s.used)
    ensures var o, past := FopsRead(s, r), r.offset == 0 && (r.nonblock || s.used != []);
            && Reach(s.used, r.faultAt) <= |Queue(s.used)|
            && o.out == (if past then Queue(s.used)[..Min(r.count, Reach(s.used, r.faultAt))] else [])
            && o.s == s.(used := o.s.used, nfree := o.s.nfree)
    ensures r.offset == 0 && s.used != [] && r.faultAt >= |s.used| ==>
              FopsRead(s, r).out == Queue(s.used)[..Min(r.count, |Queue(s.used)|)]
  {
    ReachIsWithin(s.used, r.faultAt);
    CopyLoopTakesPrefix(s.used, r.count, r.nonblock, r.faultAt);
    CopyLoopTakesAll(s.used, r.count, r.nonblock, r.faultAt);
    var c := CopyLoop(s.used, r.count, r.nonblock, r.faultAt);
    FrontOf(Queue(s.used), c.out, Queue(c.used));
    if r.faultAt >= |s.used| {
      ReachAll(s.used, r.faultAt);
    }
  }

  lemma FrontOf(q: seq<byte>, out: seq<byte>, rest: seq<byte>)
    requires q == out + rest
    ensures out == q[..|out|]
  {
  }

  lemma {:induction false} ReachIsWithin(used: seq<Chunk>, faultAt: nat)
    ensures Reach(used, faultAt) <= |Queue(used)|
  {
    if used != [] && faultAt > 0 {
      ReachMore(used, faultAt);
      ReachIsWithin(used[1..], faultAt - 1);
    }
  }

  /** What a read returns, from the call and the used list alone: -29 is ESPIPE, -22 EINVAL, -14 EFAULT,
      -11 EAGAIN. */
  lemma ReadResultIff(s: State, r: ReadCall)
    requires WellRead(s.used)
    ensures var o, past := FopsRead(s, r), r.offset == 0 && (r.nonblock || s.used != []);
            && (o.result == -29 <==> r.offset != 0)
            && (o.result == -22 <==> r.offset == 0 && !r.nonblock && s.used == [])
            && (o.result == -14 <==> past && r.count > 0 && r.faultAt < |s.used| && Reach(s.used, r.faultAt) == 0)
            && (o.result == -11 <==> past && r.nonblock && Queue(s.used) == []
                                         && (s.used == [] || (r.count > 0 && r.faultAt >= |s.used|)))
            && (o.result >= 0 ==> o.result == |o.out|)
            && (o.result < 0 ==> o.result == -29 || o.result == -22 || o.result == -14 || o.result == -11)
  {
    FaultIff(s.used, r.count, r.nonblock, r.faultAt);
    NothingThereIff(s.used, r.count, r.nonblock, r.faultAt);
    CopyLoopTakesAll(s.used, r.count, r.nonblock, r.faultAt);
  }
}
