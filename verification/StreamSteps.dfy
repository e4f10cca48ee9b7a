/**
 The streaming pipeline with the worker thread and one reader interleaving. Every section
 under `dmaqueue_lock` is one step; so is every access to a buffer outside the lock.
 */
module StreamSteps {
  import opened Bytes
  import opened DwordFixup

  datatype Buf = Buf(data: seq<byte>, actual: nat, pos: nat) {
    function Rest(): seq<byte> {
      if pos <= actual <= |data| then data[pos..actual] else []
    }
  }

  /** Where the worker is inside `usb_read`. `raw` is what the transfer delivered. */
  datatype Producer =
    | PIdle
    | PSecondLock                              // no free buffer found, about to try the used list
    | PHold(id: nat)                           // buffer taken, transfer running
    | PAbort(id: nat)                          // transfer failed
    | PSwap(id: nat, raw: seq<byte>, i: nat)   // groups below i are turned round
    | PSized(id: nat, raw: seq<byte>)          // actual_size and readpos are set
  {
    function Hand(): seq<nat> {
      if PIdle? || PSecondLock? then [] else [id]
    }
  }

  /** Where the reader is inside `fops_read`, with the bytes still wanted. */
  datatype Reader =
    | RIdle
    | RPeek(count: nat)
    | RPinned(id: nat, count: nat)
    | RCopied(id: nat, count: nat, bite: seq<byte>)   // copied out, readpos not yet moved
    | RFull(id: nat, count: nat)                      // readpos reached actual_size
    | RReset(id: nat, count: nat)                     // readpos back to 0, not yet moved
  {
    /** It will still use the buffer it peeked at. With nothing left to copy it only returns. */
    predicate Relies() {
      (RPinned? && count > 0) || RCopied? || RFull? || RReset?
    }
  }

  /** `received`, `delivered` and `dropped` record what went in and out. */
  datatype State = State(bufs: seq<Buf>, free: seq<nat>, used: seq<nat>, p: Producer, r: Reader,
                         received: seq<byte>, delivered: seq<byte>, dropped: nat)

  datatype Label =
    | TakeFree | Steal | Fill(raw: seq<byte>) | FillFails(junk: seq<byte>) | GiveBack
    | SwapGroup | SetSizes | Publish | Flush
    | StartRead(wanted: nat) | Peek | Copy | Advance | Reset | Move | EndRead

  function Overwrite(data: seq<byte>, front: seq<byte>): seq<byte> {
    if |front| <= |data| then front + data[|front|..] else data
  }

  /** The bytes the copy of the pinned buffer delivers. */
  function BiteOf(b: Buf, count: nat): seq<byte> {
    b.Rest()[..Min(|b.Rest()|, count)]
  }

  /** The unread bytes of these buffers. */
  function Contents(bufs: seq<Buf>, ids: seq<nat>): seq<byte> {
    if ids == [] then []
    else (if ids[0] < |bufs| then bufs[ids[0]].Rest() else []) + Contents(bufs, ids[1..])
  }

  /** The bytes of these buffers that have not been delivered: a buffer whose read position the
      reader has reset but which is still linked counts as empty. */
  function Unread(s: State, ids: seq<nat>): seq<byte> {
    if s.r.RReset? && ids != [] && ids[0] == s.r.id then Contents(s.bufs, ids[1..]) else Contents(s.bufs, ids)
  }

  ghost predicate Enabled(s: State, l: Label) {
    match l
    case TakeFree => s.p.PIdle?
    case Steal => s.p.PSecondLock?
    case Fill(raw) => s.p.PHold? && s.p.id < |s.bufs| && |raw| % 4 == 0 && |raw| <= |s.bufs[s.p.id].data|
    case FillFails(junk) => s.p.PHold? && s.p.id < |s.bufs|
    case GiveBack => s.p.PAbort?
    case SwapGroup => s.p.PSwap? && s.p.id < |s.bufs| && s.p.i + 4 <= |s.p.raw| <= |s.bufs[s.p.id].data|
    case SetSizes => s.p.PSwap? && s.p.id < |s.bufs| && s.p.i == |s.p.raw|
    case Publish => s.p.PSized? && |s.p.raw| % 4 == 0
    case Flush => s.p.PIdle?
    case StartRead(_) => s.r.RIdle?
    case Peek => s.r.RPeek?
    case Copy => s.r.RPinned? && s.r.count > 0 && s.r.id < |s.bufs|
    case Advance => s.r.RCopied? && s.r.id < |s.bufs| && |s.r.bite| <= s.r.count
    case Reset => s.r.RFull? && s.r.id < |s.bufs|
    case Move => s.r.RReset?
    case EndRead => s.r.RPinned? || s.r.RPeek?
  }

  function SwapAt(data: seq<byte>, i: nat): seq<byte>
    requires i + 4 <= |data|
  {
    data[..i] + [data[i + 3], data[i + 2], data[i + 1], data[i]] + data[i + 4..]
  }

  function Next(s: State, l: Label): State
    requires Enabled(s, l)
  {
    match l
    case TakeFree =>
      if s.free == [] then s.(p := PSecondLock) else s.(free := s.free[1..], p := PHold(s.free[0]))
    case Steal =>
      // with the used list drained meanwhile, the call returns NULL
      if s.used == [] then s.(p := PIdle)
      else s.(used := s.used[1..], p := PHold(s.used[0]),
              dropped := s.dropped + |Unread(s, s.used[..1])|)
    case Fill(raw) =>
      var b := s.bufs[s.p.id];
      s.(bufs := s.bufs[s.p.id := b.(data := Overwrite(b.data, raw))], p := PSwap(s.p.id, raw, 0))
    case FillFails(junk) =>
      var b := s.bufs[s.p.id];
      s.(bufs := s.bufs[s.p.id := b.(data := Overwrite(b.data, junk))], p := PAbort(s.p.id))
    case GiveBack => s.(free := s.free + [s.p.id], p := PIdle)
    case SwapGroup =>
      var b := s.bufs[s.p.id];
      s.(bufs := s.bufs[s.p.id := b.(data := SwapAt(b.data, s.p.i))], p := s.p.(i := s.p.i + 4))
    case SetSizes =>
      s.(bufs := s.bufs[s.p.id := s.bufs[s.p.id].(actual := |s.p.raw|, pos := 0)], p := PSized(s.p.id, s.p.raw))
    case Publish => s.(used := s.used + [s.p.id], p := PIdle, received := s.received + Swapped(s.p.raw))
    case Flush => s.(free := s.free + s.used, used := [], dropped := s.dropped + |Unread(s, s.used)|)
    case StartRead(wanted) => s.(r := RPeek(wanted))
    case Peek => if s.used == [] then s.(r := RIdle) else s.(r := RPinned(s.used[0], s.r.count))
    case Copy => s.(r := RCopied(s.r.id, s.r.count, BiteOf(s.bufs[s.r.id], s.r.count)))
    case Advance =>
      var b := s.bufs[s.r.id];
      var b' := b.(pos := b.pos + |s.r.bite|);
      var left := s.r.count - |s.r.bite|;
      s.(bufs := s.bufs[s.r.id := b'], delivered := s.delivered + s.r.bite,
         r := if b'.pos == b'.actual then RFull(s.r.id, left) else RPinned(s.r.id, left))
    case Reset => s.(bufs := s.bufs[s.r.id := s.bufs[s.r.id].(pos := 0)], r := RReset(s.r.id, s.r.count))
    case Move =>
      s.(used := Unlink(s.used, s.r.id), free := Unlink(s.free, s.r.id) + [s.r.id], r := RPeek(s.r.count))
    case EndRead => s.(r := RIdle)
  }

  // ---------------------------------------------------------------- what every step keeps

  function Ids(n: nat): seq<nat> {
    seq(n, i => i)
  }

  /** Every buffer is in exactly one place. */
  ghost predicate Parted(s: State) {
    multiset(s.free) + multiset(s.used) + multiset(s.p.Hand()) == multiset(Ids(|s.bufs|))
  }

  ghost predicate UsedOk(bufs: seq<Buf>, used: seq<nat>) {
    && (forall i | 0 <= i < |used| :: used[i] < |bufs|)
    && (forall i | 0 <= i < |used| :: bufs[used[i]].pos <= bufs[used[i]].actual <= |bufs[used[i]].data|)
  }

  ghost predicate ProducerOk(bufs: seq<Buf>, p: Producer) {
    match p
    case PSwap(id, raw, i) =>
      && id < |bufs| && |raw| % 4 == 0 && i % 4 == 0 && i <= |raw| <= |bufs[id].data|
      && bufs[id].data[..|raw|] == Swapped(raw[..i]) + raw[i..]
    case PSized(id, raw) =>
      && id < |bufs| && |raw| % 4 == 0 && |raw| <= |bufs[id].data|
      && bufs[id].actual == |raw| && bufs[id].pos == 0
      && bufs[id].data[..|raw|] == Swapped(raw)
    case _ => p.Hand() == [] || p.id < |bufs|
  }

  /** The buffer the reader works on is the head of the used list, and what it has copied is
      still what the buffer holds. */
  ghost predicate ReaderOk(bufs: seq<Buf>, used: seq<nat>, r: Reader) {
    && (r.Relies() ==> used != [] && used[0] == r.id && r.id < |bufs|)
    && (r.RCopied? ==> r.count > 0 && r.bite == BiteOf(bufs[r.id], r.count))
    && (r.RFull? ==> bufs[r.id].pos == bufs[r.id].actual)
    && (r.RReset? ==> bufs[r.id].pos == 0)
  }

  ghost predicate Inv(s: State) {
    Parted(s) && UsedOk(s.bufs, s.used) && ProducerOk(s.bufs, s.p) && ReaderOk(s.bufs, s.used, s.r)
  }

  /** The window in which the reader relies on the head buffer without holding the lock: in it
      the worker must neither steal nor flush. */
  ghost predicate Allowed(s: State, l: Label) {
    (l.Steal? || l.Flush?) ==> !s.r.Relies()
  }

  // ---------------------------------------------------------------- the byte FIFO behind it

  datatype Fifo = Fifo(queue: seq<byte>, received: seq<byte>, delivered: seq<byte>, dropped: nat)

  datatype Op = Stutter | Enqueue(bytes: seq<byte>) | Dequeue(n: nat) | Drop(n: nat)

  /** At most what is there can be taken or dropped. */
  function Apply(f: Fifo, op: Op): Fifo {
    match op
    case Stutter => f
    case Enqueue(b) => f.(queue := f.queue + b, received := f.received + b)
    case Dequeue(n) =>
      var k := Min(n, |f.queue|);
      f.(queue := f.queue[k..], delivered := f.delivered + f.queue[..k])
    case Drop(n) =>
      var k := Min(n, |f.queue|);
      f.(queue := f.queue[k..], dropped := f.dropped + k)
  }

  function Abs(s: State): Fifo {
    Fifo(Unread(s, s.used), s.received, s.delivered, s.dropped)
  }

  /** What a step is for the FIFO. */
  function OpOf(s: State, l: Label): Op
    requires Enabled(s, l)
  {
    match l
    case Publish => Enqueue(Swapped(s.p.raw))
    case Advance => Dequeue(|s.r.bite|)
    case Steal => Drop(|Unread(s, s.used[..Min(1, |s.used|)])|)
    case Flush => Drop(|Unread(s, s.used)|)
    case _ => Stutter
  }
}
