/**
 Whole capture sessions: any sequence of `usb_read` and `fops_read` calls, each taken as one
 step, on a pool of N buffers that starts out free.
 */
module StreamRuns {
  import opened Bytes
  import opened DwordFixup
  import opened Stream

  datatype Event = Usb(poll: Poll) | Read(call: ReadCall)

  ghost predicate Sane(es: seq<Event>) {
    forall i | 0 <= i < |es| :: es[i].Usb? ==> es[i].poll.Sane()
  }

  /** The observable past. `done` lists the payloads that have left the used list, each with
      the number of bytes the reader had taken from it by then. */
  datatype History = History(s: State, received: seq<seq<byte>>, delivered: seq<byte>,
                             done: seq<Chunk>, dropped: nat)

  function Start(n: nat): History {
    History(State(n, [], 0, 0, 0, 0), [], [], [], 0)
  }

  /** The producer takes the oldest used buffer away. */
  predicate Steals(s: State, p: Poll) {
    p.Transfers() && s.nfree == 0 && s.used != []
  }

  function Stolen(s: State, p: Poll): seq<Chunk> {
    if Steals(s, p) then [s.used[0]] else []
  }

  /** The first n chunks, read to their end. */
  function Finish(used: seq<Chunk>, n: nat): seq<Chunk> {
    if n == 0 || used == [] then [] else [Chunk(used[0].payload, |used[0].payload|)] + Finish(used[1..], n - 1)
  }

  function Step(h: History, e: Event): History
    requires e.Usb? ==> e.poll.Sane()
  {
    match e
    case Usb(p) =>
      var (t, res) := UsbRead(h.s, p);
      var steal := Stolen(h.s, p);
      h.(s := t,
         received := h.received + (if res == Received then [Swapped(p.xfer.data)] else []),
         done := h.done + steal,
         dropped := h.dropped + |Queue(steal)|)
    case Read(r) =>
      var o := FopsRead(h.s, r);
      h.(s := o.s,
         delivered := h.delivered + o.out,
         done := h.done + Finish(h.s.used, o.recycled))
  }

  function Run(n: nat, es: seq<Event>): History
    requires Sane(es)
  {
    if es == [] then Start(n) else Step(Run(n, es[..|es| - 1]), es[|es| - 1])
  }

  // ---------------------------------------------------------------- splitting payloads

  function Payloads(cs: seq<Chunk>): seq<seq<byte>> {
    if cs == [] then [] else [cs[0].payload] + Payloads(cs[1..])
  }

  function TakenOf(c: Chunk): seq<byte> {
    if c.pos <= |c.payload| then c.payload[..c.pos] else c.payload
  }

  /** What the reader took out of the chunks, in order. */
  function Taken(cs: seq<Chunk>): seq<byte> {
    if cs == [] then []
    else TakenOf(cs[0]) + Taken(cs[1..])
  }

  /** How many chunks were not read to the end. */
  function Truncated(cs: seq<Chunk>): nat {
    if cs == [] then 0 else (if cs[0].pos < |cs[0].payload| then 1 else 0) + Truncated(cs[1..])
  }

  lemma {:induction false} PayloadsSplit(a: seq<Chunk>, b: seq<Chunk>)
    ensures Payloads(a + b) == Payloads(a) + Payloads(b)
  {
    if a == [] {
      NilUnit(b);
      NilUnit(Payloads(b));
    } else {
      CutLeft(a, b, 1);
      PayloadsSplit(a[1..], b);
      Assoc([a[0].payload], Payloads(a[1..]), Payloads(b));
    }
  }

  lemma {:induction false} TakenSplit(a: seq<Chunk>, b: seq<Chunk>)
    ensures Taken(a + b) == Taken(a) + Taken(b)
  {
    if a == [] {
      NilUnit(b);
      NilUnit(Taken(b));
    } else {
      CutLeft(a, b, 1);
      TakenSplit(a[1..], b);
      Assoc(TakenOf(a[0]), Taken(a[1..]), Taken(b));
    }
  }

  lemma {:induction false} QueueSplit(a: seq<Chunk>, b: seq<Chunk>)
    ensures Queue(a + b) == Queue(a) + Queue(b)
  {
    if a == [] {
      NilUnit(b);
      NilUnit(Queue(b));
    } else {
      CutLeft(a, b, 1);
      QueueSplit(a[1..], b);
      Assoc(a[0].Rest(), Queue(a[1..]), Queue(b));
    }
  }

  lemma {:induction false} TruncatedSplit(a: seq<Chunk>, b: seq<Chunk>)
    ensures Truncated(a + b) == Truncated(a) + Truncated(b)
  {
    if a == [] {
      NilUnit(b);
    } else {
      CutLeft(a, b, 1);
      TruncatedSplit(a[1..], b);
    }
  }

  lemma Splits(a: seq<Chunk>, b: seq<Chunk>)
    ensures Payloads(a + b) == Payloads(a) + Payloads(b)
    ensures Taken(a + b) == Taken(a) + Taken(b)
    ensures Queue(a + b) == Queue(a) + Queue(b)
    ensures Truncated(a + b) == Truncated(a) + Truncated(b)
  {
    PayloadsSplit(a, b);
    TakenSplit(a, b);
    QueueSplit(a, b);
    TruncatedSplit(a, b);
  }

  lemma {:induction false} Untouched(cs: seq<Chunk>)
    requires forall i | 0 <= i < |cs| :: cs[i].pos == 0
    ensures Taken(cs) == []
  {
    if cs != [] {
      Untouched(cs[1..]);
    }
  }

  lemma {:induction false} Finished(used: seq<Chunk>, n: nat)
    requires n <= |used|
    ensures Payloads(Finish(used, n)) == Payloads(used[..n])
    ensures Queue(Finish(used, n)) == [] && Truncated(Finish(used, n)) == 0
  {
    if n > 0 {
      Finished(used[1..], n - 1);
      assert used[..n][1..] == used[1..][..n - 1];
    }
  }

  /** Every payload is its taken part followed by the rest, so the sizes add up. */
  lemma {:induction false} SizesAdd(cs: seq<Chunk>)
    ensures |Concat(Payloads(cs))| == |Taken(cs)| + |Queue(cs)|
  {
    if cs != [] {
      SizesAdd(cs[1..]);
    }
  }

  /** Of a used list, taken bytes and queued bytes are all bytes. */
  lemma {:induction false} UsedIsWhole(used: seq<Chunk>)
    requires WellRead(used)
    ensures Concat(Payloads(used)) == Taken(used) + Queue(used)
  {
    if used != [] {
      var c, tail := used[0], used[1..];
      Untouched(tail);
      UsedIsWhole(tail);
      SplitAt(c.payload, c.pos);
      NilUnit(Queue(tail));
      NilUnit(TakenOf(c));
      Assoc(TakenOf(c), c.Rest(), Queue(tail));
    }
  }

  /** With nothing truncated before the used list, taken and queued bytes are all bytes. */
  lemma {:induction false} NothingMissing(done: seq<Chunk>, used: seq<Chunk>)
    requires WellRead(used) && Truncated(done) == 0
    ensures Concat(Payloads(done + used)) == Taken(done + used) + Queue(used)
  {
    if done != [] {
      CutLeft(done, used, 1);
      NothingMissing(done[1..], used);
      Assoc(done[0].payload, Taken(done[1..] + used), Queue(used));
      assert TakenOf(done[0]) == done[0].payload;
    } else {
      NilUnit(used);
      UsedIsWhole(used);
    }
  }

  lemma TakenCons(c: Chunk, cs: seq<Chunk>)
    requires c.pos <= |c.payload|
    ensures Taken([c] + cs) == c.payload[..c.pos] + Taken(cs)
  {
    assert ([c] + cs)[1..] == cs;
  }

  lemma Full(payload: seq<byte>, cs: seq<Chunk>)
    ensures Taken([Chunk(payload, |payload|)] + cs) == payload + Taken(cs)
  {
    TakenCons(Chunk(payload, |payload|), cs);
    assert payload[..|payload|] == payload;
  }

  /** Taking n more bytes of the head, when the tail is untouched. */
  lemma TakeSome(head: Chunk, tail: seq<Chunk>, n: nat)
    requires head.pos + n <= |head.payload| && Taken(tail) == []
    ensures Taken([head] + tail) + head.Rest()[..n] == Taken([head.(pos := head.pos + n)] + tail)
  {
    TakenCons(head, tail);
    TakenCons(head.(pos := head.pos + n), tail);
    assert head.payload[..head.pos] + head.Rest()[..n] == head.payload[..head.pos + n];
  }

  lemma TakeWhole(head: Chunk, tail: seq<Chunk>)
    requires head.pos <= |head.payload| && Taken(tail) == []
    ensures Taken([head] + tail) + head.Rest() == head.payload
  {
    TakenCons(head, tail);
  }

  lemma FinishCons(used: seq<Chunk>, n: nat, more: nat, rest: seq<Chunk>)
    requires used != [] && more == n + 1
    ensures Taken(Finish(used, more) + rest) == used[0].payload + Taken(Finish(used[1..], n) + rest)
  {
    var full := [Chunk(used[0].payload, |used[0].payload|)];
    assert Finish(used, more) + rest == full + (Finish(used[1..], n) + rest);
    Full(used[0].payload, Finish(used[1..], n) + rest);
  }

  lemma MovesPart(used: seq<Chunk>, count: nat, nonblock: bool, faultAt: nat)
    requires used != [] && used[0].pos <= |used[0].payload| && 0 < count < |used[0].Rest()| && faultAt > 0
    requires Taken(used[1..]) == []
    ensures var c := CopyLoop(used, count, nonblock, faultAt);
            Taken(used) + c.out == Taken(Finish(used, c.recycled) + c.used)
  {
    var head, tail := used[0], used[1..];
    LastTurn(used, count, nonblock, faultAt);
    assert used == [head] + tail;
    TakeSome(head, tail, count);
    NilUnit([head.(pos := head.pos + count)] + tail);
  }

  lemma Glue(taken: seq<byte>, rest: seq<byte>, out: seq<byte>, payload: seq<byte>)
    requires taken + rest == payload
    ensures taken + (rest + out) == payload + out && [] + out == out
  {
    Assoc(taken, rest, out);
  }

  lemma MovesMore(used: seq<Chunk>, c: Copied, d: Copied)
    requires used != [] && used[0].pos <= |used[0].payload| && Taken(used[1..]) == []
    requires c.out == used[0].Rest() + d.out && c.recycled == d.recycled + 1 && c.used == d.used
    requires Taken(used[1..]) + d.out == Taken(Finish(used[1..], d.recycled) + d.used)
    ensures Taken(used) + c.out == Taken(Finish(used, c.recycled) + c.used)
  {
    assert used == [used[0]] + used[1..];
    TakeWhole(used[0], used[1..]);
    FinishCons(used, d.recycled, c.recycled, d.used);
    Glue(Taken(used), used[0].Rest(), d.out, used[0].payload);
  }

  lemma MovesAtEnd(used: seq<Chunk>, count: nat, nonblock: bool, faultAt: nat)
    requires WellRead(used) && !GoesOn(used, count, nonblock, faultAt)
    ensures var c := CopyLoop(used, count, nonblock, faultAt);
            Taken(used) + c.out == Taken(Finish(used, c.recycled) + c.used)
  {
    if used == [] || count == 0 || faultAt == 0 {
      NilUnit(used);
      NilUnit(Taken(used));
    } else {
      Untouched(used[1..]);
      if count < |used[0].Rest()| {
        MovesPart(used, count, nonblock, faultAt);
      } else {
        assert used == [used[0]] + [];
        TakeWhole(used[0], []);
        FinishCons(used, 0, 1, []);
      }
    }
  }

  /** The copy loop moves bytes from the front of the queue to the user, payload by payload. */
  lemma {:induction false} CopyLoopMoves(used: seq<Chunk>, count: nat, nonblock: bool, faultAt: nat)
    requires WellRead(used)
    ensures var c := CopyLoop(used, count, nonblock, faultAt);
            Taken(used) + c.out == Taken(Finish(used, c.recycled) + c.used)
    decreases |used|
  {
    if GoesOn(used, count, nonblock, faultAt) {
      var left := count - |used[0].Rest()|;
      TurnOver(used, count, nonblock, faultAt);
      CopyLoopMoves(used[1..], left, nonblock, faultAt - 1);
      Untouched(used[1..]);
      MovesMore(used, CopyLoop(used, count, nonblock, faultAt), CopyLoop(used[1..], left, nonblock, faultAt - 1));
    } else {
      MovesAtEnd(used, count, nonblock, faultAt);
    }
  }

  // ---------------------------------------------------------------- every reachable history

  ghost predicate Inv(h: History, n: nat) {
    && WellRead(h.s.used)
    && h.s.nfree + |h.s.used| == n
    && Payloads(h.done + h.s.used) == h.received
    && Taken(h.done + h.s.used) == h.delivered
    && Truncated(h.done) <= h.s.overrun
    && h.dropped == |Queue(h.done)|
    && h.s.bytesReceived == |Concat(h.received)|
    && h.s.buffersReceived == |h.received|
  }

  /** Taking a buffer, by stealing or not, only moves a chunk from the used list to `done`. */
  lemma {:induction false} TakeKeeps(h: History, n: nat, p: Poll)
    requires Inv(h, n) && p.Transfers() && HasBuffer(h.s)
    ensures var t, d := TakeBuffer(h.s), h.done + Stolen(h.s, p);
            && WellRead(t.used) && t.nfree + |t.used| + 1 == n
            && d + t.used == h.done + h.s.used
            && Truncated(d) <= t.overrun
            && |Queue(d)| == h.dropped + |Queue(Stolen(h.s, p))|
  {
    NilUnit(h.done);
    if Steals(h.s, p) {
      Splits(h.done, [h.s.used[0]]);
      var tail := h.s.used[1..];
      assert [h.s.used[0]] + tail == h.s.used;
      Assoc(h.done, [h.s.used[0]], tail);
    }
  }

  lemma {:induction false} PublishKeeps(done: seq<Chunk>, used: seq<Chunk>, p: seq<byte>)
    requires WellRead(used)
    ensures WellRead(used + [Chunk(p, 0)])
    ensures Payloads(done + (used + [Chunk(p, 0)])) == Payloads(done + used) + [p]
    ensures Taken(done + (used + [Chunk(p, 0)])) == Taken(done + used)
  {
    var c := [Chunk(p, 0)];
    Assoc(done, used, c);
    Splits(done + used, c);
    assert Payloads(c) == [p] && Taken(c) == [];
    NilUnit(Taken(done + used));
  }

  /** What a successful reception leaves. */
  lemma ReceptionState(h: History, p: Poll)
    requires p.Sane() && p.Transfers() && HasBuffer(h.s) && p.xfer.ok
    ensures var t, u, payload := Step(h, Usb(p)), TakeBuffer(h.s), Swapped(p.xfer.data);
            && t.s == u.(used := u.used + [Chunk(payload, 0)], bytesReceived := u.bytesReceived + |payload|,
                         buffersReceived := u.buffersReceived + 1)
            && t.received == h.received + [payload] && t.delivered == h.delivered
            && t.done == h.done + Stolen(h.s, p) && t.dropped == h.dropped + |Queue(Stolen(h.s, p))|
  {
  }

  lemma ReceptionKeeps(h: History, n: nat, p: Poll)
    requires Inv(h, n) && p.Sane() && p.Transfers() && HasBuffer(h.s) && p.xfer.ok
    ensures Inv(Step(h, Usb(p)), n)
  {
    var payload := Swapped(p.xfer.data);
    ReceptionState(h, p);
    TakeKeeps(h, n, p);
    PublishKeeps(h.done + Stolen(h.s, p), TakeBuffer(h.s).used, payload);
    ConcatAppend(h.received, [payload]);
    ConcatOne(payload);
  }

  lemma {:induction false} UsbKeeps(h: History, n: nat, p: Poll)
    requires Inv(h, n) && p.Sane()
    ensures Inv(Step(h, Usb(p)), n)
  {
    NilUnit(h.received);
    if p.Transfers() && HasBuffer(h.s) {
      if p.xfer.ok {
        ReceptionKeeps(h, n, p);
      } else {
        TakeKeeps(h, n, p);
      }
    } else {
      NilUnit(h.done);
    }
  }

  lemma {:induction false} FinishKeepsPayloads(used: seq<Chunk>, rest: seq<Chunk>, n: nat)
    requires n + |rest| == |used|
    requires forall i | 0 <= i < |rest| :: rest[i].payload == used[n + i].payload
    ensures Payloads(Finish(used, n) + rest) == Payloads(used)
    decreases |used|
  {
    if n == 0 {
      NilUnit(rest);
      SamePayloads(used, rest);
    } else {
      FinishKeepsPayloads(used[1..], rest, n - 1);
      var full := [Chunk(used[0].payload, |used[0].payload|)];
      Assoc(full, Finish(used[1..], n - 1), rest);
      PayloadsSplit(full, Finish(used[1..], n - 1) + rest);
    }
  }

  lemma {:induction false} SamePayloads(a: seq<Chunk>, b: seq<Chunk>)
    requires |a| == |b| && forall i | 0 <= i < |b| :: b[i].payload == a[i].payload
    ensures Payloads(b) == Payloads(a)
  {
    if a != [] {
      SamePayloads(a[1..], b[1..]);
    }
  }

  /** What a read does to the record: it finishes the buffers it empties. */
  lemma ReadAccounts(used: seq<Chunk>, r: ReadCall)
    requires WellRead(used)
    ensures var c := CopyLoop(used, r.count, r.nonblock, r.faultAt);
            var f := Finish(used, c.recycled);
            && WellRead(c.used) && |used| == |c.used| + c.recycled
            && Payloads(f + c.used) == Payloads(used)
            && Taken(f + c.used) == Taken(used) + c.out
            && Queue(f) == [] && Truncated(f) == 0
  {
    CopyLoopMoves(used, r.count, r.nonblock, r.faultAt);
    CopyLoopRemovesFront(used, r.count, r.nonblock, r.faultAt);
    CopyLoopStaysWellRead(used, r.count, r.nonblock, r.faultAt);
    var c := CopyLoop(used, r.count, r.nonblock, r.faultAt);
    FinishKeepsPayloads(used, c.used, c.recycled);
    Finished(used, c.recycled);
  }

  lemma {:induction false} ReadKeeps(h: History, n: nat, r: ReadCall)
    requires Inv(h, n)
    ensures Inv(Step(h, Read(r)), n)
  {
    var used, o := h.s.used, FopsRead(h.s, r);
    var f := Finish(used, o.recycled);
    NilUnit(h.done);
    NilUnit(h.delivered);
    if o.s != h.s || o.out != [] {
      ReadAccounts(used, r);
      Splits(h.done, used);
      Splits(h.done, f + o.s.used);
      Splits(h.done, f);
      NilUnit(Queue(h.done));
      Assoc(h.done, f, o.s.used);
      Assoc(Taken(h.done), Taken(used), o.out);
    }
  }

  /** Every session keeps the invariant: the payloads received are those that have left the
      used list followed by those on it, the bytes delivered are the taken prefixes of these
      in order, and only as many payloads were cut short as buffers were stolen. */
  lemma {:induction false} SessionIntegrity(n: nat, es: seq<Event>)
    requires Sane(es)
    ensures Inv(Run(n, es), n)
  {
    if es == [] {
      var h := Run(n, es);
      assert h.done + h.s.used == [];
    } else {
      var before := es[..|es| - 1];
      SessionIntegrity(n, before);
      var h := Run(n, before);
      match es[|es| - 1]
      case Usb(p) => UsbKeeps(h, n, p);
      case Read(r) => ReadKeeps(h, n, r);
    }
  }

  /** Byte conservation. */
  lemma {:induction false} SessionConservation(n: nat, es: seq<Event>)
    requires Sane(es)
    ensures var h := Run(n, es);
            h.s.bytesReceived == |h.delivered| + h.dropped + |Queue(h.s.used)|
  {
    SessionIntegrity(n, es);
    var h := Run(n, es);
    SizesAdd(h.done + h.s.used);
    Splits(h.done, h.s.used);
  }

  /** A session without overruns loses nothing and reorders nothing. */
  lemma {:induction false} SessionWithoutOverrun(n: nat, es: seq<Event>)
    requires Sane(es) && Run(n, es).s.overrun == 0
    ensures var h := Run(n, es);
            Concat(h.received) == h.delivered + Queue(h.s.used)
  {
    SessionIntegrity(n, es);
    var h := Run(n, es);
    NothingMissing(h.done, h.s.used);
  }

  /** How many polls found the codec not ready, and how many took a buffer away from the used list. */
  function NotReadyPolls(es: seq<Event>): nat {
    if es == [] then 0
    else
      var e := es[|es| - 1];
      NotReadyPolls(es[..|es| - 1])
      + (if e.Usb? && e.poll.status.Some? && !e.poll.status.value.ready then 1 else 0)
  }

  function StealsIn(n: nat, es: seq<Event>): nat
    requires Sane(es)
  {
    if es == [] then 0
    else
      var before, e := es[..|es| - 1], es[|es| - 1];
      StealsIn(n, before) + (if e.Usb? && Steals(Run(n, before).s, e.poll) then 1 else 0)
  }

  /** The statistics mean what they say: overruns are steals, as long as there is a buffer at all. */
  lemma {:induction false} CountersAre(n: nat, es: seq<Event>)
    requires Sane(es) && n >= 1
    ensures var s := Run(n, es).s; s.overrun == StealsIn(n, es) && s.notReady == NotReadyPolls(es)
  {
    if es != [] {
      var before, e := es[..|es| - 1], es[|es| - 1];
      CountersAre(n, before);
      SessionIntegrity(n, before);
      CounterStep(Run(n, before).s, e);
    }
  }

  lemma CounterStep(s: State, e: Event)
    requires e.Usb? ==> e.poll.Sane() && HasBuffer(s)
    ensures var t := if e.Usb? then UsbRead(s, e.poll).0 else FopsRead(s, e.call).s;
            && t.overrun == s.overrun + (if e.Usb? && Steals(s, e.poll) then 1 else 0)
            && t.notReady == s.notReady
                             + (if e.Usb? && e.poll.status.Some? && !e.poll.status.value.ready then 1 else 0)
  {
  }

  /** With at least one buffer a transfer never finds the pool empty, and it steals exactly
      when every buffer is waiting to be read. */
  lemma {:induction false} StealsIffAllUsed(n: nat, es: seq<Event>, p: Poll)
    requires Sane(es) && n >= 1 && p.Sane() && p.Transfers()
    ensures var h := Run(n, es);
            && HasBuffer(h.s)
            && (Step(h, Usb(p)).s.overrun > h.s.overrun <==> |h.s.used| == n)
  {
    SessionIntegrity(n, es);
  }
}
