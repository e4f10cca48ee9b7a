/** Every step of the interleaved pipeline keeps the invariant and is a step of a byte FIFO. */
module StreamStepsProof {
  import opened Bytes
  import opened DwordFixup
  import opened StreamSteps

  lemma {:induction false} IdsOnce(n: nat, x: nat)
    ensures multiset(Ids(n))[x] == if x < n then 1 else 0
  {
    if n > 0 {
      assert Ids(n) == Ids(n - 1) + [n - 1];
      IdsOnce(n - 1, x);
    }
  }

  /** What the partition says about one buffer. */
  lemma PartOf(s: State, id: nat)
    requires Parted(s)
    ensures id in s.free || id in s.used || id in s.p.Hand() ==> id < |s.bufs|
    ensures id in s.used ==> id !in s.free && id !in s.p.Hand()
    ensures id in s.p.Hand() ==> id !in s.free
    ensures multiset(s.used)[id] <= 1
  {
    IdsOnce(|s.bufs|, id);
    assert id in s.free <==> multiset(s.free)[id] > 0;
    assert id in s.used <==> multiset(s.used)[id] > 0;
    assert id in s.p.Hand() <==> multiset(s.p.Hand())[id] > 0;
    assert (multiset(s.free) + multiset(s.used) + multiset(s.p.Hand()))[id] == multiset(Ids(|s.bufs|))[id];
  }

  lemma HeadIsAlone(s: State)
    requires Parted(s) && s.used != []
    ensures s.used[0] !in s.used[1..] && s.used[0] !in s.p.Hand() && s.used[0] !in s.free
  {
    PartOf(s, s.used[0]);
    forall j | 0 < j < |s.used| ensures s.used[j] != s.used[0] {
      CountedOnce(s.used, 0, j);
    }
  }

  // ---------------------------------------------------------------- contents

  lemma {:induction false} ContentsSplit(bufs: seq<Buf>, a: seq<nat>, b: seq<nat>)
    ensures Contents(bufs, a + b) == Contents(bufs, a) + Contents(bufs, b)
  {
    if a == [] {
      NilUnit(b);
    } else {
      assert (a + b)[1..] == a[1..] + b;
      ContentsSplit(bufs, a[1..], b);
      Assoc(if a[0] < |bufs| then bufs[a[0]].Rest() else [], Contents(bufs, a[1..]), Contents(bufs, b));
    }
  }

  lemma {:induction false} ContentsFrame(bufs: seq<Buf>, id: nat, b: Buf, ids: seq<nat>)
    requires id < |bufs| && id !in ids
    ensures Contents(bufs[id := b], ids) == Contents(bufs, ids)
  {
    if ids != [] {
      ContentsFrame(bufs, id, b, ids[1..]);
    }
  }

  lemma ContentsOne(bufs: seq<Buf>, id: nat)
    requires id < |bufs|
    ensures Contents(bufs, [id]) == bufs[id].Rest()
  {
    assert [id][1..] == [];
  }

  // ---------------------------------------------------------------- steps that move a buffer

  lemma TakeFreeKeeps(s: State)
    requires Inv(s) && Enabled(s, TakeFree)
    ensures Inv(Next(s, TakeFree)) && Abs(Next(s, TakeFree)) == Abs(s)
  {
    if s.free != [] {
      assert s.free == [s.free[0]] + s.free[1..];
      PartOf(s, s.free[0]);
    }
  }

  lemma HeadAndTail(bufs: seq<Buf>, used: seq<nat>)
    requires used != []
    ensures Contents(bufs, used) == Contents(bufs, used[..1]) + Contents(bufs, used[1..])
    ensures Contents(bufs, used)[|Contents(bufs, used[..1])|..] == Contents(bufs, used[1..])
    ensures used[0] < |bufs| ==> Contents(bufs, used[..1]) == bufs[used[0]].Rest()
  {
    assert used[..1] == [used[0]] && [used[0]][1..] == [];
  }

  lemma HeadOff(ids: seq<nat>)
    requires ids != []
    ensures multiset(ids) == multiset([ids[0]]) + multiset(ids[1..])
  {
    assert ids == [ids[0]] + ids[1..];
  }

  lemma StealParts(s: State)
    requires Parted(s) && Enabled(s, Steal)
    ensures Parted(Next(s, Steal))
  {
    if s.used != [] {
      HeadOff(s.used);
    }
  }

  lemma StealKeeps(s: State)
    requires Inv(s) && Enabled(s, Steal) && !s.r.Relies()
    ensures Inv(Next(s, Steal)) && Abs(Next(s, Steal)) == Apply(Abs(s), OpOf(s, Steal))
  {
    StealParts(s);
    StealDrops(s);
    if s.used != [] {
      assert UsedOk(s.bufs, s.used[1..]);
    }
  }

  lemma StealQueue(s: State)
    requires Inv(s) && Enabled(s, Steal) && !s.r.Relies() && s.used != []
    ensures var q, n := Abs(s).queue, |Contents(s.bufs, s.used[..1])|;
            n <= |q| && Abs(Next(s, Steal)).queue == q[n..]
  {
    HeadAndTail(s.bufs, s.used);
  }

  lemma StealDrops(s: State)
    requires Inv(s) && Enabled(s, Steal) && !s.r.Relies()
    ensures Abs(Next(s, Steal)) == Apply(Abs(s), OpOf(s, Steal))
  {
    if s.used != [] {
      StealQueue(s);
    } else {
      assert s.used[..0] == [];
    }
  }

  lemma GiveBackKeeps(s: State)
    requires Inv(s) && Enabled(s, GiveBack)
    ensures Inv(Next(s, GiveBack)) && Abs(Next(s, GiveBack)) == Abs(s)
  {
  }

  lemma FlushParts(s: State)
    requires Parted(s) && Enabled(s, Flush)
    ensures Parted(Next(s, Flush))
  {
  }

  lemma FlushKeeps(s: State)
    requires Inv(s) && Enabled(s, Flush) && !s.r.Relies()
    ensures Inv(Next(s, Flush)) && Abs(Next(s, Flush)) == Apply(Abs(s), OpOf(s, Flush))
  {
    FlushParts(s);
  }

  lemma UnreadAppend(s: State, id: nat)
    requires id < |s.bufs| && ReaderOk(s.bufs, s.used, s.r)
    ensures Unread(s, s.used + [id]) == Unread(s, s.used) + s.bufs[id].Rest()
  {
    ContentsOne(s.bufs, id);
    if s.r.RReset? {
      CutLeft(s.used, [id], 1);
      ContentsSplit(s.bufs, s.used[1..], [id]);
    } else {
      ContentsSplit(s.bufs, s.used, [id]);
    }
  }

  lemma UsedOkAppend(s: State, id: nat)
    requires UsedOk(s.bufs, s.used) && ReaderOk(s.bufs, s.used, s.r)
    requires id < |s.bufs| && s.bufs[id].pos <= s.bufs[id].actual <= |s.bufs[id].data|
    ensures UsedOk(s.bufs, s.used + [id]) && ReaderOk(s.bufs, s.used + [id], s.r)
  {
  }

  lemma PublishParts(s: State)
    requires Parted(s) && Enabled(s, Publish)
    ensures Parted(Next(s, Publish))
  {
    assert multiset(s.used + [s.p.id]) == multiset(s.used) + multiset(s.p.Hand());
  }

  lemma PublishQueue(s: State)
    requires Inv(s) && Enabled(s, Publish)
    ensures Abs(Next(s, Publish)) == Apply(Abs(s), OpOf(s, Publish))
  {
    assert s.bufs[s.p.id].Rest() == Swapped(s.p.raw);
    UnreadAppend(s, s.p.id);
  }

  lemma PublishKeeps(s: State)
    requires Inv(s) && Enabled(s, Publish)
    ensures Inv(Next(s, Publish)) && Abs(Next(s, Publish)) == Apply(Abs(s), OpOf(s, Publish))
  {
    UsedOkAppend(s, s.p.id);
    PublishParts(s);
    PublishQueue(s);
  }

  /** The recycled buffer leaves the head of the used list for the end of the free list. */
  lemma MoveMoves(s: State)
    requires Inv(s) && Enabled(s, Move)
    ensures Next(s, Move).used == s.used[1..] && Next(s, Move).free == s.free + [s.r.id]
  {
    HeadIsAlone(s);
    UnlinkRemovesOne(s.free, s.r.id);
  }

  lemma MoveParts(s: State)
    requires Inv(s) && Enabled(s, Move)
    ensures Parted(Next(s, Move))
  {
    MoveMoves(s);
    var rest := s.used[1..];
    assert s.used == [s.r.id] + rest;
    assert multiset(s.free + [s.r.id]) + multiset(rest) == multiset(s.free) + multiset(s.used);
  }

  lemma MoveQueue(s: State)
    requires Inv(s) && Enabled(s, Move)
    ensures Abs(Next(s, Move)) == Abs(s)
  {
    MoveMoves(s);
  }

  lemma MoveRest(s: State)
    requires Inv(s) && Enabled(s, Move)
    ensures var t := Next(s, Move);
            UsedOk(t.bufs, t.used) && ProducerOk(t.bufs, t.p) && ReaderOk(t.bufs, t.used, t.r)
  {
    MoveMoves(s);
  }

  lemma MoveKeeps(s: State)
    requires Inv(s) && Enabled(s, Move)
    ensures Inv(Next(s, Move)) && Abs(Next(s, Move)) == Abs(s)
  {
    MoveParts(s);
    MoveQueue(s);
    MoveRest(s);
  }

  // ---------------------------------------------------------------- steps on the buffer in hand

  /** Whatever the worker does to the buffer in its hand, the used list and the reader do not
      notice. */
  lemma HandIsPrivate(s: State, b: Buf)
    requires Inv(s) && s.p.Hand() != []
    ensures s.p.id < |s.bufs| && s.p.id !in s.used
    ensures UsedOk(s.bufs[s.p.id := b], s.used) && ReaderOk(s.bufs[s.p.id := b], s.used, s.r)
    ensures Abs(s.(bufs := s.bufs[s.p.id := b])) == Abs(s)
  {
    PartOf(s, s.p.id);
    assert s.p.id in s.p.Hand();
    ContentsFrame(s.bufs, s.p.id, b, s.used);
    if s.used != [] {
      ContentsFrame(s.bufs, s.p.id, b, s.used[1..]);
    }
  }

  /** So a step on that buffer is correct as soon as it keeps the worker's own account of it. */
  lemma HandStep(s: State, b: Buf, p: Producer)
    requires Inv(s) && s.p.Hand() != [] && p.Hand() == s.p.Hand()
    requires s.p.id < |s.bufs| && ProducerOk(s.bufs[s.p.id := b], p)
    ensures var t := s.(bufs := s.bufs[s.p.id := b], p := p); Inv(t) && Abs(t) == Abs(s)
  {
    HandIsPrivate(s, b);
  }

  lemma FillKeeps(s: State, raw: seq<byte>)
    requires Inv(s) && Enabled(s, Fill(raw))
    ensures Inv(Next(s, Fill(raw))) && Abs(Next(s, Fill(raw))) == Abs(s)
  {
    var b := s.bufs[s.p.id];
    assert Overwrite(b.data, raw)[..|raw|] == raw;
    assert Swapped(raw[..0]) + raw[0..] == raw;
    HandStep(s, b.(data := Overwrite(b.data, raw)), PSwap(s.p.id, raw, 0));
  }

  lemma FillFailsKeeps(s: State, junk: seq<byte>)
    requires Inv(s) && Enabled(s, FillFails(junk))
    ensures Inv(Next(s, FillFails(junk))) && Abs(Next(s, FillFails(junk))) == Abs(s)
  {
    var b := s.bufs[s.p.id];
    HandStep(s, b.(data := Overwrite(b.data, junk)), PAbort(s.p.id));
  }

  lemma SwapAtParts(data: seq<byte>, i: nat, n: nat)
    requires i + 4 <= n <= |data|
    ensures SwapAt(data, i)[..n] == data[..i] + [data[i + 3], data[i + 2], data[i + 1], data[i]] + data[i + 4..n]
  {
  }

  /** Where the bytes of a front part and a rest are found. */
  lemma FrontAndRest(data: seq<byte>, front: seq<byte>, rest: seq<byte>, n: nat)
    requires n <= |data| && data[..n] == front + rest
    ensures |front| <= n && data[..|front|] == front
    ensures forall j | 0 <= j < |rest| :: data[|front| + j] == rest[j]
  {
    assert n == |front| + |rest|;
    assert data[..|front|] == data[..n][..|front|];
    forall j | 0 <= j < |rest| ensures data[|front| + j] == rest[j] {
      assert data[..n][|front| + j] == rest[j];
    }
  }

  /** The four bytes turned round, and those behind them. */
  lemma GroupAndRest(data: seq<byte>, raw: seq<byte>, i: nat)
    requires i + 4 <= |raw| <= |data| && forall j | 0 <= j < |raw[i..]| :: data[i + j] == raw[i..][j]
    ensures data[i] == raw[i] && data[i + 1] == raw[i + 1] && data[i + 2] == raw[i + 2] && data[i + 3] == raw[i + 3]
    ensures data[i + 4..|raw|] == raw[i + 4..]
  {
    assert forall k | i <= k < |raw| :: data[k] == raw[i..][k - i] == raw[k];
  }

  lemma SwapAtExtends(data: seq<byte>, raw: seq<byte>, i: nat)
    requires i % 4 == 0 && |raw| % 4 == 0 && i + 4 <= |raw| <= |data|
    requires data[..|raw|] == Swapped(raw[..i]) + raw[i..]
    ensures SwapAt(data, i)[..|raw|] == Swapped(raw[..i + 4]) + raw[i + 4..]
  {
    SwappedOneMore(raw, i);
    FrontAndRest(data, Swapped(raw[..i]), raw[i..], |raw|);
    GroupAndRest(data, raw, i);
    SwapAtParts(data, i, |raw|);
  }

  lemma SwapGroupKeeps(s: State)
    requires Inv(s) && Enabled(s, SwapGroup)
    ensures Inv(Next(s, SwapGroup)) && Abs(Next(s, SwapGroup)) == Abs(s)
  {
    var b := s.bufs[s.p.id];
    SwapAtExtends(b.data, s.p.raw, s.p.i);
    HandStep(s, b.(data := SwapAt(b.data, s.p.i)), s.p.(i := s.p.i + 4));
  }

  lemma SetSizesKeeps(s: State)
    requires Inv(s) && Enabled(s, SetSizes)
    ensures Inv(Next(s, SetSizes)) && Abs(Next(s, SetSizes)) == Abs(s)
  {
    assert s.p.raw[..s.p.i] == s.p.raw && s.p.raw[s.p.i..] == [];
    NilUnit(Swapped(s.p.raw));
    HandStep(s, s.bufs[s.p.id].(actual := |s.p.raw|, pos := 0), PSized(s.p.id, s.p.raw));
  }

  // ---------------------------------------------------------------- steps of the reader

  /** Steps that change nothing but where the reader stands. */
  lemma ReaderMoves(s: State, r: Reader)
    requires Inv(s) && ReaderOk(s.bufs, s.used, r) && (r.RReset? <==> s.r.RReset?)
    ensures Inv(s.(r := r)) && Abs(s.(r := r)) == Abs(s)
  {
  }

  lemma StartPeekCopyEndKeep(s: State, l: Label)
    requires Inv(s) && Enabled(s, l) && (l.StartRead? || l.Peek? || l.Copy? || l.EndRead?)
    ensures Inv(Next(s, l)) && Abs(Next(s, l)) == Abs(s)
  {
    var r := Next(s, l).r;
    assert Next(s, l) == s.(r := r);
    assert ReaderOk(s.bufs, s.used, r);
    ReaderMoves(s, r);
  }

  /** The head the reader relies on changes only in its read position. */
  lemma HeadParts(s: State, b: Buf)
    requires Inv(s) && s.r.Relies() && b.pos <= b.actual <= |b.data|
    ensures UsedOk(s.bufs[s.r.id := b], s.used) && ProducerOk(s.bufs[s.r.id := b], s.p)
  {
    HeadIsAlone(s);
  }

  lemma BiteSize(b: Buf, bite: seq<byte>, count: nat)
    requires b.pos <= b.actual <= |b.data| && bite == BiteOf(b, count)
    ensures b.pos + |bite| <= b.actual
  {
  }

  lemma AdvanceParts(s: State)
    requires Inv(s) && Enabled(s, Advance)
    ensures Inv(Next(s, Advance))
  {
    var b := s.bufs[s.r.id];
    BiteSize(b, s.r.bite, s.r.count);
    HeadParts(s, b.(pos := b.pos + |s.r.bite|));
  }

  lemma BiteOfBuffer(b: Buf, bite: seq<byte>, count: nat)
    requires b.pos <= b.actual <= |b.data| && bite == BiteOf(b, count)
    ensures b.pos + |bite| <= b.actual && b.Rest() == bite + b.(pos := b.pos + |bite|).Rest()
  {
  }

  lemma HeadReplaced(bufs: seq<Buf>, ids: seq<nat>, c: Buf)
    requires ids != [] && ids[0] < |bufs| && ids[0] !in ids[1..]
    ensures Contents(bufs, ids) == bufs[ids[0]].Rest() + Contents(bufs, ids[1..])
    ensures Contents(bufs[ids[0] := c], ids) == c.Rest() + Contents(bufs, ids[1..])
  {
    ContentsFrame(bufs, ids[0], c, ids[1..]);
  }

  lemma FrontGlue(q: seq<byte>, after: seq<byte>, whole: seq<byte>, bite: seq<byte>, rest: seq<byte>, tail: seq<byte>)
    requires q == whole + tail && whole == bite + rest && after == rest + tail
    ensures q == bite + after
  {
    Assoc(bite, rest, tail);
  }

  /** Moving the read position of the head past a bite of it. */
  lemma BiteTaken(bufs: seq<Buf>, ids: seq<nat>, bite: seq<byte>, c: Buf)
    requires ids != [] && ids[0] < |bufs| && ids[0] !in ids[1..]
    requires bufs[ids[0]].Rest() == bite + c.Rest()
    ensures Contents(bufs, ids) == bite + Contents(bufs[ids[0] := c], ids)
  {
    HeadReplaced(bufs, ids, c);
    FrontGlue(Contents(bufs, ids), Contents(bufs[ids[0] := c], ids), bufs[ids[0]].Rest(), bite, c.Rest(),
              Contents(bufs, ids[1..]));
  }

  lemma AdvanceContents(bufs: seq<Buf>, used: seq<nat>, b: Buf, c: Buf, bite: seq<byte>, count: nat)
    requires used != [] && used[0] < |bufs| && used[0] !in used[1..] && bufs[used[0]] == b
    requires b.pos <= b.actual <= |b.data| && bite == BiteOf(b, count) && c == b.(pos := b.pos + |bite|)
    ensures Contents(bufs, used) == bite + Contents(bufs[used[0] := c], used)
  {
    BiteOfBuffer(b, bite, count);
    BiteTaken(bufs, used, bite, c);
  }

  /** Taking the front off a queue. */
  lemma Dequeued(f: Fifo, bite: seq<byte>, after: seq<byte>)
    requires f.queue == bite + after
    ensures Apply(f, Dequeue(|bite|)) == f.(queue := after, delivered := f.delivered + bite)
  {
    assert (bite + after)[..|bite|] == bite && (bite + after)[|bite|..] == after;
  }

  lemma AdvanceState(s: State)
    requires Enabled(s, Advance)
    ensures var t, b := Next(s, Advance), s.bufs[s.r.id];
            && t.bufs == s.bufs[s.r.id := b.(pos := b.pos + |s.r.bite|)] && t.used == s.used && !t.r.RReset?
            && t.received == s.received && t.delivered == s.delivered + s.r.bite && t.dropped == s.dropped
  {
  }

  lemma AdvanceAbs(s: State, b: Buf, c: Buf)
    requires Enabled(s, Advance) && b == s.bufs[s.r.id] && c == b.(pos := b.pos + |s.r.bite|)
    ensures Abs(s).queue == Contents(s.bufs, s.used)
    ensures Abs(Next(s, Advance)) == Abs(s).(queue := Contents(s.bufs[s.r.id := c], s.used),
                                             delivered := s.delivered + s.r.bite)
  {
    AdvanceState(s);
  }

  lemma AdvanceQueue(s: State, b: Buf, c: Buf)
    requires Enabled(s, Advance) && b == s.bufs[s.r.id] && c == b.(pos := b.pos + |s.r.bite|)
    requires Contents(s.bufs, s.used) == s.r.bite + Contents(s.bufs[s.r.id := c], s.used)
    ensures Abs(Next(s, Advance)) == Apply(Abs(s), OpOf(s, Advance))
  {
    AdvanceAbs(s, b, c);
    Dequeued(Abs(s), s.r.bite, Contents(s.bufs[s.r.id := c], s.used));
  }

  lemma AdvanceKeeps(s: State)
    requires Inv(s) && Enabled(s, Advance)
    ensures Inv(Next(s, Advance)) && Abs(Next(s, Advance)) == Apply(Abs(s), OpOf(s, Advance))
  {
    AdvanceParts(s);
    HeadIsAlone(s);
    var b := s.bufs[s.r.id];
    var c := b.(pos := b.pos + |s.r.bite|);
    AdvanceContents(s.bufs, s.used, b, c, s.r.bite, s.r.count);
    AdvanceQueue(s, b, c);
  }

  lemma ResetQueue(s: State)
    requires Inv(s) && Enabled(s, Reset)
    ensures Abs(Next(s, Reset)) == Abs(s)
  {
    var b := s.bufs[s.r.id];
    HeadIsAlone(s);
    HeadReplaced(s.bufs, s.used, b.(pos := 0));
    ContentsFrame(s.bufs, s.r.id, b.(pos := 0), s.used[1..]);
    assert b.Rest() == [];
    NilUnit(Contents(s.bufs, s.used[1..]));
  }

  lemma ResetKeeps(s: State)
    requires Inv(s) && Enabled(s, Reset)
    ensures Inv(Next(s, Reset)) && Abs(Next(s, Reset)) == Abs(s)
  {
    HeadParts(s, s.bufs[s.r.id].(pos := 0));
    ResetQueue(s);
  }

  // ---------------------------------------------------------------- any step, any run

  lemma StepKeeps(s: State, l: Label)
    requires Inv(s) && Enabled(s, l) && Allowed(s, l)
    ensures Inv(Next(s, l)) && Abs(Next(s, l)) == Apply(Abs(s), OpOf(s, l))
  {
    match l
    case TakeFree => TakeFreeKeeps(s);
    case Steal => StealKeeps(s);
    case Fill(raw) => FillKeeps(s, raw);
    case FillFails(junk) => FillFailsKeeps(s, junk);
    case GiveBack => GiveBackKeeps(s);
    case SwapGroup => SwapGroupKeeps(s);
    case SetSizes => SetSizesKeeps(s);
    case Publish => PublishKeeps(s);
    case Flush => FlushKeeps(s);
    case Advance => AdvanceKeeps(s);
    case Reset => ResetKeeps(s);
    case Move => MoveKeeps(s);
    case _ => StartPeekCopyEndKeep(s, l);
  }
}
