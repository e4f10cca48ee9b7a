/** What happens when a steal or a flush breaks into the reader's window, and when the worker finds
    no buffer at all. */
module StreamGuard {
  import opened Bytes
  import opened DwordFixup
  import opened StreamSteps
  import opened StreamStepsProof
  import opened StreamStepsRuns

  /** What may never fail, wherever the pipeline stands: every buffer in exactly one place, every
      byte accounted for. */
  ghost predicate Good(s: State) {
    Parted(s) && Accounts(Abs(s))
  }

  /** Good now and after whatever the worker and the reader do next within the guard. */
  ghost predicate StaysGood(s: State) {
    forall ls | Runs(s, ls) :: Good(After(s, ls))
  }

  lemma InvStaysGood(s: State)
    requires Inv(s) && Accounts(Abs(s))
    ensures StaysGood(s)
  {
    forall ls | Runs(s, ls) ensures Good(After(s, ls)) {
      RunRefinesFifo(s, ls);
    }
  }

  /** The worker has got hold of the buffer the reader relies on. */
  ghost predicate Clash(s: State) {
    Parted(s) && Intact(s) && s.p == PHold(s.r.id)
  }

  /** The buffer the reader relies on is as the reader last saw it. */
  ghost predicate Intact(s: State) {
    && s.r.Relies() && s.r.id < |s.bufs|
    && s.bufs[s.r.id].pos <= s.bufs[s.r.id].actual <= |s.bufs[s.r.id].data|
    && (s.r.RCopied? ==> s.r.count > 0 && s.r.bite == BiteOf(s.bufs[s.r.id], s.r.count))
    && (s.r.RFull? ==> s.bufs[s.r.id].pos == s.bufs[s.r.id].actual)
  }

  lemma TwicePlacedIsNotParted(s: State, id: nat)
    requires id in s.free && id in s.p.Hand()
    ensures !Parted(s)
  {
    IdsOnce(|s.bufs|, id);
    assert id in multiset(s.free) && id in multiset(s.p.Hand());
    assert (multiset(s.free) + multiset(s.used) + multiset(s.p.Hand()))[id] >= 2;
  }

  lemma MoveClashes(s: State)
    requires Clash(s) && s.r.RReset?
    ensures !Good(Next(s, Move))
  {
    var t := Next(s, Move);
    assert t.free[|t.free| - 1] == s.r.id;
    TwicePlacedIsNotParted(t, s.r.id);
  }

  lemma HeldIsUnlisted(s: State)
    requires Clash(s)
    ensures s.r.id !in s.used
  {
    PartOf(s, s.r.id);
    assert s.r.id in s.p.Hand();
  }

  lemma QueueIsContents(s: State)
    requires !s.r.RReset?
    ensures Abs(s).queue == Contents(s.bufs, s.used)
  {
  }

  lemma UnlistedAdvance(s: State)
    requires Enabled(s, Advance) && s.r.id !in s.used
    ensures Abs(Next(s, Advance)).queue == Abs(s).queue
  {
    var b := s.bufs[s.r.id];
    ContentsFrame(s.bufs, s.r.id, b.(pos := b.pos + |s.r.bite|), s.used);
    AdvanceState(s);
    QueueIsContents(s);
    QueueIsContents(Next(s, Advance));
  }

  /** Bytes delivered out of a buffer that is on no list any more were counted as dropped. */
  lemma AdvanceMiscounts(s: State)
    requires Clash(s) && s.r.RCopied? && s.r.bite != [] && Accounts(Abs(s))
    ensures !Good(Next(s, Advance))
  {
    HeldIsUnlisted(s);
    UnlistedAdvance(s);
    AdvanceState(s);
  }

  lemma EmptyBiteFills(s: State)
    requires Clash(s) && s.r.RCopied? && s.r.bite == []
    ensures Clash(Next(s, Advance)) && Next(s, Advance).r.RFull?
  {
    assert s.bufs[s.r.id].Rest() == [];
  }

  lemma CopyClashes(s: State)
    requires Clash(s) && s.r.RPinned?
    ensures Clash(Next(s, Copy)) && Next(s, Copy).r.RCopied? && Abs(Next(s, Copy)) == Abs(s)
  {
  }

  lemma ResetClashes(s: State)
    requires Clash(s) && s.r.RFull?
    ensures Clash(Next(s, Reset)) && Next(s, Reset).r.RReset?
  {
  }

  /** Steps of a reader that goes on with the buffer it has. */
  ghost predicate GoesOn(ls: seq<Label>) {
    forall i | 0 <= i < |ls| :: ls[i].Copy? || ls[i].Advance? || ls[i].Reset? || ls[i].Move?
  }

  lemma FatalReset(s: State) returns (ls: seq<Label>)
    requires Clash(s) && s.r.RReset?
    ensures Runs(s, ls) && GoesOn(ls) && !Good(After(s, ls))
  {
    MoveClashes(s);
    Chain(s, Move, []);
    ls := [Move] + [];
  }

  lemma FatalFull(s: State) returns (ls: seq<Label>)
    requires Clash(s) && s.r.RFull?
    ensures Runs(s, ls) && GoesOn(ls) && !Good(After(s, ls))
  {
    ResetClashes(s);
    ls := FatalReset(Next(s, Reset));
    Chain(s, Reset, ls);
    ls := [Reset] + ls;
  }

  lemma FatalCopied(s: State) returns (ls: seq<Label>)
    requires Clash(s) && s.r.RCopied? && Accounts(Abs(s))
    ensures Runs(s, ls) && GoesOn(ls) && !Good(After(s, ls))
  {
    ls := [];
    if s.r.bite == [] {
      EmptyBiteFills(s);
      ls := FatalFull(Next(s, Advance));
    } else {
      AdvanceMiscounts(s);
    }
    Chain(s, Advance, ls);
    ls := [Advance] + ls;
  }

  lemma FatalPinned(s: State) returns (ls: seq<Label>)
    requires Clash(s) && s.r.RPinned? && Accounts(Abs(s))
    ensures Runs(s, ls) && GoesOn(ls) && !Good(After(s, ls))
  {
    CopyClashes(s);
    ls := FatalCopied(Next(s, Copy));
    Chain(s, Copy, ls);
    ls := [Copy] + ls;
  }

  /** From there the reader's own next steps do the damage, if it is not done already. */
  lemma ClashIsFatal(s: State) returns (ls: seq<Label>)
    requires Clash(s)
    ensures Runs(s, ls) && GoesOn(ls) && !Good(After(s, ls))
  {
    if !Accounts(Abs(s)) {
      ls := [];
    } else if s.r.RPinned? {
      ls := FatalPinned(s);
    } else if s.r.RCopied? {
      ls := FatalCopied(s);
    } else if s.r.RFull? {
      ls := FatalFull(s);
    } else {
      ls := FatalReset(s);
    }
  }

  /** A steal keeps every continuation within the guard good exactly when the reader is not going to use the buffer
      it peeked at; the reader's place says so before the step. */
  lemma StealIsSafeIff(s: State)
    requires Inv(s) && Accounts(Abs(s)) && Enabled(s, Steal)
    ensures StaysGood(Next(s, Steal)) <==> !s.r.Relies()
  {
    var t := Next(s, Steal);
    if s.r.Relies() {
      StealParts(s);
      var ls := ClashIsFatal(t);
      assert Runs(t, ls);
    } else {
      StealKeeps(s);
      ApplyAccounts(Abs(s), OpOf(s, Steal));
      InvStaysGood(t);
    }
  }

  /** The worker takes free buffers and gives them back, the transfers failing, until it holds the
      one the reader relies on. */
  lemma {:induction false} TakesItInTheEnd(s: State, i: nat) returns (ls: seq<Label>)
    requires s.p.PIdle? && Parted(s) && Intact(s) && i < |s.free| && s.free[i] == s.r.id
    ensures Runs(s, ls) && Clash(After(s, ls))
    decreases i
  {
    if i == 0 {
      HeadOff(s.free);
      Chain(s, TakeFree, []);
      ls := [TakeFree] + [];
    } else {
      PartOf(s, s.free[0]);
      var u := s.(free := s.free[1..] + [s.free[0]]);
      HeadOff(s.free);
      ls := TakesItInTheEnd(u, i - 1);
      ls := BackAgain(s, u, ls);
    }
  }

  lemma BackAgain(s: State, u: State, rest: seq<Label>) returns (ls: seq<Label>)
    requires s.p.PIdle? && s.free != [] && s.free[0] < |s.bufs| && u == s.(free := s.free[1..] + [s.free[0]])
    requires Runs(u, rest)
    ensures Runs(s, ls) && After(s, ls) == After(u, rest)
  {
    var id := s.free[0];
    var t1 := s.(free := s.free[1..], p := PHold(id));
    var t2 := t1.(p := PAbort(id));
    var b := s.bufs[id];
    assert Overwrite(b.data, []) == b.data;
    assert Next(s, TakeFree) == t1 && Next(t1, FillFails([])) == t2 && Next(t2, GiveBack) == u;
    Chain(t2, GiveBack, rest);
    ls := [GiveBack] + rest;
    Chain(t1, FillFails([]), ls);
    ls := [FillFails([])] + ls;
    Chain(s, TakeFree, ls);
    ls := [TakeFree] + ls;
  }

  /** After a flush the buffer is on the free list, and the reader has not noticed. */
  lemma FlushFrees(s: State)
    requires Inv(s) && Enabled(s, Flush) && s.r.Relies()
    ensures var t := Next(s, Flush);
            && Parted(t) && Intact(t) && t.used == [] && t.p.PIdle? && t.r == s.r
            && |s.free| < |t.free| && t.free[|s.free|] == t.r.id
  {
    FlushParts(s);
  }

  /** A flush is safe in the same case: otherwise the worker can take the buffer from the free list
      while the reader still relies on it. */
  lemma FlushIsSafeIff(s: State)
    requires Inv(s) && Accounts(Abs(s)) && Enabled(s, Flush)
    ensures StaysGood(Next(s, Flush)) <==> !s.r.Relies()
  {
    var t := Next(s, Flush);
    if s.r.Relies() {
      FlushFrees(s);
      var ls := TakesItInTheEnd(t, |s.free|);
      var more := ClashIsFatal(After(t, ls));
      RunsJoin(t, ls, more);
      assert Runs(t, ls + more);
    } else {
      FlushKeeps(s);
      ApplyAccounts(Abs(s), OpOf(s, Flush));
      InvStaysGood(t);
    }
  }

  lemma {:induction false} RunsJoin(s: State, a: seq<Label>, b: seq<Label>)
    requires Runs(s, a) && Runs(After(s, a), b)
    ensures Runs(s, a + b) && After(s, a + b) == After(After(s, a), b)
    decreases |a|
  {
    if a == [] {
      NilUnit(b);
    } else {
      CutLeft(a, b, 1);
      RunsJoin(Next(s, a[0]), a[1..], b);
    }
  }

  // ---------------------------------------------------------------- both happen

  /** One buffer, and a payload of one packet word. */
  const NEW := State([Buf([0, 0, 0, 0], 0, 0)], [0], [], PIdle, RIdle, [], [], 0)
  const FILLED := State([Buf([4, 3, 2, 1], 4, 0)], [], [0], PIdle, RIdle, [4, 3, 2, 1], [], 0)

  lemma NewIsFresh()
    ensures Fresh(NEW)
  {
    assert Ids(1) == [0];
  }

  const RAW: seq<byte> := [1, 2, 3, 4]
  const HELD := NEW.(free := [], p := PHold(0))
  const ARRIVED := HELD.(bufs := [Buf(RAW, 0, 0)], p := PSwap(0, RAW, 0))

  /** Steps of a `usb_read` that has its buffer and whose transfer succeeds. */
  ghost predicate Fills(ls: seq<Label>) {
    forall i | 0 <= i < |ls| :: ls[i].Fill? || ls[i].SwapGroup? || ls[i].SetSizes? || ls[i].Publish?
  }

  /** The payload is turned round and published. */
  lemma TurnsOne(rest: seq<Label>) returns (ls: seq<Label>)
    requires Runs(FILLED, rest)
    ensures Runs(ARRIVED, ls) && After(ARRIVED, ls) == After(FILLED, rest) && (Fills(rest) ==> Fills(ls))
  {
    var s3 := ARRIVED.(bufs := [Buf([4, 3, 2, 1], 0, 0)], p := PSwap(0, RAW, 4));
    var s4 := s3.(bufs := [Buf([4, 3, 2, 1], 4, 0)], p := PSized(0, RAW));
    assert SwapAt(RAW, 0) == [4, 3, 2, 1] by {
      assert RAW[..0] == [] && RAW[4..] == [];
    }
    assert Next(ARRIVED, SwapGroup) == s3 && Next(s3, SetSizes) == s4;
    assert Swapped(RAW) == [4, 3, 2, 1] by {
      assert RAW[4..] == [];
    }
    assert Next(s4, Publish) == FILLED;
    Chain(s4, Publish, rest);
    ls := [Publish] + rest;
    Chain(s3, SetSizes, ls);
    ls := [SetSizes] + ls;
    Chain(ARRIVED, SwapGroup, ls);
    ls := [SwapGroup] + ls;
  }

  lemma FillsOne(rest: seq<Label>) returns (ls: seq<Label>)
    requires Runs(FILLED, rest)
    ensures Runs(HELD, ls) && After(HELD, ls) == After(FILLED, rest) && (Fills(rest) ==> Fills(ls))
  {
    assert Overwrite([0, 0, 0, 0], RAW) == RAW;
    assert Next(HELD, Fill(RAW)) == ARRIVED;
    ls := TurnsOne(rest);
    Chain(HELD, Fill(RAW), ls);
    ls := [Fill(RAW)] + ls;
  }

  /** The worker publishes the payload. */
  lemma PublishesOne(rest: seq<Label>) returns (ls: seq<Label>)
    requires Runs(FILLED, rest)
    ensures Runs(NEW, ls) && After(NEW, ls) == After(FILLED, rest)
  {
    assert Next(NEW, TakeFree) == HELD;
    ls := FillsOne(rest);
    Chain(NEW, TakeFree, ls);
    ls := [TakeFree] + ls;
  }

  /** The reader peeks at it, wanting some bytes. */
  lemma PeeksAtOne(rest: seq<Label>) returns (ls: seq<Label>)
    requires Runs(FILLED.(r := RPinned(0, 9)), rest)
    ensures Runs(NEW, ls) && After(NEW, ls) == After(FILLED.(r := RPinned(0, 9)), rest)
  {
    var s1 := FILLED.(r := RPeek(9));
    var s2 := FILLED.(r := RPinned(0, 9));
    assert Next(FILLED, StartRead(9)) == s1 && Next(s1, Peek) == s2;
    Chain(s1, Peek, rest);
    ls := [Peek] + rest;
    Chain(FILLED, StartRead(9), ls);
    ls := PublishesOne([StartRead(9)] + ls);
  }

  /** A run from a fresh pool, within the guard up to a flush, that ends with a buffer in two places
      or bytes unaccounted for. */
  lemma FlushBreaksARun() returns (before: seq<Label>, more: seq<Label>)
    ensures Fresh(NEW) && Runs(NEW, before) && Enabled(After(NEW, before), Flush)
    ensures var t := Next(After(NEW, before), Flush); Runs(t, more) && !Good(After(t, more))
  {
    NewIsFresh();
    var s := FILLED.(r := RPinned(0, 9));
    before := PeeksAtOne([]);
    assert After(NEW, before) == s;
    FreshIsInv(NEW);
    RunRefinesFifo(NEW, before);
    FlushIsSafeIff(s);
    more :| Runs(Next(s, Flush), more) && !Good(After(Next(s, Flush), more));
  }

  /** The same up to a steal. */
  lemma StealBreaksARun() returns (before: seq<Label>, more: seq<Label>)
    ensures Fresh(NEW) && Runs(NEW, before) && Enabled(After(NEW, before), Steal)
    ensures var t := Next(After(NEW, before), Steal); Runs(t, more) && !Good(After(t, more))
  {
    NewIsFresh();
    var s := FILLED.(r := RPinned(0, 9));
    Chain(s, TakeFree, []);
    before := PeeksAtOne([TakeFree] + []);
    var t := s.(p := PSecondLock);
    assert After(NEW, before) == t;
    FreshIsInv(NEW);
    RunRefinesFifo(NEW, before);
    StealIsSafeIff(t);
    more :| Runs(Next(t, Steal), more) && !Good(After(Next(t, Steal), more));
  }

  // ---------------------------------------------------------------- finding nothing at all

  /** When the worker finds the free list empty, every buffer is on the used list. */
  lemma AllUsedWhenNoneFree(s: State)
    requires Inv(s) && s.p.PIdle? && s.free == []
    ensures |s.used| == |s.bufs|
  {
    assert multiset(s.used) == multiset(Ids(|s.bufs|));
    assert |multiset(s.used)| == |multiset(Ids(|s.bufs|))|;
  }

  ghost predicate NoSteal(ls: seq<Label>) {
    forall i | 0 <= i < |ls| :: !ls[i].Steal?
  }

  /** How often the reader recycles a buffer. */
  function Moves(ls: seq<Label>): nat {
    if ls == [] then 0 else (if ls[0].Move? then 1 else 0) + Moves(ls[1..])
  }

  /** While the worker stands between its two lock sections, only the reader's move changes the used
      list. */
  lemma UsedShrinks(s: State, l: Label)
    requires Inv(s) && s.p.PSecondLock? && Enabled(s, l) && !l.Steal?
    ensures Next(s, l).p.PSecondLock?
    ensures |Next(s, l).used| + (if l.Move? then 1 else 0) == |s.used|
  {
    if l.Move? {
      MoveMoves(s);
    }
  }

  lemma {:induction false} WorkerWaits(s: State, ls: seq<Label>)
    requires Inv(s) && s.p.PSecondLock? && Runs(s, ls) && NoSteal(ls)
    ensures After(s, ls).p.PSecondLock? && |After(s, ls).used| + Moves(ls) == |s.used|
    decreases |ls|
  {
    if ls != [] {
      UsedShrinks(s, ls[0]);
      StepKeeps(s, ls[0]);
      WorkerWaits(Next(s, ls[0]), ls[1..]);
    }
  }

  /** The worker found no free buffer. Whatever the reader does before the second lock section, that
      section finds nothing, and the call returns NULL, exactly when the reader has recycled every
      buffer of the pool in between. */
  lemma NullIffAllRecycled(s: State, ls: seq<Label>)
    requires Inv(s) && s.p.PIdle? && s.free == [] && Runs(Next(s, TakeFree), ls) && NoSteal(ls)
    ensures var t := After(Next(s, TakeFree), ls);
            && t.p.PSecondLock? && Moves(ls) <= |s.bufs|
            && (Next(t, Steal).p.PIdle? <==> Moves(ls) == |s.bufs|)
  {
    AllUsedWhenNoneFree(s);
    StepKeeps(s, TakeFree);
    WorkerWaits(Next(s, TakeFree), ls);
  }

  /** And that happens: the reader empties the one buffer there is. */
  lemma NullWithBuffersInThePool() returns (ls: seq<Label>)
    ensures Fresh(NEW) && Runs(NEW, ls)
    ensures After(NEW, ls).p == PSecondLock && After(NEW, ls).used == [] && After(NEW, ls).free == [0]
    ensures After(NEW, ls).delivered == [4, 3, 2, 1]
  {
    NewIsFresh();
    var s := FILLED.(r := RPinned(0, 9));
    ls := EmptiesOne();
    Chain(s, TakeFree, ls);
    ls := PeeksAtOne([TakeFree] + ls);
  }

  const EMPTIED := State([Buf([4, 3, 2, 1], 4, 0)], [0], [], PSecondLock, RPeek(5), [4, 3, 2, 1], [4, 3, 2, 1], 0)

  lemma EmptiesOne() returns (ls: seq<Label>)
    ensures var s := FILLED.(r := RPinned(0, 9), p := PSecondLock);
            Runs(s, ls) && After(s, ls) == EMPTIED
  {
    var bite: seq<byte> := [4, 3, 2, 1];
    var s1 := FILLED.(r := RPinned(0, 9), p := PSecondLock);
    var s2 := s1.(r := RCopied(0, 9, bite));
    assert FILLED.bufs[0].Rest() == bite;
    assert Next(s1, Copy) == s2;
    ls := RecyclesOne();
    Chain(s1, Copy, ls);
    ls := [Copy] + ls;
  }

  lemma RecyclesOne() returns (ls: seq<Label>)
    ensures var s := FILLED.(r := RCopied(0, 9, [4, 3, 2, 1]), p := PSecondLock);
            Runs(s, ls) && After(s, ls) == EMPTIED
  {
    var bite: seq<byte> := [4, 3, 2, 1];
    var s2 := FILLED.(r := RCopied(0, 9, bite), p := PSecondLock);
    var s3 := s2.(bufs := [Buf(bite, 4, 4)], delivered := bite, r := RFull(0, 5));
    var s4 := s3.(bufs := [Buf(bite, 4, 0)], r := RReset(0, 5));
    assert Next(s2, Advance) == s3 && Next(s3, Reset) == s4 && Next(s4, Move) == EMPTIED;
    Chain(s4, Move, []);
    ls := [Move] + [];
    Chain(s3, Reset, ls);
    ls := [Reset] + ls;
    Chain(s2, Advance, ls);
    ls := [Advance] + ls;
  }
}
