/** Runs of the interleaved pipeline, and what goes wrong outside the guard. */
module StreamStepsRuns {
  import opened Bytes
  import opened StreamSteps
  import opened StreamStepsProof

  /** n buffers, all free, nobody active. */
  ghost predicate Fresh(s: State) {
    && s.free == Ids(|s.bufs|) && s.used == [] && s.p == PIdle && s.r == RIdle
    && s.received == [] && s.delivered == [] && s.dropped == 0
  }

  /** The labels can be taken one after the other, and none of them breaks into the reader's window. */
  ghost predicate Runs(s: State, ls: seq<Label>)
    decreases |ls|
  {
    ls == [] || (Enabled(s, ls[0]) && Allowed(s, ls[0]) && Runs(Next(s, ls[0]), ls[1..]))
  }

  ghost function After(s: State, ls: seq<Label>): State
    requires Runs(s, ls)
    decreases |ls|
  {
    if ls == [] then s else After(Next(s, ls[0]), ls[1..])
  }

  ghost function Ops(s: State, ls: seq<Label>): seq<Op>
    requires Runs(s, ls)
    decreases |ls|
  {
    if ls == [] then [] else [OpOf(s, ls[0])] + Ops(Next(s, ls[0]), ls[1..])
  }

  function ApplyAll(f: Fifo, ops: seq<Op>): Fifo
    decreases |ops|
  {
    if ops == [] then f else ApplyAll(Apply(f, ops[0]), ops[1..])
  }

  /** Nothing is lost unnoticed; and nothing is reordered as long as nothing was dropped. */
  ghost predicate Accounts(f: Fifo) {
    && |f.received| == |f.delivered| + f.dropped + |f.queue|
    && (f.dropped == 0 ==> f.received == f.delivered + f.queue)
  }

  lemma ApplyAccounts(f: Fifo, op: Op)
    requires Accounts(f)
    ensures Accounts(Apply(f, op))
  {
    match op
    case Stutter =>
    case Enqueue(b) => Assoc(f.delivered, f.queue, b);
    case Dequeue(n) =>
      var k := Min(n, |f.queue|);
      SplitAt(f.queue, k);
      Assoc(f.delivered, f.queue[..k], f.queue[k..]);
    case Drop(n) =>
  }

  /** In every interleaving that respects the window, the buffers behave as one byte FIFO. */
  lemma {:induction false} RunRefinesFifo(s: State, ls: seq<Label>)
    requires Inv(s) && Accounts(Abs(s)) && Runs(s, ls)
    ensures Inv(After(s, ls))
    ensures Abs(After(s, ls)) == ApplyAll(Abs(s), Ops(s, ls))
    ensures Accounts(Abs(After(s, ls)))
    decreases |ls|
  {
    if ls != [] {
      var t := Next(s, ls[0]);
      StepKeeps(s, ls[0]);
      ApplyAccounts(Abs(s), OpOf(s, ls[0]));
      RunRefinesFifo(t, ls[1..]);
      assert Ops(s, ls)[1..] == Ops(t, ls[1..]);
    }
  }

  lemma FreshIsInv(s: State)
    requires Fresh(s)
    ensures Inv(s) && Accounts(Abs(s)) && Abs(s) == Fifo([], [], [], 0)
  {
  }

  /** From a fresh pool: what was delivered and what is queued is what was received, in order,
      if nothing was stolen or flushed; and the byte counts always add up. */
  lemma FromFresh(s: State, ls: seq<Label>)
    requires Fresh(s) && Runs(s, ls)
    ensures var t := After(s, ls);
            && Parted(t)
            && |t.received| == |t.delivered| + t.dropped + |Abs(t).queue|
            && (t.dropped == 0 ==> t.received == t.delivered + Abs(t).queue)
  {
    FreshIsInv(s);
    RunRefinesFifo(s, ls);
  }

  predicate OfWorker(l: Label) {
    !l.StartRead? && !l.Peek? && !l.Copy? && !l.Advance? && !l.Reset? && !l.Move? && !l.EndRead?
  }

  /** While the reader relies on a buffer, no allowed step of the worker takes it from the head of
      the used list or changes anything in it. */
  lemma HeldBufferIsStable(s: State, l: Label)
    requires Inv(s) && s.r.Relies() && Enabled(s, l) && Allowed(s, l) && OfWorker(l)
    ensures var t := Next(s, l);
            t.r == s.r && t.used != [] && t.used[0] == s.r.id && t.bufs[s.r.id] == s.bufs[s.r.id]
  {
    PartOf(s, s.r.id);
  }

  lemma Chain(s: State, l: Label, ls: seq<Label>)
    requires Enabled(s, l) && Allowed(s, l) && Runs(Next(s, l), ls)
    ensures Runs(s, [l] + ls) && After(s, [l] + ls) == After(Next(s, l), ls)
  {
    assert ([l] + ls)[1..] == ls;
  }

  // ---------------------------------------------------------------- one read call

  /** The reader is in its call before every step of the run. */
  ghost predicate OneCall(s: State, ls: seq<Label>)
    requires Runs(s, ls)
    decreases |ls|
  {
    ls == [] || (!s.r.RIdle? && OneCall(Next(s, ls[0]), ls[1..]))
  }

  /** What a call may have done since s, when n bytes were asked for there: it has delivered at most
      n, in front of what was delivered before, and what it still wants makes up the rest. */
  ghost predicate Within(before: seq<byte>, n: nat, t: State) {
    && before <= t.delivered && |t.delivered| <= |before| + n
    && (!t.r.RIdle? ==> |t.delivered| + t.r.count == |before| + n)
  }

  lemma CallStep(before: seq<byte>, n: nat, s: State, l: Label)
    requires Within(before, n, s) && !s.r.RIdle? && Enabled(s, l)
    ensures Within(before, n, Next(s, l))
  {
  }

  lemma {:induction false} CallRun(before: seq<byte>, n: nat, s: State, ls: seq<Label>)
    requires Within(before, n, s) && Runs(s, ls) && OneCall(s, ls)
    ensures Within(before, n, After(s, ls))
    decreases |ls|
  {
    if ls != [] {
      CallStep(before, n, s, ls[0]);
      CallRun(before, n, Next(s, ls[0]), ls[1..]);
    }
  }

  /** A read that asks for n bytes, with any steps of the worker in between: until it returns, the bytes
      delivered and the count still wanted make up n, so at most n are delivered, and once n are
      delivered the reader copies no more. */
  lemma ReadDeliversAtMost(s: State, n: nat, ls: seq<Label>)
    requires Enabled(s, StartRead(n)) && Runs(Next(s, StartRead(n)), ls) && OneCall(Next(s, StartRead(n)), ls)
    ensures var t := After(Next(s, StartRead(n)), ls);
            && s.delivered <= t.delivered && |t.delivered| <= |s.delivered| + n
            && (!t.r.RIdle? ==> |t.delivered| - |s.delivered| + t.r.count == n)
            && (|t.delivered| == |s.delivered| + n ==> !Enabled(t, Copy))
  {
    CallRun(s.delivered, n, Next(s, StartRead(n)), ls);
  }

  /** What it copies is all it wants or all the buffer has left, in every state it can copy in. */
  lemma BiteIsAll(s: State)
    requires Inv(s) && s.r.RCopied?
    ensures var b := s.bufs[s.r.id]; |s.r.bite| == Min(s.r.count, b.actual - b.pos)
    ensures Next(s, Advance).r.RFull? || Next(s, Advance).r.count == 0
  {
  }

  /** The reader's next step on its own. */
  function Onward(s: State): Label {
    match s.r
    case RIdle => EndRead
    case RPeek(count) => if count == 0 then EndRead else Peek
    case RPinned(_, count) => if count == 0 then EndRead else Copy
    case RCopied(_, _, _) => Advance
    case RFull(_, _) => Reset
    case RReset(_, _) => Move
  }

  function Rank(r: Reader): nat {
    match r
    case RIdle => 0
    case RPeek(_) => 6
    case RPinned(_, count) => if count == 0 then 1 else 5
    case RCopied(_, _, _) => 4
    case RFull(_, _) => 3
    case RReset(_, _) => 2
  }

  lemma OnwardIsEnabled(s: State)
    requires Inv(s) && !s.r.RIdle?
    ensures Enabled(s, Onward(s)) && Allowed(s, Onward(s)) && !OfWorker(Onward(s))
  {
    if s.r.RCopied? {
      BiteIsAll(s);
    }
  }

  lemma OnwardGetsOn(s: State)
    requires Inv(s) && !s.r.RIdle? && Enabled(s, Onward(s))
    ensures var t := Next(s, Onward(s));
            |t.used| < |s.used| || (|t.used| == |s.used| && Rank(t.r) < Rank(s.r))
  {
    if s.r.RCopied? {
      BiteIsAll(s);
    } else if s.r.RReset? {
      MoveMoves(s);
    }
  }

  /** What the reader still wants, or its queue still has, whichever is less. */
  function Coming(s: State): nat {
    if s.r.RIdle? then 0 else Min(s.r.count, |Abs(s).queue|)
  }

  lemma OnwardDelivers(s: State)
    requires Inv(s) && !s.r.RIdle? && Enabled(s, Onward(s)) && Allowed(s, Onward(s))
    ensures var t := Next(s, Onward(s)); |t.delivered| + Coming(t) == |s.delivered| + Coming(s)
  {
    StepKeeps(s, Onward(s));
    if s.r.RCopied? {
      AdvanceTakes(s);
    }
  }

  lemma AdvanceTakes(s: State)
    requires Inv(s) && Enabled(s, Advance)
    ensures |s.r.bite| <= s.r.count && |s.r.bite| <= |Abs(s).queue|
  {
    var b := s.bufs[s.r.id];
    BiteSize(b, s.r.bite, s.r.count);
    HeadIsAlone(s);
    HeadReplaced(s.bufs, s.used, b);
  }

  lemma OnwardStep(s: State)
    requires Inv(s) && !s.r.RIdle?
    ensures Enabled(s, Onward(s)) && Allowed(s, Onward(s)) && !OfWorker(Onward(s)) && Inv(Next(s, Onward(s)))
    ensures var t := Next(s, Onward(s));
            && |t.delivered| + Coming(t) == |s.delivered| + Coming(s)
            && (|t.used| < |s.used| || (|t.used| == |s.used| && Rank(t.r) < Rank(s.r)))
  {
    OnwardIsEnabled(s);
    OnwardGetsOn(s);
    OnwardDelivers(s);
    StepKeeps(s, Onward(s));
  }

  ghost predicate ByReader(ls: seq<Label>) {
    forall i | 0 <= i < |ls| :: !OfWorker(ls[i])
  }

  lemma ByReaderMore(l: Label, rest: seq<Label>)
    requires !OfWorker(l) && ByReader(rest)
    ensures ByReader([l] + rest)
  {
  }

  /** A reader left alone returns, and by then it has got all it still wanted or all there is. */
  lemma {:induction false} ReadCompletes(s: State) returns (ls: seq<Label>)
    requires Inv(s)
    ensures Runs(s, ls) && ByReader(ls)
    ensures After(s, ls).r.RIdle? && |After(s, ls).delivered| == |s.delivered| + Coming(s)
    decreases |s.used|, Rank(s.r)
  {
    ls := [];
    if !s.r.RIdle? {
      var l := Onward(s);
      OnwardStep(s);
      var t := Next(s, l);
      var rest := ReadCompletes(t);
      ls := CompletesMore(s, l, t, rest);
    }
  }

  lemma CompletesMore(s: State, l: Label, t: State, rest: seq<Label>) returns (ls: seq<Label>)
    requires Enabled(s, l) && Allowed(s, l) && !OfWorker(l) && t == Next(s, l)
    requires |t.delivered| + Coming(t) == |s.delivered| + Coming(s)
    requires Runs(t, rest) && ByReader(rest)
    requires After(t, rest).r.RIdle? && |After(t, rest).delivered| == |t.delivered| + Coming(t)
    ensures Runs(s, ls) && ByReader(ls)
    ensures After(s, ls).r.RIdle? && |After(s, ls).delivered| == |s.delivered| + Coming(s)
  {
    Chain(s, l, rest);
    ByReaderMore(l, rest);
    ls := [l] + rest;
  }
}
