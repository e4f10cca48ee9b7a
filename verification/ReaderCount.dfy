/**
 Counting readers over any number of file handles. Taking part in a capture is two atomic
 operations, a compare-and-exchange on the handle and a change of the device's count, and the
 thread that moves the count from or to zero then writes the capture state: three steps that
 interleave freely with those of other handles.
 */
module ReaderCount {
  import opened Bytes

  /** How far a handle is. `v4l_reading` is 1 in the phases Incrementing, Starting and Reading. */
  datatype Phase =
    | Unread         // opened, never read or polled
    | Incrementing   // exchanged 0 for 1, count not yet raised
    | Starting       // raised the count to 1, start not yet written
    | Reading
    | Decrementing   // exchanged 1 for 0 in release, count not yet lowered
    | Stopping       // lowered the count to 0, stop not yet written
    | Released

  /** `edges` records the changes of the count between 0 and 1, true for a rise; `writes` the
      writes of the capture state that follow them, true for a start. */
  datatype State = State(phase: map<nat, Phase>, count: int, edges: seq<bool>, writes: seq<bool>)

  const INITIAL := State(map[], 0, [], [])

  datatype Label =
    | Open(h: nat)
    | ExchangeSet(h: nat)     // read or poll: cmpxchg(v4l_reading, 0, 1)
    | Raise(h: nat)           // inc_return
    | WriteStart(h: nat)
    | ExchangeClear(h: nat)   // release: cmpxchg(v4l_reading, 1, 0)
    | Lower(h: nat)           // dec_return
    | WriteStop(h: nat)

  /** A handle is released once, after every read and poll on it has returned. */
  predicate Enabled(s: State, l: Label) {
    if l.Open? then l.h !in s.phase
    else
      l.h in s.phase &&
      match l
      case ExchangeSet(h) => s.phase[h] != Released && !s.phase[h].Decrementing? && !s.phase[h].Stopping?
      case Raise(h) => s.phase[h].Incrementing?
      case WriteStart(h) => s.phase[h].Starting?
      case ExchangeClear(h) => s.phase[h].Unread? || s.phase[h].Reading?
      case Lower(h) => s.phase[h].Decrementing?
      case WriteStop(h) => s.phase[h].Stopping?
  }

  function Next(s: State, l: Label): State
    requires Enabled(s, l)
  {
    match l
    case Open(h) => s.(phase := s.phase[h := Unread])
    case ExchangeSet(h) =>
      if s.phase[h].Unread? then s.(phase := s.phase[h := Incrementing]) else s
    case Raise(h) =>
      if s.count + 1 == 1
      then s.(phase := s.phase[h := Starting], count := s.count + 1, edges := s.edges + [true])
      else s.(phase := s.phase[h := Reading], count := s.count + 1)
    case WriteStart(h) => s.(phase := s.phase[h := Reading], writes := s.writes + [true])
    case ExchangeClear(h) =>
      s.(phase := s.phase[h := if s.phase[h].Reading? then Decrementing else Released])
    case Lower(h) =>
      if s.count - 1 == 0
      then s.(phase := s.phase[h := Stopping], count := s.count - 1, edges := s.edges + [false])
      else s.(phase := s.phase[h := Released], count := s.count - 1)
    case WriteStop(h) => s.(phase := s.phase[h := Released], writes := s.writes + [false])
  }

  ghost predicate Runs(s: State, ls: seq<Label>)
    decreases |ls|
  {
    ls == [] || (Enabled(s, ls[0]) && Runs(Next(s, ls[0]), ls[1..]))
  }

  ghost function After(s: State, ls: seq<Label>): State
    requires Runs(s, ls)
    decreases |ls|
  {
    if ls == [] then s else After(Next(s, ls[0]), ls[1..])
  }

  // ---------------------------------------------------------------- what the count counts

  /** The handles in one of the phases that satisfy p. */
  ghost function Those(phase: map<nat, Phase>, p: Phase -> bool): set<nat> {
    set h | h in phase && p(phase[h])
  }

  lemma OthersStay(phase: map<nat, Phase>, h: nat, q: Phase, p: Phase -> bool)
    ensures Those(phase[h := q], p) - {h} == Those(phase, p) - {h}
    ensures h in Those(phase, p) <==> h in phase && p(phase[h])
    ensures h in Those(phase[h := q], p) <==> p(q)
  {
  }

  lemma WithOrWithout(s: set<nat>, h: nat)
    ensures |s| == |s - {h}| + (if h in s then 1 else 0)
  {
    if h in s {
      assert s == (s - {h}) + {h};
    } else {
      assert s == s - {h};
    }
  }

  /** Opening a handle, or moving it to another phase. */
  lemma Moves(phase: map<nat, Phase>, h: nat, q: Phase, p: Phase -> bool)
    ensures var before := if h in phase && p(phase[h]) then 1 else 0;
            |Those(phase[h := q], p)| == |Those(phase, p)| - before + (if p(q) then 1 else 0)
  {
    OthersStay(phase, h, q, p);
    WithOrWithout(Those(phase, p), h);
    WithOrWithout(Those(phase[h := q], p), h);
  }

  predicate Flagged(p: Phase) {
    p.Incrementing? || p.Starting? || p.Reading?
  }

  predicate Raising(p: Phase) {
    p.Incrementing?
  }

  predicate Lowering(p: Phase) {
    p.Decrementing?
  }

  predicate Incremented(p: Phase) {
    p.Starting? || p.Reading? || p.Decrementing?
  }

  ghost predicate Inv(s: State) {
    && s.count == |Those(s.phase, Incremented)|
    && Alternating(s.edges)
    && (s.count > 0 <==> |s.edges| % 2 == 1)
  }

  lemma StepKeeps(s: State, l: Label)
    requires Inv(s) && Enabled(s, l)
    ensures Inv(Next(s, l))
  {
    var t := Next(s, l);
    Moves(s.phase, l.h, t.phase[l.h], Incremented);
    assert s.phase[l.h := t.phase[l.h]] == t.phase;
  }

  /** The handles that are flagged, but not counted yet, and those counted, but not flagged any more. */
  lemma {:induction false} CountedVersusFlagged(phase: map<nat, Phase>)
    ensures |Those(phase, Incremented)|
            == |Those(phase, Flagged)| - |Those(phase, Raising)| + |Those(phase, Lowering)|
    decreases |phase|
  {
    if phase == map[] {
      assert Those(phase, Incremented) == {} && Those(phase, Flagged) == {};
      assert Those(phase, Raising) == {} && Those(phase, Lowering) == {};
    } else {
      var h :| h in phase;
      var rest := phase - {h};
      assert phase == rest[h := phase[h]];
      CountedVersusFlagged(rest);
      Moves(rest, h, phase[h], Incremented);
      Moves(rest, h, phase[h], Flagged);
      Moves(rest, h, phase[h], Raising);
      Moves(rest, h, phase[h], Lowering);
    }
  }

  lemma {:induction false} RunKeeps(s: State, ls: seq<Label>)
    requires Inv(s) && Runs(s, ls)
    ensures Inv(After(s, ls))
    decreases |ls|
  {
    if ls != [] {
      StepKeeps(s, ls[0]);
      RunKeeps(Next(s, ls[0]), ls[1..]);
    }
  }

  /** In every interleaving, for any number of handles: the count is never negative, it is the
      number of flagged handles corrected by those between their two atomic operations, and its
      moves away from zero and back strictly alternate, starting with a rise. */
  lemma CountIsExact(ls: seq<Label>)
    requires Runs(INITIAL, ls)
    ensures var t := After(INITIAL, ls);
            && t.count >= 0
            && t.count == |Those(t.phase, Flagged)| - |Those(t.phase, Raising)|
                          + |Those(t.phase, Lowering)|
            && Alternating(t.edges) && (t.count > 0 <==> |t.edges| % 2 == 1)
  {
    assert Those(INITIAL.phase, Incremented) == {};
    RunKeeps(INITIAL, ls);
    CountedVersusFlagged(After(INITIAL, ls).phase);
  }

  /** A handle whose release has begun. */
  predicate Leaving(p: Phase) {
    p.Decrementing? || p.Stopping? || p.Released?
  }

  lemma LeavingStep(s: State, l: Label, h: nat)
    requires Enabled(s, l) && h in s.phase && Leaving(s.phase[h])
    ensures h in Next(s, l).phase && Leaving(Next(s, l).phase[h])
  {
  }

  /** A release is for good: whatever follows, the handle takes part in no capture any more. */
  lemma {:induction false} ReleaseIsFinal(s: State, h: nat, ls: seq<Label>)
    requires Enabled(s, ExchangeClear(h)) && Runs(Next(s, ExchangeClear(h)), ls)
    ensures var t := After(Next(s, ExchangeClear(h)), ls); h in t.phase && Leaving(t.phase[h])
  {
    StaysLeaving(Next(s, ExchangeClear(h)), h, ls);
  }

  lemma {:induction false} StaysLeaving(s: State, h: nat, ls: seq<Label>)
    requires h in s.phase && Leaving(s.phase[h]) && Runs(s, ls)
    ensures h in After(s, ls).phase && Leaving(After(s, ls).phase[h])
    decreases |ls|
  {
    if ls != [] {
      LeavingStep(s, ls[0], h);
      StaysLeaving(Next(s, ls[0]), h, ls[1..]);
    }
  }

  // ---------------------------------------------------------------- edges and state writes

  predicate OwesStart(p: Phase) {
    p.Starting?
  }

  predicate OwesStop(p: Phase) {
    p.Stopping?
  }

  ghost function Starts(s: State): nat {
    |Those(s.phase, OwesStart)|
  }

  ghost function Stops(s: State): nat {
    |Those(s.phase, OwesStop)|
  }

  /** The writes done so far are the first of the edges, in their order. */
  predicate InOrder(s: State) {
    s.writes <= s.edges
  }

  /** In order, with at most one start and one stop still to be written; a stop on its own belongs to
      a count that has come back to zero. */
  ghost predicate Ordered(s: State) {
    && Inv(s) && InOrder(s)
    && |s.edges| == |s.writes| + Starts(s) + Stops(s)
    && Starts(s) <= 1 && Stops(s) <= 1
    && (Starts(s) == 0 && Stops(s) == 1 ==> |s.edges| % 2 == 0)
  }

  /** A start is written although an older stop is not yet. */
  ghost predicate Overtakes(s: State, l: Label) {
    l.WriteStart? && Stops(s) > 0
  }

  lemma TwoMembers(s: set<nat>, a: nat, b: nat)
    requires a in s && b in s && a != b
    ensures |s| >= 2
  {
    assert s == (s - {a, b}) + {a, b};
  }

  lemma Member(phase: map<nat, Phase>, h: nat, p: Phase -> bool)
    requires h in phase && p(phase[h])
    ensures |Those(phase, p)| >= 1
  {
    assert h in Those(phase, p);
  }

  /** A handle that has yet to write the start is counted, so no other can bring the count to zero. */
  lemma StarterIsCounted(s: State)
    requires Inv(s) && Starts(s) > 0
    ensures s.count > 0
    ensures forall g | g in s.phase && s.phase[g].Decrementing? :: s.count >= 2
  {
    var h :| h in Those(s.phase, OwesStart);
    Member(s.phase, h, Incremented);
    forall g | g in s.phase && s.phase[g].Decrementing? ensures s.count >= 2 {
      TwoMembers(Those(s.phase, Incremented), h, g);
    }
  }

  /** How a step changes the numbers of owed writes. */
  lemma OwedAfter(s: State, l: Label)
    requires Enabled(s, l)
    ensures var t := Next(s, l);
            && Starts(t) == Starts(s) - (if l.WriteStart? then 1 else 0) + (if l.Raise? && s.count == 0 then 1 else 0)
            && Stops(t) == Stops(s) - (if l.WriteStop? then 1 else 0) + (if l.Lower? && s.count == 1 then 1 else 0)
  {
    var t := Next(s, l);
    Moves(s.phase, l.h, t.phase[l.h], OwesStart);
    Moves(s.phase, l.h, t.phase[l.h], OwesStop);
    assert s.phase[l.h := t.phase[l.h]] == t.phase;
  }

  /** In order, the next write of an edge is a start exactly when an even number has been written. */
  lemma NextWrite(s: State, b: bool)
    requires Inv(s) && InOrder(s) && |s.writes| < |s.edges|
    ensures s.writes + [b] <= s.edges <==> b == (|s.writes| % 2 == 0)
  {
    var n := |s.writes|;
    assert s.edges[..n + 1] == s.edges[..n] + [s.edges[n]];
    assert (s.writes + [b])[n] == b;
  }

  lemma StartInOrderIff(s: State, h: nat)
    requires Ordered(s) && Enabled(s, WriteStart(h))
    ensures InOrder(Next(s, WriteStart(h))) <==> !Overtakes(s, WriteStart(h))
  {
    Member(s.phase, h, OwesStart);
    StarterIsCounted(s);
    NextWrite(s, true);
  }

  lemma StopInOrder(s: State, h: nat)
    requires Ordered(s) && Enabled(s, WriteStop(h))
    ensures InOrder(Next(s, WriteStop(h)))
  {
    Member(s.phase, h, OwesStop);
    if Starts(s) > 0 {
      StarterIsCounted(s);
    }
    NextWrite(s, false);
  }

  /** A step breaks the order exactly when it writes a start past an older stop. */
  lemma StaysInOrderIff(s: State, l: Label)
    requires Ordered(s) && Enabled(s, l)
    ensures InOrder(Next(s, l)) <==> !Overtakes(s, l)
  {
    match l
    case WriteStart(h) => StartInOrderIff(s, h);
    case WriteStop(h) => StopInOrder(s, h);
    case _ =>
  }

  lemma StaysOrdered(s: State, l: Label)
    requires Ordered(s) && Enabled(s, l) && !Overtakes(s, l)
    ensures Ordered(Next(s, l))
  {
    StepKeeps(s, l);
    StaysInOrderIff(s, l);
    OwedAfter(s, l);
    if Starts(s) > 0 {
      StarterIsCounted(s);
    }
  }

  // ---------------------------------------------------------------- every run

  /** No step of the run writes a start past an older stop. */
  ghost predicate NeverOvertakes(s: State, ls: seq<Label>)
    requires Runs(s, ls)
    decreases |ls|
  {
    ls == [] || (!Overtakes(s, ls[0]) && NeverOvertakes(Next(s, ls[0]), ls[1..]))
  }

  /** In every state of the run the writes follow the edges. */
  ghost predicate AlwaysInOrder(s: State, ls: seq<Label>)
    requires Runs(s, ls)
    decreases |ls|
  {
    InOrder(s) && (ls == [] || AlwaysInOrder(Next(s, ls[0]), ls[1..]))
  }

  lemma {:induction false} RunInOrderIff(s: State, ls: seq<Label>)
    requires Ordered(s) && Runs(s, ls)
    ensures AlwaysInOrder(s, ls) <==> NeverOvertakes(s, ls)
    ensures NeverOvertakes(s, ls) ==> Ordered(After(s, ls))
    decreases |ls|
  {
    if ls != [] {
      StaysInOrderIff(s, ls[0]);
      if !Overtakes(s, ls[0]) {
        StaysOrdered(s, ls[0]);
        RunInOrderIff(Next(s, ls[0]), ls[1..]);
      }
    }
  }

  lemma InitialIsOrdered()
    ensures Ordered(INITIAL)
  {
    assert Those(INITIAL.phase, Incremented) == {};
    assert Those(INITIAL.phase, OwesStart) == {} && Those(INITIAL.phase, OwesStop) == {};
  }

  ghost predicate LastIsStart(writes: seq<bool>) {
    writes != [] && writes[|writes| - 1]
  }

  /** In every run, for any number of handles: the capture state is written in the order of the edges
      throughout exactly when no start is written past an older stop. Then, whenever no write is
      owed, the last one was a start if and only if there are readers. */
  lemma WritesFollowEdgesIff(ls: seq<Label>)
    requires Runs(INITIAL, ls)
    ensures AlwaysInOrder(INITIAL, ls) <==> NeverOvertakes(INITIAL, ls)
    ensures var t := After(INITIAL, ls);
            NeverOvertakes(INITIAL, ls) && Starts(t) == 0 && Stops(t) == 0 ==>
              (LastIsStart(t.writes) <==> t.count > 0)
  {
    InitialIsOrdered();
    RunInOrderIff(INITIAL, ls);
  }

  /** A start written past an older stop can always be undone by it: once the stop is written too, a
      reader is counted, nobody owes a write, and the last one was a stop. */
  lemma StartIsLost(s: State, newer: nat, older: nat)
    requires Ordered(s) && Enabled(s, WriteStart(newer)) && Enabled(s, WriteStop(older))
    ensures var u := Next(s, WriteStart(newer));
            && Enabled(u, WriteStop(older))
            && var t := Next(u, WriteStop(older));
               t.count > 0 && Starts(t) == 0 && Stops(t) == 0 && !LastIsStart(t.writes)
  {
    Member(s.phase, newer, OwesStart);
    Member(s.phase, older, OwesStop);
    StarterIsCounted(s);
    OwedAfter(s, WriteStart(newer));
    OwedAfter(Next(s, WriteStart(newer)), WriteStop(older));
  }

  lemma OneMore(s: State, l: Label, rest: seq<Label>)
    requires Enabled(s, l) && Runs(Next(s, l), rest)
    ensures Runs(s, [l] + rest) && After(s, [l] + rest) == After(Next(s, l), rest)
  {
    assert ([l] + rest)[1..] == rest;
  }

  const STOPPING := State(map[0 := Stopping, 1 := Unread], 0, [true, false], [true])
  const LOST := State(map[0 := Released, 1 := Reading], 1, [true, false, true], [true, true, false])

  /** The second handle reads before the stop of the first is written. */
  lemma SecondReader() returns (ls: seq<Label>)
    ensures Runs(STOPPING, ls) && After(STOPPING, ls) == LOST
  {
    var s1 := STOPPING.(phase := map[0 := Stopping, 1 := Incrementing]);
    var s2 := State(map[0 := Stopping, 1 := Starting], 1, [true, false, true], [true]);
    var s3 := State(map[0 := Stopping, 1 := Reading], 1, [true, false, true], [true, true]);
    assert Next(STOPPING, ExchangeSet(1)) == s1 && Next(s1, Raise(1)) == s2;
    assert Next(s2, WriteStart(1)) == s3 && Next(s3, WriteStop(0)) == LOST;
    OneMore(s3, WriteStop(0), []);
    ls := [WriteStop(0)] + [];
    OneMore(s2, WriteStart(1), ls);
    ls := [WriteStart(1)] + ls;
    OneMore(s1, Raise(1), ls);
    ls := [Raise(1)] + ls;
    OneMore(STOPPING, ExchangeSet(1), ls);
    ls := [ExchangeSet(1)] + ls;
  }

  const READING := State(map[0 := Reading], 1, [true], [true])

  /** The first handle, which has been reading, is released. */
  lemma FirstReleased(rest: seq<Label>) returns (ls: seq<Label>)
    requires Runs(STOPPING, rest)
    ensures Runs(READING, ls) && After(READING, ls) == After(STOPPING, rest)
  {
    var s1 := READING.(phase := map[0 := Reading, 1 := Unread]);
    var s2 := READING.(phase := map[0 := Decrementing, 1 := Unread]);
    assert Next(READING, Open(1)) == s1 && Next(s1, ExchangeClear(0)) == s2 && Next(s2, Lower(0)) == STOPPING;
    OneMore(s2, Lower(0), rest);
    ls := [Lower(0)] + rest;
    OneMore(s1, ExchangeClear(0), ls);
    ls := [ExchangeClear(0)] + ls;
    OneMore(READING, Open(1), ls);
    ls := [Open(1)] + ls;
  }

  /** A run from the start in which that happens: in the end a reader is counted, nobody owes a write,
      and the capture is stopped. */
  lemma StartCanBeLost() returns (ls: seq<Label>)
    ensures Runs(INITIAL, ls) && After(INITIAL, ls) == LOST
  {
    var s1 := INITIAL.(phase := map[0 := Unread]);
    var s2 := INITIAL.(phase := map[0 := Incrementing]);
    var s3 := State(map[0 := Starting], 1, [true], []);
    assert Next(INITIAL, Open(0)) == s1 && Next(s1, ExchangeSet(0)) == s2;
    assert Next(s2, Raise(0)) == s3 && Next(s3, WriteStart(0)) == READING;
    ls := SecondReader();
    ls := FirstReleased(ls);
    OneMore(s3, WriteStart(0), ls);
    ls := [WriteStart(0)] + ls;
    OneMore(s2, Raise(0), ls);
    ls := [Raise(0)] + ls;
    OneMore(s1, ExchangeSet(0), ls);
    ls := [ExchangeSet(0)] + ls;
    OneMore(INITIAL, Open(0), ls);
    ls := [Open(0)] + ls;
  }
}
