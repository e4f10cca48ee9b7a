/**
 The whole driver: file handles, worker thread and buffers together. The handles' writes of the
 capture state are what the worker reads; the worker polls the codec only in its capture loop and
 flushes the used list at the start and at the end of a capture; a handle takes part in a capture
 before it reads. One handle at a time is inside the copy loop.
 */
module Whole {
  import opened Bytes
  import R = ReaderCount
  import C = Session
  import S = StreamSteps
  import P = StreamStepsProof
  import Q = StreamStepsRuns
  import G = StreamGuard

  /** `reading` is the handle inside `fops_read`; `polled` says that the running `usb_read` has asked
      for a buffer. */
  datatype State = State(readers: R.State, session: C.State, stream: S.State, reading: Option<nat>, polled: bool)

  datatype Label =
    | Handle(h: R.Label)
    | Worker(w: C.Label)
    | Usb(u: S.Label)
    | Reader(handle: nat, r: S.Label)

  const WORK := Worker(C.OK)

  predicate OfUsb(u: S.Label) {
    u.TakeFree? || u.Steal? || u.Fill? || u.FillFails? || u.GiveBack? || u.SwapGroup? || u.SetSizes? || u.Publish?
  }

  predicate IsReading(readers: R.State, h: nat) {
    h in readers.phase && readers.phase[h].Reading?
  }

  /** A handle is not released while it is being read. */
  ghost predicate Enabled(s: State, l: Label) {
    match l
    case Handle(h) => R.Enabled(s.readers, h) && (h.ExchangeClear? ==> s.reading != Some(h.h))
    case Worker(w) => (w.Work? || w.StopThread?) && C.Enabled(s.session, w) && s.stream.p.PIdle?
    case Usb(u) => s.session.pc.CRead? && OfUsb(u) && S.Enabled(s.stream, u) && (u.TakeFree? ==> !s.polled)
    case Reader(h, r) =>
      && !Q.OfWorker(r) && S.Enabled(s.stream, r) && IsReading(s.readers, h)
      && s.reading == if r.StartRead? then None else Some(h)
  }

  /** The two calls of `hdcapm_buffers_move_all`. */
  predicate Flushes(pc: C.Pc) {
    pc.CReset? || pc.CFlush?
  }

  /** What a handle's step does to the capture state. */
  function Told(c: C.State, h: R.Label): C.State {
    if h.WriteStart? then C.Next(c, C.WriteStart) else if h.WriteStop? then C.Next(c, C.WriteStop) else c
  }

  function Next(s: State, l: Label): State
    requires Enabled(s, l)
  {
    match l
    case Handle(h) => s.(readers := R.Next(s.readers, h), session := Told(s.session, h))
    case Worker(w) =>
      s.(session := C.Next(s.session, w), polled := false,
         stream := if w.Work? && Flushes(s.session.pc) then S.Next(s.stream, S.Flush) else s.stream)
    case Usb(u) => s.(stream := S.Next(s.stream, u), polled := true)
    case Reader(h, r) =>
      var t := S.Next(s.stream, r);
      s.(stream := t, reading := if t.r.RIdle? then None else Some(h))
  }

  /** A steal and the flush at the end of a capture must not take a buffer the reader relies on.
      Nothing is asked of the flush at the start. */
  ghost predicate Allowed(s: State, l: Label) {
    (l.Usb? && l.u.Steal?) || (l.Worker? && l.w.Work? && s.session.pc.CFlush?) ==> !s.stream.r.Relies()
  }

  ghost predicate Runs(s: State, ls: seq<Label>)
    decreases |ls|
  {
    ls == [] || (Enabled(s, ls[0]) && Allowed(s, ls[0]) && Runs(Next(s, ls[0]), ls[1..]))
  }

  ghost function After(s: State, ls: seq<Label>): State
    requires Runs(s, ls)
    decreases |ls|
  {
    if ls == [] then s else After(Next(s, ls[0]), ls[1..])
  }

  ghost predicate Initial(s: State) {
    && s.readers == R.INITIAL && C.Initial(s.session) && Q.Fresh(s.stream)
    && s.reading == None && !s.polled
  }

  // ---------------------------------------------------------------- what every run keeps

  /** From the end of one capture to the capture loop of the next. */
  predicate Between(pc: C.Pc) {
    pc.TPoll? || pc.TQuery? || pc.TCheck? || pc.TExit? || C.StartingUp(pc)
  }

  ghost predicate Linked(s: State) {
    && (!s.session.pc.CRead? ==> s.stream.p.PIdle?)
    && (Between(s.session.pc) ==> s.stream.used == [])
    && (s.reading == None <==> s.stream.r.RIdle?)
    && (s.reading.Some? ==> IsReading(s.readers, s.reading.value))
  }

  /** Each part keeps its own invariant, and between captures no buffer is on the used list. */
  ghost predicate Inv(s: State) {
    && R.Inv(s.readers) && C.Inv(s.session)
    && S.Inv(s.stream) && Q.Accounts(S.Abs(s.stream))
    && Linked(s)
  }

  lemma ToldKeeps(c: C.State, h: R.Label)
    requires C.Inv(c)
    ensures C.Inv(Told(c, h)) && Told(c, h).pc == c.pc
  {
    if h.WriteStart? {
      C.StepTrace(c, C.WriteStart);
      C.StepRegister(c, C.WriteStart);
    } else if h.WriteStop? {
      C.StepTrace(c, C.WriteStop);
      C.StepRegister(c, C.WriteStop);
    }
  }

  /** A handle that is reading is not moved to another phase by any handle's step. */
  lemma ReadingStays(s: State, h: R.Label)
    requires Enabled(s, Handle(h)) && s.reading.Some? && IsReading(s.readers, s.reading.value)
    ensures IsReading(R.Next(s.readers, h), s.reading.value)
  {
  }

  lemma HandleKeeps(s: State, h: R.Label)
    requires Inv(s) && Enabled(s, Handle(h))
    ensures Inv(Next(s, Handle(h)))
  {
    R.StepKeeps(s.readers, h);
    ToldKeeps(s.session, h);
    if s.reading.Some? {
      ReadingStays(s, h);
    }
  }

  lemma StreamKeeps(s: S.State, l: S.Label)
    requires S.Inv(s) && Q.Accounts(S.Abs(s)) && S.Enabled(s, l) && S.Allowed(s, l)
    ensures S.Inv(S.Next(s, l)) && Q.Accounts(S.Abs(S.Next(s, l)))
  {
    P.StepKeeps(s, l);
    Q.ApplyAccounts(S.Abs(s), S.OpOf(s, l));
  }

  /** Between captures the reader relies on no buffer. */
  lemma NothingToRelyOn(s: State)
    requires Inv(s) && Between(s.session.pc)
    ensures s.stream.used == [] && !s.stream.r.Relies()
  {
  }

  /** From the capture loop on, the worker gets out of the capture only by the flush. */
  lemma StaysInside(c: C.State, w: C.Label)
    requires c.pc.CLoop? || c.pc.CRead? || c.pc.COutputsOff? || c.pc.CFirmwareStop? || c.pc.CPower? || c.pc.CStopped?
    requires w.Work?
    ensures !Between(C.Next(c, w).pc)
  {
  }

  lemma WhereFrom(c: C.State, w: C.Label)
    requires C.Enabled(c, w) && (w.Work? || w.StopThread?)
    ensures Between(C.Next(c, w).pc) ==> Between(c.pc) || (c.pc.CFlush? && w.Work?)
  {
    if !Between(c.pc) && !c.pc.CFlush? {
      StaysInside(c, w);
    }
  }

  lemma WorkerKeeps(s: State, w: C.Label)
    requires Inv(s) && Enabled(s, Worker(w)) && Allowed(s, Worker(w))
    ensures Inv(Next(s, Worker(w)))
  {
    C.StepTrace(s.session, w);
    C.StepRegister(s.session, w);
    WhereFrom(s.session, w);
    if w.Work? && Flushes(s.session.pc) {
      if s.session.pc.CReset? {
        NothingToRelyOn(s);
      }
      StreamKeeps(s.stream, S.Flush);
    }
  }

  lemma UsbFrame(s: S.State, u: S.Label)
    requires S.Enabled(s, u) && OfUsb(u)
    ensures S.Next(s, u).r == s.r
  {
  }

  lemma UsbKeeps(s: State, u: S.Label)
    requires Inv(s) && Enabled(s, Usb(u)) && Allowed(s, Usb(u))
    ensures Inv(Next(s, Usb(u)))
  {
    StreamKeeps(s.stream, u);
    UsbFrame(s.stream, u);
  }

  lemma ReaderFrame(s: S.State, r: S.Label)
    requires S.Enabled(s, r) && !Q.OfWorker(r)
    ensures S.Next(s, r).p == s.p && (s.used == [] ==> S.Next(s, r).used == [])
  {
  }

  lemma ReaderKeeps(s: State, h: nat, r: S.Label)
    requires Inv(s) && Enabled(s, Reader(h, r))
    ensures Inv(Next(s, Reader(h, r)))
  {
    StreamKeeps(s.stream, r);
    ReaderFrame(s.stream, r);
  }

  lemma StepKeeps(s: State, l: Label)
    requires Inv(s) && Enabled(s, l) && Allowed(s, l)
    ensures Inv(Next(s, l))
  {
    match l
    case Handle(h) => HandleKeeps(s, h);
    case Worker(w) => WorkerKeeps(s, w);
    case Usb(u) => UsbKeeps(s, u);
    case Reader(h, r) => ReaderKeeps(s, h, r);
  }

  lemma {:induction false} RunKeeps(s: State, ls: seq<Label>)
    requires Inv(s) && Runs(s, ls)
    ensures Inv(After(s, ls))
    decreases |ls|
  {
    if ls != [] {
      StepKeeps(s, ls[0]);
      RunKeeps(Next(s, ls[0]), ls[1..]);
    }
  }

  lemma InitialIsInv(s: State)
    requires Initial(s)
    ensures Inv(s)
  {
    assert R.Those(s.readers.phase, R.Incremented) == {};
    Q.FreshIsInv(s.stream);
    NilUnit(C.Current(s.session.pc, s.session.cur));
  }

  /** In every run of the whole driver the flush at the start of a capture finds nothing on the used
      list, so it never takes a buffer from the reader, whichever handle is reading. */
  lemma StartFlushFindsNothing(s: State, ls: seq<Label>)
    requires Initial(s) && Runs(s, ls) && After(s, ls).session.pc.CReset?
    ensures After(s, ls).stream.used == [] && !After(s, ls).stream.r.Relies()
  {
    InitialIsInv(s);
    RunKeeps(s, ls);
    NothingToRelyOn(After(s, ls));
  }

  // ---------------------------------------------------------------- while readers stay

  /** A capture is running, there are readers, and no write of the capture state is owed. */
  ghost predicate Settled(s: State) {
    && C.InLoop(s.session.pc) && s.session.dev.Started?
    && s.readers.count > 0 && R.Starts(s.readers) == 0 && R.Stops(s.readers) == 0
  }

  /** The last reader leaves. */
  predicate LastLeaves(s: State, l: Label) {
    l.Handle? && l.h.Lower? && s.readers.count == 1
  }

  ghost predicate SomebodyStays(s: State, ls: seq<Label>)
    requires Runs(s, ls)
    decreases |ls|
  {
    ls == [] || (!LastLeaves(s, ls[0]) && SomebodyStays(Next(s, ls[0]), ls[1..]))
  }

  lemma SettledHandle(s: State, h: R.Label)
    requires Settled(s) && Enabled(s, Handle(h)) && !LastLeaves(s, Handle(h)) && R.Inv(s.readers)
    ensures Settled(Next(s, Handle(h)))
  {
    R.OwedAfter(s.readers, h);
    if h.WriteStart? {
      R.Member(s.readers.phase, h.h, R.OwesStart);
    } else if h.WriteStop? {
      R.Member(s.readers.phase, h.h, R.OwesStop);
    }
  }

  lemma SettledStep(s: State, l: Label)
    requires Inv(s) && Settled(s) && Enabled(s, l) && !LastLeaves(s, l)
    ensures Settled(Next(s, l))
  {
    if l.Handle? {
      SettledHandle(s, l.h);
    }
  }

  /** A running capture with readers and no write owed stays in its loop as long as the last reader does
      not leave. So the flush at the end of a capture can meet a reader only if the count was zero
      in between, or a write was still owed. */
  lemma {:induction false} SettledCaptureStays(s: State, ls: seq<Label>)
    requires Inv(s) && Settled(s) && Runs(s, ls) && SomebodyStays(s, ls)
    ensures Settled(After(s, ls))
    decreases |ls|
  {
    if ls != [] {
      SettledStep(s, ls[0]);
      StepKeeps(s, ls[0]);
      SettledCaptureStays(Next(s, ls[0]), ls[1..]);
    }
  }

  // ---------------------------------------------------------------- the flush at the end

  ghost predicate StaysGood(s: State) {
    forall ls | Runs(s, ls) :: G.Good(After(s, ls).stream)
  }

  lemma InvStaysGood(s: State)
    requires Inv(s)
    ensures StaysGood(s)
  {
    forall ls | Runs(s, ls) ensures G.Good(After(s, ls).stream) {
      RunKeeps(s, ls);
    }
  }

  lemma Chain(s: State, l: Label, ls: seq<Label>)
    requires Enabled(s, l) && Allowed(s, l) && Runs(Next(s, l), ls)
    ensures Runs(s, [l] + ls) && After(s, [l] + ls) == After(Next(s, l), ls)
  {
    assert ([l] + ls)[1..] == ls;
  }

  lemma {:induction false} RunsJoin(s: State, a: seq<Label>, b: seq<Label>)
    requires Runs(s, a) && Runs(After(s, a), b)
    ensures Runs(s, a + b) && After(s, a + b) == After(After(s, a), b)
    decreases |a|
  {
    if a == [] {
      NilUnit(b);
    } else {
      CutLeft(a, b, 1);
      RunsJoin(Next(s, a[0]), a[1..], b);
    }
  }

  lemma FlushOfNothing(s: S.State)
    requires S.Enabled(s, S.Flush) && s.used == []
    ensures S.Next(s, S.Flush) == s
  {
    NilUnit(s.free);
  }

  /** t differs from s only in where the worker is. */
  predicate SameElse(s: State, t: State) {
    t.readers == s.readers && t.stream == s.stream && t.reading == s.reading && !t.polled
  }

  lemma WorkOn(s: State)
    requires C.Live(s.session) && s.stream.p.PIdle? && s.stream.used == [] && !s.session.pc.CFlush?
    ensures Enabled(s, WORK) && Allowed(s, WORK)
    ensures Next(s, WORK).session == C.Next(s.session, C.OK) && SameElse(s, Next(s, WORK))
  {
    C.LiveGoesOn(s.session);
    if Flushes(s.session.pc) {
      FlushOfNothing(s.stream);
    }
  }

  /** A worker that has seen a start, or is going to, gets to its next poll. */
  lemma {:induction false} ReachesPoll(s: State) returns (ls: seq<Label>)
    requires C.Live(s.session) && s.stream.p.PIdle? && s.stream.used == [] && !s.session.pc.CFlush?
    requires s.session.pc.CRead? ==> !s.polled
    ensures Runs(s, ls)
    ensures var t := After(s, ls); t.session.pc.CRead? && t.session.dev.Started?
    ensures var t := After(s, ls);
            t.readers == s.readers && t.stream == s.stream && t.reading == s.reading && !t.polled
    decreases if s.session.pc.CRead? then 0 else if s.session.pc.CLoop? then 1 else C.Distance(s.session) + 2
  {
    ls := [];
    if !s.session.pc.CRead? {
      WorkOn(s);
      C.LiveGoesOn(s.session);
      ls := ReachesPoll(Next(s, WORK));
      Chain(s, WORK, ls);
      ls := [WORK] + ls;
    }
  }

  /** One `usb_read` that takes the first free buffer and fails, and the way to the next one. */
  lemma FailsOnce(s: State, u: State, rest: seq<Label>) returns (ls: seq<Label>)
    requires s.session.pc.CRead? && s.session.dev.Started? && !s.polled
    requires s.stream.p.PIdle? && s.stream.free != [] && s.stream.free[0] < |s.stream.bufs|
    requires u.readers == s.readers && u.reading == s.reading && !u.polled
    requires u.session == C.Next(C.Next(s.session, C.OK), C.OK)
    requires u.stream == s.stream.(free := s.stream.free[1..] + [s.stream.free[0]])
    requires Runs(u, rest)
    ensures Runs(s, ls) && After(s, ls) == After(u, rest)
  {
    var st, id := s.stream, s.stream.free[0];
    var t1 := st.(free := st.free[1..], p := S.PHold(id));
    var t2 := t1.(p := S.PAbort(id));
    assert S.Overwrite(st.bufs[id].data, []) == st.bufs[id].data;
    assert S.Next(st, S.TakeFree) == t1 && S.Next(t1, S.FillFails([])) == t2 && S.Next(t2, S.GiveBack) == u.stream;
    var s1 := s.(stream := t1, polled := true);
    var s2 := s.(stream := t2, polled := true);
    var s3 := s.(stream := u.stream, polled := true);
    var s4 := s.(stream := u.stream, session := C.Next(s.session, C.OK));
    Chain(s4, WORK, rest);
    ls := [WORK] + rest;
    Chain(s3, WORK, ls);
    ls := [WORK] + ls;
    Chain(s2, Usb(S.GiveBack), ls);
    ls := [Usb(S.GiveBack)] + ls;
    Chain(s1, Usb(S.FillFails([])), ls);
    ls := [Usb(S.FillFails([]))] + ls;
    Chain(s, Usb(S.TakeFree), ls);
    ls := [Usb(S.TakeFree)] + ls;
  }

  lemma TakesFirst(s: State)
    requires s.session.pc.CRead? && !s.polled && s.stream.p.PIdle?
    requires S.Parted(s.stream) && G.Intact(s.stream) && s.stream.free != [] && s.stream.free[0] == s.stream.r.id
    ensures Enabled(s, Usb(S.TakeFree)) && Allowed(s, Usb(S.TakeFree))
    ensures var t := Next(s, Usb(S.TakeFree));
            G.Clash(t.stream) && t.readers == s.readers && t.reading == s.reading
  {
    P.HeadOff(s.stream.free);
  }

  /** The free list with its head at the end. */
  function Rotated(st: S.State): S.State
    requires st.free != []
  {
    st.(free := st.free[1..] + [st.free[0]])
  }

  lemma RotationKeeps(st: S.State, i: nat)
    requires S.Parted(st) && G.Intact(st) && 0 < i < |st.free| && st.free[i] == st.r.id
    ensures var t := Rotated(st); S.Parted(t) && G.Intact(t) && i - 1 < |t.free| && t.free[i - 1] == t.r.id
    ensures st.free[0] < |st.bufs|
  {
    P.HeadOff(st.free);
    P.PartOf(st, st.free[0]);
  }

  /** The worker gets hold of the free buffer the reader relies on, through polls that fail. */
  lemma {:induction false} TakesItInTheEnd(s: State, i: nat) returns (ls: seq<Label>)
    requires s.session.pc.CRead? && s.session.dev.Started? && !s.polled && s.stream.p.PIdle?
    requires S.Parted(s.stream) && G.Intact(s.stream) && i < |s.stream.free| && s.stream.free[i] == s.stream.r.id
    ensures Runs(s, ls) && G.Clash(After(s, ls).stream)
    ensures After(s, ls).readers == s.readers && After(s, ls).reading == s.reading
    decreases i
  {
    if i == 0 {
      TakesFirst(s);
      Chain(s, Usb(S.TakeFree), []);
      ls := [Usb(S.TakeFree)] + [];
    } else {
      RotationKeeps(s.stream, i);
      var u := s.(stream := Rotated(s.stream), session := C.Next(C.Next(s.session, C.OK), C.OK));
      ls := TakesItInTheEnd(u, i - 1);
      ls := FailsOnce(s, u, ls);
    }
  }

  function ByReader(h: nat, ls: seq<S.Label>): seq<Label> {
    if ls == [] then [] else [Reader(h, ls[0])] + ByReader(h, ls[1..])
  }

  /** What the reader does to the buffers it does in the whole driver. */
  lemma {:induction false} ReaderRuns(s: State, h: nat, ls: seq<S.Label>)
    requires Q.Runs(s.stream, ls) && G.GoesOn(ls)
    requires s.reading == Some(h) && IsReading(s.readers, h)
    ensures Runs(s, ByReader(h, ls)) && After(s, ByReader(h, ls)).stream == Q.After(s.stream, ls)
    decreases |ls|
  {
    if ls != [] {
      var t := Next(s, Reader(h, ls[0]));
      var rest := ls[1..];
      assert forall i | 0 <= i < |rest| :: rest[i] == ls[i + 1];
      ReaderRuns(t, h, rest);
      Chain(s, Reader(h, ls[0]), ByReader(h, rest));
    }
  }

  /** The worker has begun the next capture and the reader still relies on a buffer that is free. */
  lemma FreeIsFatal(s: State, i: nat) returns (ls: seq<Label>)
    requires C.Live(s.session) && s.session.pc.TPoll? && s.stream.p.PIdle? && s.stream.used == []
    requires S.Parted(s.stream) && G.Intact(s.stream) && i < |s.stream.free| && s.stream.free[i] == s.stream.r.id
    requires s.reading.Some? && IsReading(s.readers, s.reading.value)
    ensures Runs(s, ls) && !G.Good(After(s, ls).stream)
  {
    var a := ReachesPoll(s);
    var b := TakesItInTheEnd(After(s, a), i);
    RunsJoin(s, a, b);
    var u := After(s, a + b);
    var c := ClashIsFatal(u);
    RunsJoin(s, a + b, c);
    ls := a + b + c;
  }

  lemma ClashIsFatal(s: State) returns (ls: seq<Label>)
    requires G.Clash(s.stream) && s.reading.Some? && IsReading(s.readers, s.reading.value)
    ensures Runs(s, ls) && !G.Good(After(s, ls).stream)
  {
    var c := G.ClashIsFatal(s.stream);
    ReaderRuns(s, s.reading.value, c);
    ls := ByReader(s.reading.value, c);
  }

  lemma EndFlushStep(s: State)
    requires Enabled(s, WORK) && s.session.pc.CFlush? && s.session.dev.Start?
    ensures var t := Next(s, WORK);
            && t.stream == S.Next(s.stream, S.Flush) && t.readers == s.readers && t.reading == s.reading
            && t.session.pc.TPoll? && t.session.dev.Start?
  {
  }

  lemma EndFlushIsFatal(s: State) returns (ls: seq<Label>)
    requires Inv(s) && s.session.pc.CFlush? && s.session.dev.Start? && s.stream.r.Relies()
    ensures Runs(Next(s, WORK), ls) && !G.Good(After(Next(s, WORK), ls).stream)
  {
    var t := Next(s, WORK);
    EndFlushStep(s);
    G.FlushFrees(s.stream);
    ls := FreeIsFatal(t, |s.stream.free|);
  }

  /** The flush at the end of a capture, when a new start has been written after STOPPED: the whole
      driver stays good in every continuation within the guard exactly when the reader does not rely
      on a buffer then. */
  lemma EndFlushIsSafeIff(s: State)
    requires Inv(s) && s.session.pc.CFlush? && s.session.dev.Start?
    ensures StaysGood(Next(s, WORK)) <==> !s.stream.r.Relies()
  {
    if s.stream.r.Relies() {
      var ls := EndFlushIsFatal(s);
      assert Runs(Next(s, WORK), ls);
    } else {
      StepKeeps(s, WORK);
      InvStaysGood(Next(s, WORK));
    }
  }

  // ---------------------------------------------------------------- and it happens

  /** Worker and buffers before anything happened, with one buffer; only the handles and the output
      register are left open. */
  function Begin(reg50: word, cur: C.Session): State {
    State(R.INITIAL, C.State(C.Stopped, C.TPoll, reg50, [], [], cur), G.NEW, None, false)
  }

  lemma HandleStep(s: State, h: R.Label, rest: seq<Label>)
    requires R.Enabled(s.readers, h) && s.reading == None
    requires Runs(s.(readers := R.Next(s.readers, h), session := Told(s.session, h)), rest)
    ensures Runs(s, [Handle(h)] + rest)
    ensures After(s, [Handle(h)] + rest)
            == After(s.(readers := R.Next(s.readers, h), session := Told(s.session, h)), rest)
  {
    Chain(s, Handle(h), rest);
  }

  /** The first handle starts to read. */
  lemma FirstReads(s: State) returns (ls: seq<Label>)
    requires s.readers == R.INITIAL && s.reading == None
    ensures Runs(s, ls)
    ensures After(s, ls) == s.(readers := R.READING, session := C.Next(s.session, C.WriteStart))
  {
    var r1 := R.INITIAL.(phase := map[0 := R.Unread]);
    var r2 := R.INITIAL.(phase := map[0 := R.Incrementing]);
    var r3 := R.State(map[0 := R.Starting], 1, [true], []);
    assert R.Next(R.INITIAL, R.Open(0)) == r1 && R.Next(r1, R.ExchangeSet(0)) == r2;
    assert R.Next(r2, R.Raise(0)) == r3 && R.Next(r3, R.WriteStart(0)) == R.READING;
    HandleStep(s.(readers := r3), R.WriteStart(0), []);
    ls := [Handle(R.WriteStart(0))] + [];
    HandleStep(s.(readers := r2), R.Raise(0), ls);
    ls := [Handle(R.Raise(0))] + ls;
    HandleStep(s.(readers := r1), R.ExchangeSet(0), ls);
    ls := [Handle(R.ExchangeSet(0))] + ls;
    HandleStep(s, R.Open(0), ls);
    ls := [Handle(R.Open(0))] + ls;
  }

  const LEFT := R.State(map[0 := R.Released, 1 := R.Unread], 0, [true, false], [true, false])

  /** It is released, and the stop written; another handle is open. */
  lemma FirstLeaves(s: State) returns (ls: seq<Label>)
    requires s.readers == R.READING && s.reading == None
    ensures Runs(s, ls) && After(s, ls) == s.(readers := LEFT, session := C.Next(s.session, C.WriteStop))
  {
    var r1 := R.READING.(phase := map[0 := R.Reading, 1 := R.Unread]);
    var r2 := R.READING.(phase := map[0 := R.Decrementing, 1 := R.Unread]);
    assert R.Next(R.READING, R.Open(1)) == r1 && R.Next(r1, R.ExchangeClear(0)) == r2;
    assert R.Next(r2, R.Lower(0)) == R.STOPPING && R.Next(R.STOPPING, R.WriteStop(0)) == LEFT;
    HandleStep(s.(readers := R.STOPPING), R.WriteStop(0), []);
    ls := [Handle(R.WriteStop(0))] + [];
    HandleStep(s.(readers := r2), R.Lower(0), ls);
    ls := [Handle(R.Lower(0))] + ls;
    HandleStep(s.(readers := r1), R.ExchangeClear(0), ls);
    ls := [Handle(R.ExchangeClear(0))] + ls;
    HandleStep(s, R.Open(1), ls);
    ls := [Handle(R.Open(1))] + ls;
  }

  const AGAIN := R.State(map[0 := R.Released, 1 := R.Reading], 1, [true, false, true], [true, false, true])

  /** The other handle starts to read. */
  lemma SecondReads(s: State) returns (ls: seq<Label>)
    requires s.readers == LEFT && s.reading == None
    ensures Runs(s, ls) && After(s, ls) == s.(readers := AGAIN, session := C.Next(s.session, C.WriteStart))
  {
    var r1 := LEFT.(phase := map[0 := R.Released, 1 := R.Incrementing]);
    var r2 := R.State(map[0 := R.Released, 1 := R.Starting], 1, [true, false, true], [true, false]);
    assert R.Next(LEFT, R.ExchangeSet(1)) == r1 && R.Next(r1, R.Raise(1)) == r2;
    assert R.Next(r2, R.WriteStart(1)) == AGAIN;
    HandleStep(s.(readers := r2), R.WriteStart(1), []);
    ls := [Handle(R.WriteStart(1))] + [];
    HandleStep(s.(readers := r1), R.Raise(1), ls);
    ls := [Handle(R.Raise(1))] + ls;
    HandleStep(s, R.ExchangeSet(1), ls);
    ls := [Handle(R.ExchangeSet(1))] + ls;
  }

  /** What a `usb_read` with a buffer does it does in the whole driver. */
  lemma {:induction false} UsbRuns(s: State, us: seq<S.Label>) returns (ls: seq<Label>)
    requires s.session.pc.CRead? && s.polled && Q.Runs(s.stream, us) && G.Fills(us)
    ensures Runs(s, ls) && After(s, ls) == s.(stream := Q.After(s.stream, us))
    decreases |us|
  {
    ls := [];
    if us != [] {
      var rest := us[1..];
      assert forall i | 0 <= i < |rest| :: rest[i] == us[i + 1];
      ls := UsbRuns(s.(stream := S.Next(s.stream, us[0])), rest);
      Chain(s, Usb(us[0]), ls);
      ls := [Usb(us[0])] + ls;
    }
  }

  /** The worker receives one payload. */
  lemma ReceivesOne(s: State) returns (ls: seq<Label>)
    requires s.session.pc.CRead? && !s.polled && s.stream == G.NEW
    ensures Runs(s, ls) && After(s, ls) == s.(stream := G.FILLED, polled := true)
  {
    var us := G.FillsOne([]);
    assert S.Next(G.NEW, S.TakeFree) == G.HELD;
    ls := UsbRuns(s.(stream := G.HELD, polled := true), us);
    Chain(s, Usb(S.TakeFree), ls);
    ls := [Usb(S.TakeFree)] + ls;
  }

  lemma TearStep(s: State, rest: seq<Label>)
    requires s.session.pc.CRead? || s.session.pc.CLoop? || s.session.pc.COutputsOff? || s.session.pc.CFirmwareStop?
             || s.session.pc.CPower? || s.session.pc.CStopped?
    requires s.stream.p.PIdle? && Runs(s.(session := C.Next(s.session, C.OK), polled := false), rest)
    ensures Runs(s, [WORK] + rest)
    ensures After(s, [WORK] + rest) == After(s.(session := C.Next(s.session, C.OK), polled := false), rest)
  {
    Chain(s, WORK, rest);
  }

  /** The last steps of the teardown. */
  lemma TearsDownLate(s: State) returns (ls: seq<Label>, c: C.State)
    requires s.session.pc.CFirmwareStop? && s.stream.p.PIdle? && !s.polled
    ensures Runs(s, ls) && After(s, ls) == s.(session := c)
    ensures c.pc.CFlush? && c.dev.Stopped?
  {
    var c1 := C.Next(s.session, C.OK);
    var c2 := C.Next(c1, C.OK);
    c := C.Next(c2, C.OK);
    assert c1.pc.CPower? && c2.pc.CStopped?;
    TearStep(s.(session := c2), []);
    ls := [WORK] + [];
    TearStep(s.(session := c1), ls);
    ls := [WORK] + ls;
    TearStep(s, ls);
    ls := [WORK] + ls;
  }

  /** The worker, told to stop, tears the capture down as far as the flush. */
  lemma TearsDown(s: State) returns (ls: seq<Label>, c: C.State)
    requires s.session.pc.CRead? && s.session.dev.Stop? && s.stream.p.PIdle?
    ensures Runs(s, ls) && After(s, ls) == s.(session := c, polled := false)
    ensures c.pc.CFlush? && c.dev.Stopped?
  {
    var c1 := C.Next(s.session, C.OK);
    var c2 := C.Next(c1, C.OK);
    var c3 := C.Next(c2, C.OK);
    assert c1.pc.CLoop? && c1.dev.Stop? && c2.pc.COutputsOff? && c3.pc.CFirmwareStop?;
    var t := s.(polled := false);
    ls, c := TearsDownLate(t.(session := c3));
    TearStep(t.(session := c2), ls);
    ls := [WORK] + ls;
    TearStep(t.(session := c1), ls);
    ls := [WORK] + ls;
    TearStep(s, ls);
    ls := [WORK] + ls;
  }

  /** The other handle peeks at the buffer that is still there. */
  lemma Peeks(s: State) returns (ls: seq<Label>)
    requires s.readers == AGAIN && s.reading == None && s.stream == G.FILLED
    ensures Runs(s, ls) && After(s, ls) == s.(stream := G.FILLED.(r := S.RPinned(0, 9)), reading := Some(1))
  {
    var t := G.FILLED.(r := S.RPeek(9));
    var u := G.FILLED.(r := S.RPinned(0, 9));
    assert S.Next(G.FILLED, S.StartRead(9)) == t && S.Next(t, S.Peek) == u;
    var s1 := s.(stream := t, reading := Some(1));
    Chain(s1, Reader(1, S.Peek), []);
    ls := [Reader(1, S.Peek)] + [];
    Chain(s, Reader(1, S.StartRead(9)), ls);
    ls := [Reader(1, S.StartRead(9))] + ls;
  }

  /** The capture of the first handle, as far as its end. */
  lemma FirstCapture(reg50: word, cur: C.Session) returns (ls: seq<Label>, c: C.State)
    ensures Runs(Begin(reg50, cur), ls) && c.pc.CFlush? && c.dev.Stopped?
    ensures After(Begin(reg50, cur), ls) == State(LEFT, c, G.FILLED, None, false)
  {
    var s := Begin(reg50, cur);
    ls := FirstReads(s);
    var more := ReachesPoll(After(s, ls));
    RunsJoin(s, ls, more);
    ls := ls + more;
    more := ReceivesOne(After(s, ls));
    RunsJoin(s, ls, more);
    ls := ls + more;
    more := FirstLeaves(After(s, ls));
    RunsJoin(s, ls, more);
    ls := ls + more;
    more, c := TearsDown(After(s, ls));
    RunsJoin(s, ls, more);
    ls := ls + more;
  }

  /** A run from the start, within the guard, to the flush at the end of a capture that meets a reader:
      a handle that starts to read during the teardown and finds a buffer still there. */
  lemma EndFlushMeetsReader(reg50: word, cur: C.Session) returns (ls: seq<Label>)
    ensures Initial(Begin(reg50, cur)) && Runs(Begin(reg50, cur), ls)
    ensures var t := After(Begin(reg50, cur), ls);
            && t.session.pc.CFlush? && t.session.dev.Start? && t.stream.p.PIdle? && t.stream.r.Relies()
            && !StaysGood(Next(t, WORK))
  {
    var s := Begin(reg50, cur);
    G.NewIsFresh();
    var c;
    ls, c := FirstCapture(reg50, cur);
    var more := SecondReads(After(s, ls));
    RunsJoin(s, ls, more);
    ls := ls + more;
    more := Peeks(After(s, ls));
    RunsJoin(s, ls, more);
    ls := ls + more;
    InitialIsInv(s);
    RunKeeps(s, ls);
    EndFlushIsSafeIff(After(s, ls));
  }
}
