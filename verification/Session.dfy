/**
 The worker thread and the capture sessions it runs. The capture state is a plain variable that
 the worker and any number of file handles read and write; every such access is one step, and
 between two steps of the worker the handles may write the state any number of times.
 */
module Session {
  import opened Bytes

  datatype DevState = Start | Started | Stop | Stopped

  /** Where the worker is: in its polling loop (T), or inside `hdcapm_compressor_run` (C). */
  datatype Pc =
    | TPoll | TQuery | TCheck | TExit
    | CTimings | CReset | CRegister | COutputsOn | CFirmwareStart | CStarted
    | CLoop | CRead
    | COutputsOff | CFirmwareStop | CPower | CStopped | CFlush

  /** What reaches the device: commands to the firmware by number, the output enables, and polls
      of the codec. */
  datatype Event = Command(id: nat) | Outputs(on: bool) | Poll

  const START_COMMANDS := [Command(0xf1), Command(0xf2), Command(0x10), Command(0x10), Command(0x10), Command(0x10),
                           Command(0x10), Command(0x10), Command(0x10), Command(0x01), Command(0x0a)]
  const STOP_COMMANDS := [Command(0x02), Command(0xf3)]

  /** A capture session: whether the encoder was started, and how often the codec was polled. */
  datatype Session = Session(encoder: bool, polls: nat)

  /** `done` are the sessions completed, `cur` the one under way; `reg50` is the output register,
      whose bits 1 and 2 are low while outputs are enabled. */
  datatype State = State(dev: DevState, pc: Pc, reg50: word, trace: seq<Event>, done: seq<Session>, cur: Session)

  /** How the register routine of the codec ends: well, or before or after it wrote the output register. */
  datatype Outcome = Good | FailEarly | FailLate

  datatype Label =
    | WriteStart | WriteStop            // by a file handle
    | StopThread                        // by disconnect
    | Work(timings: bool, register: Outcome, frame: bool)

  const OK := Work(true, Good, true)

  predicate Enabled(s: State, l: Label) {
    match l
    case StopThread => s.pc.TPoll?
    case Work(_, _, _) => !s.pc.TExit?
    case _ => true
  }

  function OutputsLow(v: word): word {
    v & !0x2 & !0x4
  }

  function OutputsHigh(v: word): word {
    v | 0x2 | 0x4
  }

  /** One step. A frame of zero total size makes the start transition return without a command. */
  function Next(s: State, l: Label): State {
    match l
    case WriteStart => s.(dev := Start)
    case WriteStop => s.(dev := Stop)
    case StopThread => s.(pc := TExit)
    case Work(timings, register, frame) =>
      match s.pc
      case TPoll => s.(pc := TQuery)
      case TQuery => s.(pc := TCheck)
      case TCheck => s.(pc := if s.dev == Start then CTimings else TPoll)
      case TExit => s
      case CTimings => if timings then s.(pc := CReset) else s.(dev := Stopped, pc := TPoll)
      case CReset => s.(pc := CRegister)
      case CRegister =>
        var r := if register == FailEarly then s.reg50 else 0x00200406;
        s.(reg50 := r, pc := if register == Good then COutputsOn else TPoll)
      case COutputsOn =>
        s.(reg50 := OutputsLow(s.reg50), trace := s.trace + [Outputs(true)], cur := Session(false, 0), pc := CFirmwareStart)
      case CFirmwareStart =>
        if frame then s.(trace := s.trace + START_COMMANDS, cur := Session(true, 0), pc := CStarted)
        else s.(pc := CStarted)
      case CStarted => s.(dev := Started, pc := CLoop)
      case CLoop => s.(pc := if s.dev == Started then CRead else COutputsOff)
      case CRead => s.(trace := s.trace + [Poll], cur := s.cur.(polls := s.cur.polls + 1), pc := CLoop)
      case COutputsOff =>
        s.(reg50 := OutputsHigh(s.reg50), trace := s.trace + [Outputs(false)], pc := CFirmwareStop)
      case CFirmwareStop => s.(trace := s.trace + STOP_COMMANDS, done := s.done + [s.cur], pc := CPower)
      case CPower => s.(pc := CStopped)
      case CStopped => s.(dev := Stopped, pc := CFlush)
      case CFlush => s.(pc := TPoll)
  }

  /** The worker before its first turn. */
  ghost predicate Initial(s: State) {
    s.dev == Stopped && s.pc == TPoll && s.trace == [] && s.done == []
  }

  ghost predicate Runs(s: State, ls: seq<Label>)
    decreases |ls|
  {
    ls == [] || (Enabled(s, ls[0]) && Runs(Next(s, ls[0]), ls[1..]))
  }

  function After(s: State, ls: seq<Label>): State
    decreases |ls|
  {
    if ls == [] then s else After(Next(s, ls[0]), ls[1..])
  }

  // ---------------------------------------------------------------- the shape of the trace

  function Polls(n: nat): seq<Event> {
    seq(n, _ => Poll)
  }

  /** A session up to its polls: outputs enabled, the start commands at most once, the polls. */
  function Opening(c: Session): seq<Event> {
    [Outputs(true)] + (if c.encoder then START_COMMANDS else []) + Polls(c.polls)
  }

  /** A complete session: it ends with the outputs disabled and the stop commands. */
  function Whole(c: Session): seq<Event> {
    Opening(c) + [Outputs(false)] + STOP_COMMANDS
  }

  function Sessions(done: seq<Session>): seq<Event> {
    if done == [] then [] else Sessions(done[..|done| - 1]) + Whole(done[|done| - 1])
  }

  /** What the session under way has sent so far. */
  function Current(pc: Pc, c: Session): seq<Event> {
    match pc
    case CFirmwareStart => [Outputs(true)]
    case CStarted => Opening(c)
    case CLoop => Opening(c)
    case CRead => Opening(c)
    case COutputsOff => Opening(c)
    case CFirmwareStop => Opening(c) + [Outputs(false)]
    case _ => []
  }

  predicate InLoop(pc: Pc) {
    pc == CLoop || pc == CRead
  }

  /** From enabling the outputs to disabling them. */
  predicate OutputsEnabled(pc: Pc) {
    pc == CFirmwareStart || pc == CStarted || InLoop(pc) || pc == COutputsOff
  }

  predicate OutputsDisabled(pc: Pc) {
    pc == COutputsOn || pc == CFirmwareStop || pc == CPower || pc == CStopped || pc == CFlush
  }

  ghost predicate TraceOk(s: State) {
    && s.trace == Sessions(s.done) + Current(s.pc, s.cur)
    && (s.pc.CFirmwareStart? ==> s.cur == Session(false, 0))
    && (s.pc.CStarted? ==> s.cur.polls == 0)
  }

  /** The output bits are low while a session has its outputs enabled; they are high from disabling
      them on, until the next session enables them. */
  ghost predicate RegisterOk(pc: Pc, reg50: word, past: bool) {
    && (OutputsEnabled(pc) ==> reg50 & 0x6 == 0)
    && (OutputsDisabled(pc) || (past && !OutputsEnabled(pc)) ==> reg50 & 0x6 == 0x6)
  }

  ghost predicate Inv(s: State) {
    TraceOk(s) && RegisterOk(s.pc, s.reg50, s.done != [])
  }

  lemma OutputBits(v: word)
    ensures OutputsLow(v) & 0x6 == 0 && OutputsHigh(v) & 0x6 == 0x6
  {
  }

  lemma OneMorePoll(c: Session)
    ensures Opening(c.(polls := c.polls + 1)) == Opening(c) + [Poll]
  {
    assert Polls(c.polls + 1) == Polls(c.polls) + [Poll];
    Assoc([Outputs(true)] + (if c.encoder then START_COMMANDS else []), Polls(c.polls), [Poll]);
  }

  lemma FreshOpening(encoder: bool)
    ensures Opening(Session(encoder, 0)) == [Outputs(true)] + (if encoder then START_COMMANDS else [])
  {
    NilUnit([Outputs(true)] + (if encoder then START_COMMANDS else []));
    assert Polls(0) == [];
  }

  lemma SessionsMore(done: seq<Session>, c: Session)
    ensures Sessions(done + [c]) == Sessions(done) + Whole(c)
  {
    assert (done + [c])[..|done|] == done;
  }

  /** Sending one piece: from the part of the session before it to the part with it. */
  lemma SendsPiece(s: State, piece: seq<Event>)
    requires s.trace == Sessions(s.done) + Current(s.pc, s.cur)
    ensures s.trace + piece == Sessions(s.done) + (Current(s.pc, s.cur) + piece)
  {
    Assoc(Sessions(s.done), Current(s.pc, s.cur), piece);
  }

  lemma OpensSession(s: State, l: Label)
    requires TraceOk(s) && s.pc == CFirmwareStart && l.Work?
    ensures TraceOk(Next(s, l))
  {
    SendsPiece(s, START_COMMANDS);
    FreshOpening(true);
    FreshOpening(false);
    NilUnit([Outputs(true)]);
  }

  lemma ClosedTrace(done: seq<Session>, c: Session, trace: seq<Event>)
    requires trace == Sessions(done) + (Opening(c) + [Outputs(false)])
    ensures trace + STOP_COMMANDS == Sessions(done + [c]) + []
  {
    Assoc(Sessions(done), Opening(c) + [Outputs(false)], STOP_COMMANDS);
    SessionsMore(done, c);
    NilUnit(Sessions(done + [c]));
  }

  lemma PollStep(s: State, l: Label)
    requires TraceOk(s) && s.pc == CRead && l.Work?
    ensures TraceOk(Next(s, l))
  {
    SendsPiece(s, [Poll]);
    OneMorePoll(s.cur);
  }

  lemma OutputsStep(s: State, l: Label)
    requires TraceOk(s) && (s.pc == COutputsOn || s.pc == COutputsOff) && l.Work?
    ensures TraceOk(Next(s, l))
  {
    SendsPiece(s, [Outputs(s.pc == COutputsOn)]);
    NilUnit([Outputs(true)]);
  }

  lemma ClosingStep(s: State, l: Label)
    requires s.pc == CFirmwareStop && l.Work?
    ensures var t := Next(s, l);
            t.trace == s.trace + STOP_COMMANDS && t.done == s.done + [s.cur] && t.pc == CPower
  {
  }

  lemma ClosesSession(s: State, l: Label)
    requires TraceOk(s) && s.pc == CFirmwareStop && l.Work?
    ensures TraceOk(Next(s, l))
  {
    ClosingStep(s, l);
    ClosedTrace(s.done, s.cur, s.trace);
  }

  /** How far the session under way has got: nothing sent, outputs enabled, opened, closing. */
  function Stage(pc: Pc): nat {
    match pc
    case CFirmwareStart => 1
    case CStarted => 2
    case CLoop => 2
    case CRead => 2
    case COutputsOff => 2
    case CFirmwareStop => 3
    case _ => 0
  }

  lemma CurrentOf(pc: Pc, c: Session)
    ensures Current(pc, c) == if Stage(pc) == 0 then [] else if Stage(pc) == 1 then [Outputs(true)]
                              else if Stage(pc) == 2 then Opening(c) else Opening(c) + [Outputs(false)]
  {
  }

  /** The worker sends something to the device. */
  predicate Sends(pc: Pc) {
    pc == COutputsOn || pc == CFirmwareStart || pc == CRead || pc == COutputsOff || pc == CFirmwareStop
  }

  lemma HandleFrame(s: State, l: Label)
    requires Enabled(s, l) && !l.Work?
    ensures var t := Next(s, l);
            && t.trace == s.trace && t.done == s.done && t.cur == s.cur && t.reg50 == s.reg50
            && (t.pc == s.pc || (s.pc == TPoll && t.pc == TExit))
  {
  }

  lemma OutsideFrame(s: State, l: Label)
    requires l.Work? && (s.pc.TPoll? || s.pc.TQuery? || s.pc.TCheck? || s.pc.TExit? || s.pc.CTimings? || s.pc.CReset?
                         || s.pc.CRegister?)
    ensures var t := Next(s, l); t.trace == s.trace && t.done == s.done && t.cur == s.cur
  {
  }

  lemma InsideFrame(s: State, l: Label)
    requires l.Work? && (s.pc.CStarted? || s.pc.CLoop? || s.pc.CPower? || s.pc.CStopped? || s.pc.CFlush?)
    ensures var t := Next(s, l); t.trace == s.trace && t.done == s.done && t.cur == s.cur
  {
  }

  lemma QuietFrame(s: State, l: Label)
    requires l.Work? && !Sends(s.pc)
    ensures var t := Next(s, l); t.trace == s.trace && t.done == s.done && t.cur == s.cur
  {
    if s.pc.CStarted? || s.pc.CLoop? || s.pc.CPower? || s.pc.CStopped? || s.pc.CFlush? {
      InsideFrame(s, l);
    } else {
      OutsideFrame(s, l);
    }
  }

  lemma QuietStage(s: State, l: Label)
    requires l.Work? && !Sends(s.pc)
    ensures Stage(Next(s, l).pc) == Stage(s.pc) && !Next(s, l).pc.CFirmwareStart? && !Next(s, l).pc.CStarted?
  {
  }

  lemma SameTrace(s: State, t: State)
    requires TraceOk(s) && t.trace == s.trace && t.done == s.done && t.cur == s.cur
    requires t.pc == s.pc || (Stage(t.pc) == Stage(s.pc) && !t.pc.CFirmwareStart? && !t.pc.CStarted?)
    ensures TraceOk(t)
  {
    CurrentOf(s.pc, s.cur);
    CurrentOf(t.pc, t.cur);
  }

  /** A step that sends nothing to the device. */
  lemma QuietTrace(s: State, l: Label)
    requires TraceOk(s) && Enabled(s, l) && (l.Work? ==> !Sends(s.pc))
    ensures TraceOk(Next(s, l))
  {
    if l.Work? {
      QuietFrame(s, l);
      QuietStage(s, l);
    } else {
      HandleFrame(s, l);
    }
    SameTrace(s, Next(s, l));
  }

  lemma SendingTrace(s: State, l: Label)
    requires TraceOk(s) && l.Work? && Sends(s.pc)
    ensures TraceOk(Next(s, l))
  {
    if s.pc == COutputsOn || s.pc == COutputsOff {
      OutputsStep(s, l);
    } else if s.pc == CFirmwareStart {
      OpensSession(s, l);
    } else if s.pc == CRead {
      PollStep(s, l);
    } else {
      ClosesSession(s, l);
    }
  }

  lemma StepTrace(s: State, l: Label)
    requires TraceOk(s) && Enabled(s, l)
    ensures TraceOk(Next(s, l))
  {
    if l.Work? && Sends(s.pc) {
      SendingTrace(s, l);
    } else {
      QuietTrace(s, l);
    }
  }

  /** Steps that leave the output register alone stay on the same side of it. */
  lemma RegisterFrame(s: State, l: Label)
    requires l.Work? && s.pc != CRegister && s.pc != COutputsOn && s.pc != COutputsOff
    ensures Next(s, l).reg50 == s.reg50 && (OutputsEnabled(Next(s, l).pc) <==> OutputsEnabled(s.pc))
    ensures OutputsDisabled(Next(s, l).pc) ==> OutputsDisabled(s.pc)
    ensures Next(s, l).done != [] ==> s.done != [] || s.pc == CFirmwareStop
  {
  }

  lemma RegisterWritten(s: State, l: Label)
    requires RegisterOk(s.pc, s.reg50, s.done != []) && l.Work?
    requires s.pc == CRegister || s.pc == COutputsOn || s.pc == COutputsOff
    ensures RegisterOk(Next(s, l).pc, Next(s, l).reg50, Next(s, l).done != [])
  {
    OutputBits(s.reg50);
  }

  lemma StepRegister(s: State, l: Label)
    requires RegisterOk(s.pc, s.reg50, s.done != []) && Enabled(s, l)
    ensures RegisterOk(Next(s, l).pc, Next(s, l).reg50, Next(s, l).done != [])
  {
    if !l.Work? {
      HandleFrame(s, l);
    } else if s.pc == CRegister || s.pc == COutputsOn || s.pc == COutputsOff {
      RegisterWritten(s, l);
    } else {
      RegisterFrame(s, l);
    }
  }

  /** In every run, whatever the handles write and whichever transfers of the start-up fail: the
      trace is a sequence of complete sessions and a part of one more. So the codec is polled only
      inside a session, a session sends the start commands at most once, before its polls, and the
      stop commands exactly once, after them; and the outputs are enabled in the register
      throughout the polling and disabled after it. */
  lemma {:induction false} TraceIsSessions(s: State, ls: seq<Label>)
    requires Inv(s) && Runs(s, ls)
    ensures Inv(After(s, ls))
    decreases |ls|
  {
    if ls != [] {
      StepTrace(s, ls[0]);
      StepRegister(s, ls[0]);
      TraceIsSessions(Next(s, ls[0]), ls[1..]);
    }
  }

  lemma TraceFromStart(s: State, ls: seq<Label>)
    requires Initial(s) && Runs(s, ls)
    ensures var t := After(s, ls);
            && t.trace == Sessions(t.done) + Current(t.pc, t.cur)
            && (InLoop(t.pc) ==> t.reg50 & 0x6 == 0)
            && (t.done != [] && !OutputsEnabled(t.pc) ==> t.reg50 & 0x6 == 0x6)
  {
    TraceIsSessions(s, ls);
  }

  // ---------------------------------------------------------------- when a capture ends

  /** Between seeing a start and announcing the capture as started. */
  predicate StartingUp(pc: Pc) {
    pc == CTimings || pc == CReset || pc == CRegister || pc == COutputsOn || pc == CFirmwareStart || pc == CStarted
  }

  /** Where the worker will look at the state again before it overwrites it. */
  predicate Listening(pc: Pc) {
    pc == CFlush || pc == TPoll || pc == TQuery || pc == TCheck
  }

  /** The worker may still poll the codec any number of times, unless a handle writes the state. */
  predicate Live(s: State) {
    || StartingUp(s.pc)
    || (Listening(s.pc) && s.dev == Start)
    || (InLoop(s.pc) && s.dev == Started)
  }

  ghost predicate Silent(ls: seq<Label>) {
    forall i | 0 <= i < |ls| :: ls[i].Work?
  }

  function PollCount(trace: seq<Event>): nat {
    if trace == [] then 0 else PollCount(trace[..|trace| - 1]) + (if trace[|trace| - 1] == Poll then 1 else 0)
  }

  /** The polls that can still come once the worker is not live: the one already decided on. */
  function Due(s: State): nat {
    if s.pc == CRead then 1 else 0
  }

  lemma PollCountMore(trace: seq<Event>, e: Event)
    ensures PollCount(trace + [e]) == PollCount(trace) + (if e == Poll then 1 else 0)
  {
    assert (trace + [e])[..|trace|] == trace;
  }

  lemma {:induction false} NoPolls(trace: seq<Event>, more: seq<Event>)
    requires forall i | 0 <= i < |more| :: more[i] != Poll
    ensures PollCount(trace + more) == PollCount(trace)
    decreases |more|
  {
    if more == [] {
      NilUnit(trace);
    } else {
      var m := |more| - 1;
      assert trace + more == (trace + more[..m]) + [more[m]];
      PollCountMore(trace + more[..m], more[m]);
      NoPolls(trace, more[..m]);
    }
  }

  /** No handle writes a start. */
  ghost predicate NoStart(ls: seq<Label>) {
    forall i | 0 <= i < |ls| :: !ls[i].WriteStart?
  }

  lemma QuietStays(s: State, l: Label)
    requires !Live(s) && !l.WriteStart?
    ensures !Live(Next(s, l))
  {
  }

  /** What a step adds to the trace. */
  function Sent(s: State, l: Label): seq<Event> {
    if !l.Work? then []
    else
      match s.pc
      case COutputsOn => [Outputs(true)]
      case CFirmwareStart => if l.frame then START_COMMANDS else []
      case CRead => [Poll]
      case COutputsOff => [Outputs(false)]
      case CFirmwareStop => STOP_COMMANDS
      case _ => []
  }

  lemma TraceGrows(s: State, l: Label)
    ensures Next(s, l).trace == s.trace + Sent(s, l)
  {
    NilUnit(s.trace);
  }

  lemma OnlyReadPolls(s: State, l: Label)
    ensures PollCount(Next(s, l).trace) == PollCount(s.trace) + (if l.Work? && s.pc == CRead then 1 else 0)
  {
    TraceGrows(s, l);
    if l.Work? && s.pc == CRead {
      PollCountMore(s.trace, Poll);
    } else {
      NoPolls(s.trace, Sent(s, l));
    }
  }

  lemma QuietStep(s: State, l: Label)
    requires !Live(s) && !l.WriteStart? && Enabled(s, l)
    ensures PollCount(Next(s, l).trace) + Due(Next(s, l)) <= PollCount(s.trace) + Due(s)
  {
    OnlyReadPolls(s, l);
  }

  lemma NoStartAfter(ls: seq<Label>)
    requires NoStart(ls) && ls != []
    ensures !ls[0].WriteStart? && NoStart(ls[1..])
  {
    var rest := ls[1..];
    forall i | 0 <= i < |rest| ensures !rest[i].WriteStart? {
      assert rest[i] == ls[i + 1];
    }
  }

  lemma NoMore(p: nat, due: nat, p1: nat, due1: nat, p2: nat)
    requires p1 + due1 <= p + due && p2 <= p1 + due1
    ensures p2 <= p + due
  {
  }

  /** A worker that is not live polls at most once more as long as no handle writes a start, even if
      others write more stops or the thread is told to end. */
  lemma {:induction false} QuietRun(s: State, ls: seq<Label>)
    requires !Live(s) && NoStart(ls) && Runs(s, ls)
    ensures !Live(After(s, ls)) && PollCount(After(s, ls).trace) <= PollCount(s.trace) + Due(s)
    decreases |ls|
  {
    if ls != [] {
      var t, rest := Next(s, ls[0]), ls[1..];
      NoStartAfter(ls);
      QuietStays(s, ls[0]);
      QuietStep(s, ls[0]);
      QuietRun(t, rest);
      var u := After(t, rest);
      assert After(s, ls) == u;
      NoMore(PollCount(s.trace), Due(s), PollCount(t.trace), Due(t), PollCount(u.trace));
    }
  }

  /** How many steps of the worker lie between here and the capture loop. */
  function Distance(s: State): nat {
    match s.pc
    case CFlush => 10 case TPoll => 9 case TQuery => 8 case TCheck => 7 case CTimings => 6 case CReset => 5
    case CRegister => 4 case COutputsOn => 3 case CFirmwareStart => 2 case CStarted => 1 case CRead => 1
    case _ => 0
  }

  lemma LiveGoesOn(s: State)
    requires Live(s)
    ensures Live(Next(s, OK)) && !s.pc.TExit?
    ensures s.pc == CLoop || Distance(Next(s, OK)) < Distance(s)
    ensures s.pc == CLoop ==> Next(s, OK).pc == CRead
    ensures s.pc == CRead ==> Next(s, OK).pc == CLoop
  {
  }

  /** A live worker left alone polls as often as one likes. */
  lemma {:induction false} LiveRun(s: State, n: nat) returns (ls: seq<Label>)
    requires Live(s)
    ensures Silent(ls) && Runs(s, ls) && PollCount(After(s, ls).trace) >= PollCount(s.trace) + n
    decreases n, if s.pc == CLoop then 2 else if s.pc == CRead then 1 else Distance(s) + 2
  {
    if n == 0 {
      ls := [];
    } else {
      LiveGoesOn(s);
      OnlyReadPolls(s, OK);
      var rest := LiveRun(Next(s, OK), if s.pc == CRead then n - 1 else n);
      ls := [OK] + rest;
      assert ls[1..] == rest;
    }
  }

  /** As long as no handle writes a start, at most one more poll can come exactly when the worker is
      not live. */
  lemma QuietIff(s: State)
    ensures (forall ls | NoStart(ls) && Runs(s, ls) :: PollCount(After(s, ls).trace) <= PollCount(s.trace) + 1)
            <==> !Live(s)
  {
    if Live(s) {
      var ls := LiveRun(s, 2);
      assert NoStart(ls) && Runs(s, ls) && PollCount(After(s, ls).trace) >= PollCount(s.trace) + 2;
    } else {
      forall ls | NoStart(ls) && Runs(s, ls)
        ensures PollCount(After(s, ls).trace) <= PollCount(s.trace) + 1
      {
        QuietRun(s, ls);
      }
    }
  }

  /** What a write of the state achieves: a stop leaves the worker live exactly when it is written
      during start-up, a start leaves it live there and after the worker has written STOPPED. */
  lemma WhatAWriteAchieves(s: State)
    ensures Live(Next(s, WriteStop)) <==> StartingUp(s.pc)
    ensures Live(Next(s, WriteStart)) <==> StartingUp(s.pc) || Listening(s.pc)
  {
  }

  // ---------------------------------------------------------------- how an attempt ends

  /** No signal: the attempt is given up before anything is sent, and whatever follows, the codec is not
      polled until a handle writes a start. */
  lemma NoSignalGivesUp(s: State, register: Outcome, frame: bool, ls: seq<Label>)
    requires s.pc == CTimings && NoStart(ls)
    requires Runs(Next(s, Work(false, register, frame)), ls)
    ensures var t := Next(s, Work(false, register, frame));
            && t.trace == s.trace && t.done == s.done && t.reg50 == s.reg50 && t.dev == Stopped && t.pc == TPoll
            && PollCount(After(t, ls).trace) == PollCount(s.trace)
  {
    var t := Next(s, Work(false, register, frame));
    QuietRun(t, ls);
    PollsNeverFall(t, ls);
  }

  lemma {:induction false} PollsNeverFall(s: State, ls: seq<Label>)
    requires Runs(s, ls)
    ensures PollCount(After(s, ls).trace) >= PollCount(s.trace)
    decreases |ls|
  {
    if ls != [] {
      OnlyReadPolls(s, ls[0]);
      PollsNeverFall(Next(s, ls[0]), ls[1..]);
    }
  }

  /** A failing register routine gives up too, but leaves what the handles last wrote: if that is a start
      the attempt is repeated, and left alone the codec can be polled as often as one likes; if not,
      it is not polled until a handle writes a start. */
  lemma FailedRegisterRetriesIff(s: State, l: Label, n: nat) returns (more: seq<Label>)
    requires s.pc == CRegister && l.Work? && l.register != Good
    ensures var t := Next(s, l);
            && t.trace == s.trace && t.done == s.done && t.dev == s.dev && t.pc == TPoll
            && (s.dev == Start ==> Silent(more) && Runs(t, more)
                                   && PollCount(After(t, more).trace) >= PollCount(s.trace) + n)
            && (s.dev != Start ==> forall ls | NoStart(ls) && Runs(t, ls) ::
                                     PollCount(After(t, ls).trace) == PollCount(s.trace))
  {
    var t := Next(s, l);
    more := [];
    if s.dev == Start {
      more := LiveRun(t, n);
    } else {
      forall ls | NoStart(ls) && Runs(t, ls) ensures PollCount(After(t, ls).trace) == PollCount(s.trace) {
        QuietRun(t, ls);
        PollsNeverFall(t, ls);
      }
    }
  }

  /** The worker overwrites the state in three places only: when there is no signal, when the capture is
      announced, and when it is over. */
  lemma WorkerWritesIff(s: State, l: Label)
    requires l.Work?
    ensures s.dev != Next(s, l).dev ==>
              (s.pc == CTimings && !l.timings) || s.pc == CStarted || s.pc == CStopped
    ensures (s.pc == CTimings && !l.timings) || s.pc == CStopped ==> Next(s, l).dev == Stopped
    ensures s.pc == CStarted ==> Next(s, l).dev == Started
  {
  }

  /** A register routine that gets as far as the output register disables the outputs, whatever the
      register held and however the routine ends; one that fails before leaves it alone. */
  lemma RegisterRoutineDisables(s: State, l: Label)
    requires s.pc == CRegister && l.Work?
    ensures l.register != FailEarly ==> Next(s, l).reg50 & 0x6 == 0x6
    ensures l.register == FailEarly ==> Next(s, l).reg50 == s.reg50
  {
  }

  /** A frame of zero size: the capture goes on without the encoder having been started. */
  lemma NoFrameNoCommands(s: State, l: Label)
    requires TraceOk(s) && s.pc == CFirmwareStart && l.Work?
    ensures var t := Next(s, l);
            t.pc == CStarted && (t.cur.encoder <==> l.frame) && (!l.frame ==> t.trace == s.trace)
  {
  }

  // ---------------------------------------------------------------- a write in the capture loop

  /** Once a handle has written the state in the capture loop, the session is going to end. */
  ghost predicate Ending(t: State, n: nat, bound: nat) {
    || (|t.done| == n && InLoop(t.pc) && t.dev != Started && t.cur.polls + Due(t) <= bound)
    || (|t.done| == n && (t.pc == COutputsOff || t.pc == CFirmwareStop) && t.cur.polls <= bound)
    || (|t.done| > n && t.done[n].polls <= bound)
  }

  /** A stop (or start) written while the worker is in the capture loop lets this session poll at
      most once more, whatever any handle writes afterwards. */
  lemma {:induction false} WriteInLoopEndsSession(s: State, ls: seq<Label>, n: nat, bound: nat)
    requires Ending(s, n, bound) && Runs(s, ls)
    ensures Ending(After(s, ls), n, bound)
    decreases |ls|
  {
    if ls != [] {
      assert Ending(Next(s, ls[0]), n, bound);
      WriteInLoopEndsSession(Next(s, ls[0]), ls[1..], n, bound);
    }
  }

  lemma StopInLoop(s: State, ls: seq<Label>)
    requires InLoop(s.pc) && Runs(Next(s, WriteStop), ls)
    ensures var t := After(Next(s, WriteStop), ls);
            && (|t.done| == |s.done| ==> t.cur.polls <= s.cur.polls + 1)
            && (|t.done| > |s.done| ==> t.done[|s.done|].polls <= s.cur.polls + 1)
            && |t.done| >= |s.done|
  {
    WriteInLoopEndsSession(Next(s, WriteStop), ls, |s.done|, s.cur.polls + 1);
  }

  /** A stop, wherever it is written, with no later start: at most one more poll in every
      continuation, exactly unless it is written during start-up. */
  lemma StopEndsPollingIff(s: State)
    ensures (forall ls | NoStart(ls) && Runs(Next(s, WriteStop), ls) ::
               PollCount(After(Next(s, WriteStop), ls).trace) <= PollCount(s.trace) + 1)
            <==> !StartingUp(s.pc)
  {
    QuietIff(Next(s, WriteStop));
    WhatAWriteAchieves(s);
  }

  lemma Chain(s: State, l: Label, ls: seq<Label>)
    requires Enabled(s, l) && Runs(Next(s, l), ls)
    ensures Runs(s, [l] + ls) && After(s, [l] + ls) == After(Next(s, l), ls)
  {
    assert ([l] + ls)[1..] == ls;
  }

  /** From the start there is a run to a stop written during start-up: after it, with no more writes,
      the codec is polled as often as one likes. */
  lemma StopCanBeLost(s: State, n: nat) returns (ls: seq<Label>, more: seq<Label>)
    requires Initial(s)
    ensures Runs(s, ls) && StartingUp(After(s, ls).pc)
    ensures var t := Next(After(s, ls), WriteStop);
            Silent(more) && Runs(t, more) && PollCount(After(t, more).trace) >= PollCount(t.trace) + n
  {
    var t1 := Next(s, WriteStart);
    var t2 := Next(t1, OK);
    var t3 := Next(t2, OK);
    Chain(t3, OK, []);
    Chain(t2, OK, [OK] + []);
    Chain(t1, OK, [OK] + ([OK] + []));
    ls := [WriteStart] + ([OK] + ([OK] + ([OK] + [])));
    Chain(s, WriteStart, ls[1..]);
    assert ls[1..] == [OK] + ([OK] + ([OK] + []));
    WhatAWriteAchieves(After(s, ls));
    more := LiveRun(Next(After(s, ls), WriteStop), n);
  }
}
