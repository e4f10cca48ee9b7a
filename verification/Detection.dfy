/** Signal detection in the HDMI receiver: the table of video standards and the state that
    follows the lock. */
module Detection {
  import opened Bytes

  /** What the driver measures of the incoming signal. */
  datatype Timings = Timings(htotal: nat, vtotal: nat, hperiod: nat, vperiod: nat, detectdelay: nat,
                             hactive: nat, interleaved: nat)

  const NO_TIMINGS := Timings(0, 0, 0, 0, 0, 0, 0)

  /** A row of the table; `name` stands for the formal timing. */
  datatype Standard = Standard(name: string, htotalMin: nat, htotalMax: nat, vtotalMin: nat, vtotalMax: nat,
                               hperiodMin: nat, hperiodMax: nat, vperiodMin: nat, vperiodMax: nat,
                               interleaved: nat, encodedFps: nat, hdmiFpsX100: nat)
  {
    predicate Accepts(t: Timings) {
      && htotalMin <= t.htotal <= htotalMax
      && vtotalMin <= t.vtotal <= vtotalMax
      && hperiodMin <= t.hperiod <= hperiodMax
      && vperiodMin <= t.vperiod <= vperiodMax
      && t.interleaved == interleaved
    }
  }

  const STANDARDS: seq<Standard> := [
    Standard("CEA_720X480P59_94", 845, 865, 520, 525, 310, 320, 595, 605, 0, 60, 5994),
    Standard("CEA_1280X720P30", 2300, 2500, 745, 755, 215, 235, 290, 310, 0, 30, 3000),
    Standard("CEA_1280X720P50", 2965, 2985, 745, 755, 360, 380, 480, 520, 0, 50, 5000),
    Standard("CEA_1280X720P60", 2470, 2480, 745, 755, 445, 455, 595, 605, 0, 60, 6000),
    Standard("CEA_1280X720P60", 1645, 1655, 745, 755, 445, 455, 595, 605, 0, 60, 6000),
    Standard("CEA_1920X1080P24", 4080, 4105, 1120, 1130, 260, 280, 230, 250, 0, 24, 2400),
    Standard("CEA_1920X1080P25", 3950, 3970, 1120, 1130, 270, 290, 240, 254, 0, 25, 2500),
    Standard("CEA_1920X1080P30", 2295, 3305, 1120, 1130, 330, 345, 290, 310, 0, 30, 3000),
    Standard("CEA_1920X1080P50", 3950, 3970, 1120, 1130, 550, 570, 480, 520, 0, 25, 5000),
    Standard("CEA_1920X1080P60", 3290, 3310, 1120, 1130, 665, 685, 595, 605, 0, 30, 6000)]

  /** A row is passed over exactly when a value is beyond one of its bounds, which belong to the range, or
      the interlacing differs. */
  lemma RejectsIff(e: Standard, t: Timings)
    ensures !e.Accepts(t) <==>
              || t.htotal < e.htotalMin || e.htotalMax < t.htotal || t.vtotal < e.vtotalMin || e.vtotalMax < t.vtotal
              || t.hperiod < e.hperiodMin || e.hperiodMax < t.hperiod
              || t.vperiod < e.vperiodMin || e.vperiodMax < t.vperiod
              || t.interleaved != e.interleaved
  {
  }

  // ---------------------------------------------------------------- the lookup

  /** Two rows that no measurement satisfies together. */
  predicate Disjoint(a: Standard, b: Standard) {
    || a.htotalMax < b.htotalMin || b.htotalMax < a.htotalMin
    || a.vtotalMax < b.vtotalMin || b.vtotalMax < a.vtotalMin
    || a.hperiodMax < b.hperiodMin || b.hperiodMax < a.hperiodMin
    || a.vperiodMax < b.vperiodMin || b.vperiodMax < a.vperiodMin
    || a.interleaved != b.interleaved
  }

  ghost predicate Unambiguous(table: seq<Standard>) {
    forall i, j | 0 <= i < j < |table| :: Disjoint(table[i], table[j])
  }

  /** The first row that accepts the measurement. */
  function FirstMatch(table: seq<Standard>, t: Timings): Option<Standard> {
    if table == [] then None
    else if table[0].Accepts(t) then Some(table[0])
    else FirstMatch(table[1..], t)
  }

  /** The search loop of `findVideoStandard`. */
  method FindVideoStandard(t: Timings) returns (r: Option<Standard>)
    ensures r == FirstMatch(STANDARDS, t)
  {
    var i := 0;
    r := None;
    while i < |STANDARDS|
      invariant 0 <= i <= |STANDARDS|
      invariant r == None && FirstMatch(STANDARDS, t) == FirstMatch(STANDARDS[i..], t)
    {
      var e := STANDARDS[i];
      assert STANDARDS[i..][1..] == STANDARDS[i + 1..];
      if e.Accepts(t) {
        return Some(e);
      }
      i := i + 1;
    }
  }

  lemma TableUnambiguous()
    ensures Unambiguous(STANDARDS)
  {
  }

  lemma {:induction false} FirstMatchFinds(table: seq<Standard>, t: Timings)
    ensures match FirstMatch(table, t)
            case Some(e) => e in table && e.Accepts(t)
            case None => forall e | e in table :: !e.Accepts(t)
  {
    if table != [] {
      FirstMatchFinds(table[1..], t);
    }
  }

  /** In an unambiguous table the result is the one accepting row, whatever the order of rows. */
  lemma {:induction false} OrderDoesNotMatter(table: seq<Standard>, other: seq<Standard>, t: Timings)
    requires Unambiguous(table) && multiset(other) == multiset(table)
    ensures FirstMatch(other, t) == FirstMatch(table, t)
  {
    FirstMatchFinds(table, t);
    FirstMatchFinds(other, t);
    assert forall e :: e in table <==> e in multiset(table);
    assert forall e :: e in other <==> e in multiset(other);
    if FirstMatch(table, t).Some? && FirstMatch(other, t).Some? {
      OnlyOneAccepts(table, t, FirstMatch(table, t).value, FirstMatch(other, t).value);
    }
  }

  lemma DisjointApart(table: seq<Standard>, t: Timings, i: nat, j: nat)
    requires Unambiguous(table) && i < j < |table| && table[i].Accepts(t)
    ensures !table[j].Accepts(t)
  {
    assert Disjoint(table[i], table[j]);
  }

  lemma OnlyOneAccepts(table: seq<Standard>, t: Timings, a: Standard, b: Standard)
    requires Unambiguous(table) && a in table && b in table && a.Accepts(t) && b.Accepts(t)
    ensures a == b
  {
    var i :| 0 <= i < |table| && table[i] == a;
    var j :| 0 <= j < |table| && table[j] == b;
    if i < j {
      DisjointApart(table, t, i, j);
    } else if j < i {
      DisjointApart(table, t, j, i);
    }
  }

  /** The lookup in the driver's table: a row is returned if and only if it accepts the
      measurement, and any reordering of the table would return the same. */
  lemma LookupIsExact(t: Timings, e: Standard, other: seq<Standard>)
    requires multiset(other) == multiset(STANDARDS)
    ensures FirstMatch(STANDARDS, t) == Some(e) <==> e in STANDARDS && e.Accepts(t)
    ensures FirstMatch(other, t) == FirstMatch(STANDARDS, t)
  {
    TableUnambiguous();
    OrderDoesNotMatter(STANDARDS, other, t);
    FirstMatchFinds(STANDARDS, t);
    if e in STANDARDS && e.Accepts(t) {
      OnlyOneAccepts(STANDARDS, t, FirstMatch(STANDARDS, t).value, e);
    }
  }

  // ---------------------------------------------------------------- the detection state

  /** The chip registers one detect call reads. */
  datatype Signal = Signal(r55: byte, r6a: byte, r6b: byte, r5b: byte, r5c: byte, r57: byte, r58: byte,
                           r59: byte, r5a: byte, r5f: byte, b2r29: byte, b2r28: byte)

  function Word(hi: byte, lo: byte): nat {
    hi as nat * 256 + lo as nat
  }

  /** A period from a counter; a counter of zero leaves the old one. */
  function Period(clock: nat, count: nat, before: nat): nat {
    if count > 0 then clock / count else before
  }

  function Interleaved(r5f: byte): nat {
    if r5f & 0x02 != 0 then 1 else 0
  }

  function HCount(g: Signal): nat {
    Word(g.r57 & 0x3f, g.r58)
  }

  function VCount(g: Signal): nat {
    Word(g.r59 & 0x3f, g.r5a)
  }

  /** The measurement a detect call stores. */
  function Measure(old_: Timings, g: Signal): Timings {
    var hp, vp := HCount(g), VCount(g);
    Timings(Word(g.r6a, g.r6b) % 0x1000, Word(g.r5b, g.r5c) % 0x800,
            Period(1600000, hp, old_.hperiod), Period(1250000, vp, old_.vperiod),
            (vp + 63) * 2 / 125,
            Word(g.b2r29, g.b2r28) % 0x2000,
            Interleaved(g.r5f))
  }

  predicate SignalPresent(g: Signal) {
    g.r55 & 0x3c != 0
  }

  /** A signal is present when one of bits 2 to 5 is set. */
  lemma SignalPresentIff(g: Signal)
    ensures SignalPresent(g) <==> (g.r55 >> 2) & 1 == 1 || (g.r55 >> 3) & 1 == 1
                                  || (g.r55 >> 4) & 1 == 1 || (g.r55 >> 5) & 1 == 1
  {
  }

  /** The registers show these raw values: each in the low bits of a pair, high byte first, whatever the
      bits above. */
  ghost predicate Shows(g: Signal, htotal: nat, vtotal: nat, hactive: nat, hcount: nat, vcount: nat, fields: nat) {
    && htotal < 0x1000 && g.r6a as nat % 0x10 == htotal / 0x100 && g.r6b as nat == htotal % 0x100
    && vtotal < 0x800 && g.r5b as nat % 0x8 == vtotal / 0x100 && g.r5c as nat == vtotal % 0x100
    && hactive < 0x2000 && g.b2r29 as nat % 0x20 == hactive / 0x100 && g.b2r28 as nat == hactive % 0x100
    && hcount < 0x4000 && g.r57 as nat % 0x40 == hcount / 0x100 && g.r58 as nat == hcount % 0x100
    && vcount < 0x4000 && g.r59 as nat % 0x40 == vcount / 0x100 && g.r5a as nat == vcount % 0x100
    && fields < 2 && g.r5f as nat / 2 % 2 == fields
  }

  lemma Pair(hi: nat, lo: nat, top: nat, n: nat)
    requires top > 0 && n < top * 0x100 && hi % top == n / 0x100 && lo == n % 0x100
    ensures (hi * 0x100 + lo) % (top * 0x100) == n
  {
    var q := hi / top;
    assert hi == q * top + n / 0x100;
    assert hi * 0x100 + lo == q * (top * 0x100) + n;
    Remainder(hi * 0x100 + lo, top * 0x100, q, n);
  }

  lemma Remainder(m: nat, d: nat, q: nat, n: nat)
    requires m == q * d + n && n < d
    ensures m % d == n
  {
    var e := m / d - q;
    assert e * d == n - m % d;
    assert e >= 1 ==> e * d >= d;
    assert e <= -1 ==> e * d <= 0 - d;
  }

  lemma LowSix(b: byte)
    ensures (b & 0x3f) as nat == b as nat % 0x40
  {
  }

  lemma Counted(hi: byte, lo: byte, n: nat)
    requires n < 0x4000 && hi as nat % 0x40 == n / 0x100 && lo as nat == n % 0x100
    ensures Word(hi & 0x3f, lo) == n
  {
    LowSix(hi);
  }

  lemma FieldBit(b: byte)
    ensures (b & 0x02 != 0) <==> b as nat / 2 % 2 == 1
  {
  }

  /** Totals, active width and interlacing are what the registers show. */
  lemma TotalsAre(old_: Timings, g: Signal, htotal: nat, vtotal: nat, hactive: nat, hcount: nat, vcount: nat, fields: nat)
    requires Shows(g, htotal, vtotal, hactive, hcount, vcount, fields)
    ensures var m := Measure(old_, g);
            m.htotal == htotal && m.vtotal == vtotal && m.hactive == hactive && m.interleaved == fields
  {
    Pair(g.r6a as nat, g.r6b as nat, 0x10, htotal);
    Pair(g.r5b as nat, g.r5c as nat, 0x8, vtotal);
    Pair(g.b2r29 as nat, g.b2r28 as nat, 0x20, hactive);
    FieldBit(g.r5f);
  }

  /** The counters behind the periods are what the registers show. */
  lemma CountersAre(g: Signal, htotal: nat, vtotal: nat, hactive: nat, hcount: nat, vcount: nat, fields: nat)
    requires Shows(g, htotal, vtotal, hactive, hcount, vcount, fields)
    ensures HCount(g) == hcount && VCount(g) == vcount
  {
    Counted(g.r57, g.r58, hcount);
    Counted(g.r59, g.r5a, vcount);
  }

  /** The periods are frequencies of the two counters, unless a counter is zero, and the delay follows
      from the vertical one. */
  lemma PeriodsAre(old_: Timings, g: Signal)
    ensures var m, h, v := Measure(old_, g), HCount(g), VCount(g);
            && (h == 0 ==> m.hperiod == old_.hperiod) && (v == 0 ==> m.vperiod == old_.vperiod)
            && (h > 0 ==> m.hperiod == 1600000 / h) && (v > 0 ==> m.vperiod == 1250000 / v)
            && m.detectdelay == (v + 63) * 2 / 125
  {
  }

  /** `notes` are the notifications sent: true for present, false for absent. */
  datatype Detector = Detector(haveSource: bool, detectedSignal: bool, standard: Option<Standard>,
                               timings: Timings, notes: seq<bool>)

  /** The probe state. */
  const INITIAL := Detector(false, false, None, NO_TIMINGS, [])

  /** Did this detect call end locked? */
  function Locks(d: Detector, g: Signal): bool {
    SignalPresent(g) && FirstMatch(STANDARDS, Measure(d.timings, g)).Some?
  }

  class HdmiReceiver {
    var haveSource: bool
    var detectedSignal: bool
    var detectedStandard: Option<Standard>
    var currentTimings: Timings
    var notes: seq<bool>

    ghost function Abs(): Detector
      reads this
    {
      Detector(haveSource, detectedSignal, detectedStandard, currentTimings, notes)
    }

    constructor ()
      ensures Abs() == INITIAL
    {
      haveSource, detectedSignal, detectedStandard := false, false, None;
      currentTimings, notes := NO_TIMINGS, [];
    }

    /** The detect call: state after it, whether it locked, and its result (false for -ENOLINK). */
    method ModeDetect(g: Signal) returns (locked: bool, link: bool)
      modifies this
      ensures Abs() == Detect(old(Abs()), g)
      ensures locked == Locks(old(Abs()), g) && link == SignalPresent(g)
    {
      link, locked := false, false;
      if g.r55 & 0x3c != 0 {
        currentTimings := Measure(currentTimings, g);
        detectedStandard := FindVideoStandard(currentTimings);
        locked := detectedStandard.Some?;
        link := true;
      }
      if locked {
        detectedSignal := true;
        if !haveSource {
          haveSource := true;
          notes := notes + [true];
        }
      } else {
        currentTimings := NO_TIMINGS;
        detectedSignal := false;
        if haveSource {
          haveSource := false;
          notes := notes + [false];
        }
      }
    }

    /** The timing query of the bridge: None is -ENODATA. */
    method GetDvTimings() returns (r: Option<Standard>)
      requires Consistent(Abs())
      ensures r == if detectedSignal then detectedStandard else None
      ensures r.Some? <==> detectedSignal
    {
      r := None;
      if detectedSignal {
        // the driver dereferences detectedStandard here
        r := Some(detectedStandard.value);
      }
    }
  }

  function Detect(d: Detector, g: Signal): Detector {
    var t := Measure(d.timings, g);
    var std := if SignalPresent(g) then FirstMatch(STANDARDS, t) else d.standard;
    var lock := Locks(d, g);
    Detector(lock, lock, std, if lock then t else NO_TIMINGS,
             if lock == d.haveSource then d.notes else d.notes + [lock])
  }

  /** A detected signal has a standard, and that standard accepts the stored measurement. */
  ghost predicate Consistent(d: Detector) {
    && (d.haveSource <==> d.detectedSignal)
    && (d.detectedSignal ==> d.standard.Some? && d.standard.value in STANDARDS && d.standard.value.Accepts(d.timings))
    && (!d.detectedSignal ==> d.timings == NO_TIMINGS)
  }

  function DetectAll(d: Detector, gs: seq<Signal>): Detector
    decreases |gs|
  {
    if gs == [] then d else Detect(DetectAll(d, gs[..|gs| - 1]), gs[|gs| - 1])
  }

  /** The result of each detect call of a sequence. */
  function LockHistory(d: Detector, gs: seq<Signal>): (h: seq<bool>)
    ensures |h| == |gs|
    decreases |gs|
  {
    if gs == [] then []
    else LockHistory(d, gs[..|gs| - 1]) + [Locks(DetectAll(d, gs[..|gs| - 1]), gs[|gs| - 1])]
  }

  /** The changes in a sequence of lock results, starting from no lock. */
  function Changes(h: seq<bool>): seq<bool> {
    if h == [] then []
    else
      var last, before := h[|h| - 1], |h| > 1 && h[|h| - 2];
      if last == before then Changes(h[..|h| - 1]) else Changes(h[..|h| - 1]) + [last]
  }

  lemma DetectKeeps(d: Detector, g: Signal)
    requires Consistent(d)
    ensures Consistent(Detect(d, g))
  {
    FirstMatchFinds(STANDARDS, Measure(d.timings, g));
  }

  /** What the notifications have to do with the lock results. */
  ghost predicate Follows(d: Detector, h: seq<bool>) {
    && d.haveSource == (|h| > 0 && h[|h| - 1])
    && d.notes == Changes(h)
    && Alternating(d.notes) && d.haveSource == (|d.notes| % 2 == 1)
  }

  lemma ChangesMore(h: seq<bool>, b: bool)
    ensures Changes(h + [b]) == if b == (|h| > 0 && h[|h| - 1]) then Changes(h) else Changes(h) + [b]
  {
    assert (h + [b])[..|h|] == h;
  }

  lemma AlternatingMore(notes: seq<bool>, b: bool)
    requires Alternating(notes) && b == (|notes| % 2 == 0)
    ensures Alternating(notes + [b])
  {
  }

  lemma NotesGrow(notes: seq<bool>, have: bool, lock: bool)
    requires Alternating(notes) && have == (|notes| % 2 == 1)
    ensures var more := if lock == have then notes else notes + [lock];
            Alternating(more) && lock == (|more| % 2 == 1)
  {
    if lock != have {
      AlternatingMore(notes, lock);
    }
  }

  lemma FollowsOn(d: Detector, h: seq<bool>, next: Detector, lock: bool)
    requires Follows(d, h)
    requires next.haveSource == lock && next.notes == if lock == d.haveSource then d.notes else d.notes + [lock]
    ensures Follows(next, h + [lock])
  {
    ChangesMore(h, lock);
    NotesGrow(d.notes, d.haveSource, lock);
    assert (h + [lock])[|h|] == lock;
  }

  /** After any sequence of detect calls the state tells the last result, the notifications are
      exactly the lock changes, and they alternate, present first. */
  lemma {:induction false} DetectionFollowsLock(gs: seq<Signal>)
    ensures Consistent(DetectAll(INITIAL, gs))
    ensures Follows(DetectAll(INITIAL, gs), LockHistory(INITIAL, gs))
    decreases |gs|
  {
    if gs != [] {
      var before, g := gs[..|gs| - 1], gs[|gs| - 1];
      DetectionFollowsLock(before);
      DetectKeeps(DetectAll(INITIAL, before), g);
      var d := DetectAll(INITIAL, before);
      FollowsOn(d, LockHistory(INITIAL, before), Detect(d, g), Locks(d, g));
    }
  }

  /** The stored standard is the one found for the last signal there was, whether it accepts or not. */
  function LastLookup(gs: seq<Signal>): Option<Standard>
    decreases |gs|
  {
    if gs == [] then None
    else
      var before, g := gs[..|gs| - 1], gs[|gs| - 1];
      if SignalPresent(g) then FirstMatch(STANDARDS, Measure(DetectAll(INITIAL, before).timings, g))
      else LastLookup(before)
  }

  lemma {:induction false} StandardIsLastLookup(gs: seq<Signal>)
    ensures DetectAll(INITIAL, gs).standard == LastLookup(gs)
    decreases |gs|
  {
    if gs != [] {
      StandardIsLastLookup(gs[..|gs| - 1]);
    }
  }

  /** A detect call locks if and only if there is a signal and a row of the table accepts it. */
  lemma LocksIff(d: Detector, g: Signal)
    ensures Locks(d, g) <==> SignalPresent(g) && exists e | e in STANDARDS :: e.Accepts(Measure(d.timings, g))
  {
    FirstMatchFinds(STANDARDS, Measure(d.timings, g));
  }

  // ---------------------------------------------------------------- inside a detect call

  /** The state after the standard was stored and before the lock state is, which a query from
      another thread can see. */
  function HalfWay(d: Detector, g: Signal): Detector
    requires SignalPresent(g)
  {
    var t := Measure(d.timings, g);
    d.(timings := t, standard := FirstMatch(STANDARDS, t))
  }

  /** There the query dereferences a null standard exactly when a signal was known and no row of the
      table accepts what is measured now. */
  lemma NullStandardHalfWayIff(d: Detector, g: Signal)
    requires Consistent(d) && SignalPresent(g)
    ensures var m := HalfWay(d, g);
            (m.detectedSignal && m.standard.None?)
            <==> d.haveSource && forall e | e in STANDARDS :: !e.Accepts(Measure(d.timings, g))
  {
    FirstMatchFinds(STANDARDS, Measure(d.timings, g));
  }

  /** A 720x480 signal, and one whose line length has dropped to zero. */
  const GOOD := Signal(0x04, 0x03, 0x52, 0x02, 0x0d, 0x13, 0xd8, 0x08, 0x23, 0x00, 0x00, 0x00)
  const BAD := Signal(0x04, 0x00, 0x00, 0x02, 0x0d, 0x13, 0xd8, 0x08, 0x23, 0x00, 0x00, 0x00)

  lemma Measured(old_: Timings)
    ensures Measure(old_, GOOD) == Timings(850, 525, 314, 600, 34, 0, 0)
    ensures Measure(old_, BAD) == Timings(0, 525, 314, 600, 34, 0, 0)
  {
    assert HCount(GOOD) == 5080 && VCount(GOOD) == 2083 && HCount(BAD) == 5080 && VCount(BAD) == 2083;
    assert Word(0x03, 0x52) == 850 && Word(0x02, 0x0d) == 525;
  }

  /** Both happens: after one detect call locks, the next meets the query half way. */
  lemma NullStandardHappens()
    ensures SignalPresent(BAD)
    ensures var d := DetectAll(INITIAL, [GOOD]);
            var m := HalfWay(d, BAD);
            m.detectedSignal && m.standard.None?
  {
    Measured(NO_TIMINGS);
    var d := DetectAll(INITIAL, [GOOD]);
    assert [GOOD][..0] == [] && DetectAll(INITIAL, []) == INITIAL;
    assert d == Detect(INITIAL, GOOD);
    assert STANDARDS[0].Accepts(Measure(NO_TIMINGS, GOOD));
    Measured(d.timings);
    DetectKeeps(INITIAL, GOOD);
    NullStandardHalfWayIff(d, BAD);
  }
}
