/** The histogram the driver keeps of its own timing, and the time arithmetic behind it. */
module Histogram {
  import opened Bytes

  const LOOKUP_MAX := 50
  const COUNTERS := 64

  /** The upper bounds of the buckets above 50 milliseconds. */
  const TAIL: seq<nat> := [100, 150, 200, 250, 300, 350, 500, 700, 900, 1000, 5000, 15000, 60000]

  /** The bound of a bucket: positions 0 to 50 hold 0 to 50 milliseconds. */
  function Bound(i: nat): nat
    requires i < COUNTERS
  {
    if i <= LOOKUP_MAX then i else TAIL[i - LOOKUP_MAX - 1]
  }

  /** The first bucket from i on whose bound is not below the value. */
  function Search(val: nat, i: nat): Option<nat>
    requires i <= COUNTERS
    decreases COUNTERS - i
  {
    if i == COUNTERS then None else if val <= Bound(i) then Some(i) else Search(val, i + 1)
  }

  /** The bounds rise strictly. */
  lemma BoundsRise(i: nat, j: nat)
    requires i < j < COUNTERS
    ensures Bound(i) < Bound(j)
  {
  }

  lemma {:induction false} SearchFinds(val: nat, i: nat)
    requires i <= COUNTERS
    ensures match Search(val, i)
            case Some(b) => i <= b < COUNTERS && val <= Bound(b) && forall k | i <= k < b :: Bound(k) < val
            case None => forall k | i <= k < COUNTERS :: Bound(k) < val
    decreases COUNTERS - i
  {
    if i < COUNTERS {
      SearchFinds(val, i + 1);
    }
  }

  /** Searching need not start below a bucket whose bound is too small. */
  lemma {:induction false} SearchSkips(val: nat, i: nat)
    requires i <= LOOKUP_MAX && val > LOOKUP_MAX
    ensures Search(val, i) == Search(val, LOOKUP_MAX)
    decreases LOOKUP_MAX - i
  {
    if i < LOOKUP_MAX {
      SearchSkips(val, i + 1);
    }
  }

  lemma {:induction false} SearchSmall(val: nat, i: nat)
    requires i <= val <= LOOKUP_MAX
    ensures Search(val, i) == Some(val)
    decreases val - i
  {
    if i < val {
      SearchSmall(val, i + 1);
    }
  }

  /** Only values above a minute have no bucket. */
  lemma UncountedIff(val: nat)
    ensures Search(val, 0) == None <==> val > 60000
  {
    SearchFinds(val, 0);
    BelowLast();
  }

  lemma BelowLast()
    ensures forall k | 0 <= k < COUNTERS :: Bound(k) <= 60000
    ensures Bound(COUNTERS - 1) == 60000
  {
    forall k | 0 <= k < COUNTERS ensures Bound(k) <= 60000 {
      if k < COUNTERS - 1 {
        BoundsRise(k, COUNTERS - 1);
      }
    }
  }

  class Counters {
    const counts: array<nat>
    /** The samples counted so far. */
    ghost var samples: seq<nat>

    ghost predicate Valid()
      reads this, counts
    {
      counts.Length == COUNTERS
      && forall i | 0 <= i < COUNTERS :: counts[i] == Tally(samples, i)
    }

    constructor ()
      ensures Valid() && samples == [] && fresh(counts)
    {
      counts := new nat[COUNTERS](_ => 0);
      samples := [];
    }

    /** Up to 50 the value is the bucket; above, the tail is searched. Both pick the bucket of a
        search of the whole table, and a value above all bounds is not counted. */
    method UpdateWithValue(val: nat)
      requires Valid()
      modifies this, counts
      ensures Valid() && samples == old(samples) + [val]
    {
      TallyMore(samples, val);
      samples := samples + [val];
      if val <= LOOKUP_MAX {
        SearchSmall(val, 0);
        counts[val] := counts[val] + 1;
      } else {
        SearchSkips(val, 0);
        var i := LOOKUP_MAX;
        while i < COUNTERS
          invariant LOOKUP_MAX <= i <= COUNTERS
          invariant Search(val, 0) == Search(val, i)
          invariant forall k | 0 <= k < COUNTERS :: counts[k] == old(counts[k])
        {
          if val <= Bound(i) {
            counts[i] := counts[i] + 1;
            break;
          }
          i := i + 1;
        }
      }
    }
  }

  /** How many of the samples belong to bucket i. */
  function Tally(samples: seq<nat>, i: nat): nat {
    if samples == [] then 0
    else Tally(samples[..|samples| - 1], i) + (if Search(samples[|samples| - 1], 0) == Some(i) then 1 else 0)
  }

  lemma TallyMore(samples: seq<nat>, val: nat)
    ensures forall i: nat :: Tally(samples + [val], i) == Tally(samples, i) + (if Search(val, 0) == Some(i) then 1 else 0)
  {
    assert (samples + [val])[..|samples|] == samples;
  }

  function TallySum(samples: seq<nat>, i: nat): nat {
    Tally(samples, i) + (if i == 0 then 0 else TallySum(samples, i - 1))
  }

  function AtMost(samples: seq<nat>, bound: nat): nat {
    if samples == [] then 0
    else AtMost(samples[..|samples| - 1], bound) + (if samples[|samples| - 1] <= bound then 1 else 0)
  }

  /** The bucket of a value is among the first i exactly when the value is within bound i. */
  lemma BucketWithin(val: nat, i: nat)
    requires i < COUNTERS
    ensures (Search(val, 0).Some? && Search(val, 0).value <= i) <==> val <= Bound(i)
  {
    SearchFinds(val, 0);
    match Search(val, 0)
    case Some(b) =>
      if b < i {
        BoundsRise(b, i);
      }
    case None =>
  }

  /** Adding a sample raises the sum of the first buckets by one if its bucket is among them. */
  lemma {:induction false} SumMore(samples: seq<nat>, val: nat, i: nat)
    ensures TallySum(samples + [val], i)
            == TallySum(samples, i) + (if Search(val, 0).Some? && Search(val, 0).value <= i then 1 else 0)
  {
    TallyMore(samples, val);
    if i > 0 {
      SumMore(samples, val, i - 1);
    }
  }

  lemma {:induction false} SumEmpty(i: nat)
    ensures TallySum([], i) == 0
  {
    if i > 0 {
      SumEmpty(i - 1);
    }
  }

  /** The histogram is cumulative-exact: the first i + 1 buckets together count exactly the samples
      not above bound i. */
  lemma {:induction false} PrefixSumsAreExact(samples: seq<nat>, i: nat)
    requires i < COUNTERS
    ensures TallySum(samples, i) == AtMost(samples, Bound(i))
    decreases |samples|
  {
    if samples == [] {
      SumEmpty(i);
    } else {
      var before, val := samples[..|samples| - 1], samples[|samples| - 1];
      assert samples == before + [val];
      PrefixSumsAreExact(before, i);
      SumMore(before, val, i);
      BucketWithin(val, i);
    }
  }

  // ---------------------------------------------------------------- time arithmetic

  datatype TimeVal = TimeVal(sec: int, usec: int) {
    function Micros(): int {
      sec * 1000000 + usec
    }

    predicate Normal() {
      0 <= usec < 1000000
    }
  }

  /** `timeval_subtract`: the difference, the flag that it is negative, and what becomes of y. All
      divisions have non-negative operands. */
  method Subtract(x: TimeVal, y: TimeVal) returns (result: TimeVal, negative: bool, y': TimeVal)
    ensures result.Micros() == x.Micros() - y.Micros()
    ensures y'.Micros() == y.Micros()
    ensures result == Difference(x, y) && negative == (result.sec < 0)
  {
    y' := y;
    if x.usec < y'.usec {
      var nsec := (y'.usec - x.usec) / 1000000 + 1;
      y' := TimeVal(y'.sec + nsec, y'.usec - 1000000 * nsec);
    }
    if x.usec - y'.usec > 1000000 {
      var nsec := (x.usec - y'.usec) / 1000000;
      y' := TimeVal(y'.sec - nsec, y'.usec + 1000000 * nsec);
    }
    result := TimeVal(x.sec - y'.sec, x.usec - y'.usec);
    negative := x.sec < y'.sec;
  }

  /** The pair the subtraction produces, given the microseconds d of x past those of y. */
  function Difference(x: TimeVal, y: TimeVal): TimeVal {
    var d := x.usec - y.usec;
    if d < 0 then TimeVal(x.sec - y.sec - (-d / 1000000 + 1), d + 1000000 * (-d / 1000000 + 1))
    else if d > 1000000 then TimeVal(x.sec - y.sec + d / 1000000, d % 1000000)
    else TimeVal(x.sec - y.sec, d)
  }

  /** The microsecond part is in 0..999999 except when the two microsecond parts differ by a whole
      number of seconds and y's is the larger, or x's is larger by exactly one second; then it is
      1000000. The flag is the sign of the difference except in that case with a difference of
      zero. Normalised times are never in that case. */
  lemma SubtractIsNormalIff(x: TimeVal, y: TimeVal)
    ensures var r, d := Difference(x, y), x.usec - y.usec;
            && (r.Normal() <==> !(d < 0 && -d % 1000000 == 0) && d != 1000000)
            && (!r.Normal() ==> r.usec == 1000000)
            && ((r.sec < 0 <==> x.Micros() < y.Micros()) <==> r.Normal() || x.Micros() != y.Micros())
    ensures x.Normal() && y.Normal() ==> Difference(x, y).Normal()
  {
    var d := x.usec - y.usec;
    if d < 0 {
      var q, m := -d / 1000000, -d % 1000000;
      assert -d == q * 1000000 + m;
    }
  }

  function ToMillis(t: TimeVal): int
    requires t.sec >= 0 && t.usec >= 0
  {
    t.sec * 1000 + t.usec / 1000
  }

  /** Cumulative measuring over normalised clock readings that do not run backwards: the sum of the
      intervals, each cut to whole milliseconds. */
  ghost predicate Forward(spans: seq<(TimeVal, TimeVal)>) {
    forall i | 0 <= i < |spans| ::
      spans[i].0.Normal() && spans[i].1.Normal() && spans[i].0.Micros() <= spans[i].1.Micros()
  }

  lemma ForwardDifference(a: TimeVal, b: TimeVal)
    requires a.Normal() && b.Normal() && a.Micros() <= b.Micros()
    ensures var r := Difference(b, a);
            r.Normal() && r.sec >= 0 && r.Micros() == b.Micros() - a.Micros()
            && ToMillis(r) == (b.Micros() - a.Micros()) / 1000
  {
    var d := b.usec - a.usec;
    if d < 0 {
      assert -d / 1000000 == 0;
    }
  }

  /** The begin and complete calls of a cumulative measurement. */
  method Cumulate(spans: seq<(TimeVal, TimeVal)>) returns (msecs: int)
    requires Forward(spans)
    ensures msecs == Cumulated(spans)
  {
    msecs := 0;
    var i := 0;
    while i < |spans|
      invariant 0 <= i <= |spans|
      invariant msecs == Cumulated(spans[..i])
    {
      assert spans[..i + 1][..i] == spans[..i];
      ForwardDifference(spans[i].0, spans[i].1);
      var result, _, _ := Subtract(spans[i].1, spans[i].0);
      msecs := msecs + ToMillis(result);
      i := i + 1;
    }
    assert spans[..i] == spans;
  }

  function Cumulated(spans: seq<(TimeVal, TimeVal)>): int {
    if spans == [] then 0
    else
      var s := spans[|spans| - 1];
      Cumulated(spans[..|spans| - 1]) + (s.1.Micros() - s.0.Micros()) / 1000
  }

  function TrueMicros(spans: seq<(TimeVal, TimeVal)>): int {
    if spans == [] then 0
    else
      var s := spans[|spans| - 1];
      TrueMicros(spans[..|spans| - 1]) + (s.1.Micros() - s.0.Micros())
  }

  /** After k begin and complete pairs the stored milliseconds are at most the true total, and less
      than k milliseconds below it. */
  lemma {:induction false} CumulatedWithin(spans: seq<(TimeVal, TimeVal)>)
    requires Forward(spans) && spans != []
    ensures Cumulated(spans) * 1000 <= TrueMicros(spans) < (Cumulated(spans) + |spans|) * 1000
  {
    var before := spans[..|spans| - 1];
    if before != [] {
      CumulatedWithin(before);
    }
  }
}
