/** A whole session on the buffers in memory follows the session on values step by step. */
module CaptureRuns {
  import opened Bytes
  import opened Stream
  import opened StreamRuns
  import opened Buffers
  import Capture

  /** The start of a session: counters cleared, every buffer free. */
  method BeginSession(dev: Pool)
    requires dev.Valid() && dev.hand == []
    modifies dev
    ensures dev.Valid() && dev.hand == [] && dev.pool == old(dev.pool)
    ensures dev.Abs() == Start(|dev.pool|).s
  {
    dev.StatisticsReset();
    dev.MoveAll();
    AllFree(dev);
  }

  lemma AllFree(dev: Pool)
    requires dev.Parted() && dev.used == [] && dev.hand == []
    ensures |dev.free| == |dev.pool|
  {
    assert |multiset(dev.free)| == |multiset(dev.pool)|;
  }

  /** One event of a session. */
  method Play(dev: Pool, e: Event, ghost h: History) returns (out: seq<byte>)
    requires dev.Valid() && dev.hand == [] && dev.Abs() == h.s
    requires e.Usb? ==> e.poll.Sane() && e.poll.FitsIn(dev.bufferSize)
    modifies dev, dev.pool, dev.Ptrs()
    ensures dev.Valid() && dev.hand == [] && dev.pool == old(dev.pool)
    ensures dev.Abs() == Step(h, e).s && Step(h, e).delivered == h.delivered + out
  {
    match e
    case Usb(p) =>
      var _ := Capture.UsbRead(dev, p);
      out := [];
      NilUnit(h.delivered);
    case Read(r) =>
      var dst := new byte[r.count](_ => 0);
      var ret := Capture.FopsRead(dev, r, dst);
      out := if ret < 0 then [] else dst[..ret];
      ReadResultIsLength(h.s, r);
  }

  lemma ReadResultIsLength(s: State, r: ReadCall)
    ensures var o := Stream.FopsRead(s, r);
            if o.result < 0 then o.out == [] else o.result == |o.out|
  {
  }

  /** What the calls deliver over the session, and the state they leave, are those of the session
      on values; so all that is proved about every session holds of the buffers in memory. */
  method PlayAll(dev: Pool, es: seq<Event>) returns (delivered: seq<byte>)
    requires dev.Valid() && dev.hand == [] && Sane(es)
    requires forall i | 0 <= i < |es| :: es[i].Usb? ==> es[i].poll.FitsIn(dev.bufferSize)
    modifies dev, dev.pool, dev.Ptrs()
    ensures dev.Valid() && dev.hand == [] && dev.pool == old(dev.pool)
    ensures var h := Run(|dev.pool|, es);
            && dev.Abs() == h.s && delivered == h.delivered
            && h.s.bytesReceived == |delivered| + h.dropped + |Queue(dev.chunks)|
            && (dev.overrun == 0 ==> Concat(h.received) == delivered + Queue(dev.chunks))
  {
    BeginSession(dev);
    ghost var n := |dev.pool|;
    delivered := [];
    var i := 0;
    while i < |es|
      invariant 0 <= i <= |es|
      invariant dev.Valid() && dev.hand == [] && dev.pool == old(dev.pool)
      invariant dev.Abs() == Run(n, es[..i]).s && delivered == Run(n, es[..i]).delivered
    {
      assert es[..i + 1][..i] == es[..i];
      var out := Play(dev, es[i], Run(n, es[..i]));
      delivered := delivered + out;
      i := i + 1;
    }
    assert es[..i] == es;
    SessionConservation(n, es);
    if dev.overrun == 0 {
      SessionWithoutOverrun(n, es);
    }
  }
}
