/** The I2C master inside the encoder: packing messages into its registers, waiting for it, and
    joining a write with the read that follows it. */
module I2c {
  import opened Bytes

  /** One message of a transfer: a write of `data`, or a read of |data| bytes. */
  datatype Msg = Msg(addr: word, read: bool, data: seq<byte>)

  /** One use of the master: a write, or a write joined with a one-byte read. */
  datatype Txn = Txn(msg: Msg, joined: bool)

  // ---------------------------------------------------------------- packing

  /** The bytes of a write in the write buffer register, the first one lowest. */
  function Pack(buf: seq<byte>): word {
    if buf == [] then 0 else (Pack(buf[1..]) << 8) | (buf[0] as word)
  }

  /** The packing loop, last byte first. */
  method PackBytes(buf: seq<byte>) returns (val: word)
    ensures val == Pack(buf)
  {
    val := 0;
    var i := |buf|;
    while i > 0
      invariant 0 <= i <= |buf|
      invariant val == Pack(buf[i..])
    {
      assert buf[i - 1..][1..] == buf[i..];
      val := val << 8;
      val := val | (buf[i - 1] as word);
      i := i - 1;
    }
    assert buf[0..] == buf;
  }

  /** Four bytes with one pushed in front, the last one falling off. */
  function Pushed(b: byte, four: seq<byte>): seq<byte>
    requires |four| == 4
  {
    [b] + four[..3]
  }

  lemma ShiftedIn(w: word, b: byte)
    ensures Le((w << 8) | (b as word)) == Pushed(b, Le(w))
  {
  }

  /** The first four bytes, padded with zeros. */
  function FirstFour(buf: seq<byte>): (r: seq<byte>)
    ensures |r| == 4
  {
    (buf + [0, 0, 0, 0])[..4]
  }

  lemma FirstFourCons(b: byte, tail: seq<byte>)
    ensures FirstFour([b] + tail) == Pushed(b, FirstFour(tail))
  {
  }

  /** The register holds the first four bytes of a write, so up to four bytes arrive whole. */
  lemma {:induction false} PackKeepsFour(buf: seq<byte>)
    ensures Le(Pack(buf)) == FirstFour(buf)
  {
    if buf == [] {
      PackNothing();
    } else {
      ShiftedIn(Pack(buf[1..]), buf[0]);
      PackKeepsFour(buf[1..]);
      FirstFourCons(buf[0], buf[1..]);
      assert buf == [buf[0]] + buf[1..];
    }
  }

  lemma PackNothing()
    ensures Le(Pack([])) == FirstFour([])
  {
    assert Pack([]) == 0;
  }

  /** The control word: start bit, address, lengths. */
  function WriteControl(addr: word, len: word): word {
    (1 << 31) | len | (addr << 7)
  }

  /** For a seven-bit address and up to four bytes the fields of the control word are what was put
      in: the start bit, the address, the bytes to write, and no bytes to read. */
  lemma ControlDecodes(addr: word, len: word)
    requires addr < 0x80 && len <= 4
    ensures var c := WriteControl(addr, len);
            c & 0x80000000 != 0 && (c >> 7) & 0x7f == addr && c & 0x7 == len && (c >> 3) & 0x7 == 0
    ensures var c := WriteControl(addr, 9);
            c & 0x80000000 != 0 && (c >> 7) & 0x7f == addr && c & 0x7 == 1 && (c >> 3) & 0x7 == 1
  {
  }

  // ---------------------------------------------------------------- waiting for the master

  /** The waiting loop, with a master that shows busy for the first `busy` reads. The result is
      what the caller is told: 0 for a stuck bus, 1 otherwise. */
  method Wait(busy: nat) returns (polls: nat, result: int)
    ensures polls == Min(busy + 1, 33)
    ensures result == Told(busy)
  {
    var safety := 32;
    var pending := true;
    polls := 0;
    while pending
      invariant 0 <= polls <= busy + 1 && 0 <= safety == 32 - polls
      invariant pending <==> polls <= busy
      decreases safety
    {
      pending := polls < busy;
      polls := polls + 1;
      var last := safety == 0;
      safety := safety - 1;
      if last {
        break;
      }
    }
    result := if safety == 0 then 0 else 1;
  }

  /** The result of the wait, as its postcondition says. */
  function Told(busy: nat): int {
    if busy == 31 then 0 else 1
  }

  /** The reads never exceed 33, but the result is not the one meant: it says stuck although the
      bus has come free when that took exactly 32 reads, and free when it never came free. */
  lemma StuckIsReportedIff(busy: nat)
    ensures (Told(busy) == 0 <==> busy + 1 > 33) <==> busy != 31 && busy <= 32
  {
  }

  // ---------------------------------------------------------------- transfers

  /** The uses of the master for a list of messages. */
  function Transfers(msgs: seq<Msg>): seq<Txn> {
    if msgs == [] then []
    else if msgs[0].read then Transfers(msgs[1..])
    else if Joins(msgs, 0) then [Txn(msgs[0], true)] + Transfers(msgs[2..])
    else [Txn(msgs[0], false)] + Transfers(msgs[1..])
  }

  /** A write directly followed by a read from the same address. */
  predicate Joins(msgs: seq<Msg>, i: nat)
    requires i < |msgs|
  {
    !msgs[i].read && i + 1 < |msgs| && msgs[i + 1].read && msgs[i].addr == msgs[i + 1].addr
  }

  class Master {
    /** The register writes that started something: write buffer and control word. */
    var started: seq<(word, word)>
    ghost var log: seq<Txn>

    constructor ()
      ensures started == [] && log == []
    {
      started, log := [], [];
    }

    ghost predicate Valid()
      reads this
    {
      started == Wires(log)
    }

    /** A write message followed by a read message joins the first byte of the write with a read
        of one byte. The master shows busy for `busy` reads and then has `rbuf` for an answer; a
        wait reported as stuck leaves the reader's byte alone. */
    method WriteRead(msg: Msg, busy: nat, rbuf: word) returns (reply: Option<byte>)
      requires Valid() && msg.data != []
      modifies this
      ensures Valid() && log == old(log) + [Txn(msg, true)]
      ensures reply == Answer(busy, rbuf)
    {
      started := started + [(msg.data[0] as word, WriteControl(msg.addr, 9))];
      log := log + [Txn(msg, true)];
      WiresMore(old(log), Txn(msg, true));
      var _, told := Wait(busy);
      if told == 0 {
        reply := None;
      } else {
        reply := Some((rbuf & 0xff) as byte);
      }
    }

    method Write(msg: Msg)
      requires Valid()
      modifies this
      ensures Valid() && log == old(log) + [Txn(msg, false)]
    {
      var val := PackBytes(msg.data);
      started := started + [(val, WriteControl(msg.addr, Length(msg.data)))];
      log := log + [Txn(msg, false)];
      WiresMore(old(log), Txn(msg, false));
    }

    /** One turn of the transfer loop: a read alone, a write with the read that follows, or a write. */
    method Turn(msgs: seq<Msg>, busy: seq<nat>, rbuf: seq<word>, i: nat)
      returns (next: nat, more: seq<Option<byte>>)
      requires Valid() && i < |msgs| == |busy| == |rbuf|
      requires Joins(msgs, i) ==> msgs[i].data != []
      modifies this
      ensures Valid() && next == i + (if Joins(msgs, i) then 2 else 1)
      ensures more == if Joins(msgs, i) then [None, Answer(busy[i], rbuf[i])] else [None]
      ensures log + Transfers(msgs[next..]) == old(log) + Transfers(msgs[i..])
    {
      TransfersFrom(msgs, i);
      if msgs[i].read {
        next, more := i + 1, [None];
      } else if i + 1 < |msgs| && msgs[i + 1].read && msgs[i].addr == msgs[i + 1].addr {
        Assoc(log, [Txn(msgs[i], true)], Transfers(msgs[i + 2..]));
        var reply := WriteRead(msgs[i], busy[i], rbuf[i]);
        next, more := i + 2, [None, reply];
      } else {
        Assoc(log, [Txn(msgs[i], false)], Transfers(msgs[i + 1..]));
        Write(msgs[i]);
        next, more := i + 1, [None];
      }
    }

    /** The transfer of a list of messages, with what the master answers to each. The result is the
        number of messages, whatever the waits were told; `replies` is what becomes of the first
        byte of each message, None if nothing is stored. */
    method Xfer(msgs: seq<Msg>, busy: seq<nat>, rbuf: seq<word>) returns (num: nat, replies: seq<Option<byte>>)
      requires Valid() && |busy| == |msgs| && |rbuf| == |msgs|
      requires forall i | 0 <= i < |msgs| :: Joins(msgs, i) ==> msgs[i].data != []
      modifies this
      ensures Valid() && log == old(log) + Transfers(msgs) && num == |msgs|
      ensures replies == Replies(msgs, busy, rbuf, 0)
    {
      replies := [];
      var i := 0;
      NilUnit(log);
      while i < |msgs|
        invariant 0 <= i <= |msgs| && Valid() && (0 < i < |msgs| ==> !Joins(msgs, i - 1))
        invariant log + Transfers(msgs[i..]) == old(log) + Transfers(msgs)
        invariant replies + Replies(msgs, busy, rbuf, i) == Replies(msgs, busy, rbuf, 0)
        decreases |msgs| - i
      {
        RepliesFrom(msgs, busy, rbuf, i);
        var next, more := Turn(msgs, busy, rbuf, i);
        Assoc(replies, more, Replies(msgs, busy, rbuf, next));
        replies := replies + more;
        i := next;
      }
      NilUnit(log);
      NilUnit(replies);
      num := |msgs|;
    }
  }

  /** What a joined read stores. */
  function Answer(busy: nat, rbuf: word): Option<byte> {
    if Told(busy) == 0 then None else Some((rbuf & 0xff) as byte)
  }

  /** What becomes of message j: it gets a byte only directly after a write to its own address. */
  function Reply(msgs: seq<Msg>, busy: seq<nat>, rbuf: seq<word>, j: nat): Option<byte>
    requires j < |msgs| == |busy| == |rbuf|
  {
    if j > 0 && Joins(msgs, j - 1) then Answer(busy[j - 1], rbuf[j - 1]) else None
  }

  /** What becomes of the messages from i on. */
  function Replies(msgs: seq<Msg>, busy: seq<nat>, rbuf: seq<word>, i: nat): (r: seq<Option<byte>>)
    requires i <= |msgs| == |busy| == |rbuf|
    ensures |r| == |msgs| - i
    decreases |msgs| - i
  {
    if i == |msgs| then [] else [Reply(msgs, busy, rbuf, i)] + Replies(msgs, busy, rbuf, i + 1)
  }

  lemma RepliesFrom(msgs: seq<Msg>, busy: seq<nat>, rbuf: seq<word>, i: nat)
    requires i < |msgs| == |busy| == |rbuf| && (i > 0 ==> !Joins(msgs, i - 1))
    ensures Replies(msgs, busy, rbuf, i)
            == if Joins(msgs, i) then [None, Answer(busy[i], rbuf[i])] + Replies(msgs, busy, rbuf, i + 2)
               else [None] + Replies(msgs, busy, rbuf, i + 1)
  {
    if Joins(msgs, i) {
      Assoc([None], [Answer(busy[i], rbuf[i])], Replies(msgs, busy, rbuf, i + 2));
    }
  }

  lemma {:induction false} ReplyAt(msgs: seq<Msg>, busy: seq<nat>, rbuf: seq<word>, i: nat, j: nat)
    requires i <= j < |msgs| == |busy| == |rbuf|
    ensures Replies(msgs, busy, rbuf, i)[j - i] == Reply(msgs, busy, rbuf, j)
    decreases j - i
  {
    if i < j {
      ReplyAt(msgs, busy, rbuf, i + 1, j);
    }
  }

  /** A message gets a byte, the lowest of the answer, exactly when it is a read directly after a write to the same address, and
      the busy bit did not clear on the 32nd read: then it is given up, though the answer is there. A
      bit that never clears is not noticed. */
  lemma AnsweredIff(msgs: seq<Msg>, busy: seq<nat>, rbuf: seq<word>, j: nat)
    requires j < |msgs| == |busy| == |rbuf|
    ensures Replies(msgs, busy, rbuf, 0)[j].Some?
            <==> j > 0 && msgs[j].read && !msgs[j - 1].read && msgs[j - 1].addr == msgs[j].addr && busy[j - 1] != 31
    ensures var reply := Replies(msgs, busy, rbuf, 0)[j];
            reply.Some? ==> j > 0 && reply.value == Le(rbuf[j - 1])[0]
  {
    ReplyAt(msgs, busy, rbuf, 0, j);
  }

  /** The length of a message is a u16. */
  function Length(data: seq<byte>): word {
    if |data| < 0x10000 then |data| as word else (|data| % 0x10000) as word
  }

  /** The registers written for a list of transactions. */
  function Wires(log: seq<Txn>): seq<(word, word)> {
    if log == [] then []
    else Wires(log[..|log| - 1]) + [Wire(log[|log| - 1])]
  }

  function Wire(t: Txn): (word, word) {
    if t.joined && t.msg.data != [] then (t.msg.data[0] as word, WriteControl(t.msg.addr, 9))
    else (Pack(t.msg.data), WriteControl(t.msg.addr, Length(t.msg.data)))
  }

  lemma WiresMore(log: seq<Txn>, t: Txn)
    ensures Wires(log + [t]) == Wires(log) + [Wire(t)]
  {
    assert (log + [t])[..|log|] == log;
  }

  lemma TransfersFrom(msgs: seq<Msg>, i: nat)
    requires i < |msgs|
    ensures Transfers(msgs[i..])
            == if msgs[i].read then Transfers(msgs[i + 1..])
               else if Joins(msgs, i) then [Txn(msgs[i], true)] + Transfers(msgs[i + 2..])
               else [Txn(msgs[i], false)] + Transfers(msgs[i + 1..])
  {
    var rest := msgs[i..];
    assert rest[1..] == msgs[i + 1..];
    if i + 1 < |msgs| {
      assert rest[2..] == msgs[i + 2..];
    }
  }

  /** The writes from message i on, each joined if a read from its address follows directly. */
  function Issued(msgs: seq<Msg>, i: nat): seq<Txn>
    requires i <= |msgs|
    decreases |msgs| - i
  {
    if i == |msgs| then []
    else (if msgs[i].read then [] else [Txn(msgs[i], Joins(msgs, i))]) + Issued(msgs, i + 1)
  }

  /** Every write is issued exactly once, in order, joined exactly if it is directly followed by a read
      from its address; nothing is issued for a read. */
  lemma {:induction false} TransfersAreWrites(msgs: seq<Msg>, i: nat)
    requires i <= |msgs|
    ensures Transfers(msgs[i..]) == Issued(msgs, i)
    decreases |msgs| - i
  {
    if i < |msgs| {
      TransfersFrom(msgs, i);
      TransfersAreWrites(msgs, i + 1);
      if Joins(msgs, i) {
        TransfersAreWrites(msgs, i + 2);
        TransfersFrom(msgs, i + 1);
      }
    }
  }

  /** What the device is told by a transaction: a write of up to four bytes is there byte for byte,
      a joined one names its first byte as the register to read. */
  lemma WireSaysMessage(t: Txn)
    requires t.msg.addr < 0x80 && |t.msg.data| <= 4 && (t.joined ==> t.msg.data != [])
    ensures var (val, control) := Wire(t);
            && (control >> 7) & 0x7f == t.msg.addr
            && (t.joined ==> Le(val) == [t.msg.data[0], 0, 0, 0] && control & 0x7 == 1 && (control >> 3) & 0x7 == 1)
            && (!t.joined ==> control & 0x7 == |t.msg.data| as word && (control >> 3) & 0x7 == 0)
            && (!t.joined ==> Le(val)[..|t.msg.data|] == t.msg.data)
  {
    LengthSmall(t.msg.data);
    LengthIs(t.msg.data);
    ControlDecodes(t.msg.addr, Length(t.msg.data));
    PackKeepsFour(t.msg.data);
    assert FirstFour(t.msg.data)[..|t.msg.data|] == t.msg.data;
  }

  lemma LengthIs(data: seq<byte>)
    requires |data| < 0x10000
    ensures Length(data) == |data| as word
  {
  }

  lemma LengthSmall(data: seq<byte>)
    requires |data| <= 4
    ensures Length(data) <= 4
  {
  }
}
