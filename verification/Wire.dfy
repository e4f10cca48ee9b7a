/** The command packets the driver sends to the device, and the words it reads back. */
module Wire {
  import opened Bytes
  import opened DwordFixup

  /** What a packet asks for. `ReadRegs` reads consecutive registers, `Memory*` one word of device
      memory, `Dma*` announces a transfer of that many words. */
  datatype Request =
    | WriteReg(addr: word, val: word)
    | ReadRegs(addr: word, count: word)
    | MemoryWrite(addr: word, val: word)
    | MemoryRead(addr: word)
    | DmaWrite(addr: word, count: word)
    | DmaRead(addr: word, count: word)
    | RunFirmware(run: bool)

  function Encode(r: Request): seq<byte> {
    match r
    case WriteReg(a, v) => [0x01, 0x01, 0x01, 0x00] + Le(a) + Le(v)
    case ReadRegs(a, n) => [0x01, 0x00, (n & 0xff) as byte, 0x00] + Le(a)
    case MemoryWrite(a, v) => [0x02, 0x01, 0x04, 0x00] + Le(a) + Le(a) + Le(v)
    case MemoryRead(a) => [0x02, 0x00, 0x04, 0x00] + Le(a) + Le(a)
    case DmaWrite(a, n) => [0x09, 0x01, 0x08, 0x00, 0x00, 0x00, 0x00, 0x00] + Le(a) + Le(n)
    case DmaRead(a, n) => [0x09, 0x00, 0x08, 0x00, 0x00, 0x00, 0x00, 0x00] + Le(a) + Le(n)
    case RunFirmware(run) => [0x07, if run then 0x01 else 0x00, 0x00, 0x00, 0x00, 0x00, 0x00, 0x00]
  }

  /** The word at a place in a packet. */
  function WordAt(p: seq<byte>, i: nat): word
    requires i + 4 <= |p|
  {
    FromLe(p[i..i + 4])
  }

  /** The four bytes a packet starts with. */
  predicate Starts(p: seq<byte>, unit: byte, dir: byte, len: byte)
    requires |p| >= 4
  {
    p[0] == unit && p[1] == dir && p[2] == len && p[3] == 0x00
  }

  predicate Blank(p: seq<byte>, i: nat)
    requires i + 4 <= |p|
  {
    p[i..i + 4] == [0x00, 0x00, 0x00, 0x00]
  }

  /** A reader of packets, written from their layout: unit, direction, length, then words. It takes
      nothing that deviates from it in any byte. */
  function Parse(p: seq<byte>): Option<Request> {
    if |p| == 12 && Starts(p, 0x01, 0x01, 0x01) then Some(WriteReg(WordAt(p, 4), WordAt(p, 8)))
    else if |p| == 8 && Starts(p, 0x01, 0x00, p[2]) then Some(ReadRegs(WordAt(p, 4), p[2] as word))
    else if |p| == 16 && Starts(p, 0x02, 0x01, 0x04) && WordAt(p, 4) == WordAt(p, 8) then
      Some(MemoryWrite(WordAt(p, 4), WordAt(p, 12)))
    else if |p| == 12 && Starts(p, 0x02, 0x00, 0x04) && WordAt(p, 4) == WordAt(p, 8) then
      Some(MemoryRead(WordAt(p, 4)))
    else if |p| == 16 && Starts(p, 0x09, 0x01, 0x08) && Blank(p, 4) then Some(DmaWrite(WordAt(p, 8), WordAt(p, 12)))
    else if |p| == 16 && Starts(p, 0x09, 0x00, 0x08) && Blank(p, 4) then Some(DmaRead(WordAt(p, 8), WordAt(p, 12)))
    else if |p| == 8 && Starts(p, 0x07, 0x01, 0x00) && Blank(p, 4) then Some(RunFirmware(true))
    else if |p| == 8 && Starts(p, 0x07, 0x00, 0x00) && Blank(p, 4) then Some(RunFirmware(false))
    else None
  }

  lemma OneWord(head: seq<byte>, a: word)
    ensures var p := head + Le(a);
            p[..|head|] == head && WordAt(p, |head|) == a
  {
    FromLeLe(a);
    assert (head + Le(a))[|head|..|head| + 4] == Le(a);
  }

  /** Appending does not disturb a word that is already there. */
  lemma WordStays(p: seq<byte>, q: seq<byte>, i: nat)
    requires i + 4 <= |p|
    ensures WordAt(p + q, i) == WordAt(p, i)
  {
    assert (p + q)[i..i + 4] == p[i..i + 4];
  }

  lemma TwoWords(head: seq<byte>, a: word, b: word)
    ensures var p := head + Le(a) + Le(b);
            p[..|head|] == head && WordAt(p, |head|) == a && WordAt(p, |head| + 4) == b
  {
    OneWord(head, a);
    OneWord(head + Le(a), b);
    WordStays(head + Le(a), Le(b), |head|);
    assert (head + Le(a) + Le(b))[..|head|] == head;
  }

  lemma WritesParse(a: word, v: word)
    ensures Parse(Encode(WriteReg(a, v))) == Some(WriteReg(a, v))
  {
    TwoWords([0x01, 0x01, 0x01, 0x00], a, v);
  }

  lemma ReadsParse(a: word, n: word)
    ensures Parse(Encode(ReadRegs(a, n))) == Some(ReadRegs(a, n & 0xff))
  {
    OneWord([0x01, 0x00, (n & 0xff) as byte, 0x00], a);
  }

  lemma MemoryParses(a: word, v: word)
    ensures Parse(Encode(MemoryWrite(a, v))) == Some(MemoryWrite(a, v))
    ensures Parse(Encode(MemoryRead(a))) == Some(MemoryRead(a))
  {
    var h := [0x02, 0x01, 0x04, 0x00];
    TwoWords(h, a, a);
    OneWord(h + Le(a) + Le(a), v);
    WordStays(h + Le(a) + Le(a), Le(v), 4);
    WordStays(h + Le(a) + Le(a), Le(v), 8);
    TwoWords([0x02, 0x00, 0x04, 0x00], a, a);
  }

  lemma DmaParses(a: word, n: word)
    ensures Parse(Encode(DmaWrite(a, n))) == Some(DmaWrite(a, n))
    ensures Parse(Encode(DmaRead(a, n))) == Some(DmaRead(a, n))
  {
    TwoWords([0x09, 0x01, 0x08, 0x00, 0x00, 0x00, 0x00, 0x00], a, n);
    TwoWords([0x09, 0x00, 0x08, 0x00, 0x00, 0x00, 0x00, 0x00], a, n);
  }

  /** Every packet says what was asked, except that a register count is cut to a byte. */
  lemma ParseEncode(r: Request)
    ensures Parse(Encode(r)) == Some(if r.ReadRegs? then ReadRegs(r.addr, r.count & 0xff) else r)
  {
    match r
    case WriteReg(a, v) => WritesParse(a, v);
    case ReadRegs(a, n) => ReadsParse(a, n);
    case MemoryWrite(a, v) => MemoryParses(a, v);
    case MemoryRead(a) => MemoryParses(a, 0);
    case DmaWrite(a, n) => DmaParses(a, n);
    case DmaRead(a, n) => DmaParses(a, n);
    case RunFirmware(run) =>
  }

  lemma CountIsKeptIff(a: word, n: word)
    ensures Parse(Encode(ReadRegs(a, n))) == Some(ReadRegs(a, n)) <==> n < 0x100
  {
    ParseEncode(ReadRegs(a, n));
  }

  /** No two requests share a packet. */
  lemma EncodeInjective(r: Request, q: Request)
    requires r.ReadRegs? ==> r.count < 0x100
    requires q.ReadRegs? ==> q.count < 0x100
    requires Encode(r) == Encode(q)
    ensures r == q
  {
    ParseEncode(r);
    ParseEncode(q);
  }

  /** The decoding loop of a register read: the words whose little-endian bytes came in. */
  method DecodeWords(rx: seq<byte>) returns (arr: seq<word>)
    requires |rx| % 4 == 0
    ensures LeBytes(arr) == rx
  {
    arr := [];
    var i := 0;
    while i < |rx|
      invariant 0 <= i <= |rx| && i % 4 == 0
      invariant LeBytes(arr) == rx[..i]
    {
      var w := DecodeWord(rx, i);
      LeBytesAppend(arr, w);
      assert rx[..i + 4] == rx[..i] + rx[i..i + 4];
      arr := arr + [w];
      i := i + 4;
    }
    assert rx[..i] == rx;
  }

  function DecodeWord(rx: seq<byte>, i: nat): (w: word)
    requires i + 4 <= |rx|
    ensures Le(w) == rx[i..i + 4]
  {
    LeFromLe(rx[i..i + 4]);
    (rx[i] as word) | ((rx[i + 1] as word) << 8) | ((rx[i + 2] as word) << 16) | ((rx[i + 3] as word) << 24)
  }

  lemma {:induction false} LeBytesAppend(ws: seq<word>, w: word)
    ensures LeBytes(ws + [w]) == LeBytes(ws) + Le(w)
  {
    if ws == [] {
      assert [w][1..] == [];
    } else {
      assert (ws + [w])[1..] == ws[1..] + [w];
      LeBytesAppend(ws[1..], w);
      Assoc(Le(ws[0]), LeBytes(ws[1..]), Le(w));
    }
  }
}
