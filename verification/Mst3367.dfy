/** The register layer of the HDMI receiver driver, and its initialisation sequence. */
module Mst3367 {
  import opened Bytes
  import opened BankCache

  class Receiver {
    var currentBank: byte
    /** Shadow of the registers written so far. */
    var regs: map<(byte, byte), byte>
    /** The chip at the other end of the bus. */
    var chip: Chip

    ghost function Abs(): Driver
      reads this
    {
      Driver(currentBank, regs, chip)
    }

    constructor (chip: Chip)
      ensures Abs() == Driver(NO_BANK, map[], chip)
    {
      currentBank, regs, this.chip := NO_BANK, map[], chip;
    }

    method SwitchBank(bank: byte)
      modifies this
      ensures Abs() == Switch(old(Abs()), bank)
    {
      if currentBank != bank {
        currentBank := bank;
        chip := chip.Put(0, bank);
      }
    }

    method Read(bank: byte, reg: byte) returns (val: byte)
      modifies this
      ensures Abs() == Cached(old(Abs()), Rd(bank, reg))
      ensures val == CachedRead(old(Abs()), Rd(bank, reg))
    {
      SwitchBank(bank);
      val := chip.Get(reg);
    }

    method Write(bank: byte, reg: byte, val: byte)
      modifies this
      ensures Abs() == Cached(old(Abs()), Wr(bank, reg, val))
    {
      SwitchBank(bank);
      regs := regs[(currentBank, reg) := val];
      chip := chip.Put(reg, val);
    }

    method SetBits(bank: byte, reg: byte, mask: byte)
      modifies this
      ensures Abs() == Cached(old(Abs()), Set(bank, reg, mask))
    {
      ReadThenWrite(Abs(), bank, reg, 0xff, mask);
      var val := Read(bank, reg);
      Write(bank, reg, val | mask);
    }

    method ClearBits(bank: byte, reg: byte, mask: byte)
      modifies this
      ensures Abs() == Cached(old(Abs()), Clr(bank, reg, mask))
    {
      ReadThenWrite(Abs(), bank, reg, !mask, 0);
      var val := Read(bank, reg);
      Write(bank, reg, val & !mask);
    }

    /** Hot plug: bit 1 of register 0xb7, low when a link is on. */
    method TmdsHotPlug(linkOn: bool)
      modifies this
      ensures Abs() == Cached(old(Abs()), HotPlug(linkOn))
    {
      ReadThenWrite(Abs(), 0, 0xb7, if linkOn then 0xfd else 0xff, if linkOn then 0 else 0x02);
      var v := Read(0, 0xb7);
      var w := v | 0x02;
      if linkOn {
        w := w & !0x02;
      }
      HotPlugBits(v);
      Write(0, 0xb7, w);
    }

    // -------------------------------------------------------------- the initialisation

    method GeneralInit()
      modifies this
      ensures Abs() == CachedAll(old(Abs()), GENERAL_INIT)
    {
      Unrolled(Abs(), GENERAL_INIT);
      TmdsHotPlug(false);
      Write(0, 0x41, 0x6f);
      Write(0, 0xb8, 0x00);
    }

    method TmdsInit1()
      modifies this
      ensures Abs() == CachedAll(old(Abs()), TMDS_INIT_1)
    {
      Unrolled(Abs(), TMDS_INIT_1);
      Write(1, 0x0f, 0x02);
      Write(1, 0x16, 0x30);
      Write(1, 0x17, 0x00);
      Write(1, 0x18, 0x00);
      Write(1, 0x19, 0x00);
    }

    method TmdsInit2()
      modifies this
      ensures Abs() == CachedAll(old(Abs()), TMDS_INIT_2)
    {
      Unrolled(Abs(), TMDS_INIT_2);
      Write(1, 0x1a, 0x50);
      ClearBits(1, 0x2a, 0x07);
      SetBits(1, 0x2a, 0x07);
      Write(2, 0x08, 0x03);
    }

    method HdcpInit()
      modifies this
      ensures Abs() == CachedAll(old(Abs()), HDCP_INIT)
    {
      Unrolled(Abs(), HDCP_INIT);
      Write(1, 0x24, 0x40);
      Write(1, 0x30, 0x80);
      Write(1, 0x31, 0x00);
      Write(1, 0x32, 0x00);
    }

    method VideoInit1()
      modifies this
      ensures Abs() == CachedAll(old(Abs()), VIDEO_INIT_1)
    {
      Unrolled(Abs(), VIDEO_INIT_1);
      Write(0, 0xb0, 0x14);
      SetBits(0, 0xae, 0x04);
      Write(0, 0xad, 0x05);
      Write(0, 0xb1, 0xe0);
    }

    method VideoInit2()
      modifies this
      ensures Abs() == CachedAll(old(Abs()), VIDEO_INIT_2)
    {
      Unrolled(Abs(), VIDEO_INIT_2);
      Write(0, 0xb2, 0x08);
      Write(0, 0xb3, 0x00);
      Write(0, 0xb4, 0x55);
    }

    method AudioInit1()
      modifies this
      ensures Abs() == CachedAll(old(Abs()), AUDIO_INIT_1)
    {
      Unrolled(Abs(), AUDIO_INIT_1);
      ClearBits(0, 0xb4, 0x03);
      Write(2, 0x01, 0x61);
      Write(2, 0x02, 0xf5);
      SetBits(2, 0x03, 0x02);
      Write(2, 0x04, 0x01);
    }

    method AudioInit2()
      modifies this
      ensures Abs() == CachedAll(old(Abs()), AUDIO_INIT_2)
    {
      Unrolled(Abs(), AUDIO_INIT_2);
      Write(2, 0x05, 0x00);
      Write(2, 0x06, 0x08);
      Write(2, 0x1c, 0x1a);
      Write(2, 0x1d, 0x00);
    }

    method AudioInit3()
      modifies this
      ensures Abs() == CachedAll(old(Abs()), AUDIO_INIT_3)
    {
      Unrolled(Abs(), AUDIO_INIT_3);
      Write(2, 0x1e, 0x00);
      Write(2, 0x1f, 0x00);
      ClearBits(2, 0x25, 0xa2);
      SetBits(2, 0x25, 0xa2);
    }

    method PacketInit1()
      modifies this
      ensures Abs() == CachedAll(old(Abs()), PACKET_INIT_1)
    {
      Unrolled(Abs(), PACKET_INIT_1);
      SetBits(2, 0x02, 0x80);
      SetBits(2, 0x07, 0x04);
      Write(2, 0x17, 0xc0);
      Write(2, 0x19, 0xff);
      Write(2, 0x1a, 0xff);
    }

    method PacketInit2()
      modifies this
      ensures Abs() == CachedAll(old(Abs()), PACKET_INIT_2)
    {
      Unrolled(Abs(), PACKET_INIT_2);
      Write(2, 0x1b, 0xfc);
      Write(2, 0x20, 0x00);
      ClearBits(2, 0x21, 0x03);
      Write(2, 0x22, 0x26);
    }

    method PacketInit3()
      modifies this
      ensures Abs() == CachedAll(old(Abs()), PACKET_INIT_3)
    {
      Unrolled(Abs(), PACKET_INIT_3);
      Write(2, 0x27, 0x00);
      SetBits(2, 0x2e, 0xa1);
      Write(0, 0xab, 0x15);
      ClearBits(0, 0xac, 0x3f);
      SetBits(0, 0xac, 0x15);
    }

    method SourceInit1()
      modifies this
      ensures Abs() == CachedAll(old(Abs()), SOURCE_INIT_1)
    {
      Unrolled(Abs(), SOURCE_INIT_1);
      TmdsHotPlug(false);
      Write(0, 0xb8, 0x10);
      Write(0, 0xb8, 0x00);
      Write(2, 0x07, 0xf4);
      Write(2, 0x07, 0x04);
    }

    method SourceInit2()
      modifies this
      ensures Abs() == CachedAll(old(Abs()), SOURCE_INIT_2)
    {
      Unrolled(Abs(), SOURCE_INIT_2);
      Write(0, 0x51, 0x89);
      TmdsHotPlug(true);
      Write(0, 0xb7, 0x00);
    }

    method PatchInit()
      modifies this
      ensures Abs() == CachedAll(old(Abs()), PATCH_INIT)
    {
      Unrolled(Abs(), PATCH_INIT);
      Write(0, 0xe2, 0x00);
      Write(0, 0x1e, 0x11);
      Write(0, 0x1f, 0x01);
      Write(0, 0x73, 0x90);
      Write(0, 0xb5, 0x0c);
    }

    method RangeInit()
      modifies this
      ensures Abs() == CachedAll(old(Abs()), RANGE_INIT)
    {
      Unrolled(Abs(), RANGE_INIT);
      Write(0, 0x90, 0x15);
      Write(0, 0x91, 0x15);
    }

    method HdmiSetup1()
      modifies this
      ensures Abs() == CachedAll(old(Abs()), HDMI_SETUP_1)
    {
      Unrolled(Abs(), HDMI_SETUP_1);
      ClearBits(2, 0x01, 0xf0);
      SetBits(2, 0x01, 0x60);
      SetBits(2, 0x04, 0x01);
      Write(2, 0x06, 0x08);
      SetBits(2, 0x09, 0x20);
    }

    method HdmiSetup2()
      modifies this
      ensures Abs() == CachedAll(old(Abs()), HDMI_SETUP_2)
    {
      Unrolled(Abs(), HDMI_SETUP_2);
      ClearBits(0, 0x54, 0x10);
      SetBits(0, 0xac, 0x80);
    }

    method HdmiWindow()
      modifies this
      ensures Abs() == CachedAll(old(Abs()), WINDOW)
    {
      Unrolled(Abs(), WINDOW);
      SetBits(0, 0x00, 0x80);
      SetBits(0, 0xce, 0x80);
      ClearBits(0, 0xcf, 0x07);
      SetBits(0, 0xcf, 0x02);
      ClearBits(0, 0x00, 0x80);
    }

    /** The loop over the colour space conversion table. */
    method CscLoop()
      modifies this
      ensures Abs() == CachedAll(old(Abs()), CscOps(31))
    {
      var i: byte := 0;
      while i < 31
        invariant i <= 31 && Abs() == CachedAll(old(Abs()), CscOps(i))
        decreases 31 - i
      {
        CachedAllAppend(old(Abs()), CscOps(i), [Wr(0, 0x92 + i, CSCTBL[i])]);
        Unrolled(Abs(), [Wr(0, 0x92 + i, CSCTBL[i])]);
        Write(0, 0x92 + i, CSCTBL[i]);
        i := i + 1;
      }
    }

    method CscInit()
      modifies this
      ensures Abs() == CachedAll(old(Abs()), CSC_INIT)
    {
      Three(Abs(), RANGE_INIT, CscOps(31), [Wr(0, 0xb0, 0x20)]);
      RangeInit();
      CscLoop();
      Unrolled(Abs(), [Wr(0, 0xb0, 0x20)]);
      Write(0, 0xb0, 0x20);
    }

    method TmdsInit()
      modifies this
      ensures Abs() == CachedAll(old(Abs()), TMDS_INIT)
    {
      Three(Abs(), TMDS_INIT_1, TMDS_INIT_2, HDCP_INIT);
      TmdsInit1();
      TmdsInit2();
      HdcpInit();
    }

    method AudioInit()
      modifies this
      ensures Abs() == CachedAll(old(Abs()), AUDIO_INIT)
    {
      Three(Abs(), AUDIO_INIT_1, AUDIO_INIT_2, AUDIO_INIT_3);
      AudioInit1();
      AudioInit2();
      AudioInit3();
    }

    method PacketInit()
      modifies this
      ensures Abs() == CachedAll(old(Abs()), PACKET_INIT)
    {
      Three(Abs(), PACKET_INIT_1, PACKET_INIT_2, PACKET_INIT_3);
      PacketInit1();
      PacketInit2();
      PacketInit3();
    }

    method SourceInit()
      modifies this
      ensures Abs() == CachedAll(old(Abs()), SOURCE_INIT)
    {
      Three(Abs(), SOURCE_INIT_1, SOURCE_INIT_2, PATCH_INIT);
      SourceInit1();
      SourceInit2();
      PatchInit();
    }

    /** `MST3367_HDMI_INIT`. */
    method HdmiInit()
      modifies this
      ensures Abs() == CachedAll(old(Abs()), HDMI_INIT)
    {
      Three(Abs(), HDMI_SETUP_1, HDMI_SETUP_2, WINDOW);
      HdmiSetup1();
      HdmiSetup2();
      HdmiWindow();
    }

    /** The sections between the first accesses and `MST3367_HDMI_INIT`. */
    method MiddleInit()
      modifies this
      ensures Abs() == CachedAll(old(Abs()), MIDDLE_INIT)
    {
      CachedAllAppend(Abs(), FRONT_INIT, BACK_INIT);
      Three(Abs(), TMDS_INIT, VIDEO_INIT_1 + VIDEO_INIT_2, AUDIO_INIT);
      TmdsInit();
      CachedAllAppend(Abs(), VIDEO_INIT_1, VIDEO_INIT_2);
      VideoInit1();
      VideoInit2();
      AudioInit();
      Three(Abs(), PACKET_INIT, SOURCE_INIT, CSC_INIT);
      PacketInit();
      SourceInit();
      CscInit();
    }

    /** `mst3367_init_setup`. */
    method InitSetup()
      modifies this
      ensures Abs() == CachedAll(old(Abs()), InitOps())
    {
      Three(Abs(), GENERAL_INIT, MIDDLE_INIT, HDMI_INIT);
      GeneralInit();
      MiddleInit();
      HdmiInit();
    }
  }

  /** A short list of accesses, one by one. */
  lemma {:induction false} Unrolled(d: Driver, ops: seq<Op>)
    requires |ops| <= 5
    ensures |ops| == 1 ==> CachedAll(d, ops) == Cached(d, ops[0])
    ensures |ops| == 2 ==> CachedAll(d, ops) == Cached(Cached(d, ops[0]), ops[1])
    ensures |ops| == 3 ==> CachedAll(d, ops) == Cached(Cached(Cached(d, ops[0]), ops[1]), ops[2])
    ensures |ops| == 4 ==> CachedAll(d, ops) == Cached(Cached(Cached(Cached(d, ops[0]), ops[1]), ops[2]), ops[3])
    ensures |ops| == 5 ==>
              CachedAll(d, ops) == Cached(Cached(Cached(Cached(Cached(d, ops[0]), ops[1]), ops[2]), ops[3]), ops[4])
    decreases |ops|
  {
    if ops != [] {
      Unrolled(Cached(d, ops[0]), ops[1..]);
    }
  }

  lemma Three(d: Driver, a: seq<Op>, b: seq<Op>, c: seq<Op>)
    ensures CachedAll(d, a + b + c) == CachedAll(CachedAll(CachedAll(d, a), b), c)
  {
    CachedAllAppend(d, a + b, c);
    CachedAllAppend(d, a, b);
  }

  function HotPlug(linkOn: bool): Op {
    if linkOn then Rmw(0, 0xb7, 0xfd, 0) else Set(0, 0xb7, 0x02)
  }

  /** Only bit 1 of register 0xb7 is touched, and it is low exactly for a link. */
  lemma HotPlugMeans(linkOn: bool, read: byte)
    ensures HotPlug(linkOn).bank == 0 && HotPlug(linkOn).reg == 0xb7
    ensures var v := Written(HotPlug(linkOn), read); (v & 0x02 == 0 <==> linkOn) && v & 0xfd == read & 0xfd
  {
  }

  lemma HotPlugBits(v: byte)
    ensures (v | 0x02) & !0x02 == (v & 0xfd) | 0 && (v & 0xff) | 0x02 == v | 0x02
  {
  }

  const GENERAL_INIT := [HotPlug(false), Wr(0, 0x41, 0x6f), Wr(0, 0xb8, 0x00)]
  const TMDS_INIT_1 := [Wr(1, 0x0f, 0x02), Wr(1, 0x16, 0x30), Wr(1, 0x17, 0x00), Wr(1, 0x18, 0x00),
    Wr(1, 0x19, 0x00)]
  const TMDS_INIT_2 := [Wr(1, 0x1a, 0x50), Clr(1, 0x2a, 0x07), Set(1, 0x2a, 0x07), Wr(2, 0x08, 0x03)]
  const HDCP_INIT := [Wr(1, 0x24, 0x40), Wr(1, 0x30, 0x80), Wr(1, 0x31, 0x00), Wr(1, 0x32, 0x00)]
  const VIDEO_INIT_1 := [Wr(0, 0xb0, 0x14), Set(0, 0xae, 0x04), Wr(0, 0xad, 0x05), Wr(0, 0xb1, 0xe0)]
  const VIDEO_INIT_2 := [Wr(0, 0xb2, 0x08), Wr(0, 0xb3, 0x00), Wr(0, 0xb4, 0x55)]
  const AUDIO_INIT_1 := [Clr(0, 0xb4, 0x03), Wr(2, 0x01, 0x61), Wr(2, 0x02, 0xf5), Set(2, 0x03, 0x02),
    Wr(2, 0x04, 0x01)]
  const AUDIO_INIT_2 := [Wr(2, 0x05, 0x00), Wr(2, 0x06, 0x08), Wr(2, 0x1c, 0x1a), Wr(2, 0x1d, 0x00)]
  const AUDIO_INIT_3 := [Wr(2, 0x1e, 0x00), Wr(2, 0x1f, 0x00), Clr(2, 0x25, 0xa2), Set(2, 0x25, 0xa2)]
  const PACKET_INIT_1 := [Set(2, 0x02, 0x80), Set(2, 0x07, 0x04), Wr(2, 0x17, 0xc0), Wr(2, 0x19, 0xff),
    Wr(2, 0x1a, 0xff)]
  const PACKET_INIT_2 := [Wr(2, 0x1b, 0xfc), Wr(2, 0x20, 0x00), Clr(2, 0x21, 0x03), Wr(2, 0x22, 0x26)]
  const PACKET_INIT_3 := [Wr(2, 0x27, 0x00), Set(2, 0x2e, 0xa1), Wr(0, 0xab, 0x15), Clr(0, 0xac, 0x3f),
    Set(0, 0xac, 0x15)]
  const SOURCE_INIT_1 := [HotPlug(false), Wr(0, 0xb8, 0x10), Wr(0, 0xb8, 0x00), Wr(2, 0x07, 0xf4),
    Wr(2, 0x07, 0x04)]
  const SOURCE_INIT_2 := [Wr(0, 0x51, 0x89), HotPlug(true), Wr(0, 0xb7, 0x00)]
  const PATCH_INIT := [Wr(0, 0xe2, 0x00), Wr(0, 0x1e, 0x11), Wr(0, 0x1f, 0x01), Wr(0, 0x73, 0x90),
    Wr(0, 0xb5, 0x0c)]
  const RANGE_INIT := [Wr(0, 0x90, 0x15), Wr(0, 0x91, 0x15)]
  const HDMI_SETUP_1 := [Clr(2, 0x01, 0xf0), Set(2, 0x01, 0x60), Set(2, 0x04, 0x01), Wr(2, 0x06, 0x08),
    Set(2, 0x09, 0x20)]
  const HDMI_SETUP_2 := [Clr(0, 0x54, 0x10), Set(0, 0xac, 0x80)]
  const WINDOW := [Set(0, 0x00, 0x80), Set(0, 0xce, 0x80), Clr(0, 0xcf, 0x07), Set(0, 0xcf, 0x02),
    Clr(0, 0x00, 0x80)]

  const CSCTBL: seq<byte> := [
    0x40,
    0x08, 0x02, 0x03, 0x65, 0x7e, 0x28,
    0x78, 0xb9, 0x0b, 0x65, 0x79, 0xd6,
    0x7f, 0x45, 0x01, 0x27, 0x08, 0x02,
    0x20, 0x00, 0x02, 0x81, 0x20, 0x01,
    0x15, 0x95, 0x05, 0x20, 0xc0, 0x08]

  /** The first n rows of the colour space conversion table, written from register 0x92 on. */
  function CscOps(n: byte): seq<Op>
    requires n <= 31
  {
    if n == 0 then [] else CscOps(n - 1) + [Wr(0, 0x92 + (n - 1), CSCTBL[n - 1])]
  }

  const CSC_INIT := RANGE_INIT + CscOps(31) + [Wr(0, 0xb0, 0x20)]

  const TMDS_INIT := TMDS_INIT_1 + TMDS_INIT_2 + HDCP_INIT
  const AUDIO_INIT := AUDIO_INIT_1 + AUDIO_INIT_2 + AUDIO_INIT_3
  const PACKET_INIT := PACKET_INIT_1 + PACKET_INIT_2 + PACKET_INIT_3
  const SOURCE_INIT := SOURCE_INIT_1 + SOURCE_INIT_2 + PATCH_INIT
  const FRONT_INIT := TMDS_INIT + (VIDEO_INIT_1 + VIDEO_INIT_2) + AUDIO_INIT
  const BACK_INIT := PACKET_INIT + SOURCE_INIT + CSC_INIT
  const MIDDLE_INIT := FRONT_INIT + BACK_INIT

  /** Inside WINDOW, while registers 0xce and 0xcf are accessed, bit 7 of register 0x00 is set. */
  const HDMI_INIT := HDMI_SETUP_1 + HDMI_SETUP_2 + WINDOW

  function InitOps(): seq<Op> {
    GENERAL_INIT + MIDDLE_INIT + HDMI_INIT
  }

  // ---------------------------------------------------------------- what the initialisation meets

  ghost predicate Fine(ops: seq<Op>) {
    forall i | 0 <= i < |ops| :: OpOk(ops[i]) && !ops[i].Hardware?
  }

  /** The accesses after the first ones leave register 0x41 of bank 0 alone. */
  ghost predicate Later(ops: seq<Op>) {
    Fine(ops) && forall i | 0 <= i < |ops| :: !(ops[i].bank == 0 && ops[i].reg == 0x41)
  }

  lemma LaterJoin(a: seq<Op>, b: seq<Op>, c: seq<Op>)
    requires Later(a) && Later(b) && Later(c)
    ensures Later(a + b) && Later(a + b + c)
  {
  }

  lemma {:induction false} CscLater(n: byte)
    requires n <= 31
    ensures Later(CscOps(n))
  {
    if n > 0 {
      CscLater(n - 1);
    }
  }

  lemma TmdsLater()
    ensures Later(TMDS_INIT)
  {
    LaterJoin(TMDS_INIT_1, TMDS_INIT_2, HDCP_INIT);
  }

  lemma VideoLater()
    ensures Later(VIDEO_INIT_1 + VIDEO_INIT_2)
  {
    LaterJoin(VIDEO_INIT_1, VIDEO_INIT_2, []);
  }

  lemma AudioLater()
    ensures Later(AUDIO_INIT)
  {
    LaterJoin(AUDIO_INIT_1, AUDIO_INIT_2, AUDIO_INIT_3);
  }

  lemma PacketLater()
    ensures Later(PACKET_INIT)
  {
    LaterJoin(PACKET_INIT_1, PACKET_INIT_2, PACKET_INIT_3);
  }

  lemma SourceLater()
    ensures Later(SOURCE_INIT)
  {
    LaterJoin(SOURCE_INIT_1, SOURCE_INIT_2, PATCH_INIT);
  }

  lemma CscInitLater()
    ensures Later(CSC_INIT)
  {
    CscLater(31);
    LaterJoin(RANGE_INIT, CscOps(31), [Wr(0, 0xb0, 0x20)]);
  }

  lemma MiddleLater()
    ensures Later(MIDDLE_INIT)
  {
    TmdsLater();
    VideoLater();
    AudioLater();
    LaterJoin(TMDS_INIT, VIDEO_INIT_1 + VIDEO_INIT_2, AUDIO_INIT);
    PacketLater();
    SourceLater();
    CscInitLater();
    LaterJoin(PACKET_INIT, SOURCE_INIT, CSC_INIT);
    LaterJoin(FRONT_INIT, BACK_INIT, []);
  }

  lemma HdmiLater()
    ensures Later(HDMI_INIT)
  {
    LaterJoin(HDMI_SETUP_1, HDMI_SETUP_2, WINDOW);
  }

  lemma FineJoin(a: seq<Op>, b: seq<Op>, c: seq<Op>)
    requires Fine(a) && Fine(b) && Fine(c)
    ensures Fine(a + b + c)
  {
  }

  /** Every access names one of the four banks and keeps the bank bits of register 0x00. */
  lemma InitFine()
    ensures Fine(InitOps())
  {
    MiddleLater();
    HdmiLater();
    FineJoin(GENERAL_INIT, MIDDLE_INIT, HDMI_INIT);
  }

  /** From any driver, first run or later, unless it believes in bank 0 while the chip has another one
      selected: the whole initialisation leaves every register but 0x00 as the driver without a cache
      would. */
  lemma InitIsTransparent(d: Driver)
    requires d.cur != 0 || d.chip.Bank() == 0
    ensures Agree(CachedAll(d, InitOps()), PlainAll(d.chip, InitOps()))
  {
    InitFine();
    TransparentFromAnyStart(d, InitOps());
  }

  /** And the shadow registers tell what is in them, if they did before. */
  lemma InitKeepsShadows(d: Driver)
    requires Coherent(d) && Shadows(d)
    ensures Shadows(CachedAll(d, InitOps()))
  {
    InitFine();
    ShadowsStay(d, InitOps());
  }

  // ---------------------------------------------------------------- a cache that names the wrong bank

  /** What the first three accesses do, all meant for bank 0. */
  lemma GeneralPart(d: Driver)
    ensures var e := CachedAll(d, GENERAL_INIT);
            && e.cur == 0
            && (d.cur != 0 || d.chip.Bank() == 0 ==> e.chip.Cell(0, 0x41) == 0x6f)
            && (d.cur == 0 && d.chip.Bank() != 0 ==> e.chip.Cell(0, 0x41) == d.chip.Cell(0, 0x41))
  {
    Unrolled(d, GENERAL_INIT);
  }

  /** What the rest does, whatever bank is selected before: it starts with bank 1. */
  lemma RestPart(e: Driver, rest: seq<Op>)
    requires e.cur == 0 && Later(rest) && rest != [] && rest[0] == Wr(1, 0x0f, 0x02)
    ensures CachedAll(e, rest).chip.Cell(0, 0x41) == e.chip.Cell(0, 0x41)
  {
    var f := Cached(e, rest[0]);
    assert f.cur == 1 && f.chip.Bank() == 1;
    CellIsSpared(f, rest[1..], 0, 0x41);
  }

  lemma RestStarts()
    ensures (MIDDLE_INIT + HDMI_INIT)[0] == Wr(1, 0x0f, 0x02)
  {
    assert TMDS_INIT[0] == TMDS_INIT_1[0];
    assert FRONT_INIT[0] == TMDS_INIT[0];
    assert MIDDLE_INIT[0] == FRONT_INIT[0];
  }

  /** Exactly in that case the early accesses to bank 0 miss it: register 0x41 of bank 0, which the
      initialisation sets to 0x6f, holds that value afterwards if and only if the selected bank was
      right or it did before. */
  lemma EarlyWriteArrivesIff(d: Driver)
    ensures CachedAll(d, InitOps()).chip.Cell(0, 0x41) == 0x6f
            <==> d.cur != 0 || d.chip.Bank() == 0 || d.chip.Cell(0, 0x41) == 0x6f
  {
    Assoc(GENERAL_INIT, MIDDLE_INIT, HDMI_INIT);
    CachedAllAppend(d, GENERAL_INIT, MIDDLE_INIT + HDMI_INIT);
    GeneralPart(d);
    MiddleLater();
    HdmiLater();
    LaterJoin(MIDDLE_INIT, HDMI_INIT, []);
    RestStarts();
    RestPart(CachedAll(d, GENERAL_INIT), MIDDLE_INIT + HDMI_INIT);
  }

  /** That state comes from a transfer that fails: with bank 1 or 2 selected, a selection of bank 0 that
      does not arrive leaves the driver believing in bank 0. The next initialisation then misses it. */
  lemma EarlyWriteCanMiss(d: Driver)
    requires Coherent(d) && (d.cur == 1 || d.cur == 2) && d.chip.Cell(0, 0x41) != 0x6f
    ensures var e := SwitchTry(d, 0, false);
            e.cur == 0 && e.chip.Bank() != 0 && CachedAll(e, InitOps()).chip.Cell(0, 0x41) != 0x6f
  {
    EarlyWriteArrivesIff(SwitchTry(d, 0, false));
  }

  // ---------------------------------------------------------------- register 0x00

  lemma {:induction false} SelAllAppend(s: (byte, byte), a: seq<Op>, b: seq<Op>)
    ensures SelAll(s, a + b) == SelAll(SelAll(s, a), b)
    decreases |a|
  {
    if a == [] {
      NilUnit(b);
    } else {
      CutLeft(a, b, 1);
      SelAllAppend(SelStep(s, a[0]), a[1..], b);
    }
  }

  /** Accesses to one bank, none of them to register 0x00, end with that bank remembered. */
  lemma {:induction false} StaysInBank(s: (byte, byte), ops: seq<Op>, bank: byte)
    requires ops != [] && forall i | 0 <= i < |ops| :: ops[i].bank == bank && ops[i].reg != 0 && !ops[i].Hardware?
    ensures SelAll(s, ops).0 == bank
    ensures s.0 != bank ==> SelAll(s, ops).1 == bank
    ensures s.0 == bank ==> SelAll(s, ops).1 == s.1
    decreases |ops|
  {
    if |ops| == 1 {
      assert ops[1..] == [];
    } else {
      StaysInBank(SelStep(s, ops[0]), ops[1..], bank);
    }
  }

  lemma SelOneMore(s: (byte, byte), ops: seq<Op>, i: nat)
    requires i < |ops|
    ensures SelAll(s, ops[..i + 1]) == SelStep(SelAll(s, ops[..i]), ops[i])
  {
    assert ops[..i + 1] == ops[..i] + [ops[i]];
    SelAllAppend(s, ops[..i], [ops[i]]);
    assert [ops[i]][1..] == [];
  }

  /** Register 0x00 when bank 0 is selected, unless it is already. */
  function AtBankZero(s: (byte, byte)): byte {
    if s.0 != 0 then 0 else s.1
  }

  lemma WindowBits(sel: byte)
    ensures (sel & 0xff) | 0x80 == sel | 0x80 && ((sel | 0x80) & !0x80) | 0 == sel & 0x7f
    ensures (sel | 0x80) & 0x80 == 0x80 && (sel & 0x7f) & 0x80 == 0
  {
  }

  /** Inside the window. */
  lemma WindowSel(s: (byte, byte), i: nat)
    requires 1 <= i <= 4
    ensures SelAll(s, WINDOW[..i]) == (0, AtBankZero(s) | 0x80)
    decreases i
  {
    SelOneMore(s, WINDOW, i - 1);
    if i == 1 {
      assert WINDOW[..0] == [];
      WindowBits(AtBankZero(s));
    } else {
      WindowSel(s, i - 1);
    }
  }

  /** After it. */
  lemma WindowEnd(s: (byte, byte))
    ensures SelAll(s, WINDOW) == (0, AtBankZero(s) & 0x7f)
  {
    WindowSel(s, 4);
    SelOneMore(s, WINDOW, 4);
    assert WINDOW[..5] == WINDOW;
    WindowBits(AtBankZero(s));
  }

  /** Whatever came before, `MST3367_HDMI_INIT` ends with bank 0 and nothing else in register 0x00. */
  lemma HdmiEndsInBankZero(s: (byte, byte))
    ensures SelAll(s, HDMI_INIT) == (0, 0)
  {
    SelAllAppend(s, HDMI_SETUP_1 + HDMI_SETUP_2, WINDOW);
    SelAllAppend(s, HDMI_SETUP_1, HDMI_SETUP_2);
    StaysInBank(s, HDMI_SETUP_1, 2);
    StaysInBank(SelAll(s, HDMI_SETUP_1), HDMI_SETUP_2, 0);
    WindowEnd((0, 0));
  }

  /** The uncached driver after the last access. */
  lemma PlainEnd(c: Chip, ops: seq<Op>)
    requires ops != [] && ops[|ops| - 1] == Clr(0, 0x00, 0x80)
    ensures PlainAll(c, ops).sel == 0
  {
    var n := |ops| - 1;
    assert ops == ops[..n] + [ops[n]];
    PlainAllAppend(c, ops[..n], [ops[n]]);
    assert [ops[n]][1..] == [];
  }

  lemma LastAccess()
    ensures InitOps() != [] && InitOps()[|InitOps()| - 1] == Clr(0, 0x00, 0x80)
  {
    assert HDMI_INIT[|HDMI_INIT| - 1] == WINDOW[4];
    assert InitOps()[|InitOps()| - 1] == HDMI_INIT[|HDMI_INIT| - 1];
  }

  /** With and without the cache, the initialisation leaves register 0x00 at 0. */
  lemma InitClearsSelection(d: Driver, c: Chip)
    ensures CachedAll(d, InitOps()).chip.sel == 0 && CachedAll(d, InitOps()).cur == 0
    ensures PlainAll(c, InitOps()).sel == 0
  {
    var e := CachedAll(d, GENERAL_INIT + MIDDLE_INIT);
    CachedAllAppend(d, GENERAL_INIT + MIDDLE_INIT, HDMI_INIT);
    SelFollows(e, HDMI_INIT);
    HdmiEndsInBankZero((e.cur, e.chip.sel));
    LastAccess();
    PlainEnd(c, InitOps());
  }

  lemma SwitchKept(d: Driver, bank: byte)
    requires d.cur == bank
    ensures Switch(d, bank) == d
  {
  }

  /** Here the cache is more than an optimisation. While registers 0xce and 0xcf are accessed, bit 7
      of register 0x00 is set, because no bank is selected again; selecting bank 0 before each
      access would clear it. Afterwards it is clear. */
  lemma WindowHolds(d: Driver, c: Chip, i: nat)
    requires 1 <= i <= 3
    ensures CachedAll(d, WINDOW[..i]).chip.sel & 0x80 == 0x80
    ensures Switch(CachedAll(d, WINDOW[..i]), 0) == CachedAll(d, WINDOW[..i])
    ensures PlainAll(c, WINDOW[..i]).Put(0, WINDOW[i].bank).sel & 0x80 == 0
    ensures CachedAll(d, WINDOW).chip.sel & 0x80 == 0
  {
    SelFollows(d, WINDOW[..i]);
    SelFollows(d, WINDOW);
    WindowSel((d.cur, d.chip.sel), i);
    WindowEnd((d.cur, d.chip.sel));
    WindowBits(AtBankZero((d.cur, d.chip.sel)));
    SwitchKept(CachedAll(d, WINDOW[..i]), 0);
  }
}
