/**
 The register banks of the HDMI receiver. The driver remembers the bank it selected last and
 skips the selection when it can; this module relates it to a driver that never skips.
 */
module BankCache {
  import opened Bytes

  /** The value `current_bank` starts from: no bank selected yet. */
  const NO_BANK: byte := 0xff

  /** The chip. Register 0x00 is one register for all banks and its two low bits select the bank;
      every other register exists once per bank. Registers never written read as 0 here, so
      `mem` can hold any power-on contents. */
  datatype Chip = Chip(sel: byte, mem: map<(byte, byte), byte>) {
    function Bank(): byte {
      sel & 3
    }

    function Cell(bank: byte, reg: byte): byte {
      if (bank, reg) in mem then mem[(bank, reg)] else 0
    }

    function Get(reg: byte): byte {
      if reg == 0 then sel else Cell(Bank(), reg)
    }

    function Put(reg: byte, val: byte): Chip {
      if reg == 0 then this.(sel := val) else this.(mem := mem[(Bank(), reg) := val])
    }
  }

  /** Register accesses. A read-modify-write keeps the bits of `keep` and sets those of `bits`;
      `Hardware` is the chip changing a register on its own. */
  datatype Op =
    | Rd(bank: byte, reg: byte)
    | Wr(bank: byte, reg: byte, val: byte)
    | Rmw(bank: byte, reg: byte, keep: byte, bits: byte)
    | Hardware(bank: byte, reg: byte, val: byte)

  function Set(bank: byte, reg: byte, mask: byte): Op {
    Rmw(bank, reg, 0xff, mask)
  }

  function Clr(bank: byte, reg: byte, mask: byte): Op {
    Rmw(bank, reg, !mask, 0)
  }

  /** What an access returns, and what it writes given what was read. */
  function Written(op: Op, read: byte): byte
    requires op.Wr? || op.Rmw?
  {
    if op.Wr? then op.val else (read & op.keep) | op.bits
  }

  /** Setting and clearing touch the bits of the mask and no others. */
  lemma SetMeans(bank: byte, reg: byte, mask: byte, read: byte)
    ensures var v := Written(Set(bank, reg, mask), read); v & mask == mask && v & !mask == read & !mask
  {
  }

  lemma ClearMeans(bank: byte, reg: byte, mask: byte, read: byte)
    ensures var v := Written(Clr(bank, reg, mask), read); v & mask == 0 && v & !mask == read & !mask
  {
  }

  /** An access to the chip with the right bank selected. */
  function Access(c: Chip, op: Op): Chip {
    match op
    case Rd(_, _) => c
    case Hardware(b, r, v) => if r == 0 then c else c.(mem := c.mem[(b, r) := v])
    case _ => c.Put(op.reg, Written(op, c.Get(op.reg)))
  }

  // ---------------------------------------------------------------- the driver

  /** The driver's memory of the chip: the bank cache and the shadow of everything written. */
  datatype Driver = Driver(cur: byte, shadow: map<(byte, byte), byte>, chip: Chip)

  function Switch(d: Driver, bank: byte): Driver {
    if d.cur != bank then d.(cur := bank, chip := d.chip.Put(0, bank)) else d
  }

  function Cached(d: Driver, op: Op): Driver {
    if op.Hardware? then d.(chip := Access(d.chip, op))
    else
      var s := Switch(d, op.bank);
      s.(chip := Access(s.chip, op),
         shadow := if op.Rd? then s.shadow
                   else s.shadow[(op.bank, op.reg) := Written(op, s.chip.Get(op.reg))])
  }

  function CachedRead(d: Driver, op: Op): byte {
    if op.Hardware? then 0 else Switch(d, op.bank).chip.Get(op.reg)
  }

  /** The driver without the cache: it selects the bank before every access. */
  function Plain(c: Chip, op: Op): Chip {
    if op.Hardware? then Access(c, op) else Access(c.Put(0, op.bank), op)
  }

  function PlainRead(c: Chip, op: Op): byte {
    if op.Hardware? then 0 else c.Put(0, op.bank).Get(op.reg)
  }

  /** One of the four banks, and no write to register 0x00 that would select another one. */
  predicate OpOk(op: Op) {
    && op.bank < 4
    && (op.Wr? && op.reg == 0 ==> op.val & 3 == op.bank)
    && (op.Rmw? && op.reg == 0 ==> op.keep & 3 == 3 && op.bits & 3 == 0)
  }

  /** The cache is empty, or it names the bank the chip has selected. */
  ghost predicate Coherent(d: Driver) {
    d.cur == NO_BANK || d.chip.Bank() == d.cur
  }

  ghost predicate Agree(d: Driver, c: Chip) {
    Coherent(d) && d.chip.mem == c.mem
  }

  lemma SwitchAgrees(d: Driver, c: Chip, bank: byte)
    requires Agree(d, c) && bank < 4
    ensures var s, p := Switch(d, bank).chip, c.Put(0, bank);
            s.Bank() == bank && p.Bank() == bank && s.mem == p.mem && Switch(d, bank).cur == bank
  {
  }

  /** Rewriting register 0x00 as the driver does leaves the bank selected. */
  lemma KeepsBank(op: Op, v: byte)
    requires OpOk(op) && op.reg == 0 && (op.Wr? || op.Rmw?) && v & 3 == op.bank
    ensures Written(op, v) & 3 == op.bank
  {
  }

  lemma ReadAgrees(d: Driver, c: Chip, op: Op)
    requires Agree(d, c) && OpOk(op) && !op.Hardware?
    ensures op.reg != 0 ==> CachedRead(d, op) == PlainRead(c, op)
    ensures op.reg == 0 ==> CachedRead(d, op) & 3 == PlainRead(c, op) & 3 == op.bank
  {
    SwitchAgrees(d, c, op.bank);
  }

  lemma StepAgrees(d: Driver, c: Chip, op: Op)
    requires Agree(d, c) && OpOk(op)
    ensures Agree(Cached(d, op), Plain(c, op))
    ensures op.reg != 0 ==> CachedRead(d, op) == PlainRead(c, op)
    ensures op.reg == 0 && !op.Hardware? ==> CachedRead(d, op) & 3 == PlainRead(c, op) & 3 == op.bank
  {
    if !op.Hardware? {
      SwitchAgrees(d, c, op.bank);
      ReadAgrees(d, c, op);
      if op.reg == 0 && !op.Rd? {
        KeepsBank(op, Switch(d, op.bank).chip.Get(0));
      }
    }
  }

  // ---------------------------------------------------------------- sequences of accesses

  function CachedAll(d: Driver, ops: seq<Op>): Driver
    decreases |ops|
  {
    if ops == [] then d else CachedAll(Cached(d, ops[0]), ops[1..])
  }

  function CachedReads(d: Driver, ops: seq<Op>): (r: seq<byte>)
    ensures |r| == |ops|
    decreases |ops|
  {
    if ops == [] then [] else [CachedRead(d, ops[0])] + CachedReads(Cached(d, ops[0]), ops[1..])
  }

  function PlainAll(c: Chip, ops: seq<Op>): Chip
    decreases |ops|
  {
    if ops == [] then c else PlainAll(Plain(c, ops[0]), ops[1..])
  }

  function PlainReads(c: Chip, ops: seq<Op>): (r: seq<byte>)
    ensures |r| == |ops|
    decreases |ops|
  {
    if ops == [] then [] else [PlainRead(c, ops[0])] + PlainReads(Plain(c, ops[0]), ops[1..])
  }

  ghost predicate AllOk(ops: seq<Op>) {
    forall i | 0 <= i < |ops| :: OpOk(ops[i])
  }

  /** The cache is transparent: whatever the sequence of accesses and whatever the chip does in
      between, every register but 0x00 is read and left as without the cache, and register 0x00
      selects the same bank. */
  lemma {:induction false} CacheIsTransparent(d: Driver, c: Chip, ops: seq<Op>)
    requires Agree(d, c) && AllOk(ops)
    ensures Agree(CachedAll(d, ops), PlainAll(c, ops))
    ensures forall i | 0 <= i < |ops| :: ops[i].reg != 0 ==> CachedReads(d, ops)[i] == PlainReads(c, ops)[i]
    ensures forall i | 0 <= i < |ops| ::
              ops[i].reg == 0 && !ops[i].Hardware? ==> CachedReads(d, ops)[i] & 3 == PlainReads(c, ops)[i] & 3
    decreases |ops|
  {
    if ops != [] {
      StepAgrees(d, c, ops[0]);
      CacheIsTransparent(Cached(d, ops[0]), Plain(c, ops[0]), ops[1..]);
    }
  }

  /** So is a whole sequence from any driver, even one whose cache does not name the selected bank, as
      long as its first access selects its own bank or finds it selected. */
  lemma TransparentFromAnyStart(d: Driver, ops: seq<Op>)
    requires AllOk(ops) && ops != [] && !ops[0].Hardware?
    requires d.cur != ops[0].bank || d.chip.Bank() == ops[0].bank
    ensures Agree(CachedAll(d, ops), PlainAll(d.chip, ops))
  {
    var op := ops[0];
    var s := Switch(d, op.bank);
    Reselected(d.chip, op.bank);
    assert Agree(s, d.chip.Put(0, op.bank));
    StepAgrees(s, d.chip.Put(0, op.bank), op);
    assert Agree(Cached(d, op), Plain(d.chip, op));
    CacheIsTransparent(Cached(d, op), Plain(d.chip, op), ops[1..]);
  }

  lemma {:induction false} CachedAllAppend(d: Driver, a: seq<Op>, b: seq<Op>)
    ensures CachedAll(d, a + b) == CachedAll(CachedAll(d, a), b)
    decreases |a|
  {
    if a == [] {
      NilUnit(b);
    } else {
      CutLeft(a, b, 1);
      CachedAllAppend(Cached(d, a[0]), a[1..], b);
    }
  }

  lemma {:induction false} PlainAllAppend(c: Chip, a: seq<Op>, b: seq<Op>)
    ensures PlainAll(c, a + b) == PlainAll(PlainAll(c, a), b)
    decreases |a|
  {
    if a == [] {
      NilUnit(b);
    } else {
      CutLeft(a, b, 1);
      PlainAllAppend(Plain(c, a[0]), a[1..], b);
    }
  }

  lemma OtherCell(d: Driver, op: Op, bank: byte, reg: byte)
    requires Coherent(d) && OpOk(op) && reg != 0 && !op.Hardware? && !(op.bank == bank && op.reg == reg)
    ensures Coherent(Cached(d, op)) && Cached(d, op).chip.Cell(bank, reg) == d.chip.Cell(bank, reg)
  {
    StepAgrees(d, d.chip, op);
    assert Switch(d, op.bank).chip.Bank() == op.bank;
  }

  /** A list of accesses that names a register of a bank nowhere does not change it. */
  lemma {:induction false} CellIsSpared(d: Driver, ops: seq<Op>, bank: byte, reg: byte)
    requires Coherent(d) && AllOk(ops) && reg != 0
    requires forall i | 0 <= i < |ops| :: !(ops[i].bank == bank && ops[i].reg == reg) && !ops[i].Hardware?
    ensures CachedAll(d, ops).chip.Cell(bank, reg) == d.chip.Cell(bank, reg)
    decreases |ops|
  {
    if ops != [] {
      OtherCell(d, ops[0], bank, reg);
      CellIsSpared(Cached(d, ops[0]), ops[1..], bank, reg);
    }
  }

  // ---------------------------------------------------------------- bank and register 0x00 alone

  /** What an access does to the remembered bank and to register 0x00, which depends on nothing else. */
  function SelStep(s: (byte, byte), op: Op): (byte, byte) {
    if op.Hardware? then s
    else
      var sel := if s.0 != op.bank then op.bank else s.1;
      (op.bank, if op.reg == 0 && !op.Rd? then Written(op, sel) else sel)
  }

  function SelAll(s: (byte, byte), ops: seq<Op>): (byte, byte)
    decreases |ops|
  {
    if ops == [] then s else SelAll(SelStep(s, ops[0]), ops[1..])
  }

  lemma AccessSel(c: Chip, op: Op)
    requires !op.Hardware?
    ensures Access(c, op).sel == if op.reg == 0 && !op.Rd? then Written(op, c.sel) else c.sel
  {
  }

  lemma SelStepFollows(d: Driver, op: Op)
    ensures SelStep((d.cur, d.chip.sel), op) == (Cached(d, op).cur, Cached(d, op).chip.sel)
  {
    if !op.Hardware? {
      AccessSel(Switch(d, op.bank).chip, op);
    }
  }

  lemma {:induction false} SelFollows(d: Driver, ops: seq<Op>)
    ensures SelAll((d.cur, d.chip.sel), ops) == (CachedAll(d, ops).cur, CachedAll(d, ops).chip.sel)
    decreases |ops|
  {
    if ops != [] {
      SelStepFollows(d, ops[0]);
      SelFollows(Cached(d, ops[0]), ops[1..]);
    }
  }

  /** The driver without the cache forgets what register 0x00 held. */
  lemma PlainForgets(c: Chip, e: Chip, op: Op)
    requires c.mem == e.mem && !op.Hardware?
    ensures Plain(c, op) == Plain(e, op) && PlainRead(c, op) == PlainRead(e, op)
  {
    assert c.Put(0, op.bank) == e.Put(0, op.bank);
  }

  /** Register 0x00 itself. Anywhere in a run the two drivers leave equal chips exactly when the cache
      did not skip a selection that would have changed a bit that stays. */
  lemma EqualAfterIff(d: Driver, c: Chip, op: Op)
    requires Agree(d, c) && OpOk(op) && !op.Hardware?
    ensures Cached(d, op).chip == Plain(c, op)
            <==> d.cur != op.bank || d.chip.sel == op.bank
                 || (op.reg == 0 && op.Wr?)
                 || (op.reg == 0 && op.Rmw? && Written(op, d.chip.sel) == Written(op, op.bank))
  {
    PlainForgets(c, d.chip, op);
    if d.cur == op.bank {
      SelectedAccess(d.chip, op);
    }
  }

  /** With the bank already selected. */
  lemma SelectedAccess(c: Chip, op: Op)
    requires op.bank < 4 && c.Bank() == op.bank && !op.Hardware?
    ensures Access(c, op) == Access(c.Put(0, op.bank), op)
            <==> c.sel == op.bank
                 || (op.reg == 0 && op.Wr?)
                 || (op.reg == 0 && op.Rmw? && Written(op, c.sel) == Written(op, op.bank))
  {
    Reselected(c, op.bank);
    if op.reg == 0 {
      SelectRegister(c.sel, c.mem, op);
    } else {
      OtherRegister(c.sel, c.Put(0, op.bank).sel, c.mem, op);
    }
  }

  lemma Reselected(c: Chip, bank: byte)
    requires bank < 4
    ensures c.Put(0, bank) == Chip(bank, c.mem) && Chip(bank, c.mem).Bank() == bank
  {
  }

  /** An access that leaves register 0x00 alone. */
  lemma OtherRegister(a: byte, b: byte, mem: map<(byte, byte), byte>, op: Op)
    requires Chip(a, mem).Bank() == Chip(b, mem).Bank() && !op.Hardware? && op.reg != 0
    ensures Access(Chip(a, mem), op) == Access(Chip(b, mem), op) <==> a == b
  {
    assert Access(Chip(a, mem), op).sel == a && Access(Chip(b, mem), op).sel == b;
  }

  /** An access to register 0x00. */
  lemma SelectRegister(sel: byte, mem: map<(byte, byte), byte>, op: Op)
    requires !op.Hardware? && op.reg == 0
    ensures Access(Chip(sel, mem), op) == Access(Chip(op.bank, mem), op)
            <==> sel == op.bank || op.Wr? || (op.Rmw? && Written(op, sel) == Written(op, op.bank))
  {
    AccessZero(sel, mem, op);
    AccessZero(op.bank, mem, op);
  }

  lemma AccessZero(sel: byte, mem: map<(byte, byte), byte>, op: Op)
    requires !op.Hardware? && op.reg == 0
    ensures Access(Chip(sel, mem), op) == Chip(if op.Rd? then sel else Written(op, sel), mem)
  {
  }

  /** And the two read the same exactly when it is another register, or no selection was skipped
      that would have changed register 0x00. */
  lemma EqualReadIff(d: Driver, c: Chip, op: Op)
    requires Agree(d, c) && OpOk(op) && !op.Hardware?
    ensures CachedRead(d, op) == PlainRead(c, op)
            <==> op.reg != 0 || d.cur != op.bank || d.chip.sel == op.bank
  {
    PlainForgets(c, d.chip, op);
    if d.cur == op.bank {
      assert d.chip.Put(0, op.bank).Bank() == op.bank;
    }
  }

  /** A read and a write back are one read-modify-write. */
  lemma ReadThenWrite(d: Driver, bank: byte, reg: byte, keep: byte, bits: byte)
    ensures var v := CachedRead(d, Rd(bank, reg));
            Cached(Cached(d, Rd(bank, reg)), Wr(bank, reg, (v & keep) | bits)) == Cached(d, Rmw(bank, reg, keep, bits))
  {
  }

  // ---------------------------------------------------------------- the shadow registers

  /** The shadow of a register the chip does not change on its own is its contents. */
  ghost predicate Shadows(d: Driver) {
    forall k | k in d.shadow && k.1 != 0 :: k in d.chip.mem && d.chip.mem[k] == d.shadow[k]
  }

  lemma {:induction false} ShadowsStay(d: Driver, ops: seq<Op>)
    requires Coherent(d) && Shadows(d) && AllOk(ops)
    requires forall i | 0 <= i < |ops| :: !ops[i].Hardware?
    ensures Shadows(CachedAll(d, ops)) && Coherent(CachedAll(d, ops))
    decreases |ops|
  {
    if ops != [] {
      StepAgrees(d, d.chip, ops[0]);
      assert Switch(d, ops[0].bank).chip.Bank() == ops[0].bank;
      ShadowsStay(Cached(d, ops[0]), ops[1..]);
    }
  }

  // ---------------------------------------------------------------- a failing selection

  /** The cache is updated before the transfer that selects the bank, whatever comes of it. */
  function SwitchTry(d: Driver, bank: byte, ok: bool): Driver {
    if d.cur == bank then d else d.(cur := bank, chip := if ok then d.chip.Put(0, bank) else d.chip)
  }

  lemma FailedSwitchIsCoherentIff(d: Driver, bank: byte, ok: bool)
    requires Coherent(d) && bank < 4
    ensures Coherent(SwitchTry(d, bank, ok))
            <==> ok || d.cur == bank || (d.cur == NO_BANK && d.chip.Bank() == bank)
  {
  }
}
