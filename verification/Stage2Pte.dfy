/** The encoding of stage-2 page table entries on aarch64 (`src/arch/aarch64/mm.c`): what lets
    the tree model treat an entry as absent, a block or a table, and modes as attributes. */
module Stage2Pte {
  import opened PageTree

  type Pte = bv64

  const PTE_VALID: bv64 := 0x1
  const PTE_LEVEL0_BLOCK: bv64 := 0x2
  const PTE_TABLE: bv64 := 0x2
  const STAGE2_AF: bv64 := 0x400
  const STAGE2_SH_INNER: bv64 := 0x300
  const STAGE2_READ: bv64 := 0x40
  const STAGE2_WRITE: bv64 := 0x80
  const STAGE2_XN_NONE: bv64 := 0x0040_0000_0000_0000
  const STAGE2_XN_MASK: bv64 := 0x0060_0000_0000_0000
  const STAGE2_MEMATTR_DEVICE: bv64 := 0xC
  const STAGE2_MEMATTR_NORMAL: bv64 := 0x3C
  const STAGE2_MEMATTR_TYPE_MASK: bv64 := 0x30
  const STAGE2_SW_OWNED: bv64 := 0x0080_0000_0000_0000
  const STAGE2_SW_EXCLUSIVE: bv64 := 0x0100_0000_0000_0000
  const PTE_ADDR_MASK: bv64 := 0x0000_FFFF_FFFF_F000
  const PTE_ATTR_MASK: bv64 := 0xFFFF_0000_0000_0FFD
  const TABLE_NSTABLE: bv64 := 0x8000_0000_0000_0000
  const TABLE_APTABLE1: bv64 := 0x4000_0000_0000_0000
  const TABLE_APTABLE0: bv64 := 0x2000_0000_0000_0000
  const TABLE_XNTABLE: bv64 := 0x1000_0000_0000_0000
  const TABLE_PXNTABLE: bv64 := 0x0800_0000_0000_0000
  const STAGE1_NS: bv64 := 0x20
  const STAGE1_AP2: bv64 := 0x80
  const STAGE1_AP1: bv64 := 0x40
  const STAGE1_XN: bv64 := 0x0040_0000_0000_0000
  const STAGE1_PXN: bv64 := 0x0020_0000_0000_0000

  /** The `MM_MODE_*` flags that stage-2 entries record. */
  datatype Mode = Mode(r: bool, w: bool, x: bool, d: bool, invalid: bool, unowned: bool, shared: bool)

  /** `MM_MODE_UNMAPPED_MASK`: invalid and unowned. Such memory is unmapped rather than mapped. */
  predicate Unmapped(m: Mode) {
    m.invalid && m.unowned
  }

  function AbsentPte(): Pte {
    0
  }

  function TablePte(pa: bv64): Pte {
    pa | PTE_TABLE | PTE_VALID
  }

  function BlockPte(level: nat, pa: bv64, attrs: bv64): Pte {
    if level == 0 then pa | attrs | PTE_LEVEL0_BLOCK else pa | attrs
  }

  predicate IsValid(pte: Pte) {
    pte & PTE_VALID != 0
  }

  predicate IsPresent(pte: Pte) {
    IsValid(pte) || pte & STAGE2_SW_OWNED != 0
  }

  predicate IsTable(pte: Pte, level: nat) {
    level != 0 && IsValid(pte) && pte & PTE_TABLE != 0
  }

  predicate IsBlock(pte: Pte, level: nat) {
    BlockAllowed(level) &&
    if level == 0 then pte & PTE_LEVEL0_BLOCK != 0 else IsPresent(pte) && !IsTable(pte, level)
  }

  function PteAddr(pte: Pte): bv64 {
    pte & PTE_ADDR_MASK
  }

  function PteAttrs(pte: Pte): bv64 {
    pte & PTE_ATTR_MASK
  }

  function If(c: bool, b: bv64): bv64 {
    if c then b else 0
  }

  function ModeToStage2Attrs(m: Mode): bv64 {
    STAGE2_AF | STAGE2_SH_INNER | If(m.r, STAGE2_READ) | If(m.w, STAGE2_WRITE) | If(!m.x, STAGE2_XN_NONE)
    | (if m.d then STAGE2_MEMATTR_DEVICE else STAGE2_MEMATTR_NORMAL)
    | If(!m.unowned, STAGE2_SW_OWNED) | If(!m.shared, STAGE2_SW_EXCLUSIVE) | If(!m.invalid, PTE_VALID)
  }

  function Stage2AttrsToMode(a: bv64): Mode {
    Mode(
      a & STAGE2_READ != 0,
      a & STAGE2_WRITE != 0,
      a & STAGE2_XN_MASK == 0,
      a & STAGE2_MEMATTR_TYPE_MASK == 0,
      a & PTE_VALID == 0,
      a & STAGE2_SW_OWNED == 0,
      a & STAGE2_SW_EXCLUSIVE == 0)
  }

  function CombineTableEntryAttrs(table: bv64, block: bv64, vhe: bool): bv64 {
    var b1 := if table & TABLE_NSTABLE != 0 then block | STAGE1_NS else block;
    var b2 := if table & TABLE_APTABLE1 != 0 then b1 | STAGE1_AP2 else b1;
    var b3 := if table & TABLE_APTABLE0 != 0 then (if vhe then b2 | STAGE1_AP1 else b2 & !STAGE1_AP1) else b2;
    var b4 := if table & TABLE_XNTABLE != 0 then b3 | STAGE1_XN else b3;
    if table & TABLE_PXNTABLE != 0 then b4 | STAGE1_PXN else b4
  }

  predicate IsPa(pa: bv64) {
    pa & PTE_ADDR_MASK == pa
  }

  /** Converting a mode to attributes and back gives the mode, so distinct modes have distinct
      attributes. Every block's attributes carry the access flag. */
  lemma ModeRoundTrip(m: Mode)
    ensures Stage2AttrsToMode(ModeToStage2Attrs(m)) == m
    ensures ModeToStage2Attrs(m) & STAGE2_AF != 0
    ensures ModeToStage2Attrs(m) & PTE_ATTR_MASK == ModeToStage2Attrs(m)
  {
    ModeBits(m, ModeToStage2Attrs(m));
  }

  lemma ModeBits(m: Mode, a: bv64)
    requires a == ModeToStage2Attrs(m)
    ensures a & STAGE2_AF != 0 && a & PTE_ATTR_MASK == a
    ensures (a & STAGE2_READ != 0) == m.r && (a & STAGE2_WRITE != 0) == m.w && (a & STAGE2_XN_MASK == 0) == m.x
    ensures (a & STAGE2_MEMATTR_TYPE_MASK == 0) == m.d && (a & PTE_VALID == 0) == m.invalid
    ensures (a & STAGE2_SW_OWNED == 0) == m.unowned && (a & STAGE2_SW_EXCLUSIVE == 0) == m.shared
  {
  }

  /** A physical address and the attributes of a block: they carry the access flag and say that the
      memory is valid or owned. */
  predicate BlockParts(pa: bv64, a: bv64) {
    && pa & PTE_ADDR_MASK == pa && a & PTE_ATTR_MASK == a && a & STAGE2_AF != 0
    && (a & PTE_VALID != 0 || a & STAGE2_SW_OWNED != 0)
  }

  lemma AttrsAreParts(pa: bv64, m: Mode)
    requires IsPa(pa) && !Unmapped(m)
    ensures BlockParts(pa, ModeToStage2Attrs(m))
  {
    ModeBits(m, ModeToStage2Attrs(m));
  }

  /** An absent entry is not taken for anything else. */
  lemma AbsentKind(level: nat)
    ensures !IsPresent(AbsentPte()) && !IsBlock(AbsentPte(), level) && !IsTable(AbsentPte(), level)
    ensures PteAttrs(AbsentPte()) == 0
  {
  }

  /** Reading a table entry gives back what it was built from, and it is not taken for a block. */
  lemma TableKind(level: nat, pa: bv64)
    requires IsPa(pa) && level > 0
    ensures var t := TablePte(pa);
            IsPresent(t) && IsTable(t, level) && !IsBlock(t, level) && PteAddr(t) == pa && PteAttrs(t) == PTE_VALID
  {
    TableBits(pa);
  }

  lemma TableBits(pa: bv64)
    requires IsPa(pa)
    ensures var t := TablePte(pa);
            t & PTE_VALID != 0 && t & PTE_TABLE != 0 && PteAddr(t) == pa && PteAttrs(t) == PTE_VALID
  {
  }

  lemma LargeBits(pa: bv64, a: bv64)
    requires BlockParts(pa, a)
    ensures (pa | a) & PTE_ADDR_MASK == pa && (pa | a) & PTE_ATTR_MASK == a && (pa | a) & PTE_TABLE == 0
  {
  }

  lemma LargePresent(pa: bv64, a: bv64)
    requires BlockParts(pa, a)
    ensures (pa | a) & PTE_VALID != 0 || (pa | a) & STAGE2_SW_OWNED != 0
  {
  }

  lemma PageBits(pa: bv64, a: bv64)
    requires BlockParts(pa, a)
    ensures (pa | a | PTE_LEVEL0_BLOCK) & PTE_ADDR_MASK == pa && (pa | a | PTE_LEVEL0_BLOCK) & PTE_ATTR_MASK == a
  {
  }

  lemma PagePresent(pa: bv64, a: bv64)
    requires BlockParts(pa, a)
    ensures (pa | a | PTE_LEVEL0_BLOCK) & PTE_VALID != 0 || (pa | a | PTE_LEVEL0_BLOCK) & STAGE2_SW_OWNED != 0
    ensures (pa | a | PTE_LEVEL0_BLOCK) & PTE_LEVEL0_BLOCK != 0
  {
  }

  /** Reading a block entry at level 0 gives back the address and the attributes it was built from,
      and it is taken for a block. */
  lemma PageKind(pa: bv64, a: bv64, b: Pte)
    requires BlockParts(pa, a) && b == BlockPte(0, pa, a)
    ensures IsPresent(b) && IsBlock(b, 0) && !IsTable(b, 0)
    ensures PteAddr(b) == pa && PteAttrs(b) == a
  {
    PageBits(pa, a);
    PagePresent(pa, a);
    assert PteAddr(b) == pa && PteAttrs(b) == a;
    assert b & PTE_LEVEL0_BLOCK != 0 && (b & PTE_VALID != 0 || b & STAGE2_SW_OWNED != 0);
  }

  /** The same above level 0, where blocks are allowed. */
  lemma LargeKind(level: nat, pa: bv64, a: bv64, b: Pte)
    requires BlockParts(pa, a) && level > 0 && BlockAllowed(level) && b == BlockPte(level, pa, a)
    ensures IsPresent(b) && IsBlock(b, level) && !IsTable(b, level)
    ensures PteAddr(b) == pa && PteAttrs(b) == a
  {
    LargeBits(pa, a);
    LargePresent(pa, a);
    assert PteAddr(b) == pa && PteAttrs(b) == a;
    assert b & PTE_TABLE == 0 && (b & PTE_VALID != 0 || b & STAGE2_SW_OWNED != 0);
  }

  // ---- The bits of an entry, by number ----

  predicate Bit(pte: Pte, k: nat)
    requires k < 64
  {
    pte & (1 << k) != 0
  }

  /** What the hardware reads of the entry for memory in mode `m`: bit 0 is the valid bit, bit 1 tells a
      page from a larger block, bits 6 and 7 are read and write access, bit 10 is the access flag. Bits
      54 and 53 forbid execution at all exception levels or at none. */
  lemma AccessBits(level: nat, pa: bv64, m: Mode, pte: Pte)
    requires IsPa(pa) && pte == BlockPte(level, pa, ModeToStage2Attrs(m))
    ensures Bit(pte, 0) == !m.invalid && Bit(pte, 1) == (level == 0) && Bit(pte, 10)
    ensures Bit(pte, 6) == m.r && Bit(pte, 7) == m.w && Bit(pte, 54) == !m.x && !Bit(pte, 53)
  {
  }

  /** Bits 2 to 5 are the memory type, write-back normal memory or GRE device memory; bits 8 and 9 say
      inner shareable; bits 55 and 56 are left to software. */
  lemma TypeBits(level: nat, pa: bv64, m: Mode, pte: Pte)
    requires IsPa(pa) && pte == BlockPte(level, pa, ModeToStage2Attrs(m))
    ensures Bit(pte, 2) && Bit(pte, 3) && Bit(pte, 4) == !m.d && Bit(pte, 5) == !m.d && Bit(pte, 8) && Bit(pte, 9)
    ensures Bit(pte, 55) == !m.unowned && Bit(pte, 56) == !m.shared
  {
  }

  /** Merging a table into a block keeps the block's attributes: table entries carry none. */
  lemma CombineKeepsAttrs(pa: bv64, block: bv64, vhe: bool)
    requires IsPa(pa)
    ensures CombineTableEntryAttrs(PteAttrs(TablePte(pa)), block, vhe) == block
  {
    TableBits(pa);
  }

  // ---- Modes as the tree model sees them ----

  const WORD: nat := 0x1_0000_0000_0000_0000

  /** The attributes of a page in mode `m`; memory that is unmapped has an absent entry. */
  function AttrsOf(m: Mode): Attrs {
    if Unmapped(m) then ABSENT_ATTRS else ModeToStage2Attrs(m) as nat
  }

  function ModeOf(a: Attrs): Mode {
    if a < WORD then Stage2AttrsToMode(a as bv64) else Stage2AttrsToMode(0)
  }

  lemma AsNatRoundTrip(x: bv64)
    ensures (x as nat) < WORD && ((x as nat) as bv64) == x
  {
  }

  /** The mode of an absent entry. */
  const ABSENT_MODE := Mode(false, false, true, true, true, true, true)

  /** Reading back the attributes written for mode `m` gives `m`, or the mode of an absent entry
      when `m` is an unmapped one; and mapped modes have attributes a block may carry. */
  lemma ModeOfAttrsOf(m: Mode)
    ensures ModeOf(AttrsOf(m)) == if Unmapped(m) then ABSENT_MODE else m
    ensures !Unmapped(m) ==> IsBlockAttrs(AttrsOf(m))
    ensures Unmapped(ModeOf(AttrsOf(m))) == Unmapped(m)
  {
    var a := ModeToStage2Attrs(m);
    ModeRoundTrip(m);
    AsNatRoundTrip(a);
    assert Stage2AttrsToMode(0) == ABSENT_MODE;
    NatOfFlagged(a);
  }

  lemma NatOfFlagged(a: bv64)
    requires a & STAGE2_AF != 0
    ensures (a as nat) != 0 && (a as nat) != 1
  {
    AsNatRoundTrip(a);
  }
}
