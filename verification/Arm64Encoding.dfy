/**
 The descriptors of Arm64Descriptors are an encoding of the walker's entries:
 round trips for leaves, tables, attribute changes and splits.
 */
module Arm64Encoding {
  import opened MachineWords
  import opened Arm64Descriptors

  /** The address field holds any page frame below FRAMES. */
  lemma AddressRoundTrip(frame: nat)
    requires frame < FRAMES
    ensures IsAddress(Address(frame)) && FrameOf(Address(frame)) == frame
  {
    MaskOfFrame();
    ValueOfBits(frame, FRAME_BITS);
    ShiftedField(Bits(frame));
  }

  lemma ShiftedField(x: bv64)
    requires x & !0xF_FFFF_FFFF == 0
    ensures ((x << 12) & PFN_MASK) >> 12 == x && (x << 12) & !PFN_MASK == 0
  {
  }

  lemma FrameBound(d: bv64)
    ensures FrameOf(d) < FRAMES
  {
    MaskOfFrame();
    ValueBound((d & PFN_MASK) >> 12, FRAME_BITS);
  }

  /** The frame depends on the address field only. */
  lemma FrameOfField(d: bv64)
    ensures FrameOf(d & PFN_MASK) == FrameOf(d)
  {
    assert (d & PFN_MASK) & PFN_MASK == d & PFN_MASK;
  }

  /** Reading a written leaf gives back its address and completed attributes, at every leaf level. */
  lemma LeafRoundTrip(stage: Stage, paddr: bv64, prot: bv64, level: nat)
    requires IsAddress(paddr) && IsProt(prot) && level <= 2
    ensures Read(LeafDesc(stage, paddr, prot, level), level) == Maps(paddr, Normal(stage, prot))
  {
    LeafFields(paddr, LeafProt(stage, prot, level), LeafType(level), level);
    LeafProtIsNormal(stage, prot, level);
  }

  /** Address, attributes and type do not overlap in a leaf descriptor. */
  lemma LeafFields(paddr: bv64, prot: bv64, kind: bv64, level: nat)
    requires IsAddress(paddr) && IsProt(prot) && level <= 2 && kind == LeafType(level) && prot & TYPE_MASK == kind
    ensures Read(MakeEntry(paddr, prot), level) == Maps(paddr, prot & ATTR_MASK)
  {
    Fields(paddr, prot, kind);
  }

  lemma Fields(paddr: bv64, prot: bv64, kind: bv64)
    requires IsAddress(paddr) && IsProt(prot) && prot & TYPE_MASK == kind && kind & VALID != 0
    ensures var d := MakeEntry(paddr, prot);
            d & PFN_MASK == paddr && d & ATTR_MASK == prot & ATTR_MASK && d & TYPE_MASK == kind && d & VALID != 0
  {
  }

  lemma LeafProtIsNormal(stage: Stage, prot: bv64, level: nat)
    requires IsProt(prot)
    ensures var p := LeafProt(stage, prot, level);
            IsProt(p) && p & TYPE_MASK == LeafType(level) && p & ATTR_MASK == Normal(stage, prot)
  {
    match stage
    case Stage1 => LeafProt1(prot, level);
    case Stage2 => LeafProt2(prot, level);
  }

  lemma LeafProt1(prot: bv64, level: nat)
    requires IsProt(prot)
    ensures var p := LeafProt(Stage1, prot, level);
            IsProt(p) && p & TYPE_MASK == LeafType(level) && p & ATTR_MASK == Normal(Stage1, prot)
  {
    if level == 0 {
      assert LeafType(level) == PAGE_DESC;
    } else {
      assert LeafType(level) == BLOCK_DESC;
    }
  }

  lemma LeafProt2(prot: bv64, level: nat)
    requires IsProt(prot)
    ensures var p := LeafProt(Stage2, prot, level);
            IsProt(p) && p & TYPE_MASK == LeafType(level) && p & ATTR_MASK == Normal(Stage2, prot)
  {
    if level == 0 {
      assert LeafType(level) == PAGE_DESC;
    } else {
      assert LeafType(level) == BLOCK_DESC;
    }
  }

  lemma TableRoundTrip(paddr: bv64, level: nat)
    requires IsAddress(paddr) && level >= 1
    ensures Read(TableDesc(paddr), level) == Next(paddr)
  {
  }

  /** The stage-1 default to normal memory is never taken: the access flag is always set before the test. */
  lemma Stage1DefaultUnused(prot: bv64, level: nat)
    ensures LeafProt(Stage1, prot, level) == (prot & !TYPE_MASK) | LeafType(level) | AF
  {
  }

  lemma FlaggedTwice(p: bv64)
    ensures Flagged(Flagged(p)) == Flagged(p)
  {
  }

  lemma TypedTwice(p: bv64)
    ensures Typed(Typed(p)) == Typed(p)
  {
  }

  lemma FlaggedTyped(p: bv64)
    requires Flagged(p) == p
    ensures Flagged(Typed(p)) == Typed(p)
  {
  }

  /** Completing attributes twice is completing them once. */
  lemma NormalTwice(stage: Stage, prot: bv64)
    ensures Normal(stage, Normal(stage, prot)) == Normal(stage, prot)
  {
    FlaggedTwice(prot);
    FlaggedTyped(Flagged(prot));
    TypedTwice(Flagged(prot));
  }

  /** Completion looks only at attribute bits. */
  lemma FlaggedAttrs(d: bv64)
    ensures Flagged(d & !PFN_MASK) == Flagged(d & ATTR_MASK)
  {
    assert (d & !PFN_MASK) & ATTR_MASK == d & ATTR_MASK;
    assert (d & ATTR_MASK) & ATTR_MASK == d & ATTR_MASK;
  }

  /** Without its address, a descriptor asks for the attributes it has. */
  lemma NormalAttrs(stage: Stage, d: bv64, prot: bv64, attrs: bv64)
    requires prot == d & !PFN_MASK && attrs == d & ATTR_MASK
    ensures IsProt(prot) && Normal(stage, prot) == Normal(stage, attrs)
  {
    AttrsAreProt(d);
    FlaggedAttrs(d);
  }

  lemma AttrsAreProt(d: bv64)
    ensures IsProt(d & !PFN_MASK)
  {
  }

  /** MR_MODIFY on a leaf changes its attributes as the walker's model says, and nothing else. */
  lemma ModifyRoundTrip(d: bv64, level: nat, set_: bv64, clr: bv64)
    requires Read(d, level).Maps? && set_ & !ATTR_MASK == 0 && clr & !ATTR_MASK == 0
    ensures Read((d & !clr) | set_, level) == Maps(d & PFN_MASK, ((d & ATTR_MASK) & !clr) | set_)
  {
  }

  /** A split writes, one level down, a leaf with the completed attributes, so it keeps the attributes
      exactly when they were complete. */
  lemma SplitRoundTrip(stage: Stage, d: bv64, level: nat, paddr: bv64)
    requires 1 <= level <= 2 && Read(d, level).Maps? && IsAddress(paddr)
    ensures var child := Read(LeafDesc(stage, paddr, d & !PFN_MASK, level - 1), level - 1);
            && child == Maps(paddr, Normal(stage, d & ATTR_MASK))
            && (child == Maps(paddr, d & ATTR_MASK) <==> Normal(stage, d & ATTR_MASK) == d & ATTR_MASK)
  {
    FlaggedAttrs(d);
    AttrsAreProt(d);
    LeafRoundTrip(stage, paddr, d & !PFN_MASK, level - 1);
  }

  lemma FlaggedRetag(prot: bv64, set_: bv64, clr: bv64)
    requires set_ & !ATTR_MASK == 0 && KeepsFlag(set_, clr) && Flagged(prot) == prot
    ensures Flagged((prot & !clr) | set_) == (prot & !clr) | set_
  {
  }

  lemma TypedRetag(prot: bv64, set_: bv64, clr: bv64)
    requires KeepsMemoryType(set_, clr) && prot & S2_MEMATTR != 0
    ensures Typed((prot & !clr) | set_) == (prot & !clr) | set_
  {
  }

  lemma NormalHasType(prot: bv64)
    requires Typed(Flagged(prot)) == prot
    ensures Flagged(prot) == prot && prot & S2_MEMATTR != 0
  {
    FlaggedTwice(prot);
    FlaggedTyped(Flagged(prot));
    TypedHasType(Flagged(prot));
  }

  lemma TypedHasType(p: bv64)
    ensures Typed(p) & S2_MEMATTR != 0
  {
  }

  /** An attribute change that keeps the access flag and a memory type keeps attributes complete. */
  lemma RetagNormal(stage: Stage, prot: bv64, set_: bv64, clr: bv64)
    requires set_ & !ATTR_MASK == 0 && Survives(stage, set_, clr) && Normal(stage, prot) == prot
    ensures Normal(stage, (prot & !clr) | set_) == (prot & !clr) | set_
  {
    if stage == Stage2 {
      NormalHasType(prot);
      TypedRetag(prot, set_, clr);
    }
    FlaggedRetag(prot, set_, clr);
  }

  lemma LosesFlag(stage: Stage, set_: bv64, clr: bv64)
    requires !KeepsFlag(set_, clr)
    ensures Normal(stage, S2_ATTR_NORMAL) == S2_ATTR_NORMAL
    ensures Normal(stage, (S2_ATTR_NORMAL & !clr) | set_) != (S2_ATTR_NORMAL & !clr) | set_
  {
  }

  lemma LosesMemoryType(set_: bv64, clr: bv64)
    requires !KeepsMemoryType(set_, clr) && KeepsFlag(set_, clr) && set_ & !ATTR_MASK == 0
    ensures var prot := (clr & S2_MEMATTR) | AF;
            Normal(Stage2, prot) == prot && Normal(Stage2, (prot & !clr) | set_) != (prot & !clr) | set_
  {
  }
}
