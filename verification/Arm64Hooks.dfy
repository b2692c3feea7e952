/**
 The arm64 hooks of the generic walker: the descriptors they write and read obey
 what the walker relies on, and which attribute changes keep the walker's law
 that a split changes nothing.
 */
module Arm64Hooks {
  import opened Division
  import opened PageTableModel
  import opened PageTableSpec
  import opened PageTableHooks
  import opened Arm64Descriptors
  import opened Arm64Encoding

  function HooksOf(stage: Stage, base: nat): Hooks {
    Hooks((prot: Prot) => Normal(stage, prot),
          (level: nat, prot: Prot) => level == 1 || level == 2,
          (level: nat, frame: nat, prot: Prot) => LeafDesc(stage, Address(frame), prot, level),
          (frame: nat) => TableDesc(Address(frame)),
          0,
          (w: Descriptor) => w & VALID != 0,
          (w: Descriptor) => w & TYPE_MASK == BLOCK_DESC,
          (w: Descriptor) => FrameOf(w),
          (w: Descriptor) => w & ATTR_MASK,
          (prot: Prot) => IsProt(prot),
          ATTR_MASK, PFN_MASK, FRAMES, base)
  }

  /** The walker's entry for what a descriptor holds. */
  function EntryOf(h: Hooks, found: Found): Entry {
    match found
    case Nothing => Empty
    case Next(paddr) => Table(PoolPage(h, FrameOf(paddr)))
    case Maps(paddr, attrs) => Leaf(FrameOf(paddr), attrs)
  }

  lemma DecodeReads(stage: Stage, base: nat, level: Level, w: Descriptor)
    ensures Decode(HooksOf(stage, base), level, w) == EntryOf(HooksOf(stage, base), Read(w, level))
  {
    var h := HooksOf(stage, base);
    FrameOfField(w);
    if w & VALID == 0 {
      assert Decode(h, level, w) == Empty;
    } else {
      DecodePresent(h, stage, level, w);
    }
  }

  lemma DecodePresent(h: Hooks, stage: Stage, level: Level, w: Descriptor)
    requires h == HooksOf(stage, h.base) && w & VALID != 0 && FrameOf(w & PFN_MASK) == FrameOf(w)
    ensures Decode(h, level, w) == EntryOf(h, Read(w, level))
  {
    assert h.present(w) && h.block(w) == (w & TYPE_MASK == BLOCK_DESC) && h.frame(w) == FrameOf(w);
  }

  lemma Leaves(stage: Stage, base: nat, level: Level, frame: nat, prot: Prot)
    ensures LeafLaw(HooksOf(stage, base), level, frame, prot)
  {
    if level <= 2 && frame < FRAMES && IsProt(prot) {
      AddressRoundTrip(frame);
      LeafRoundTrip(stage, Address(frame), prot, level);
      DecodeReads(stage, base, level, LeafDesc(stage, Address(frame), prot, level));
    }
  }

  lemma Tables(stage: Stage, base: nat, level: Level, page: nat)
    ensures TableLaw(HooksOf(stage, base), level, page)
  {
    var h, frame := HooksOf(stage, base), base + page;
    if level >= 1 && frame < FRAMES {
      var paddr := Address(frame);
      var d := TableDesc(paddr);
      AddressRoundTrip(frame);
      assert Read(d, level) == Next(paddr) by {
        TableRoundTrip(paddr, level);
      }
      DecodeReads(stage, base, level, d);
      assert h.table(frame) == d;
    }
  }

  lemma Modifies(stage: Stage, base: nat, level: Level, w: Descriptor, set_: Descriptor, clr: Descriptor)
    ensures ModifyLaw(HooksOf(stage, base), level, w, set_, clr)
  {
    DecodeReads(stage, base, level, w);
    if Read(w, level).Maps? && set_ & !ATTR_MASK == 0 && clr & !ATTR_MASK == 0 {
      ModifiedReads(stage, base, level, w, set_, clr, (w & !clr) | set_);
    }
  }

  lemma ModifiedReads(stage: Stage, base: nat, level: Level, w: Descriptor, set_: Descriptor, clr: Descriptor,
                      w': Descriptor)
    requires Read(w, level).Maps? && set_ & !ATTR_MASK == 0 && clr & !ATTR_MASK == 0 && w' == (w & !clr) | set_
    ensures Decode(HooksOf(stage, base), level, w') == Leaf(FrameOf(w), Retag(w & ATTR_MASK, set_, clr))
  {
    ModifyRoundTrip(w, level, set_, clr);
    DecodeReads(stage, base, level, w');
    FrameOfField(w);
  }

  lemma SplitAttrs(stage: Stage, h: Hooks, w: Descriptor, prot: Prot, attrs: Prot)
    requires h == HooksOf(stage, h.base) && prot == w & !h.pfnMask && attrs == h.attrs(w)
    ensures h.isProt(prot) && Complete(h, prot) == Complete(h, attrs)
  {
    SplitBits(stage, h, w, prot, attrs);
    SplitNormal(stage, h, w, prot, attrs);
  }

  lemma SplitBits(stage: Stage, h: Hooks, w: Descriptor, prot: Prot, attrs: Prot)
    requires h == HooksOf(stage, h.base) && prot == w & !h.pfnMask && attrs == h.attrs(w)
    ensures prot == w & !PFN_MASK && attrs == w & ATTR_MASK
  {
  }

  lemma SplitNormal(stage: Stage, h: Hooks, w: Descriptor, prot: Prot, attrs: Prot)
    requires h == HooksOf(stage, h.base) && prot == w & !PFN_MASK && attrs == w & ATTR_MASK
    ensures h.isProt(prot) && Complete(h, prot) == Complete(h, attrs)
  {
    NormalAttrs(stage, w, prot, attrs);
  }

  lemma Splits(stage: Stage, h: Hooks, w: Descriptor, prot: Prot)
    requires h == HooksOf(stage, h.base)
    ensures SplitLaw(h, w, prot)
  {
    FrameNamed(stage, h, w);
    if prot == w & !h.pfnMask {
      SplitAttrs(stage, h, w, prot, h.attrs(w));
    }
  }

  lemma FrameNamed(stage: Stage, h: Hooks, w: Descriptor)
    requires h == HooksOf(stage, h.base)
    ensures h.frame(w) < h.frames
  {
    FrameBound(w);
  }

  lemma Limits(stage: Stage, base: nat)
    ensures LimitLaw(HooksOf(stage, base))
  {
    QuotUnique(262144, 0, Span(2));
    TimesIsMul(262144, Span(2));
  }

  lemma HooksLawful(stage: Stage, base: nat)
    ensures Lawful(HooksOf(stage, base))
  {
    var h := HooksOf(stage, base);
    forall prot ensures CompletionLaw(h, prot) {
      NormalTwice(stage, prot);
    }
    forall level: Level, frame, prot ensures LeafLaw(h, level, frame, prot) {
      Leaves(stage, base, level, frame, prot);
    }
    forall level: Level, page ensures TableLaw(h, level, page) {
      Tables(stage, base, level, page);
    }
    forall level: Level, w, set_, clr ensures ModifyLaw(h, level, w, set_, clr) {
      Modifies(stage, base, level, w, set_, clr);
    }
    forall w, prot ensures SplitLaw(h, w, prot) {
      Splits(stage, h, w, prot);
    }
    Limits(stage, base);
  }

  lemma NotKept(stage: Stage, base: nat, prot: Prot, set_: bv64, clr: bv64)
    requires Normal(stage, prot) == prot && Normal(stage, Retag(prot, set_, clr)) != Retag(prot, set_, clr)
    ensures !KeepsNormal(HooksOf(stage, base), Modify(set_, clr))
  {
    var h := HooksOf(stage, base);
    assert Complete(h, prot) == prot;
    assert Complete(h, Retag(prot, set_, clr)) != Retag(prot, set_, clr);
  }

  lemma Kept(stage: Stage, base: nat, set_: bv64, clr: bv64)
    requires set_ & !ATTR_MASK == 0 && Survives(stage, set_, clr)
    ensures KeepsNormal(HooksOf(stage, base), Modify(set_, clr))
  {
    var h := HooksOf(stage, base);
    forall prot: Prot | Complete(h, prot) == prot
      ensures Complete(h, Retag(prot, set_, clr)) == Retag(prot, set_, clr)
    {
      RetagNormal(stage, prot, set_, clr);
    }
  }

  /** A modify keeps attributes complete, whatever they were, exactly when it survives. */
  lemma ModifyKeepsNormal(stage: Stage, base: nat, set_: bv64, clr: bv64)
    requires set_ & !ATTR_MASK == 0
    ensures KeepsNormal(HooksOf(stage, base), Modify(set_, clr)) <==> Survives(stage, set_, clr)
  {
    if Survives(stage, set_, clr) {
      Kept(stage, base, set_, clr);
    } else if !KeepsFlag(set_, clr) {
      LosesFlag(stage, set_, clr);
      NotKept(stage, base, S2_ATTR_NORMAL, set_, clr);
    } else {
      LosesMemoryType(set_, clr);
      NotKept(stage, base, (clr & S2_MEMATTR) | AF, set_, clr);
    }
  }
}
