/**
 The architecture side of the page-table walker: struct pgtable's hooks, which
 write and read 64-bit descriptors, what the walker relies on them for, and how
 pages of descriptors hold the entries that the walker's model speaks of.
 */
module PageTableHooks {
  import opened Options
  import opened Division
  import opened PageTableModel
  import opened PageTableSpec

  type Descriptor = bv64
  type Words = seq<seq<Descriptor>>

  /**
   struct pgtable and the constants the walker uses beside it.

   `normal` completes requested attributes, and `large` is large_page_support.
   `leaf` and `table` are set_pgentry with and without is_leaf, and `absent` is
   the sanitized entry.  `present` is pgentry_present, `block` is is_pgtl_large,
   `frame` the page number in page_addr, and `attrs` the attribute bits.

   Attributes that may be requested satisfy `isProt`; an edit may change the bits
   of `attrMask`; `pfnMask` covers the address.  Frames range below `frames`, and
   the pool's first page is frame `base`.
   */
  datatype Hooks = Hooks(
    normal: Prot -> Prot,
    large: (nat, Prot) -> bool,
    leaf: (nat, nat, Prot) -> Descriptor,
    table: nat -> Descriptor,
    absent: Descriptor,
    present: Descriptor -> bool,
    block: Descriptor -> bool,
    frame: Descriptor -> nat,
    attrs: Descriptor -> Prot,
    isProt: Prot -> bool,
    attrMask: Descriptor,
    pfnMask: Descriptor,
    frames: nat,
    base: nat)

  /** The attributes that set_pgentry stores for a leaf requested with `prot`. */
  function Complete(h: Hooks, prot: Prot): Prot {
    h.normal(prot)
  }

  predicate LargePageSupport(h: Hooks, level: Level, prot: Prot) {
    h.large(level, prot)
  }

  /** What the walker takes a descriptor of a level-`level` table for. */
  function Decode(h: Hooks, level: Level, w: Descriptor): Entry {
    if !h.present(w) then Empty
    else if level == 0 || (level <= 2 && h.block(w)) then Leaf(h.frame(w), h.attrs(w))
    else Table(PoolPage(h, h.frame(w)))
  }

  /** The pool page at a frame. */
  function PoolPage(h: Hooks, frame: nat): nat {
    if frame < h.base then 0 else frame - h.base
  }

  // ---------------------------------------------------------------------
  // What the walker relies on
  // ---------------------------------------------------------------------

  /** Completing attributes twice is completing them once. */
  ghost predicate CompletionLaw(h: Hooks, prot: Prot) {
    Complete(h, Complete(h, prot)) == Complete(h, prot)
  }

  /** A leaf reads back as its frame and completed attributes. */
  ghost predicate LeafLaw(h: Hooks, level: Level, frame: nat, prot: Prot) {
    level <= 2 && frame < h.frames && h.isProt(prot) ==>
      Decode(h, level, h.leaf(level, frame, prot)) == Leaf(frame, Complete(h, prot))
  }

  /** A table descriptor reads back as its pool page. */
  ghost predicate TableLaw(h: Hooks, level: Level, page: nat) {
    level >= 1 && h.base + page < h.frames ==> Decode(h, level, h.table(h.base + page)) == Table(page)
  }

  /** Clearing and setting attribute bits of a leaf changes its attributes and nothing else. */
  ghost predicate ModifyLaw(h: Hooks, level: Level, w: Descriptor, set_: Descriptor, clr: Descriptor) {
    var e := Decode(h, level, w);
    e.Leaf? && set_ & !h.attrMask == 0 && clr & !h.attrMask == 0 ==>
      Decode(h, level, (w & !clr) | set_) == Leaf(e.frame, Retag(e.prot, set_, clr))
  }

  /** What a split passes on of a descriptor may be requested and asks for the attributes it had. */
  ghost predicate SplitLaw(h: Hooks, w: Descriptor, prot: Prot) {
    h.frame(w) < h.frames && (prot == w & !h.pfnMask ==> h.isProt(prot) && Complete(h, prot) == Complete(h, h.attrs(w)))
  }

  /** The sanitized entry is absent, and the frames are whole blocks of every leaf level. */
  ghost predicate LimitLaw(h: Hooks) {
    !h.present(h.absent) && Aligned(2, h.frames)
  }

  ghost predicate Lawful(h: Hooks) {
    && LimitLaw(h)
    && (forall prot {:trigger CompletionLaw(h, prot)} :: CompletionLaw(h, prot))
    && (forall level: Level, frame, prot {:trigger LeafLaw(h, level, frame, prot)} :: LeafLaw(h, level, frame, prot))
    && (forall level: Level, page {:trigger TableLaw(h, level, page)} :: TableLaw(h, level, page))
    && (forall level: Level, w, set_, clr {:trigger ModifyLaw(h, level, w, set_, clr)} ::
         ModifyLaw(h, level, w, set_, clr))
    && (forall w, prot {:trigger SplitLaw(h, w, prot)} :: SplitLaw(h, w, prot))
  }

  /** The attribute change of an edit keeps complete attributes complete. */
  ghost predicate KeepsNormal(h: Hooks, e: Edit) {
    e.Modify? ==>
      forall prot :: Complete(h, prot) == prot ==> Complete(h, Retag(prot, e.set_, e.clr)) == Retag(prot, e.set_, e.clr)
  }

  /** An edit changes attribute bits only, and its changes survive a split. */
  ghost predicate EditOk(h: Hooks, e: Edit) {
    KeepsNormal(h, e) && (e.Modify? ==> e.set_ & !h.attrMask == 0 && e.clr & !h.attrMask == 0)
  }

  // ---------------------------------------------------------------------
  // Pages of descriptors
  // ---------------------------------------------------------------------

  ghost predicate PageHolds(h: Hooks, level: Level, ws: seq<Descriptor>, t: seq<Entry>) {
    |ws| == |t| && forall i :: 0 <= i < |t| ==> Decode(h, level, ws[i]) == t[i]
  }

  /** Every allocated page of descriptors reads as the table that the model has for it. */
  ghost predicate Holds(h: Hooks, w: Words, m: Memory, nd: Nodes) {
    && |w| == |m|
    && forall p {:trigger PageHolds(h, nd[p].level, w[p], m[p])} :: p in nd && p < |m| ==>
         PageHolds(h, nd[p].level, w[p], m[p])
  }

  function Put(w: Words, p: nat, i: nat, d: Descriptor): Words
    requires p < |w| && i < |w[p]|
  {
    w[p := w[p][i := d]]
  }

  lemma HoldsAt(h: Hooks, w: Words, m: Memory, nd: Nodes, p: nat, i: nat)
    requires Holds(h, w, m, nd) && p in nd && p < |m| && i < |m[p]|
    ensures p < |w| && |w[p]| == |m[p]| && Decode(h, nd[p].level, w[p][i]) == m[p][i]
  {
    assert PageHolds(h, nd[p].level, w[p], m[p]);
  }

  /** The translation of page v that a walk over descriptors finds, from a level-`level` table. */
  function WordWalk(h: Hooks, w: Words, level: Level, page: nat, v: nat): Option<Mapping>
    decreases level
  {
    if page < |w| && |w[page]| == ENTRIES then
      match Decode(h, level, w[page][Index(level, v)])
      case Empty => None
      case Leaf(frame, prot) => Some(Mapping(frame + Offset(level, v), prot))
      case Table(q) => if level == 0 then None else WordWalk(h, w, level - 1, q, v)
    else None
  }

  function Translation(h: Hooks, w: Words, root: nat, v: nat): Option<Mapping> {
    WordWalk(h, w, 3, root, v)
  }

  /** Walking the descriptors is walking the tables they hold. */
  lemma {:induction false} WalksAgree(h: Hooks, w: Words, m: Memory, nd: Nodes, x: nat, v: nat)
    requires Inv(m, nd) && Holds(h, w, m, nd) && x in nd && InBlock(nd[x], v)
    ensures WordWalk(h, w, nd[x].level, x, v) == Walk(m, nd[x].level, x, v)
    decreases nd[x].level
  {
    var i := Index(nd[x].level, v);
    ChildBlock(m, nd, x, v);
    HoldsAt(h, w, m, nd, x, i);
    if m[x][i].Table? {
      WalksAgree(h, w, m, nd, m[x][i].page, v);
    }
  }

  lemma TranslationIsView(h: Hooks, w: Words, m: Memory, nd: Nodes, root: nat, v: nat)
    requires Inv(m, nd) && Holds(h, w, m, nd) && root in Roots(nd) && v < SPACE
    ensures Translation(h, w, root, v) == View(m, root, v)
  {
    assert NodeOk(m, nd, root);
    WalksAgree(h, w, m, nd, root, v);
  }

  /** Writing one descriptor writes the entry it reads as. */
  lemma HoldsWrite(h: Hooks, w: Words, m: Memory, nd: Nodes, p: nat, i: nat, d: Descriptor, e: Entry)
    requires Holds(h, w, m, nd) && p in nd && p < |m| && i < |m[p]| && Decode(h, nd[p].level, d) == e
    ensures p < |w| && i < |w[p]| && Holds(h, Put(w, p, i, d), Write(m, p, i, e), nd)
  {
    HoldsAt(h, w, m, nd, p, i);
    var w', m' := Put(w, p, i, d), Write(m, p, i, e);
    forall x | x in nd && x < |m'| ensures PageHolds(h, nd[x].level, w'[x], m'[x]) {
      assert PageHolds(h, nd[x].level, w[x], m[x]);
    }
  }

  /** Filling a free page fills the table that it will be. */
  lemma HoldsPage(h: Hooks, w: Words, m: Memory, nd: Nodes, q: nat, ws: seq<Descriptor>, t: seq<Entry>, n: Node)
    requires Holds(h, w, m, nd) && q !in nd && q < |m| && PageHolds(h, n.level, ws, t)
    ensures Holds(h, w[q := ws], m[q := t], nd[q := n])
  {
    var w', m', nd' := w[q := ws], m[q := t], nd[q := n];
    forall x | x in nd' && x < |m'| ensures PageHolds(h, nd'[x].level, w'[x], m'[x]) {
      if x != q {
        assert PageHolds(h, nd[x].level, w[x], m[x]);
      }
    }
  }

  /** Hanging a filled page into a slot. */
  lemma HoldsLink(h: Hooks, w: Words, m: Memory, nd: Nodes, p: nat, i: nat, q: nat, ws: seq<Descriptor>, t: seq<Entry>)
    requires Lawful(h) && Holds(h, w, m, nd) && p in nd && p < |m| && i < |m[p]| && nd[p].level >= 1
    requires q !in nd && q < |m| && h.base + |m| <= h.frames && PageHolds(h, nd[p].level - 1, ws, t)
    ensures p < |w| && i < |w[p]| && q < |w|
    ensures Holds(h, Put(w[q := ws], p, i, h.table(h.base + q)), LinkMemory(m, p, i, q, t),
                  nd[q := ChildNode(nd[p], p, i)])
  {
    HoldsAt(h, w, m, nd, p, i);
    HoldsPage(h, w, m, nd, q, ws, t, ChildNode(nd[p], p, i));
    assert TableLaw(h, nd[p].level, q);
    HoldsWrite(h, w[q := ws], m[q := t], nd[q := ChildNode(nd[p], p, i)], p, i, h.table(h.base + q), Table(q));
  }

  /** Forgetting a page. */
  lemma HoldsLess(h: Hooks, w: Words, m: Memory, nd: Nodes, q: nat)
    requires Holds(h, w, m, nd)
    ensures Holds(h, w, m, nd - {q})
  {
    var nd' := nd - {q};
    forall x | x in nd' && x < |m| ensures PageHolds(h, nd'[x].level, w[x], m[x]) {
      assert PageHolds(h, nd[x].level, w[x], m[x]);
    }
  }

  /** A page after sanitize_pte. */
  function BlankPage(h: Hooks): (ws: seq<Descriptor>)
    ensures |ws| == ENTRIES && forall i :: 0 <= i < ENTRIES ==> ws[i] == h.absent
  {
    seq(ENTRIES, _ => h.absent)
  }

  lemma BlankReads(h: Hooks, level: Level)
    requires Lawful(h)
    ensures PageHolds(h, level, BlankPage(h), EmptyTable())
  {
    assert LimitLaw(h);
  }

  /** local_modify_or_del_pte on a descriptor. */
  function EditWord(h: Hooks, e: Edit, w: Descriptor): Descriptor {
    match e
    case Modify(set_, clr) => (w & !clr) | set_
    case Delete => h.absent
  }

  lemma EditWordReads(h: Hooks, level: Level, e: Edit, w: Descriptor)
    requires Lawful(h) && EditOk(h, e) && Decode(h, level, w).Leaf?
    ensures Decode(h, level, EditWord(h, e, w)) == EditEntry(e, Decode(h, level, w))
  {
    if e.Modify? {
      assert ModifyLaw(h, level, w, e.set_, e.clr);
    } else {
      assert LimitLaw(h);
    }
  }

  /** A block that starts at an aligned frame ends within the frames. */
  lemma BlockInFrames(h: Hooks, level: Level, frame: nat)
    requires Lawful(h) && level <= 2 && frame < h.frames && Aligned(level, frame)
    ensures frame + Span(level) <= h.frames
  {
    var s, n := Span(level), h.frames;
    assert LimitLaw(h);
    if level < 2 {
      CoarserAligned(2, n);
    }
    if level < 1 {
      CoarserAligned(1, n);
    }
    QuotRem(frame, s);
    QuotRem(n, s);
    if Quot(frame, s) < Quot(n, s) {
      TimesOrder(Quot(frame, s), Quot(n, s), s);
    } else if Quot(n, s) < Quot(frame, s) {
      TimesOrder(Quot(n, s), Quot(frame, s), s);
    }
  }

  /** The descriptors that split_large_page writes for a leaf read as its parts. */
  lemma SplitReads(h: Hooks, level: Level, w: Descriptor, prot: Prot, ws: seq<Descriptor>, t: seq<Entry>)
    requires Lawful(h) && 1 <= level <= 2 && Decode(h, level, w).Leaf? && Aligned(level, h.frame(w))
    requires |ws| == ENTRIES && prot == w & !h.pfnMask
    requires forall j: nat :: j < ENTRIES ==> ws[j] == h.leaf(level - 1, h.frame(w) + Times(j, Span(level - 1)), prot)
    requires SplitTable(t, level, h.frame(w), Complete(h, h.attrs(w)))
    ensures PageHolds(h, level - 1, ws, t)
  {
    assert SplitLaw(h, w, prot);
    BlockInFrames(h, level, h.frame(w));
    SpanStep(level - 1);
    forall j | 0 <= j < ENTRIES ensures Decode(h, level - 1, ws[j]) == t[j] {
      var f := h.frame(w) + Times(j, Span(level - 1));
      TimesOrder(j, ENTRIES, Span(level - 1));
      assert LeafLaw(h, level - 1, f, prot);
    }
  }
}
