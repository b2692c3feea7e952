/**
 The page-table tree of core/mmu.c as a value: table pages, the entries they
 hold, the translation a walk computes, and the structural invariant that ties
 the pool's allocated pages to the tree.

 Addresses are counted in 4 KiB pages.  Levels 0..3 are PGTL0..PGTL3, so an
 entry of a level-l table covers Span(l) pages.
 */
module PageTableModel {
  import opened Options
  import opened Division

  const ENTRIES: nat := 512
  /** Number of 4 KiB pages in the 48-bit input address space. */
  const SPACE: nat := 68719476736

  /** Attribute bits of a leaf, without the address and descriptor-type bits. */
  type Prot = bv64

  /** What the architecture hooks decode an entry to. */
  datatype Entry = Empty | Table(page: nat) | Leaf(frame: nat, prot: Prot)

  datatype Mapping = Mapping(frame: nat, prot: Prot)

  type Memory = seq<seq<Entry>>

  type Level = l: nat | l <= 3

  /**
   Where an allocated table page sits in a tree: which root it belongs to, its
   level, the first page it translates, and the entry that points at it.
   */
  datatype Node = Node(root: nat, level: Level, base: nat, parent: nat, slot: nat)

  type Nodes = map<nat, Node>

  // ---------------------------------------------------------------------
  // Level arithmetic (include/common/pgtable.h)
  // ---------------------------------------------------------------------

  function Span(level: nat): (s: nat)
    requires level <= 4
    ensures s > 0
  {
    match level
    case 0 => 1
    case 1 => 512
    case 2 => 262144
    case 3 => 134217728
    case _ => 68719476736
  }

  lemma SpanStep(level: Level)
    ensures Span(level + 1) == Times(ENTRIES, Span(level))
  {
    TimesIsMul(ENTRIES, Span(level));
  }

  function Index(level: Level, v: nat): (i: nat)
    ensures i < ENTRIES
  {
    Quot(v, Span(level)) % ENTRIES
  }

  /** The offset of page v in the block that one entry of a level covers. */
  function Offset(level: nat, v: nat): nat
    requires level <= 4
  {
    Rem(v, Span(level))
  }

  /** mem_aligned_check for the block size of a level. */
  predicate Aligned(level: nat, v: nat)
    requires level <= 4
  {
    Offset(level, v) == 0
  }

  /** The first page translated by entry i of a table. */
  function SlotBase(n: Node, i: nat): nat {
    n.base + Times(i, Span(n.level))
  }

  predicate InSlot(n: Node, i: nat, v: nat) {
    SlotBase(n, i) <= v < SlotBase(n, i) + Span(n.level)
  }

  predicate InBlock(n: Node, v: nat) {
    n.base <= v < n.base + Span(n.level + 1)
  }

  /** An address belongs to entry i of a table exactly when the walk indexes i. */
  lemma SlotOfAddress(n: Node, i: nat, v: nat)
    requires Aligned(n.level + 1, n.base) && i < ENTRIES
    requires InBlock(n, v)
    ensures InSlot(n, i, v) <==> Index(n.level, v) == i
    ensures InSlot(n, i, v) ==> v - SlotBase(n, i) == Offset(n.level, v)
  {
    var s, big := Span(n.level), Span(n.level + 1);
    SpanStep(n.level);
    Digits(ENTRIES, s, v);
    QuotRem(n.base, big);
    QuotUnique(Quot(n.base, big), v - n.base, big);
    var j := Index(n.level, v);
    assert v - n.base == Times(j, s) + Rem(v, s);
    if i < j {
      TimesOrder(i, j, s);
    } else if j < i {
      TimesOrder(j, i, s);
    }
  }

  lemma SlotInBlock(n: Node, i: nat, v: nat)
    requires i < ENTRIES
    requires InSlot(n, i, v)
    ensures InBlock(n, v)
  {
    SpanStep(n.level);
    TimesOrder(i, ENTRIES, Span(n.level));
  }

  // ---------------------------------------------------------------------
  // Translation
  // ---------------------------------------------------------------------

  /** The translation of page v that a walk starting at a level-`level` table finds. */
  function Walk(m: Memory, level: Level, page: nat, v: nat): Option<Mapping>
    decreases level
  {
    if page < |m| && |m[page]| == ENTRIES then
      EntryWalk(m, level, m[page][Index(level, v)], v)
    else None
  }

  function EntryWalk(m: Memory, level: Level, e: Entry, v: nat): Option<Mapping>
    decreases level, 0
  {
    match e
    case Empty => None
    case Leaf(frame, prot) => Some(Mapping(frame + Offset(level, v), prot))
    case Table(q) => if level == 0 then None else Walk(m, level - 1, q, v)
  }

  /** The translation of page v in the address space of a root. */
  function View(m: Memory, root: nat, v: nat): Option<Mapping> {
    Walk(m, 3, root, v)
  }

  // ---------------------------------------------------------------------
  // Structural invariant
  // ---------------------------------------------------------------------

  ghost predicate NodeOk(m: Memory, nd: Nodes, p: nat)
    requires p in nd
  {
    var n := nd[p];
    && p < |m| && |m[p]| == ENTRIES
    && Aligned(n.level + 1, n.base)
    && n.base + Span(n.level + 1) <= SPACE
    && n.root in nd && nd[n.root].level == 3 && nd[n.root].root == n.root
    && (n.level == 3 ==> n.root == p && n.base == 0)
    && (n.level < 3 ==>
          && n.parent in nd && n.slot < ENTRIES
          && n.parent < |m| && |m[n.parent]| == ENTRIES
          && m[n.parent][n.slot] == Table(p)
          && var up := nd[n.parent];
             && up.level == n.level + 1 && up.root == n.root
             && n.base == SlotBase(up, n.slot))
  }

  ghost predicate EntryOk(m: Memory, nd: Nodes, p: nat, i: nat)
    requires p in nd && p < |m| && |m[p]| == ENTRIES && i < ENTRIES
  {
    match m[p][i]
    case Empty => true
    case Table(q) => q in nd && nd[q].level + 1 == nd[p].level && nd[q].parent == p && nd[q].slot == i
    case Leaf(frame, _) => nd[p].level <= 2 && Aligned(nd[p].level, frame)
  }

  /**
   The tree invariant: every allocated page is a root or is pointed at by
   exactly the one entry recorded for it, and every entry of an allocated page
   is empty, an aligned leaf, or points at the allocated page below it.
   */
  ghost predicate Inv(m: Memory, nd: Nodes) {
    && (forall p :: p in nd ==> p < |m| && |m[p]| == ENTRIES)
    && (forall p {:trigger NodeOk(m, nd, p)} :: p in nd ==> NodeOk(m, nd, p))
    && (forall p, i :: p in nd && 0 <= i < ENTRIES ==> EntryOk(m, nd, p, i))
  }

  ghost function Roots(nd: Nodes): set<nat> {
    set p | p in nd && nd[p].level == 3
  }

  predicate Occupied(t: seq<Entry>) {
    exists i :: 0 <= i < |t| && t[i] != Empty
  }

  function EmptyTable(): (t: seq<Entry>)
    ensures |t| == ENTRIES && !Occupied(t) && forall i :: 0 <= i < ENTRIES ==> t[i] == Empty
  {
    seq(ENTRIES, _ => Empty)
  }

  /** No level-0 or level-1 table is empty, apart from the pages in `except`. */
  ghost predicate NoEmptyTables(m: Memory, nd: Nodes, except: set<nat>) {
    forall p :: p in nd && nd[p].level <= 1 && p !in except ==> p < |m| && Occupied(m[p])
  }

  lemma NoneExempt(m: Memory, nd: Nodes, except: set<nat>, p: nat)
    requires NoEmptyTables(m, nd, except + {p}) && p < |m| && Occupied(m[p])
    ensures NoEmptyTables(m, nd, except)
  {
  }

  /** The allocated tables of level l and above are the same. */
  ghost predicate NodesFrom(nd0: Nodes, nd1: Nodes, l: nat) {
    && (forall p :: p in nd0 && nd0[p].level >= l ==> p in nd1 && nd1[p] == nd0[p])
    && (forall p :: p in nd1 && nd1[p].level >= l ==> p in nd0 && nd0[p] == nd1[p])
  }

  /** No allocated table was given up. */
  ghost predicate NodesGrow(nd0: Nodes, nd1: Nodes) {
    forall p :: p in nd0 ==> p in nd1 && nd1[p] == nd0[p]
  }

  /** The contents of the allocated tables of level l and above are the same. */
  ghost predicate PagesFrom(m0: Memory, m1: Memory, nd0: Nodes, l: nat) {
    && |m1| == |m0|
    && forall p :: p in nd0 && nd0[p].level >= l && p < |m0| ==> m1[p] == m0[p]
  }

  // ---------------------------------------------------------------------
  // Walks and the tree
  // ---------------------------------------------------------------------

  lemma ChildBlock(m: Memory, nd: Nodes, p: nat, v: nat)
    requires Inv(m, nd) && p in nd && InBlock(nd[p], v)
    ensures EntryOk(m, nd, p, Index(nd[p].level, v))
    ensures m[p][Index(nd[p].level, v)].Table? ==>
              InBlock(nd[m[p][Index(nd[p].level, v)].page], v)
  {
    var i := Index(nd[p].level, v);
    assert NodeOk(m, nd, p);
    assert EntryOk(m, nd, p, i);
    SlotOfAddress(nd[p], i, v);
    if m[p][i].Table? {
      assert NodeOk(m, nd, m[p][i].page);
    }
  }

  /** Every allocated table lies on the walk of every address of its block. */
  lemma {:induction false} OnPath(m: Memory, nd: Nodes, p: nat, v: nat)
    requires Inv(m, nd) && p in nd && InBlock(nd[p], v)
    ensures View(m, nd[p].root, v) == Walk(m, nd[p].level, p, v)
    decreases 3 - nd[p].level
  {
    assert NodeOk(m, nd, p);
    if nd[p].level < 3 {
      var up := nd[p].parent;
      assert NodeOk(m, nd, up);
      SlotInBlock(nd[up], nd[p].slot, v);
      SlotOfAddress(nd[up], nd[p].slot, v);
      OnPath(m, nd, up, v);
    }
  }

  /**
   A walk below a table depends only on the allocated entries on its way: when
   two memories agree everywhere but on entry (p, i), walks that do not go
   through that entry agree.
   */
  lemma {:induction false} OffPath(m: Memory, m': Memory, nd: Nodes, p: nat, i: nat, x: nat, v: nat)
    requires Inv(m, nd) && p in nd && i < ENTRIES && x in nd && InBlock(nd[x], v)
    requires SameExcept(m, m', nd, p, i)
    requires !(nd[x].root == nd[p].root && InSlot(nd[p], i, v))
    ensures Walk(m', nd[x].level, x, v) == Walk(m, nd[x].level, x, v)
    decreases nd[x].level
  {
    var j := Index(nd[x].level, v);
    assert NodeOk(m, nd, x);
    SlotOfAddress(nd[x], j, v);
    assert m'[x][j] == m[x][j];
    ChildBlock(m, nd, x, v);
    if m[x][j].Table? {
      var q := m[x][j].page;
      assert NodeOk(m, nd, q);
      OffPath(m, m', nd, p, i, q, v);
    }
  }

  lemma {:induction false} SameBelow(m: Memory, m': Memory, nd: Nodes, x: nat, v: nat)
    requires Inv(m, nd) && x in nd && InBlock(nd[x], v) && PagesFrom(m, m', nd, 0)
    ensures Walk(m', nd[x].level, x, v) == Walk(m, nd[x].level, x, v)
    decreases nd[x].level
  {
    ChildBlock(m, nd, x, v);
    var e := m[x][Index(nd[x].level, v)];
    if e.Table? {
      SameBelow(m, m', nd, e.page, v);
    }
  }

  ghost predicate SameExcept(m: Memory, m': Memory, nd: Nodes, p: nat, i: nat) {
    && |m'| == |m|
    && (forall x :: x in nd && x < |m| ==> |m'[x]| == |m[x]|)
    && (forall x, j :: x in nd && x < |m| && 0 <= j < |m[x]| && (x, j) != (p, i) ==> m'[x][j] == m[x][j])
  }

  // ---------------------------------------------------------------------
  // The three ways an operation changes the tree
  // ---------------------------------------------------------------------

  function Write(m: Memory, p: nat, i: nat, e: Entry): (m': Memory)
    requires p < |m| && i < |m[p]|
    ensures |m'| == |m| && |m'[p]| == |m[p]| && m'[p][i] == e
    ensures forall x :: 0 <= x < |m| && x != p ==> m'[x] == m[x]
  {
    m[p := m[p][i := e]]
  }

  /** Exactly the pages of entry (p, i) change, to the translation of `e`. */
  ghost predicate SlotBecomes(m: Memory, m': Memory, nd: Nodes, p: nat, i: nat, e: Entry)
    requires p in nd
  {
    forall r, v: nat :: r in Roots(nd) && v < SPACE ==>
      View(m', r, v) == if r == nd[p].root && InSlot(nd[p], i, v)
                        then EntryWalk(m', nd[p].level, e, v) else View(m, r, v)
  }

  lemma SlotChange(m: Memory, nd: Nodes, m': Memory, nd': Nodes, p: nat, i: nat)
    requires Inv(m, nd) && Inv(m', nd') && p in nd && p in nd' && nd'[p] == nd[p] && i < ENTRIES
    requires SameExcept(m, m', nd, p, i)
    requires NodeOk(m, nd, p) && NodeOk(m', nd', p)
    ensures SlotBecomes(m, m', nd, p, i, m'[p][i])
  {
    forall r, v: nat | r in Roots(nd) && v < SPACE
      ensures View(m', r, v) == if r == nd[p].root && InSlot(nd[p], i, v)
                                then EntryWalk(m', nd[p].level, m'[p][i], v) else View(m, r, v)
    {
      assert NodeOk(m, nd, r);
      if r == nd[p].root && InSlot(nd[p], i, v) {
        SlotInBlock(nd[p], i, v);
        SlotOfAddress(nd[p], i, v);
        OnPath(m', nd', p, v);
      } else {
        OffPath(m, m', nd, p, i, r, v);
      }
    }
  }

  /** Storing a leaf or an empty entry over a leaf or an empty entry. */
  lemma SetEntry(m: Memory, nd: Nodes, p: nat, i: nat, e: Entry)
    requires Inv(m, nd) && p in nd && i < ENTRIES && NodeOk(m, nd, p)
    requires !m[p][i].Table? && !e.Table?
    requires e.Leaf? ==> nd[p].level <= 2 && Aligned(nd[p].level, e.frame)
    ensures Inv(Write(m, p, i, e), nd)
    ensures SlotBecomes(m, Write(m, p, i, e), nd, p, i, e)
  {
    var m' := Write(m, p, i, e);
    forall x | x in nd ensures NodeOk(m', nd, x) {
      assert NodeOk(m, nd, x);
    }
    forall x, j | x in nd && 0 <= j < ENTRIES ensures EntryOk(m', nd, x, j) {
      assert NodeOk(m, nd, x) && EntryOk(m, nd, x, j);
    }
    SlotChange(m, nd, m', nd, p, i);
  }

  function ChildNode(n: Node, p: nat, i: nat): Node
    requires 1 <= n.level
  {
    Node(n.root, n.level - 1, SlotBase(n, i), p, i)
  }

  /** A page that may become a table below level `level`: only empty entries and aligned leaves. */
  ghost predicate FreshTable(t: seq<Entry>, level: Level)
  {
    && |t| == ENTRIES
    && forall j :: 0 <= j < ENTRIES ==>
         t[j] == Empty || (t[j].Leaf? && level <= 2 && Aligned(level, t[j].frame))
  }

  lemma ChildAligned(n: Node, i: nat)
    requires 1 <= n.level && Aligned(n.level + 1, n.base) && i < ENTRIES
    requires n.base + Span(n.level + 1) <= SPACE
    ensures Aligned(n.level, SlotBase(n, i))
    ensures SlotBase(n, i) + Span(n.level) <= SPACE
  {
    var s, k := Span(n.level), Quot(n.base, Span(n.level + 1));
    SpanStep(n.level);
    QuotRem(n.base, Span(n.level + 1));
    TimesTimes(k, ENTRIES, i, s);
    QuotUnique(Times(k, ENTRIES) + i, 0, s);
    TimesOrder(i, ENTRIES, s);
  }

  /** A non-table entry of p now points at the free page q, which holds a new table. */
  ghost predicate Linked(m: Memory, nd: Nodes, m': Memory, nd': Nodes, p: nat, i: nat, q: nat) {
    && p in nd && i < ENTRIES && NodeOk(m, nd, p) && nd[p].level >= 1 && !m[p][i].Table?
    && q !in nd && q < |m'| && |m'| == |m| && FreshTable(m'[q], nd[p].level - 1)
    && nd' == nd[q := ChildNode(nd[p], p, i)]
    && SameExcept(m, m', nd, p, i) && m'[p][i] == Table(q)
  }

  function LinkMemory(m: Memory, p: nat, i: nat, q: nat, t: seq<Entry>): (m': Memory)
    requires p < |m| && q < |m| && p != q && i < |m[p]|
    ensures |m'| == |m| && |m'[p]| == |m[p]| && m'[p][i] == Table(q) && m'[q] == t
    ensures forall x :: 0 <= x < |m| && x != p && x != q ==> m'[x] == m[x]
  {
    Write(m[q := t], p, i, Table(q))
  }

  lemma LinkWrites(m: Memory, nd: Nodes, p: nat, i: nat, q: nat, t: seq<Entry>)
    requires p in nd && i < ENTRIES && NodeOk(m, nd, p) && nd[p].level >= 1 && !m[p][i].Table?
    requires q !in nd && q < |m| && FreshTable(t, nd[p].level - 1)
    ensures Linked(m, nd, LinkMemory(m, p, i, q, t), nd[q := ChildNode(nd[p], p, i)], p, i, q)
  {
  }

  lemma LinkNode(m: Memory, nd: Nodes, m': Memory, nd': Nodes, p: nat, i: nat, q: nat, x: nat)
    requires Inv(m, nd) && Linked(m, nd, m', nd', p, i, q) && x in nd'
    ensures NodeOk(m', nd', x)
  {
    ChildAligned(nd[p], i);
    if x != q {
      assert NodeOk(m, nd, x);
      assert NodeOk(m, nd, nd[x].root);
      if nd[x].level < 3 {
        assert (nd[x].parent, nd[x].slot) != (p, i);
      }
    }
  }

  lemma LinkEntry(m: Memory, nd: Nodes, m': Memory, nd': Nodes, p: nat, i: nat, q: nat, x: nat, j: nat)
    requires Inv(m, nd) && Linked(m, nd, m', nd', p, i, q) && x in nd' && j < ENTRIES
    requires NodeOk(m', nd', x)
    ensures EntryOk(m', nd', x, j)
  {
    if x != q {
      assert NodeOk(m, nd, x) && EntryOk(m, nd, x, j);
    }
  }

  lemma Link(m: Memory, nd: Nodes, m': Memory, nd': Nodes, p: nat, i: nat, q: nat)
    requires Inv(m, nd) && Linked(m, nd, m', nd', p, i, q)
    ensures Inv(m', nd') && Roots(nd') == Roots(nd)
    ensures SlotBecomes(m, m', nd, p, i, Table(q))
  {
    forall x | x in nd' ensures NodeOk(m', nd', x) {
      LinkNode(m, nd, m', nd', p, i, q, x);
    }
    forall x, j | x in nd' && 0 <= j < ENTRIES ensures EntryOk(m', nd', x, j) {
      LinkEntry(m, nd, m', nd', p, i, q, x, j);
    }
    SlotChange(m, nd, m', nd', p, i);
  }

  /** The entry of a table that holds nothing is cleared, and that table is no longer allocated. */
  ghost predicate Unlinked(m: Memory, nd: Nodes, m': Memory, nd': Nodes, p: nat, i: nat, q: nat) {
    && p in nd && i < ENTRIES && NodeOk(m, nd, p) && m[p][i] == Table(q)
    && q < |m| && !Occupied(m[q])
    && nd' == nd - {q}
    && m' == Write(m, p, i, Empty)
  }

  lemma UnlinkNode(m: Memory, nd: Nodes, m': Memory, nd': Nodes, p: nat, i: nat, q: nat, x: nat)
    requires Inv(m, nd) && Unlinked(m, nd, m', nd', p, i, q) && x in nd'
    ensures NodeOk(m', nd', x)
  {
    assert EntryOk(m, nd, p, i);
    assert NodeOk(m, nd, q);
    assert NodeOk(m, nd, x);
    assert NodeOk(m, nd, nd[x].root);
  }

  lemma UnlinkInv(m: Memory, nd: Nodes, m': Memory, nd': Nodes, p: nat, i: nat, q: nat)
    requires Inv(m, nd) && Unlinked(m, nd, m', nd', p, i, q)
    ensures q in nd && nd[q].level + 1 == nd[p].level
    ensures Inv(m', nd')
  {
    assert EntryOk(m, nd, p, i);
    assert NodeOk(m, nd, q);
    forall x | x in nd' ensures NodeOk(m', nd', x) {
      UnlinkNode(m, nd, m', nd', p, i, q, x);
    }
    forall x, j | x in nd' && 0 <= j < ENTRIES ensures EntryOk(m', nd', x, j) {
      assert NodeOk(m, nd, x) && EntryOk(m, nd, x, j);
    }
  }

  lemma Unlink(m: Memory, nd: Nodes, m': Memory, nd': Nodes, p: nat, i: nat, q: nat)
    requires Inv(m, nd) && Unlinked(m, nd, m', nd', p, i, q)
    ensures q in nd && nd[q].level + 1 == nd[p].level
    ensures Inv(m', nd') && Roots(nd') == Roots(nd)
    ensures SlotBecomes(m, m', nd, p, i, Empty)
    ensures forall v: nat :: InSlot(nd[p], i, v) ==> View(m, nd[p].root, v) == None
  {
    UnlinkInv(m, nd, m', nd', p, i, q);
    SlotChange(m, nd, m', nd', p, i);
    assert NodeOk(m, nd, q);
    forall v: nat | InSlot(nd[p], i, v) ensures View(m, nd[p].root, v) == None {
      SlotInBlock(nd[p], i, v);
      SlotOfAddress(nd[p], i, v);
      OnPath(m, nd, p, v);
      assert m[q][Index(nd[q].level, v)] == Empty;
    }
  }
}
