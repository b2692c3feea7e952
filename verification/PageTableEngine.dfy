/**
 The generic page-table walker of core/mmu.c, mutating table pages in place.

 The functions add_pgtl1/add_pgtl2 and modify_or_del_pgtl1/modify_or_del_pgtl2
 differ only in their level, so each pair is one method with a level parameter.
 */
module PageTableEngine {
  import opened Options
  import opened Division
  import opened PageTableModel
  import opened PageTableSpec
  import opened PageTableHooks
  import opened PagePool

  const PAGE_SIZE: nat := 4096

  ghost predicate NormalTable(h: Hooks, t: seq<Entry>) {
    forall i :: 0 <= i < |t| && t[i].Leaf? ==> Complete(h, t[i].prot) == t[i].prot
  }

  /** The tree invariant together with complete attributes in every leaf. */
  ghost predicate Sound(h: Hooks, m: Memory, nd: Nodes) {
    Inv(m, nd) && Lawful(h) && forall p {:trigger NormalTable(h, m[p])} :: p in nd && p < |m| ==> NormalTable(h, m[p])
  }

  lemma SoundSet(h: Hooks, m: Memory, nd: Nodes, p: nat, i: nat, e: Entry)
    requires Sound(h, m, nd) && p in nd && i < ENTRIES && NodeOk(m, nd, p)
    requires !m[p][i].Table? && !e.Table?
    requires e.Leaf? ==> nd[p].level <= 2 && Aligned(nd[p].level, e.frame) && Complete(h, e.prot) == e.prot
    ensures Sound(h, Write(m, p, i, e), nd)
    ensures SlotBecomes(m, Write(m, p, i, e), nd, p, i, e)
  {
    SetEntry(m, nd, p, i, e);
    var m' := Write(m, p, i, e);
    forall x | x in nd ensures NormalTable(h, m'[x]) {
      assert NormalTable(h, m[x]);
    }
  }

  lemma SoundLink(h: Hooks, m: Memory, nd: Nodes, p: nat, i: nat, q: nat, t: seq<Entry>)
    requires Sound(h, m, nd) && p in nd && i < ENTRIES && NodeOk(m, nd, p) && nd[p].level >= 1 && !m[p][i].Table?
    requires q !in nd && q < |m| && FreshTable(t, nd[p].level - 1) && NormalTable(h, t)
    ensures var m' := LinkMemory(m, p, i, q, t);
            var nd' := nd[q := ChildNode(nd[p], p, i)];
            && Sound(h, m', nd') && Roots(nd') == Roots(nd) && |nd'| == |nd| + 1
            && SlotBecomes(m, m', nd, p, i, Table(q))
            && NodesFrom(nd, nd', nd[p].level) && PagesFrom(m, m', nd, nd[p].level + 1)
  {
    var m' := LinkMemory(m, p, i, q, t);
    var nd' := nd[q := ChildNode(nd[p], p, i)];
    LinkWrites(m, nd, p, i, q, t);
    Link(m, nd, m', nd', p, i, q);
    forall x | x in nd' ensures NormalTable(h, m'[x]) {
      if x != q {
        assert NormalTable(h, m[x]);
      }
    }
  }

  lemma LinkOccupancy(m: Memory, nd: Nodes, p: nat, i: nat, q: nat, t: seq<Entry>, except: set<nat>)
    requires p in nd && p < |m| && q < |m| && q !in nd && i < |m[p]| && nd[p].level >= 1
    requires NoEmptyTables(m, nd, except)
    ensures NoEmptyTables(LinkMemory(m, p, i, q, t), nd[q := ChildNode(nd[p], p, i)], except + {q})
    ensures Occupied(t) ==> NoEmptyTables(LinkMemory(m, p, i, q, t), nd[q := ChildNode(nd[p], p, i)], except)
  {
    var m' := LinkMemory(m, p, i, q, t);
    assert m'[p][i] != Empty;
  }

  /** Entry (p, i) was pointed at the new table q, and no translation changed. */
  ghost predicate Grown(m: Memory, nd: Nodes, m': Memory, nd': Nodes, p: nat, i: nat, q: nat) {
    && p in nd && nd[p].level >= 1 && q !in nd && nd' == nd[q := ChildNode(nd[p], p, i)] && |nd'| == |nd| + 1
    && p < |m'| && q < |m'| && i < |m'[p]| && m'[p][i] == Table(q)
    && NodesFrom(nd, nd', nd[p].level) && PagesFrom(m, m', nd, nd[p].level + 1) && NodesGrow(nd, nd')
    && SameView(m, m', Roots(nd))
  }

  /** Entry (p, i) points at table q, which may be new; no translation changed. */
  ghost predicate HasChild(m: Memory, nd: Nodes, m': Memory, nd': Nodes, p: nat, i: nat, q: nat) {
    && p in nd && nd[p].level >= 1 && p in nd' && nd'[p] == nd[p] && |m'| == |m| && p < |m| && i < |m[p]|
    && |nd'| == |nd| + (if m[p][i].Empty? then 1 else 0)
    && p < |m'| && i < |m'[p]| && m'[p][i] == Table(q)
    && q in nd' && nd'[q].level == nd[p].level - 1 && nd'[q].base == SlotBase(nd[p], i) && nd'[q].root == nd[p].root
    && NodesFrom(nd, nd', nd[p].level) && PagesFrom(m, m', nd, nd[p].level + 1) && NodesGrow(nd, nd')
    && SameView(m, m', Roots(nd))
  }

  /** The child table covers the entry's part of a range. */
  lemma ChildReady(m: Memory, nd: Nodes, m': Memory, nd': Nodes, level: Level, p: nat, i: nat, q: nat, v: nat,
                   end: nat, stop: nat)
    requires HasChild(m, nd, m', nd', p, i, q) && nd[p].level == level
    requires InSlot(nd[p], i, v) && stop == Min(end, SlotBase(nd[p], i) + Span(level))
    ensures q in nd' && nd'[q].level == level - 1 && InBlock(nd'[q], v) && stop == Min(end, nd'[q].base + Span(level))
    ensures nd'[q].root == nd[p].root
  {
  }

  /** What was added to the child table was added to the entry above it. */
  lemma AddedInto(m0: Memory, nd0: Nodes, m1: Memory, nd1: Nodes, m: Memory, nd: Nodes, level: Level, p: nat, i: nat,
                  q: nat, v: nat, to: nat, frame: nat, prot: Prot)
    requires HasChild(m0, nd0, m1, nd1, p, i, q) && nd0[p].level == level
    requires AddStep(m1, nd1, m, nd, level - 1, nd0[p].root, v, to, frame, prot)
    ensures AddStep(m0, nd0, m, nd, level, nd0[p].root, v, to, frame, prot) && p < |m| && Occupied(m[p])
  {
    AddStepBelow(m0, nd0, m1, nd1, m, nd, level, nd0[p].root, v, to, frame, prot);
    assert m[p] == m1[p] && m[p][i] != Empty;
  }

  /** The present entry (p, i) points at a table, which is new if it was a leaf; no translation changed. */
  ghost predicate Opened(m: Memory, nd: Nodes, m': Memory, nd': Nodes, p: nat, i: nat) {
    && p in nd && p in nd' && nd'[p] == nd[p] && |m'| == |m| && p < |m| && i < |m[p]|
    && NodeOk(m', nd', p) && i < |m'[p]| && m'[p][i].Table?
    && |nd'| <= |nd| + (if m[p][i].Leaf? then 1 else 0)
    && NodesFrom(nd, nd', KeptLevel(nd[p].level)) && PagesFrom(m, m', nd, nd[p].level + 1) && SameView(m, m', Roots(nd))
  }

  /** What was edited after opening an entry was edited before. */
  lemma EditedInto(m0: Memory, nd0: Nodes, m1: Memory, nd1: Nodes, m: Memory, nd: Nodes, level: Level, p: nat, i: nat,
                   v: nat, to: nat, e: Edit)
    requires Opened(m0, nd0, m1, nd1, p, i) && nd0[p].level == level
    requires EditStep(m1, nd1, m, nd, level, nd0[p].root, v, to, e)
    ensures EditStep(m0, nd0, m, nd, level, nd0[p].root, v, to, e)
  {
    EditStepBelow(m0, nd0, m1, nd1, m, nd, level, nd0[p].root, v, to, e);
  }

  /** Table q below entry (p, i) was given up and the entry cleared if it was empty; otherwise nothing changed. */
  ghost predicate Freed(m: Memory, nd: Nodes, m': Memory, nd': Nodes, p: nat, i: nat, q: nat, empty: bool)
  {
    if empty then p < |m| && i < |m[p]| && m' == Write(m, p, i, Empty) && nd' == nd - {q} else m' == m && nd' == nd
  }

  /** Tables below level `level` may have gone; no translation changed. */
  ghost predicate Trimmed(m: Memory, nd: Nodes, m': Memory, nd': Nodes, level: Level) {
    && NodesFrom(nd, nd', KeptLevel(level)) && PagesFrom(m, m', nd, level + 1) && SameView(m, m', Roots(nd))
  }

  lemma GrowEmpty(h: Hooks, m: Memory, nd: Nodes, p: nat, i: nat, q: nat, t: seq<Entry>, except: set<nat>)
    requires Sound(h, m, nd) && p in nd && i < ENTRIES && NodeOk(m, nd, p) && nd[p].level >= 1 && m[p][i] == Empty
    requires q !in nd && q < |m| && |t| == ENTRIES && !Occupied(t)
    requires NoEmptyTables(m, nd, except)
    ensures var m' := LinkMemory(m, p, i, q, t);
            var nd' := nd[q := ChildNode(nd[p], p, i)];
            Sound(h, m', nd') && Grown(m, nd, m', nd', p, i, q) && NoEmptyTables(m', nd', except + {q})
  {
    SoundLink(h, m, nd, p, i, q, t);
    EmptyTableKeepsView(m, nd, LinkMemory(m, p, i, q, t), p, i, q);
    LinkOccupancy(m, nd, p, i, q, t, except);
  }

  lemma GrowSplit(h: Hooks, m: Memory, nd: Nodes, p: nat, i: nat, q: nat, t: seq<Entry>, except: set<nat>)
    requires Sound(h, m, nd) && p in nd && i < ENTRIES && NodeOk(m, nd, p) && 1 <= nd[p].level <= 2 && m[p][i].Leaf?
    requires q !in nd && q < |m| && SplitTable(t, nd[p].level, m[p][i].frame, m[p][i].prot)
    requires NoEmptyTables(m, nd, except)
    ensures var m' := LinkMemory(m, p, i, q, t);
            var nd' := nd[q := ChildNode(nd[p], p, i)];
            Sound(h, m', nd') && Grown(m, nd, m', nd', p, i, q) && NoEmptyTables(m', nd', except)
  {
    assert EntryOk(m, nd, p, i);
    assert NormalTable(h, m[p]);
    SplitFresh(t, nd[p].level, m[p][i].frame, m[p][i].prot);
    SoundLink(h, m, nd, p, i, q, t);
    SplitKeepsView(m, nd, LinkMemory(m, p, i, q, t), p, i, q);
    assert t[0] != Empty;
    LinkOccupancy(m, nd, p, i, q, t, except);
  }

  /** Entry (p, i), which pointed at an empty table, was cleared, and no translation changed. */
  lemma FreeEmpty(h: Hooks, m: Memory, nd: Nodes, p: nat, i: nat, q: nat, except: set<nat>)
    requires Sound(h, m, nd) && p in nd && i < ENTRIES && NodeOk(m, nd, p) && m[p][i] == Table(q)
    requires q < |m| && !Occupied(m[q]) && NoEmptyTables(m, nd, except + {q})
    ensures q in nd
    ensures var m' := Write(m, p, i, Empty);
            var nd' := nd - {q};
            && Sound(h, m', nd') && |nd'| < |nd| && NoEmptyTables(m', nd', except + {p})
            && NodesFrom(nd, nd', nd[p].level) && PagesFrom(m, m', nd, nd[p].level + 1)
            && SameView(m, m', Roots(nd))
  {
    var m' := Write(m, p, i, Empty);
    var nd' := nd - {q};
    Unlink(m, nd, m', nd', p, i, q);
    forall x | x in nd' ensures NormalTable(h, m'[x]) {
      assert NormalTable(h, m[x]);
    }
    assert nd'.Keys == nd.Keys - {q};
  }

  function Min(a: nat, b: nat): nat {
    if a < b then a else b
  }

  /** (vaddr & MASK) + SIZE at a level. */
  function EntryEnd(level: Level, v: nat): (next: nat)
    ensures next > v
  {
    v - Offset(level, v) + Span(level)
  }

  /**
   Up to level `reach`, blocks of pages that start at v and frames that start at `frame` are aligned alike, and may
   be mapped by one leaf.
   */
  ghost predicate Reaches(h: Hooks, reach: nat, v: nat, frame: nat, prot: Prot) {
    && reach <= 2
    && forall j: Level :: 1 <= j <= reach ==> LargePageSupport(h, j, prot) && Offset(j, v) == Offset(j, frame)
  }

  /** The highest such level. */
  function Reach(h: Hooks, v: nat, frame: nat, prot: Prot): (reach: nat)
    ensures Reaches(h, reach, v, frame, prot)
  {
    if !LargePageSupport(h, 1, prot) || Offset(1, v) != Offset(1, frame) then 0
    else if !LargePageSupport(h, 2, prot) || Offset(2, v) != Offset(2, frame) then 1 else 2
  }

  lemma ReachesOn(h: Hooks, reach: nat, v: nat, frame: nat, prot: Prot, v': nat, frame': nat)
    requires Reaches(h, reach, v, frame, prot) && v <= v' && v' + frame == v + frame'
    ensures Reaches(h, reach, v', frame', prot)
  {
    forall j: Level | 1 <= j <= reach ensures LargePageSupport(h, j, prot) && Offset(j, v') == Offset(j, frame') {
      assert Offset(j, v) == Offset(j, frame);
      RemShift(v, frame, v' - v, Span(j));
    }
  }

  /** The fixed part of a loop over one table: table p with node n, the range [start, end) of which [start, stop)
      lies in the table, and the levels whose blocks may need a table, `top` and below. */
  datatype Loop = Loop(p: nat, n: Node, start: nat, end: nat, stop: nat, except: set<nat>, reach: nat, top: Level)
  {
    ghost predicate Ok() {
      && start < end && stop == Min(end, n.base + Span(n.level + 1)) && Aligned(n.level + 1, n.base)
      && (top == n.level || top == KeptLevel(n.level))
    }

    /** The loop stands at page v, in entry `index`. */
    ghost predicate At(index: nat, v: nat) {
      && index < ENTRIES && start <= v < end && InSlot(n, index, v)
      && (Aligned(n.level, v) || v == start)
    }

    /** The frame for page v when `start` gets frame0. */
    ghost predicate FrameAt(frame0: nat, v: nat, frame: nat) {
      frame + start == frame0 + v
    }

    function Need(a: nat, b: nat): nat {
      TableNeed(reach, top, a, b)
    }
  }

  /** The tree when the loop has added [start, v) with frames from frame0. */
  ghost predicate AddLoop(l: Loop, m0: Memory, nd0: Nodes, m: Memory, nd: Nodes, v: nat, frame0: nat, prot: Prot) {
    && l.p in nd && nd[l.p] == l.n && |m| == |m0| && v <= l.stop
    && NoEmptyTables(m, nd, l.except + {l.p})
    && |nd| + l.Need(v, l.stop) <= |nd0| + l.Need(l.start, l.stop)
    && AddStep(m0, nd0, m, nd, l.n.level, l.n.root, l.start, v, frame0, prot)
  }

  /** The loop stands at page v in entry `index`, is about to use `frame`, and has added [start, v). */
  ghost predicate AddAt(l: Loop, m0: Memory, nd0: Nodes, m: Memory, nd: Nodes, index: nat, v: nat, frame: nat,
                        frame0: nat, prot: Prot)
  {
    l.Ok() && l.At(index, v) && l.FrameAt(frame0, v, frame) && AddLoop(l, m0, nd0, m, nd, v, frame0, prot)
  }

  /** The loop has added [start, to), which is all of its part unless the pool ran out of pages. */
  ghost predicate AddEnded(l: Loop, m0: Memory, nd0: Nodes, m: Memory, nd: Nodes, frame0: nat, prot: Prot, ok: bool,
                           to: nat)
  {
    && (ok ==> NoEmptyTables(m, nd, l.except)) && l.start <= to && |m| == |m0|
    && Ended(ok, |nd0|, |nd|, |m|, l.Need(l.start, l.stop), to, l.stop)
    && AddStep(m0, nd0, m, nd, l.n.level, l.n.root, l.start, to, frame0, prot)
  }

  ghost predicate AddGoesOn(l: Loop, m0: Memory, nd0: Nodes, m: Memory, nd: Nodes, index: nat, v: nat, frame: nat,
                            frame0: nat, prot: Prot, more: bool, ok: bool, to: nat)
  {
    if more then AddAt(l, m0, nd0, m, nd, index, v, frame, frame0, prot)
    else AddEnded(l, m0, nd0, m, nd, frame0, prot, ok, to)
  }

  lemma AddLoopStart(l: Loop, m: Memory, nd: Nodes, frame0: nat, prot: Prot)
    requires l.Ok() && l.p in nd && nd[l.p] == l.n && InBlock(l.n, l.start) && NoEmptyTables(m, nd, l.except + {l.p})
    ensures AddAt(l, m, nd, m, nd, Index(l.n.level, l.start), l.start, frame0, frame0, prot)
  {
    SlotOfAddress(l.n, Index(l.n.level, l.start), l.start);
  }

  /** (vaddr & MASK) + SIZE is where the entry that covers vaddr ends. */
  lemma EntryEndIsSlotEnd(n: Node, i: nat, v: nat)
    requires Aligned(n.level + 1, n.base) && i < ENTRIES && InSlot(n, i, v)
    ensures EntryEnd(n.level, v) == SlotBase(n, i) + Span(n.level) == SlotBase(n, i + 1)
    ensures Aligned(n.level, EntryEnd(n.level, v))
  {
    var s := Span(n.level);
    SlotInBlock(n, i, v);
    SlotOfAddress(n, i, v);
    QuotRem(v, s);
    TimesAdd(Quot(v, s), 1, s);
    QuotUnique(Quot(v, s) + 1, 0, s);
    TimesAdd(i, 1, s);
  }

  /** The part of a range in one entry is all of the entry if both its ends are aligned. */
  lemma SlotEnds(n: Node, i: nat, v: nat, end: nat, next: nat, stop: nat)
    requires Aligned(n.level + 1, n.base) && i < ENTRIES && InSlot(n, i, v) && v < end
    requires next == EntryEnd(n.level, v) && stop == Min(end, SlotBase(n, i) + Span(n.level))
    ensures Aligned(n.level, stop) ==> next <= end
  {
    EntryEndIsSlotEnd(n, i, v);
    if end < next {
      SlotInBlock(n, i, end);
      SlotOfAddress(n, i, v);
      SlotOfAddress(n, i, end);
    }
  }

  /** Moving from one entry of a table to the next. */
  lemma RangeStep(l: Loop, i: nat, v: nat, next: nat, to: nat)
    requires l.Ok() && l.At(i, v) && next == EntryEnd(l.n.level, v) && to == Min(l.end, next)
    ensures next == SlotBase(l.n, i) + Span(l.n.level) && Aligned(l.n.level, next) && v < to <= l.stop
    ensures if next < l.end && i + 1 < ENTRIES then to == next && l.At(i + 1, next) else to == l.stop
  {
    EntryEndIsSlotEnd(l.n, i, v);
    SpanStep(l.n.level);
    if i + 1 < ENTRIES {
      TimesOrder(i + 1, ENTRIES, Span(l.n.level));
    }
  }

  /** The need of a range is the need of its first entry and of the rest. */
  lemma NeedStep(l: Loop, v: nat, next: nat, to: nat)
    requires l.Ok() && Aligned(l.n.level, next) && v <= to <= l.stop && (to == next || to == l.stop)
    ensures l.Need(v, l.stop) == l.Need(v, to) + l.Need(to, l.stop)
  {
    if to == next {
      if l.top < l.n.level {
        CoarserAligned(3, next);
      }
      NeedSplit(l.reach, l.top, v, next, l.stop);
    } else {
      NeedNone(l.reach, l.top, l.stop);
    }
  }

  /** One more entry: from [start, v) to [start, to). */
  lemma AddLoopStep(l: Loop, m0: Memory, nd0: Nodes, m: Memory, nd: Nodes, m': Memory, nd': Nodes, index: nat, v: nat,
                    next: nat, to: nat,
                    frame0: nat, frame: nat, prot: Prot, more: bool, index': nat, frame': nat)
    requires AddAt(l, m0, nd0, m, nd, index, v, frame, frame0, prot) && index' == index + 1
    requires frame' == frame + (next - v)
    requires next == EntryEnd(l.n.level, v) && to == Min(l.end, next) && more == (next < l.end && index + 1 < ENTRIES)
    requires AddStep(m, nd, m', nd', l.n.level, l.n.root, v, to, frame, prot) && |nd'| <= |nd| + l.Need(v, to)
    requires NoEmptyTables(m', nd', l.except + {l.p}) && l.p < |m'| && Occupied(m'[l.p])
    ensures AddGoesOn(l, m0, nd0, m', nd', index', next, frame', frame0, prot, more, true, to)
  {
    RangeStep(l, index, v, next, to);
    NeedStep(l, v, next, to);
    AddStepMore(m0, nd0, m, nd, m', nd', l.n.level, l.n.root, l.start, v, to, frame0, frame, prot);
    NoneExempt(m', nd', l.except, l.p);
  }

  /** The entry could not be added in full. */
  lemma AddLoopStops(l: Loop, m0: Memory, nd0: Nodes, m: Memory, nd: Nodes, m': Memory, nd': Nodes, index: nat, v: nat,
                     next: nat, stop: nat, to: nat, frame0: nat, frame: nat, prot: Prot)
    requires AddAt(l, m0, nd0, m, nd, index, v, frame, frame0, prot)
    requires next == EntryEnd(l.n.level, v) && stop == Min(l.end, next) && v <= to
    requires AddStep(m, nd, m', nd', l.n.level, l.n.root, v, to, frame, prot)
    requires Ended(false, |nd|, |nd'|, |m'|, l.Need(v, stop), to, stop)
    ensures AddEnded(l, m0, nd0, m', nd', frame0, prot, false, to)
  {
    RangeStep(l, index, v, next, stop);
    NeedStep(l, v, next, stop);
    AddStepMore(m0, nd0, m, nd, m', nd', l.n.level, l.n.root, l.start, v, to, frame0, frame, prot);
  }

  /** The table whose entries a delete clears may become empty. */
  function Emptied(e: Edit, p: nat): set<nat> {
    if e.Delete? then {p} else {}
  }

  /** The tree when the loop has edited [start, v). */
  ghost predicate EditLoop(l: Loop, m0: Memory, nd0: Nodes, m: Memory, nd: Nodes, v: nat, e: Edit) {
    && l.p in nd && nd[l.p] == l.n && |m| == |m0|
    && NoEmptyTables(m, nd, l.except + Emptied(e, l.p))
    && |nd| + l.Need(v, l.stop) <= |nd0| + l.Need(l.start, l.stop)
    && EditStep(m0, nd0, m, nd, l.n.level, l.n.root, l.start, v, e)
  }

  ghost predicate EditAt(l: Loop, m0: Memory, nd0: Nodes, m: Memory, nd: Nodes, index: nat, v: nat, e: Edit) {
    l.Ok() && l.At(index, v) && EditLoop(l, m0, nd0, m, nd, v, e)
  }

  /** The loop has edited [start, to), which is all of its part unless the pool ran out of pages. */
  ghost predicate EditEnded(l: Loop, m0: Memory, nd0: Nodes, m: Memory, nd: Nodes, e: Edit, ok: bool, to: nat) {
    && l.p in nd && nd[l.p] == l.n && |m| == |m0| && l.start <= to
    && (ok ==> NoEmptyTables(m, nd, l.except + Emptied(e, l.p)))
    && Ended(ok, |nd0|, |nd|, |m|, l.Need(l.start, l.stop), to, l.stop)
    && EditStep(m0, nd0, m, nd, l.n.level, l.n.root, l.start, to, e)
  }

  ghost predicate EditGoesOn(l: Loop, m0: Memory, nd0: Nodes, m: Memory, nd: Nodes, index: nat, v: nat, e: Edit,
                             more: bool, ok: bool, to: nat) {
    if more then EditAt(l, m0, nd0, m, nd, index, v, e) else EditEnded(l, m0, nd0, m, nd, e, ok, to)
  }

  lemma EditLoopStart(l: Loop, m: Memory, nd: Nodes, e: Edit)
    requires l.Ok() && l.p in nd && nd[l.p] == l.n && InBlock(l.n, l.start) && NoEmptyTables(m, nd, l.except)
    ensures EditAt(l, m, nd, m, nd, Index(l.n.level, l.start), l.start, e)
  {
    SlotOfAddress(l.n, Index(l.n.level, l.start), l.start);
  }

  lemma EditLoopStep(l: Loop, m0: Memory, nd0: Nodes, m: Memory, nd: Nodes, m': Memory, nd': Nodes,
                     index: nat, v: nat, next: nat, to: nat, e: Edit, more: bool, index': nat)
    requires EditAt(l, m0, nd0, m, nd, index, v, e) && index' == index + 1
    requires next == EntryEnd(l.n.level, v) && to == Min(l.end, next) && more == (next < l.end && index + 1 < ENTRIES)
    requires EditStep(m, nd, m', nd', l.n.level, l.n.root, v, to, e)
    requires |nd'| <= |nd| + l.Need(v, to) && NoEmptyTables(m', nd', l.except + Emptied(e, l.p))
    ensures EditGoesOn(l, m0, nd0, m', nd', index', next, e, more, true, to)
  {
    RangeStep(l, index, v, next, to);
    NeedStep(l, v, next, to);
    EditStepMore(m0, nd0, m, nd, m', nd', l.n.level, l.n.root, l.start, v, to, e);
  }

  /** The entry could not be edited in full. */
  lemma EditLoopStops(l: Loop, m0: Memory, nd0: Nodes, m: Memory, nd: Nodes, m': Memory, nd': Nodes, index: nat,
                      v: nat, next: nat, stop: nat, to: nat, e: Edit)
    requires EditAt(l, m0, nd0, m, nd, index, v, e)
    requires next == EntryEnd(l.n.level, v) && stop == Min(l.end, next) && v <= to
    requires EditStep(m, nd, m', nd', l.n.level, l.n.root, v, to, e)
    requires Ended(false, |nd|, |nd'|, |m'|, l.Need(v, stop), to, stop)
    ensures EditEnded(l, m0, nd0, m', nd', e, false, to)
  {
    RangeStep(l, index, v, next, stop);
    NeedStep(l, v, next, stop);
    EditStepMore(m0, nd0, m, nd, m', nd', l.n.level, l.n.root, l.start, v, to, e);
  }

  /** What editing one leaf does. */
  lemma LeafEdited(h: Hooks, m: Memory, nd: Nodes, p: nat, i: nat, e: Edit, a: nat, b: nat, except: set<nat>,
                   m': Memory)
    requires Sound(h, m, nd) && EditOk(h, e) && p in nd && i < ENTRIES && NodeOk(m, nd, p) && m[p][i].Leaf?
    requires a == SlotBase(nd[p], i) && b == a + Span(nd[p].level) && m' == Write(m, p, i, EditEntry(e, m[p][i]))
    requires NoEmptyTables(m, nd, except + Emptied(e, p))
    ensures Sound(h, m', nd) && NoEmptyTables(m', nd, except + Emptied(e, p))
    ensures EditStep(m, nd, m', nd, nd[p].level, nd[p].root, a, b, e)
  {
    assert EntryOk(m, nd, p, i);
    assert NormalTable(h, m[p]);
    SoundSet(h, m, nd, p, i, EditEntry(e, m[p][i]));
    LeafEdits(m, m', nd, p, i, e);
    assert e.Modify? ==> m'[p][i] != Empty;
  }

  /** Editing below a table leaves that table alone. */
  lemma TableAbove(m0: Memory, nd0: Nodes, m1: Memory, nd1: Nodes, up: nat, level: Level, root: nat, a: nat, b: nat,
                   e: Edit)
    requires up in nd0 && nd0[up].level == level + 1 && NodeOk(m0, nd0, up) && Inv(m1, nd1)
    requires EditStep(m0, nd0, m1, nd1, level, root, a, b, e)
    ensures up in nd1 && nd1[up] == nd0[up] && NodeOk(m1, nd1, up) && m1[up] == m0[up]
  {
  }

  /** What was edited in a table, which may then have been freed, was edited in the entry above it. */
  lemma EditedAbove(m0: Memory, nd0: Nodes, m1: Memory, nd1: Nodes, m: Memory, nd: Nodes, level: Level, root: nat,
                    a: nat, b: nat, e: Edit)
    requires level > 0 && EditStep(m0, nd0, m1, nd1, level - 1, root, a, b, e)
    requires Trimmed(m1, nd1, m, nd, level) || (m == m1 && nd == nd1)
    ensures EditStep(m0, nd0, m, nd, level, root, a, b, e)
  {
    EditStepAbove(m0, nd0, m1, nd1, m, nd, level, root, a, b, e);
  }

  /** round_page_up(addr), as a page number. */
  function FirstPage(addr: nat): nat {
    (addr + PAGE_SIZE - 1) / PAGE_SIZE
  }

  /** round_page_down(size), as a number of pages. */
  function Pages(size: nat): nat {
    size / PAGE_SIZE
  }

  /** Every level-3 entry that [start, end) goes through is present. */
  ghost predicate TopPresent(m: Memory, root: nat, start: nat, end: nat) {
    root < |m| && |m[root]| == ENTRIES && forall v: nat :: start <= v < end ==> m[root][Index(3, v)] != Empty
  }

  lemma RootInv(m: Memory, nd: Nodes, q: nat, t: seq<Entry>, m': Memory, nd': Nodes)
    requires Inv(m, nd) && q !in nd && q < |m| && |t| == ENTRIES && !Occupied(t)
    requires m' == m[q := t] && nd' == nd[q := Node(q, 3, 0, q, 0)]
    ensures Inv(m', nd')
  {
    forall x | x in nd' ensures NodeOk(m', nd', x) {
      if x != q {
        assert NodeOk(m, nd, x);
        assert NodeOk(m, nd, nd[x].root);
      }
    }
    forall x, j | x in nd' && 0 <= j < ENTRIES ensures EntryOk(m', nd', x, j) {
      if x != q {
        assert EntryOk(m, nd, x, j);
      }
    }
  }

  lemma RootView(m: Memory, nd: Nodes, q: nat, t: seq<Entry>, m': Memory)
    requires Inv(m, nd) && q !in nd && q < |m| && |t| == ENTRIES && !Occupied(t) && m' == m[q := t]
    ensures SameView(m, m', Roots(nd)) && forall v: nat :: View(m', q, v) == None
  {
    forall r, v: nat | r in Roots(nd) && v < SPACE ensures View(m', r, v) == View(m, r, v) {
      assert NodeOk(m, nd, r);
      SameBelow(m, m', nd, r, v);
    }
    forall v: nat ensures View(m', q, v) == None {
      assert t[Index(3, v)] == Empty;
    }
  }

  /** One more root, which translates nothing; every other root translates as before. */
  ghost predicate NewRootOk(m: Memory, nd: Nodes, m': Memory, nd': Nodes, q: nat) {
    && q !in nd && |nd'| == |nd| + 1 && Roots(nd') == Roots(nd) + {q}
    && SameView(m, m', Roots(nd)) && forall v: nat :: View(m', q, v) == None
  }

  lemma NewRoot(h: Hooks, m: Memory, nd: Nodes, q: nat, t: seq<Entry>)
    requires Sound(h, m, nd) && NoEmptyTables(m, nd, {}) && q !in nd && q < |m| && |t| == ENTRIES && !Occupied(t)
    ensures var m' := m[q := t];
            var nd' := nd[q := Node(q, 3, 0, q, 0)];
            Sound(h, m', nd') && NoEmptyTables(m', nd', {}) && NewRootOk(m, nd, m', nd', q)
  {
    var m' := m[q := t];
    var nd' := nd[q := Node(q, 3, 0, q, 0)];
    RootInv(m, nd, q, t, m', nd');
    RootView(m, nd, q, t, m');
    forall x | x in nd' ensures NormalTable(h, m'[x]) {
      if x != q {
        assert NormalTable(h, m[x]);
      }
    }
  }

  /** The whole level-`level` block around page v is mapped contiguously by leaf `e`. */
  ghost predicate BlockMapped(m: Memory, root: nat, level: Level, v: nat, e: Entry)
    requires e.Leaf?
  {
    var base := v - Offset(level, v);
    forall w: nat :: base <= w < base + Span(level) ==>
      View(m, root, w) == Some(Mapping(e.frame + (w - base), e.prot))
  }

  /** A walk that ends at a leaf of page p translates the whole block of that leaf. */
  lemma LookupBlock(m: Memory, nd: Nodes, p: nat, v: nat)
    requires Inv(m, nd) && p in nd && InBlock(nd[p], v)
    ensures m[p][Index(nd[p].level, v)] == Empty ==> View(m, nd[p].root, v) == None
    ensures var e := m[p][Index(nd[p].level, v)];
            e.Leaf? ==>
              nd[p].level <= 2 && View(m, nd[p].root, v).Some? && BlockMapped(m, nd[p].root, nd[p].level, v, e)
  {
    var i := Index(nd[p].level, v);
    var e := m[p][i];
    assert NodeOk(m, nd, p) && EntryOk(m, nd, p, i);
    SlotOfAddress(nd[p], i, v);
    SlotView(m, nd, p, i, v);
    if e.Leaf? {
      forall w: nat | InSlot(nd[p], i, w)
        ensures View(m, nd[p].root, w) == Some(Mapping(e.frame + (w - SlotBase(nd[p], i)), e.prot))
      {
        SlotView(m, nd, p, i, w);
      }
    }
  }

  /** There are no more tables than pages. */
  lemma RoomCount(m: Memory, nd: Nodes)
    requires Inv(m, nd)
    ensures |nd| <= |m|
  {
    forall p | p in nd.Keys ensures p < |m| {
      assert NodeOk(m, nd, p);
    }
    CountBelow(|m|, nd.Keys);
  }

  class PageTables {
    const hooks: Hooks
    /** struct page_pool: one bit per page, and the word that alloc_page tries first. */
    var bitmap: seq<Word>
    var lastHint: nat
    /** The pool's pages, as descriptors. */
    var words: Words
    /** What the allocated pages read as. */
    ghost var mem: Memory
    ghost var nodes: Nodes

    ghost predicate Valid()
      reads this
    {
      && PoolOk(bitmap, nodes, |mem|) && Sound(hooks, mem, nodes)
      && Holds(hooks, words, mem, nodes) && hooks.base + |mem| <= hooks.frames
    }

    ghost function BlockEnd(p: nat): nat
      reads this
      requires p in nodes && nodes[p].level <= 3
    {
      nodes[p].base + Span(nodes[p].level + 1)
    }

    /** init_page_pool. */
    constructor (h: Hooks, size: nat)
      requires Lawful(h) && size > 0 && h.base + WORD_BITS * size <= h.frames
      ensures Valid() && nodes == map[] && hooks == h && |mem| == WORD_BITS * size
    {
      hooks := h;
      bitmap := seq(size, _ => seq(WORD_BITS, _ => false));
      lastHint := 0;
      words := seq(WORD_BITS * size, _ => seq(ENTRIES, _ => 0));
      mem := seq(WORD_BITS * size, _ => seq(ENTRIES, _ => Empty));
      nodes := map[];
    }

    // -------------------------------------------------------------------
    // The page pool
    // -------------------------------------------------------------------

    /** alloc_page's search.  None is the case in which the source panics. */
    method FindFreePage() returns (page: Option<nat>)
      requires |bitmap| > 0
      modifies this`bitmap, this`lastHint
      ensures |bitmap| == old(|bitmap|)
      ensures page == None <==> forall p: nat :: p < WORD_BITS * |bitmap| ==> IsMarked(old(bitmap), p)
      ensures page.Some? ==> page.value < WORD_BITS * |bitmap| && !IsMarked(old(bitmap), page.value)
      ensures forall p: nat :: IsMarked(bitmap, p) <==> IsMarked(old(bitmap), p) || page == Some(p)
    {
      var n: nat := 0;
      while n < |bitmap|
        invariant bitmap == old(bitmap) && lastHint == old(lastHint)
        invariant n <= |bitmap|
        invariant forall k: nat :: k < n ==> IsFull(bitmap[Probe(lastHint, k, |bitmap|)])
      {
        var idx := Probe(lastHint, n, |bitmap|);
        if !IsFull(bitmap[idx]) {
          var bit := FirstZero(bitmap[idx]);
          WriteBit(bitmap, idx, bit, true);
          bitmap := bitmap[idx := bitmap[idx][bit := true]];
          lastHint := idx;
          return Some(idx * WORD_BITS + bit);
        }
        n := n + 1;
      }
      forall p: nat | p < WORD_BITS * |bitmap| ensures IsMarked(bitmap, p) {
        var k := WrapMeetsAll(lastHint, |bitmap|, p / WORD_BITS);
        assert IsFull(bitmap[Probe(lastHint, k, |bitmap|)]);
      }
      return None;
    }

    /** free_page. */
    method FreePage(page: nat)
      requires page < WORD_BITS * |bitmap|
      modifies this`bitmap
      ensures |bitmap| == old(|bitmap|)
      ensures forall p: nat :: IsMarked(bitmap, p) <==> IsMarked(old(bitmap), p) && p != page
    {
      var idx, bit := page / WORD_BITS, page % WORD_BITS;
      WriteBit(bitmap, idx, bit, false);
      bitmap := bitmap[idx := bitmap[idx][bit := false]];
    }

    // -------------------------------------------------------------------
    // Entry updates
    // -------------------------------------------------------------------

    /** pgentry_present, is_pgtl_large and page_addr of entry i of page p. */
    method ReadEntry(level: Level, p: nat, i: nat) returns (e: Entry)
      requires Valid() && p in nodes && nodes[p].level == level && i < ENTRIES
      ensures p < |mem| && |mem[p]| == ENTRIES && e == mem[p][i]
    {
      assert NodeOk(mem, nodes, p);
      HoldsAt(hooks, words, mem, nodes, p, i);
      e := Decode(hooks, level, words[p][i]);
    }

    /** set_pgentry for a leaf, over an empty entry. */
    method StoreLeaf(level: Level, p: nat, i: nat, frame: nat, prot: Prot, ghost a: nat, ghost b: nat)
      requires Valid() && p in nodes && i < ENTRIES && NodeOk(mem, nodes, p)
      requires mem[p][i] == Empty && nodes[p].level == level <= 2 && Aligned(level, frame)
      requires frame < hooks.frames && hooks.isProt(prot)
      requires a == SlotBase(nodes[p], i) && b == a + Span(nodes[p].level)
      modifies this`mem, this`words
      ensures Valid()
      ensures mem == Write(old(mem), p, i, Leaf(frame, Complete(hooks, prot)))
      ensures Added(old(mem), mem, Roots(nodes), nodes[p].root, a, b, frame, Complete(hooks, prot))
    {
      ghost var e := Leaf(frame, Complete(hooks, prot));
      assert CompletionLaw(hooks, prot);
      SoundSet(hooks, mem, nodes, p, i, e);
      LeafAdds(mem, Write(mem, p, i, e), nodes, p, i, frame, Complete(hooks, prot));
      var d := hooks.leaf(level, frame, prot);
      assert LeafLaw(hooks, level, frame, prot);
      HoldsWrite(hooks, words, mem, nodes, p, i, d, e);
      words := Put(words, p, i, d);
      mem := Write(mem, p, i, e);
    }

    /** alloc_page: None exactly when every page is taken, in which case the source panics. */
    method AllocPage() returns (page: Option<nat>)
      requires Valid()
      modifies this`bitmap, this`lastHint
      ensures page == None <==> |nodes| == |mem|
      ensures page == None ==> Valid()
      ensures page.Some? ==> page.value < |mem| && page.value !in nodes
      ensures |bitmap| == old(|bitmap|) && forall p: nat :: IsMarked(bitmap, p) <==> p in nodes || page == Some(p)
    {
      page := FindFreePage();
      forall p | p in nodes.Keys ensures p < |mem| {
        assert NodeOk(mem, nodes, p);
      }
      forall p: nat | p < |mem| && page == None ensures p in nodes.Keys {
        assert IsMarked(old(bitmap), p);
      }
      RoomLeft(|mem|, nodes.Keys, page);
    }

    /** alloc_page for a table with node n; the pool's marks are right again once it is one. */
    method TakePage(ghost n: Node) returns (page: Option<nat>)
      requires Valid()
      modifies this`bitmap, this`lastHint
      ensures page == None <==> |nodes| == |mem|
      ensures page == None ==> Valid()
      ensures page.Some? ==>
                page.value < |mem| && page.value !in nodes && PoolOk(bitmap, nodes[page.value := n], |mem|)
    {
      page := AllocPage();
    }

    /** Allocate a sanitized table and point an empty entry at it; without a free page, nothing changes. */
    method NewTable(p: nat, i: nat, ghost except: set<nat>) returns (page: Option<nat>)
      requires Valid()
      requires p in nodes && i < ENTRIES && NodeOk(mem, nodes, p) && mem[p][i] == Empty && nodes[p].level >= 1
      requires NoEmptyTables(mem, nodes, except)
      modifies this
      ensures Valid() && (page == None <==> old(|nodes|) == |mem|)
      ensures page == None ==> mem == old(mem) && nodes == old(nodes)
      ensures page.Some? ==> Grown(old(mem), old(nodes), mem, nodes, p, i, page.value)
      ensures page.Some? ==> NoEmptyTables(mem, nodes, except + {page.value})
    {
      page := TakePage(ChildNode(nodes[p], p, i));
      if page.Some? {
        GrowEmpty(hooks, mem, nodes, p, i, page.value, EmptyTable(), except);
        BlankReads(hooks, nodes[p].level - 1);
        SetTable(p, i, page.value, BlankPage(hooks), EmptyTable());
      }
    }

    /** Fill page q, just allocated, and set_pgentry, not for a leaf, of entry (p, i). */
    method SetTable(p: nat, i: nat, q: nat, table: seq<Descriptor>, ghost t: seq<Entry>)
      requires Lawful(hooks) && Holds(hooks, words, mem, nodes) && hooks.base + |mem| <= hooks.frames
      requires p in nodes && p < |mem| && i < |mem[p]| && nodes[p].level >= 1 && q !in nodes && q < |mem|
      requires PageHolds(hooks, nodes[p].level - 1, table, t)
      requires PoolOk(bitmap, nodes[q := ChildNode(nodes[p], p, i)], |mem|)
      requires Sound(hooks, LinkMemory(mem, p, i, q, t), nodes[q := ChildNode(nodes[p], p, i)])
      modifies this`words, this`mem, this`nodes
      ensures Valid() && mem == LinkMemory(old(mem), p, i, q, t)
      ensures nodes == old(nodes)[q := ChildNode(old(nodes)[p], p, i)]
    {
      HoldsLink(hooks, words, mem, nodes, p, i, q, table, t);
      words := Put(words[q := table], p, i, hooks.table(hooks.base + q));
      mem := LinkMemory(mem, p, i, q, t);
      nodes := nodes[q := ChildNode(nodes[p], p, i)];
    }

    // -------------------------------------------------------------------
    // Adding a range
    // -------------------------------------------------------------------

    /** One iteration of add_pgtl0..2: the part of [v, end) that entry `index` of page p covers. */
    method AddSlot(level: Level, p: nat, index: nat, frame: nat, v: nat, end: nat, prot: Prot,
                   ghost stop: nat, ghost except: set<nat>, ghost reach: nat)
      returns (ok: bool, ghost to: nat)
      requires Valid() && p in nodes && nodes[p].level == level && index < ENTRIES
      requires InSlot(nodes[p], index, v) && v < end
      requires stop == Min(end, SlotBase(nodes[p], index) + Span(level))
      requires NoEmptyTables(mem, nodes, except + {p})
      requires frame + (stop - v) <= hooks.frames && hooks.isProt(prot) && Reaches(hooks, reach, v, frame, prot)
      modifies this
      ensures Valid() && (ok ==> NoEmptyTables(mem, nodes, except + {p}) && p < |mem| && Occupied(mem[p]))
      ensures v <= to && Ended(ok, old(|nodes|), |nodes|, |mem|, TableNeed(reach, level, v, stop), to, stop)
      ensures AddStep(old(mem), old(nodes), mem, nodes, level, old(nodes[p].root), v, to, frame,
              Complete(hooks, prot))
      decreases level, 0
    {
      var next := EntryEnd(level, v);
      assert NodeOk(mem, nodes, p) && EntryOk(mem, nodes, p, index);
      var e := ReadEntry(level, p, index);
      ok, to := true, stop;
      if e.Leaf? {
        assert Added(mem, mem, Roots(nodes), nodes[p].root, v, stop, frame, Complete(hooks, prot)) by {
          PresentAdds(mem, nodes, p, index, v, stop, frame, Complete(hooks, prot));
        }
        assert mem[p][index] != Empty;
      } else if e.Empty? && (level == 0 ||
          (level <= 2 && LargePageSupport(hooks, level, prot) && Aligned(level, frame) && Aligned(level, v)
              && next <= end)) {
        AddLeaf(level, p, index, frame, v, end, prot, stop, except);
      } else {
        assert e.Empty? ==> level > reach || !Aligned(level, v) || !Aligned(level, stop) by {
          SlotEnds(nodes[p], index, v, end, next, stop);
        }
        ok, to := AddBelow(level, p, index, frame, v, end, prot, stop, except, reach);
      }
    }

    /** The entry's part of the range becomes one leaf. */
    method AddLeaf(level: Level, p: nat, index: nat, frame: nat, v: nat, end: nat, prot: Prot,
                   ghost stop: nat, ghost except: set<nat>)
      requires Valid() && p in nodes && nodes[p].level == level <= 2 && index < ENTRIES && NodeOk(mem, nodes, p)
      requires mem[p][index] == Empty && Aligned(level, frame) && Aligned(level, v)
      requires InSlot(nodes[p], index, v) && stop == SlotBase(nodes[p], index) + Span(level)
      requires NoEmptyTables(mem, nodes, except + {p})
      requires frame < hooks.frames && hooks.isProt(prot)
      modifies this`mem, this`words
      ensures Valid() && NoEmptyTables(mem, nodes, except + {p})
      ensures p < |mem| && Occupied(mem[p])
      ensures AddStep(old(mem), nodes, mem, nodes, level, nodes[p].root, v, stop, frame, Complete(hooks, prot))
    {
      assert SlotBase(nodes[p], index) == v by {
        SlotInBlock(nodes[p], index, v);
        SlotOfAddress(nodes[p], index, v);
      }
      StoreLeaf(level, p, index, frame, prot, v, stop);
      assert mem[p][index] != Empty;
    }

    /** The descent of add_pgtl1..2 into the table of an entry, which is created when the entry is empty. */
    method AddBelow(level: Level, p: nat, index: nat, frame: nat, v: nat, end: nat, prot: Prot,
                    ghost stop: nat, ghost except: set<nat>, ghost reach: nat)
      returns (ok: bool, ghost to: nat)
      requires Valid() && p in nodes && 1 <= nodes[p].level == level && index < ENTRIES && !mem[p][index].Leaf?
      requires mem[p][index].Empty? ==> level > reach || !Aligned(level, v) || !Aligned(level, stop)
      requires InSlot(nodes[p], index, v) && v < end
      requires stop == Min(end, SlotBase(nodes[p], index) + Span(level))
      requires NoEmptyTables(mem, nodes, except + {p})
      requires frame + (stop - v) <= hooks.frames && hooks.isProt(prot) && Reaches(hooks, reach, v, frame, prot)
      modifies this
      ensures Valid() && (ok ==> NoEmptyTables(mem, nodes, except + {p}) && p < |mem| && Occupied(mem[p]))
      ensures v <= to && Ended(ok, old(|nodes|), |nodes|, |mem|, TableNeed(reach, level, v, stop), to, stop)
      ensures AddStep(old(mem), old(nodes), mem, nodes, level, old(nodes[p].root), v, to, frame,
              Complete(hooks, prot))
      decreases level - 1, 4
    {
      NeedBelow(reach, level, v, stop, if mem[p][index].Empty? then 1 else 0);
      var q := ChildTable(level, p, index, except + {p});
      if q == None {
        ok, to := false, v;
        AddStepNone(mem, nodes, level, nodes[p].root, v, frame, Complete(hooks, prot));
      } else {
        ok, to := AddInto(old(mem), old(nodes), level, p, index, q.value, frame, v, end, prot, stop, except, reach);
      }
    }

    /** The descent into table q, which may be new since (m0, nd0). */
    method AddInto(ghost m0: Memory, ghost nd0: Nodes, level: Level, p: nat, index: nat, q: nat, frame: nat, v: nat,
                   end: nat, prot: Prot, ghost stop: nat, ghost except: set<nat>, ghost reach: nat)
      returns (ok: bool, ghost to: nat)
      requires Valid() && level >= 1 && HasChild(m0, nd0, mem, nodes, p, index, q) && nd0[p].level == level
      requires InSlot(nd0[p], index, v) && v < end
      requires stop == Min(end, SlotBase(nd0[p], index) + Span(level))
      requires NoEmptyTables(mem, nodes, except + {p} + {q})
      requires |nodes| + TableNeed(reach, level - 1, v, stop) <= |nd0| + TableNeed(reach, level, v, stop)
      requires frame + (stop - v) <= hooks.frames && hooks.isProt(prot) && Reaches(hooks, reach, v, frame, prot)
      modifies this
      ensures Valid() && (ok ==> NoEmptyTables(mem, nodes, except + {p}) && p < |mem| && Occupied(mem[p]))
      ensures v <= to && Ended(ok, |nd0|, |nodes|, |mem|, TableNeed(reach, level, v, stop), to, stop)
      ensures AddStep(m0, nd0, mem, nodes, level, nd0[p].root, v, to, frame, Complete(hooks, prot))
      decreases level - 1, 3
    {
      ghost var m1, nd1 := mem, nodes;
      ChildReady(m0, nd0, mem, nodes, level, p, index, q, v, end, stop);
      ok, to := AddRange(level - 1, q, frame, v, end, prot, stop, except + {p}, reach);
      AddedInto(m0, nd0, m1, nd1, mem, nodes, level, p, index, q, v, to, frame, Complete(hooks, prot));
    }

    /** The table below entry i of page p: the one it points at, or a new one if a page is left. */
    method ChildTable(level: Level, p: nat, i: nat, ghost except: set<nat>) returns (q: Option<nat>)
      requires Valid()
      requires p in nodes && i < ENTRIES && nodes[p].level == level >= 1 && p < |mem| && |mem[p]| == ENTRIES
      requires !mem[p][i].Leaf?
      requires NoEmptyTables(mem, nodes, except)
      modifies this
      ensures Valid()
      ensures q == None ==> mem == old(mem) && nodes == old(nodes) && |nodes| == |mem| && old(mem)[p][i] == Empty
      ensures q.Some? ==> NoEmptyTables(mem, nodes, except + {q.value})
      ensures q.Some? ==> HasChild(old(mem), old(nodes), mem, nodes, p, i, q.value)
    {
      assert NodeOk(mem, nodes, p) && EntryOk(mem, nodes, p, i);
      var e := ReadEntry(level, p, i);
      if e.Empty? {
        q := NewTable(p, i, except);
      } else {
        q := Some(e.page);
        assert NodeOk(mem, nodes, e.page);
      }
    }

    /** One iteration of the loop of add_pgtl0..2, which is at page v in entry `index`. */
    method AddNext(ghost l: Loop, ghost m0: Memory, ghost nd0: Nodes, level: Level, p: nat, index: nat, v: nat,
                   frame: nat, end: nat, prot: Prot, ghost frame0: nat)
      returns (more: bool, index': nat, v': nat, frame': nat, ok: bool, ghost to: nat)
      requires Valid() && l.n.level == l.top == level && l.p == p && l.end == end
      requires AddAt(l, m0, nd0, mem, nodes, index, v, frame, frame0, Complete(hooks, prot))
      requires frame0 + (l.stop - l.start) <= hooks.frames && hooks.isProt(prot)
      requires Reaches(hooks, l.reach, l.start, frame0, prot)
      modifies this
      ensures Valid() && (more ==> index' > index)
      ensures AddGoesOn(l, m0, nd0, mem, nodes, index', v', frame', frame0, Complete(hooks, prot), more, ok, to)
      decreases level, 1
    {
      var next := EntryEnd(level, v);
      ghost var stop := Min(end, next);
      assert stop == Min(end, SlotBase(l.n, index) + Span(level)) && frame + (stop - v) <= hooks.frames by {
        RangeStep(l, index, v, next, stop);
      }
      ReachesOn(hooks, l.reach, l.start, frame0, prot, v, frame);
      ok, to := AddSlot(level, p, index, frame, v, end, prot, stop, l.except, l.reach);
      more, index', v', frame' := ok && next < end && index + 1 < ENTRIES, index + 1, next, frame + (next - v);
      if ok {
        AddLoopStep(l, m0, nd0, old(mem), old(nodes), mem, nodes, index, v, next, to, frame0, frame,
                    Complete(hooks, prot), more, index', frame');
      } else {
        AddLoopStops(l, m0, nd0, old(mem), old(nodes), mem, nodes, index, v, next, stop, to, frame0, frame,
                     Complete(hooks, prot));
      }
    }

    /** add_pgtl0..2: add the part of [start, end) that page p covers. */
    method AddRange(level: Level, p: nat, frame0: nat, start: nat, end: nat, prot: Prot,
                    ghost stop: nat, ghost except: set<nat>, ghost reach: nat)
      returns (ok: bool, ghost to: nat)
      requires Valid() && p in nodes && nodes[p].level == level
      requires InBlock(nodes[p], start) && start < end
      requires stop == Min(end, BlockEnd(p))
      requires NoEmptyTables(mem, nodes, except + {p})
      requires frame0 + (stop - start) <= hooks.frames && hooks.isProt(prot)
      requires Reaches(hooks, reach, start, frame0, prot)
      modifies this
      ensures Valid() && (ok ==> NoEmptyTables(mem, nodes, except))
      ensures start <= to && Ended(ok, old(|nodes|), |nodes|, |mem|, TableNeed(reach, level, start, stop), to, stop)
      ensures AddStep(old(mem), old(nodes), mem, nodes, level, old(nodes[p].root), start, to, frame0,
              Complete(hooks, prot))
      decreases level, 2
    {
      ghost var m0, nd0 := mem, nodes;
      ghost var l := Loop(p, nodes[p], start, end, stop, except, reach, level);
      assert NodeOk(mem, nodes, p);
      AddLoopStart(l, mem, nodes, frame0, Complete(hooks, prot));
      var more, index: nat, v: nat, frame: nat := true, Index(level, start), start, frame0;
      ok, to := true, start;
      while more
        invariant Valid()
        invariant AddGoesOn(l, m0, nd0, mem, nodes, index, v, frame, frame0, Complete(hooks, prot), more, ok, to)
        decreases more, ENTRIES - index
      {
        more, index, v, frame, ok, to := AddNext(l, m0, nd0, level, p, index, v, frame, end, prot, frame0);
      }
    }

    // -------------------------------------------------------------------
    // Modifying or deleting a range
    // -------------------------------------------------------------------

    /** split_large_page; without a free page, nothing changes. */
    method SplitLargePage(level: Level, p: nat, i: nat, ghost except: set<nat>) returns (ok: bool)
      requires Valid()
      requires p in nodes && i < ENTRIES && NodeOk(mem, nodes, p) && 1 <= nodes[p].level == level <= 2
      requires mem[p][i].Leaf?
      requires NoEmptyTables(mem, nodes, except)
      modifies this
      ensures Valid() && NoEmptyTables(mem, nodes, except) && (ok <==> old(|nodes|) < |mem|)
      ensures !ok ==> mem == old(mem) && nodes == old(nodes)
      ensures ok ==> p < |mem| && i < |mem[p]| && mem[p][i].Table?
      ensures ok ==> Grown(old(mem), old(nodes), mem, nodes, p, i, mem[p][i].page)
    {
      HoldsAt(hooks, words, mem, nodes, p, i);
      assert NormalTable(hooks, mem[p]) && EntryOk(mem, nodes, p, i);
      var w := words[p][i];
      var table := SplitEntries(level, w);
      ghost var t := SplitParts(level, hooks.frame(w), Complete(hooks, hooks.attrs(w)));
      var page := TakePage(ChildNode(nodes[p], p, i));
      ok := page.Some?;
      RoomCount(mem, nodes);
      if ok {
        GrowSplit(hooks, mem, nodes, p, i, page.value, t, except);
        SetTable(p, i, page.value, table, t);
      }
    }

    /** The loop of split_large_page that reproduces a leaf one level down, with its attributes completed. */
    method SplitEntries(level: Level, w: Descriptor) returns (table: seq<Descriptor>)
      requires Lawful(hooks) && 1 <= level <= 2 && Decode(hooks, level, w).Leaf? && Aligned(level, hooks.frame(w))
      ensures PageHolds(hooks, level - 1, table, SplitParts(level, hooks.frame(w), Complete(hooks, hooks.attrs(w))))
    {
      var prot := w & !hooks.pfnMask;
      table := seq(ENTRIES, _ => 0);
      var j: nat, f: nat := 0, hooks.frame(w);
      while j < ENTRIES
        invariant |table| == ENTRIES && j <= ENTRIES && f == hooks.frame(w) + Times(j, Span(level - 1))
        invariant forall k: nat :: k < j ==>
                    table[k] == hooks.leaf(level - 1, hooks.frame(w) + Times(k, Span(level - 1)), prot)
      {
        table := table[j := hooks.leaf(level - 1, f, prot)];
        TimesAdd(j, 1, Span(level - 1));
        j, f := j + 1, f + Span(level - 1);
      }
      SplitReads(hooks, level, w, prot, table, SplitParts(level, hooks.frame(w), Complete(hooks, hooks.attrs(w))));
    }

    /** try_to_free_pgtable_page for the table q that entry (p, i) points at. */
    method TryToFree(p: nat, i: nat, q: nat, ghost except: set<nat>)
      requires Valid() && p in nodes && i < ENTRIES && NodeOk(mem, nodes, p) && mem[p][i] == Table(q)
      requires NoEmptyTables(mem, nodes, except + {q})
      modifies this
      ensures Valid() && |nodes| <= old(|nodes|) && NoEmptyTables(mem, nodes, except + {p})
      ensures q < |old(mem)| && Freed(old(mem), old(nodes), mem, nodes, p, i, q, !Occupied(old(mem)[q]))
      ensures NodesFrom(old(nodes), nodes, old(nodes)[p].level)
      ensures PagesFrom(old(mem), mem, old(nodes), old(nodes)[p].level + 1)
      ensures SameView(old(mem), mem, Roots(old(nodes)))
    {
      assert EntryOk(mem, nodes, p, i) && NodeOk(mem, nodes, q);
      var empty := IsVacant(q);
      if empty {
        FreeTable(p, i, q, except);
      }
    }

    method FreeTable(p: nat, i: nat, q: nat, ghost except: set<nat>)
      requires Valid() && p in nodes && i < ENTRIES && NodeOk(mem, nodes, p) && mem[p][i] == Table(q)
      requires q < |mem| && !Occupied(mem[q]) && NoEmptyTables(mem, nodes, except + {q})
      modifies this
      ensures Valid() && |nodes| < old(|nodes|) && NoEmptyTables(mem, nodes, except + {p})
      ensures mem == Write(old(mem), p, i, Empty) && nodes == old(nodes) - {q}
      ensures NodesFrom(old(nodes), nodes, old(nodes)[p].level)
      ensures PagesFrom(old(mem), mem, old(nodes), old(nodes)[p].level + 1)
      ensures SameView(old(mem), mem, Roots(old(nodes)))
    {
      FreeEmpty(hooks, mem, nodes, p, i, q, except);
      FreePage(q);
      ClearTable(p, i, q);
    }

    /** sanitize_pte_entry of entry (p, i), below which table q is given up. */
    method ClearTable(p: nat, i: nat, q: nat)
      requires Lawful(hooks) && Holds(hooks, words, mem, nodes) && p in nodes && p < |mem| && i < |mem[p]|
      modifies this`words, this`mem, this`nodes
      ensures mem == Write(old(mem), p, i, Empty) && nodes == old(nodes) - {q} && Holds(hooks, words, mem, nodes)
    {
      assert LimitLaw(hooks);
      HoldsWrite(hooks, words, mem, nodes, p, i, hooks.absent, Empty);
      words := Put(words, p, i, hooks.absent);
      mem := Write(mem, p, i, Empty);
      HoldsLess(hooks, words, mem, nodes, q);
      nodes := nodes - {q};
    }

    /** The scan of try_to_free_pgtable_page: is no entry of page q present? */
    method IsVacant(q: nat) returns (vacant: bool)
      requires Valid() && q in nodes && NodeOk(mem, nodes, q)
      ensures vacant <==> !Occupied(mem[q])
    {
      assert PageHolds(hooks, nodes[q].level, words[q], mem[q]);
      var index: nat := 0;
      while index < ENTRIES && !hooks.present(words[q][index])
        invariant index <= ENTRIES
        invariant forall k: nat :: k < index ==> mem[q][k] == Empty
      {
        index := index + 1;
      }
      vacant := index == ENTRIES;
      assert !vacant ==> mem[q][index] != Empty;
    }

    /** One iteration of modify_or_del_pgtl0..2: the part of [v, end) that entry `index` of page p covers. */
    method EditSlot(level: Level, p: nat, index: nat, v: nat, end: nat, e: Edit, ghost stop: nat,
                    ghost except: set<nat>)
      returns (ok: bool, ghost to: nat)
      requires Valid() && EditOk(hooks, e) && p in nodes && nodes[p].level == level && index < ENTRIES
      requires InSlot(nodes[p], index, v) && v < end
      requires stop == Min(end, SlotBase(nodes[p], index) + Span(level))
      requires NoEmptyTables(mem, nodes, except + Emptied(e, p))
      modifies this
      ensures Valid() && (ok ==> NoEmptyTables(mem, nodes, except + Emptied(e, p)))
      ensures v <= to && Ended(ok, old(|nodes|), |nodes|, |mem|, EditNeed(level, v, stop), to, stop)
      ensures EditStep(old(mem), old(nodes), mem, nodes, level, old(nodes[p].root), v, to, e)
      decreases level, 0
    {
      var next := EntryEnd(level, v);
      assert NodeOk(mem, nodes, p) && EntryOk(mem, nodes, p, index);
      EntryEndIsSlotEnd(nodes[p], index, v);
      var x := ReadEntry(level, p, index);
      ok, to := true, stop;
      if x.Empty? {
        AbsentEdits(mem, nodes, p, index, v, stop, e);
      } else if x.Leaf? && next <= end && Aligned(level, v) {
        EditLeaf(p, index, e, v, stop, except);
      } else {
        SlotEnds(nodes[p], index, v, end, next, stop);
        ok, to := EditBelow(level, p, index, v, end, e, stop, except);
      }
    }

    /** local_modify_or_del_pte. */
    method EditLeaf(p: nat, i: nat, e: Edit, ghost a: nat, ghost b: nat, ghost except: set<nat>)
      requires Valid() && EditOk(hooks, e) && p in nodes && i < ENTRIES && NodeOk(mem, nodes, p) && mem[p][i].Leaf?
      requires a == SlotBase(nodes[p], i) && b == a + Span(nodes[p].level)
      requires NoEmptyTables(mem, nodes, except + Emptied(e, p))
      modifies this`mem, this`words
      ensures Valid() && NoEmptyTables(mem, nodes, except + Emptied(e, p))
      ensures EditStep(old(mem), nodes, mem, nodes, nodes[p].level, nodes[p].root, a, b, e)
    {
      ghost var x := EditEntry(e, mem[p][i]);
      LeafEdited(hooks, mem, nodes, p, i, e, a, b, except, Write(mem, p, i, x));
      HoldsAt(hooks, words, mem, nodes, p, i);
      EditWordReads(hooks, nodes[p].level, e, words[p][i]);
      HoldsWrite(hooks, words, mem, nodes, p, i, EditWord(hooks, e, words[p][i]), x);
      words := Put(words, p, i, EditWord(hooks, e, words[p][i]));
      mem := Write(mem, p, i, x);
    }

    /** The descent of modify_or_del_pgtl1..2 into the table of an entry; a leaf is split first. */
    method EditBelow(level: Level, p: nat, index: nat, v: nat, end: nat, e: Edit, ghost stop: nat,
                     ghost except: set<nat>)
      returns (ok: bool, ghost to: nat)
      requires Valid() && EditOk(hooks, e) && p in nodes && 1 <= nodes[p].level == level && index < ENTRIES
      requires NodeOk(mem, nodes, p) && mem[p][index] != Empty
      requires InSlot(nodes[p], index, v) && v < end
      requires stop == Min(end, SlotBase(nodes[p], index) + Span(level))
      requires mem[p][index].Leaf? ==> level <= 2 && (!Aligned(level, v) || !Aligned(level, stop))
      requires NoEmptyTables(mem, nodes, except + Emptied(e, p))
      modifies this
      ensures Valid() && (ok ==> NoEmptyTables(mem, nodes, except + Emptied(e, p)))
      ensures v <= to && Ended(ok, old(|nodes|), |nodes|, |mem|, EditNeed(level, v, stop), to, stop)
      ensures EditStep(old(mem), old(nodes), mem, nodes, level, old(nodes[p].root), v, to, e)
      decreases level - 1, 5
    {
      EditNeedBelow(level, v, stop, if mem[p][index].Leaf? then 1 else 0);
      ok := OpenEntry(level, p, index, except + Emptied(e, p));
      if !ok {
        to := v;
        EditStepNone(mem, nodes, level, nodes[p].root, v, e);
      } else {
        ok, to := EditInto(old(mem), old(nodes), level, p, index, v, end, e, stop, except + Emptied(e, p),
                           EditNeed(level, v, stop));
      }
    }

    /** The descent into the table of entry (p, index), which may have been split since (m0, nd0). */
    method EditInto(ghost m0: Memory, ghost nd0: Nodes, level: Level, p: nat, index: nat, v: nat, end: nat, e: Edit,
                    ghost stop: nat, ghost ex: set<nat>, ghost need: nat)
      returns (ok: bool, ghost to: nat)
      requires Valid() && EditOk(hooks, e) && Opened(m0, nd0, mem, nodes, p, index) && 1 <= nd0[p].level == level
      requires index < ENTRIES && InSlot(nd0[p], index, v) && v < end
      requires stop == Min(end, SlotBase(nd0[p], index) + Span(level))
      requires NoEmptyTables(mem, nodes, ex) && Emptied(e, p) <= ex
      requires |nodes| + EditNeed(level - 1, v, stop) <= |nd0| + need
      modifies this
      ensures Valid() && (ok ==> NoEmptyTables(mem, nodes, ex))
      ensures v <= to && Ended(ok, |nd0|, |nodes|, |mem|, need, to, stop)
      ensures EditStep(m0, nd0, mem, nodes, level, nd0[p].root, v, to, e)
      decreases level - 1, 4
    {
      ghost var m1, nd1 := mem, nodes;
      ok, to := EditTable(level - 1, p, index, v, end, e, stop, ex);
      assert ex + Emptied(e, p) == ex;
      EditedInto(m0, nd0, m1, nd1, mem, nodes, level, p, index, v, to, e);
    }

    /** Make sure that a present entry points at a table: a large page is split first, if a page is left. */
    method OpenEntry(level: Level, p: nat, i: nat, ghost except: set<nat>) returns (ok: bool)
      requires Valid() && p in nodes && 1 <= nodes[p].level == level && i < ENTRIES && NodeOk(mem, nodes, p)
      requires mem[p][i] != Empty
      requires mem[p][i].Leaf? ==> level <= 2
      requires NoEmptyTables(mem, nodes, except)
      modifies this
      ensures Valid() && NoEmptyTables(mem, nodes, except)
      ensures ok ==> Opened(old(mem), old(nodes), mem, nodes, p, i)
      ensures !ok ==> mem == old(mem) && nodes == old(nodes) && |nodes| == |mem| && old(mem)[p][i].Leaf?
    {
      var x := ReadEntry(level, p, i);
      ok := true;
      if x.Leaf? {
        ok := SplitLargePage(level, p, i, except);
        RoomCount(mem, nodes);
      }
      assert NodeOk(mem, nodes, p) && EntryOk(mem, nodes, p, i);
    }

    /** modify_or_del_pgtl0..2 on the table that entry (up, slot) points at, with its try_to_free_pgtable_page. */
    method EditTable(level: Level, up: nat, slot: nat, start: nat, end: nat, e: Edit, ghost stop: nat,
                     ghost except: set<nat>)
      returns (ok: bool, ghost to: nat)
      requires Valid() && EditOk(hooks, e) && up in nodes && nodes[up].level == level + 1 <= 3 && slot < ENTRIES
      requires NodeOk(mem, nodes, up) && mem[up][slot].Table?
      requires InSlot(nodes[up], slot, start) && start < end
      requires stop == Min(end, SlotBase(nodes[up], slot) + Span(level + 1))
      requires NoEmptyTables(mem, nodes, except)
      modifies this
      ensures Valid() && (ok ==> NoEmptyTables(mem, nodes, except + Emptied(e, up)))
      ensures start <= to && Ended(ok, old(|nodes|), |nodes|, |mem|, EditNeed(level, start, stop), to, stop)
      ensures EditStep(old(mem), old(nodes), mem, nodes, level + 1, old(nodes[up].root), start, to, e)
      decreases level, 3
    {
      var p := TableBelow(level, up, slot);
      ghost var m0, nd0, root := mem, nodes, nodes[up].root;
      ok, to := EditRange(level, p, start, end, e, stop, except);
      assert EditStep(m0, nd0, mem, nodes, level, root, start, to, e);
      TableAbove(m0, nd0, mem, nodes, up, level, root, start, to, e);
      CloseTable(m0, nd0, level, up, slot, p, e, except, root, start, to, ok);
    }

    /** The end of modify_or_del_pgtl0..2, which has edited [start, to) since (m0, nd0). */
    method CloseTable(ghost m0: Memory, ghost nd0: Nodes, level: Level, up: nat, slot: nat, p: nat, e: Edit,
                      ghost except: set<nat>, ghost root: nat, ghost start: nat, ghost to: nat, ok: bool)
      requires Valid() && up in nodes && nodes[up].level == level + 1 && slot < ENTRIES
      requires NodeOk(mem, nodes, up) && mem[up][slot] == Table(p)
      requires ok ==> NoEmptyTables(mem, nodes, except + Emptied(e, p))
      requires EditStep(m0, nd0, mem, nodes, level, root, start, to, e)
      modifies this
      ensures Valid() && |nodes| <= old(|nodes|) && |mem| == old(|mem|)
      ensures if ok then NoEmptyTables(mem, nodes, except + Emptied(e, up)) else nodes == old(nodes)
      ensures EditStep(m0, nd0, mem, nodes, level + 1, root, start, to, e)
    {
      ghost var m1, nd1 := mem, nodes;
      if ok {
        TrimAfter(level, up, slot, p, e, except);
      }
      EditedAbove(m0, nd0, m1, nd1, mem, nodes, level + 1, root, start, to, e);
    }

    /** page_addr of entry (up, slot). */
    method TableBelow(level: Level, up: nat, slot: nat) returns (p: nat)
      requires Valid() && up in nodes && nodes[up].level == level + 1 <= 3 && slot < ENTRIES
      requires NodeOk(mem, nodes, up) && mem[up][slot].Table?
      ensures mem[up][slot] == Table(p) && p in nodes && nodes[p] == ChildNode(nodes[up], up, slot)
    {
      var x := ReadEntry(level + 1, up, slot);
      p := x.page;
      assert EntryOk(mem, nodes, up, slot);
      assert NodeOk(mem, nodes, p);
    }

    /** The end of modify_or_del_pgtl0..1: after a delete, the table p below entry (up, slot) may go. */
    method TrimAfter(level: Level, up: nat, slot: nat, p: nat, e: Edit, ghost except: set<nat>)
      requires Valid() && up in nodes && nodes[up].level == level + 1 && slot < ENTRIES
      requires NodeOk(mem, nodes, up) && mem[up][slot] == Table(p)
      requires NoEmptyTables(mem, nodes, except + Emptied(e, p))
      modifies this
      ensures Valid() && |nodes| <= old(|nodes|) && NoEmptyTables(mem, nodes, except + Emptied(e, up))
      ensures Trimmed(old(mem), old(nodes), mem, nodes, level + 1)
    {
      assert EntryOk(mem, nodes, up, slot);
      if level < 2 && e.Delete? {
        TryToFree(up, slot, p, except);
      }
    }

    /** The loop of modify_or_del_pgtl0..2 over page p. */
    method EditRange(level: Level, p: nat, start: nat, end: nat, e: Edit, ghost stop: nat, ghost except: set<nat>)
      returns (ok: bool, ghost to: nat)
      requires Valid() && EditOk(hooks, e) && p in nodes && nodes[p].level == level
      requires InBlock(nodes[p], start) && start < end
      requires stop == Min(end, BlockEnd(p))
      requires NoEmptyTables(mem, nodes, except)
      modifies this
      ensures Valid() && (ok ==> NoEmptyTables(mem, nodes, except + Emptied(e, p)))
      ensures start <= to && Ended(ok, old(|nodes|), |nodes|, |mem|, EditNeed(level, start, stop), to, stop)
      ensures EditStep(old(mem), old(nodes), mem, nodes, level, old(nodes[p].root), start, to, e)
      decreases level, 2
    {
      ghost var m0, nd0 := mem, nodes;
      ghost var l := Loop(p, nodes[p], start, end, stop, except, 2, KeptLevel(level));
      assert NodeOk(mem, nodes, p);
      EditLoopStart(l, mem, nodes, e);
      var more, index: nat, v: nat := true, Index(level, start), start;
      ok, to := true, start;
      while more
        invariant Valid() && EditGoesOn(l, m0, nd0, mem, nodes, index, v, e, more, ok, to)
        decreases more, ENTRIES - index
      {
        more, index, v, ok, to := EditNext(l, m0, nd0, level, p, index, v, end, e);
      }
    }

    /** One iteration of the loop of modify_or_del_pgtl0..2, which is at page v in entry `index`. */
    method EditNext(ghost l: Loop, ghost m0: Memory, ghost nd0: Nodes, level: Level, p: nat, index: nat, v: nat,
                    end: nat, e: Edit)
      returns (more: bool, index': nat, v': nat, ok: bool, ghost to: nat)
      requires Valid() && EditOk(hooks, e) && l.n.level == level && l.p == p && l.end == end
      requires l.reach == 2 && l.top == KeptLevel(level)
      requires EditAt(l, m0, nd0, mem, nodes, index, v, e)
      modifies this
      ensures Valid() && (more ==> index' > index)
      ensures EditGoesOn(l, m0, nd0, mem, nodes, index', v', e, more, ok, to)
      decreases level, 1
    {
      var next := EntryEnd(level, v);
      ghost var stop := Min(end, next);
      assert stop == Min(end, SlotBase(l.n, index) + Span(level)) by {
        RangeStep(l, index, v, next, stop);
      }
      ok, to := EditSlot(level, p, index, v, end, e, stop, l.except);
      more, index', v' := ok && next < end && index + 1 < ENTRIES, index + 1, next;
      if ok {
        EditLoopStep(l, m0, nd0, old(mem), old(nodes), mem, nodes, index, v, next, to, e, more, index');
      } else {
        EditLoopStops(l, m0, nd0, old(mem), old(nodes), mem, nodes, index, v, next, stop, to, e);
      }
    }

    // -------------------------------------------------------------------
    // Entry points
    // -------------------------------------------------------------------

    /** pgtable_create_root: None exactly when the pool is exhausted, and then nothing changes. */
    method CreateRoot() returns (root: Option<nat>)
      requires Valid() && NoEmptyTables(mem, nodes, {})
      modifies this
      ensures Valid() && NoEmptyTables(mem, nodes, {}) && |mem| == old(|mem|)
      ensures root == None <==> old(|nodes|) == |mem|
      ensures root == None ==> mem == old(mem) && nodes == old(nodes)
      ensures root.Some? ==> NewRootOk(old(mem), old(nodes), mem, nodes, root.value)
    {
      root := AllocPage();
      if root.Some? {
        NewRoot(hooks, mem, nodes, root.value, EmptyTable());
        BlankReads(hooks, 3);
        FillPage(root.value, BlankPage(hooks), EmptyTable(), Node(root.value, 3, 0, root.value, 0));
      }
    }

    /** Fill the free page q, which becomes the table of node n. */
    method FillPage(q: nat, table: seq<Descriptor>, ghost t: seq<Entry>, ghost n: Node)
      requires Holds(hooks, words, mem, nodes) && q !in nodes && q < |mem| && PageHolds(hooks, n.level, table, t)
      modifies this`words, this`mem, this`nodes
      ensures mem == old(mem)[q := t] && nodes == old(nodes)[q := n] && Holds(hooks, words, mem, nodes)
    {
      HoldsPage(hooks, words, mem, nodes, q, table, t, n);
      words, mem, nodes := words[q := table], mem[q := t], nodes[q := n];
    }

    /** pgtable_add_map: a left-biased union with the rounded range, or, when the pool is exhausted, with the part
        of it below page `to`, at which the source panics. */
    method AddMap(root: nat, paddrBase: nat, vaddrBase: nat, size: nat, prot: Prot) returns (ok: bool, ghost to: nat)
      requires Valid() && root in Roots(nodes) && NoEmptyTables(mem, nodes, {})
      requires FirstPage(vaddrBase) + Pages(size) <= SPACE
      requires FirstPage(paddrBase) + Pages(size) <= hooks.frames && hooks.isProt(prot)
      modifies this
      ensures Valid() && |mem| == old(|mem|) && (ok ==> NoEmptyTables(mem, nodes, {}))
      ensures Roots(nodes) == Roots(old(nodes)) && NodesGrow(old(nodes), nodes)
      ensures var a, f := FirstPage(vaddrBase), FirstPage(paddrBase);
              && a <= to && Added(old(mem), mem, Roots(nodes), root, a, to, f, Complete(hooks, prot))
              && Ended(ok, old(|nodes|), |nodes|, |mem|,
                       TableNeed(Reach(hooks, a, f, prot), 3, a, a + Pages(size)), to, a + Pages(size))
    {
      var start, frame := FirstPage(vaddrBase), FirstPage(paddrBase);
      var end := start + Pages(size);
      ok, to := true, end;
      if start < end {
        assert NodeOk(mem, nodes, root);
        ok, to := AddRange(3, root, frame, start, end, prot, end, {}, Reach(hooks, start, frame, prot));
        SameRoots(old(nodes), nodes, 3);
      } else {
        NeedNone(Reach(hooks, start, frame, prot), 3, start);
      }
    }

    /** pgtable_modify_or_del_map.  Every level-3 entry of the range has to be present: the
        source loops forever, or follows an empty entry, when one is not. */
    method ModifyOrDeleteMap(root: nat, vaddrBase: nat, size: nat, e: Edit) returns (ok: bool, ghost to: nat)
      requires Valid() && root in Roots(nodes) && NoEmptyTables(mem, nodes, {}) && EditOk(hooks, e)
      requires FirstPage(vaddrBase) + Pages(size) <= SPACE
      requires TopPresent(mem, root, FirstPage(vaddrBase), FirstPage(vaddrBase) + Pages(size))
      modifies this
      ensures Valid() && |mem| == old(|mem|) && (ok ==> NoEmptyTables(mem, nodes, {}))
      ensures Roots(nodes) == Roots(old(nodes)) && NodesFrom(old(nodes), nodes, 2)
      ensures var a := FirstPage(vaddrBase);
              && a <= to && Edited(old(mem), mem, Roots(nodes), root, a, to, e)
              && Ended(ok, old(|nodes|), |nodes|, |mem|, EditNeed(3, a, a + Pages(size)), to, a + Pages(size))
    {
      var start := FirstPage(vaddrBase);
      var end := start + Pages(size);
      ok, to := true, end;
      if start < end {
        assert NodeOk(mem, nodes, root);
        ok, to := EditRange(3, root, start, end, e, end, {});
        SameRoots(old(nodes), nodes, 2);
      } else {
        NeedNone(2, 2, start);
      }
    }

    /** pgtable_lookup_entry: the entry that maps an address and the level whose block size it covers. */
    method LookupEntry(root: nat, addr: nat) returns (entry: Entry, level: Level)
      requires Valid() && root in Roots(nodes) && addr / PAGE_SIZE < SPACE
      ensures !entry.Table?
      ensures entry == Empty <==> View(mem, root, addr / PAGE_SIZE) == None
      ensures entry.Leaf? ==> level <= 2 && BlockMapped(mem, root, level, addr / PAGE_SIZE, entry)
    {
      var v := addr / PAGE_SIZE;
      var page := root;
      level := 3;
      assert NodeOk(mem, nodes, root);
      entry := ReadEntry(level, page, Index(level, v));
      while entry.Table?
        invariant page in nodes && nodes[page].root == root && nodes[page].level == level && InBlock(nodes[page], v)
        invariant page < |mem| && |mem[page]| == ENTRIES && entry == mem[page][Index(level, v)]
        decreases level
      {
        ChildBlock(mem, nodes, page, v);
        page, level := entry.page, level - 1;
        assert NodeOk(mem, nodes, page);
        entry := ReadEntry(level, page, Index(level, v));
      }
      LookupBlock(mem, nodes, page, v);
    }
  }
}
