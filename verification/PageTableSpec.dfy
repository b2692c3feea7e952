/**
 What the page-table operations do to translations: the flat-map effect of
 adding, modifying and deleting a range, and how effects on adjacent ranges
 compose.
 */
module PageTableSpec {
  import opened Options
  import opened Division
  import opened PageTableModel

  /** pgentry bits after MR_MODIFY. */
  function Retag(prot: Prot, set_: Prot, clr: Prot): Prot {
    (prot & !clr) | set_
  }

  datatype Edit = Modify(set_: Prot, clr: Prot) | Delete

  function EditMapping(e: Edit, t: Option<Mapping>): Option<Mapping> {
    match (e, t)
    case (Modify(s, c), Some(x)) => Some(x.(prot := Retag(x.prot, s, c)))
    case (_, _) => None
  }

  /** Left-biased union with a contiguous range: mapped pages keep their mapping. */
  function AddMapping(old_: Option<Mapping>, start: nat, frame: nat, prot: Prot, v: nat): Option<Mapping>
    requires start <= v
  {
    if old_.Some? then old_ else Some(Mapping(frame + (v - start), prot))
  }

  /** [start, end) was added to `root`; every other page of every root is as before. */
  ghost predicate Added(m: Memory, m': Memory, roots: set<nat>, root: nat,
                        start: nat, end: nat, frame: nat, prot: Prot)
  {
    forall r, v: nat :: r in roots && v < SPACE ==>
      View(m', r, v) == if r == root && start <= v < end
                        then AddMapping(View(m, r, v), start, frame, prot, v) else View(m, r, v)
  }

  /** [start, end) of `root` was edited; every other page of every root is as before. */
  ghost predicate Edited(m: Memory, m': Memory, roots: set<nat>, root: nat, start: nat, end: nat, e: Edit) {
    forall r, v: nat :: r in roots && v < SPACE ==>
      View(m', r, v) == if r == root && start <= v < end then EditMapping(e, View(m, r, v)) else View(m, r, v)
  }

  ghost predicate SameView(m: Memory, m': Memory, roots: set<nat>) {
    forall r, v: nat :: r in roots && v < SPACE ==> View(m', r, v) == View(m, r, v)
  }

  lemma AddedCompose(m0: Memory, m1: Memory, m2: Memory, roots: set<nat>, root: nat,
                     start: nat, mid: nat, end: nat, frame: nat, prot: Prot)
    requires start <= mid <= end
    requires Added(m0, m1, roots, root, start, mid, frame, prot)
    requires Added(m1, m2, roots, root, mid, end, frame + (mid - start), prot)
    ensures Added(m0, m2, roots, root, start, end, frame, prot)
  {
  }

  lemma EditedCompose(m0: Memory, m1: Memory, m2: Memory, roots: set<nat>, root: nat,
                      start: nat, mid: nat, end: nat, e: Edit)
    requires start <= mid <= end
    requires Edited(m0, m1, roots, root, start, mid, e)
    requires Edited(m1, m2, roots, root, mid, end, e)
    ensures Edited(m0, m2, roots, root, start, end, e)
  {
  }

  // ---------------------------------------------------------------------
  // One entry
  // ---------------------------------------------------------------------

  lemma SlotView(m: Memory, nd: Nodes, p: nat, i: nat, v: nat)
    requires Inv(m, nd) && p in nd && i < ENTRIES && NodeOk(m, nd, p) && InSlot(nd[p], i, v)
    ensures View(m, nd[p].root, v) == EntryWalk(m, nd[p].level, m[p][i], v)
    ensures v < SPACE && v - SlotBase(nd[p], i) == Offset(nd[p].level, v)
  {
    SlotInBlock(nd[p], i, v);
    SlotOfAddress(nd[p], i, v);
    OnPath(m, nd, p, v);
  }

  /** A leaf stored over an empty entry adds exactly that entry's pages. */
  lemma LeafAdds(m: Memory, m': Memory, nd: Nodes, p: nat, i: nat, frame: nat, prot: Prot)
    requires Inv(m, nd) && p in nd && i < ENTRIES && NodeOk(m, nd, p) && m[p][i] == Empty
    requires SlotBecomes(m, m', nd, p, i, Leaf(frame, prot))
    ensures Added(m, m', Roots(nd), nd[p].root,
                  SlotBase(nd[p], i), SlotBase(nd[p], i) + Span(nd[p].level), frame, prot)
  {
    var start := SlotBase(nd[p], i);
    forall v: nat | InSlot(nd[p], i, v)
      ensures EntryWalk(m', nd[p].level, Leaf(frame, prot), v)
           == AddMapping(View(m, nd[p].root, v), start, frame, prot, v)
    {
      SlotView(m, nd, p, i, v);
    }
  }

  /** Adding a range whose pages are all mapped changes nothing. */
  lemma PresentAdds(m: Memory, nd: Nodes, p: nat, i: nat, start: nat, end: nat, frame: nat, prot: Prot)
    requires Inv(m, nd) && p in nd && i < ENTRIES && NodeOk(m, nd, p) && m[p][i].Leaf?
    requires SlotBase(nd[p], i) <= start && end <= SlotBase(nd[p], i) + Span(nd[p].level)
    ensures Added(m, m, Roots(nd), nd[p].root, start, end, frame, prot)
  {
    forall v: nat | start <= v < end ensures View(m, nd[p].root, v).Some? {
      SlotView(m, nd, p, i, v);
    }
  }

  function EditEntry(e: Edit, x: Entry): Entry
    requires x.Leaf?
  {
    match e
    case Modify(s, c) => Leaf(x.frame, Retag(x.prot, s, c))
    case Delete => Empty
  }

  /** Editing a leaf in place edits exactly that leaf's pages. */
  lemma LeafEdits(m: Memory, m': Memory, nd: Nodes, p: nat, i: nat, e: Edit)
    requires Inv(m, nd) && p in nd && i < ENTRIES && NodeOk(m, nd, p) && m[p][i].Leaf?
    requires SlotBecomes(m, m', nd, p, i, EditEntry(e, m[p][i]))
    ensures Edited(m, m', Roots(nd), nd[p].root,
                   SlotBase(nd[p], i), SlotBase(nd[p], i) + Span(nd[p].level), e)
  {
    var after := EditEntry(e, m[p][i]);
    forall v: nat | InSlot(nd[p], i, v)
      ensures EntryWalk(m', nd[p].level, after, v) == EditMapping(e, View(m, nd[p].root, v))
    {
      SlotView(m, nd, p, i, v);
    }
  }

  /** Editing pages that are not mapped changes nothing. */
  lemma AbsentEdits(m: Memory, nd: Nodes, p: nat, i: nat, start: nat, end: nat, e: Edit)
    requires Inv(m, nd) && p in nd && i < ENTRIES && NodeOk(m, nd, p) && m[p][i] == Empty
    requires SlotBase(nd[p], i) <= start && end <= SlotBase(nd[p], i) + Span(nd[p].level)
    ensures Edited(m, m, Roots(nd), nd[p].root, start, end, e)
  {
    forall v: nat | start <= v < end ensures View(m, nd[p].root, v) == None {
      SlotView(m, nd, p, i, v);
    }
  }

  // ---------------------------------------------------------------------
  // Splitting a large page
  // ---------------------------------------------------------------------

  /** The table that reproduces a level-`level` leaf one level down. */
  ghost predicate SplitTable(t: seq<Entry>, level: Level, frame: nat, prot: Prot)
    requires 1 <= level
  {
    && |t| == ENTRIES
    && forall j: nat :: j < ENTRIES ==> t[j] == Leaf(frame + Times(j, Span(level - 1)), prot)
  }

  function SplitParts(level: Level, frame: nat, prot: Prot): (t: seq<Entry>)
    requires 1 <= level
    ensures SplitTable(t, level, frame, prot)
  {
    seq(ENTRIES, j requires 0 <= j < ENTRIES => Leaf(frame + Times(j, Span(level - 1)), prot))
  }

  lemma SplitFresh(t: seq<Entry>, level: Level, frame: nat, prot: Prot)
    requires 1 <= level <= 2 && SplitTable(t, level, frame, prot) && Aligned(level, frame)
    ensures FreshTable(t, level - 1)
  {
    var s, k := Span(level - 1), Quot(frame, Span(level));
    SpanStep(level - 1);
    QuotRem(frame, Span(level));
    forall j: nat | j < ENTRIES ensures Aligned(level - 1, frame + Times(j, s)) {
      TimesTimes(k, ENTRIES, j, s);
      QuotUnique(Times(k, ENTRIES) + j, 0, s);
    }
  }

  /** Replacing a leaf by its split table changes no translation. */
  lemma SplitKeepsView(m: Memory, nd: Nodes, m': Memory, p: nat, i: nat, q: nat)
    requires Inv(m, nd) && p in nd && i < ENTRIES && NodeOk(m, nd, p)
    requires 1 <= nd[p].level <= 2 && m[p][i].Leaf? && q < |m'|
    requires SplitTable(m'[q], nd[p].level, m[p][i].frame, m[p][i].prot)
    requires SlotBecomes(m, m', nd, p, i, Table(q))
    ensures SameView(m, m', Roots(nd))
  {
    SpanStep(nd[p].level - 1);
    forall v: nat | InSlot(nd[p], i, v)
      ensures EntryWalk(m', nd[p].level, Table(q), v) == View(m, nd[p].root, v)
    {
      SlotView(m, nd, p, i, v);
      Digits(ENTRIES, Span(nd[p].level - 1), v);
    }
  }

  /** Pointing an empty entry at an empty table changes no translation. */
  lemma EmptyTableKeepsView(m: Memory, nd: Nodes, m': Memory, p: nat, i: nat, q: nat)
    requires Inv(m, nd) && p in nd && i < ENTRIES && NodeOk(m, nd, p)
    requires nd[p].level >= 1 && m[p][i] == Empty && q < |m'|
    requires |m'[q]| == ENTRIES && !Occupied(m'[q])
    requires SlotBecomes(m, m', nd, p, i, Table(q))
    ensures SameView(m, m', Roots(nd))
  {
    forall v: nat | InSlot(nd[p], i, v)
      ensures EntryWalk(m', nd[p].level, Table(q), v) == View(m, nd[p].root, v)
    {
      SlotView(m, nd, p, i, v);
      assert m'[q][Index(nd[p].level - 1, v)] == Empty;
    }
  }

  // ---------------------------------------------------------------------
  // How many table pages an operation can need
  // ---------------------------------------------------------------------

  /** Number of aligned blocks of s pages that [a, b) touches. */
  function Blocks(s: nat, a: nat, b: nat): (n: nat)
    requires s > 0
    ensures a < b ==> n > 0
  {
    if a < b then QuotOrder(a, b - 1, s); Quot(b - 1, s) - Quot(a, s) + 1 else 0
  }

  /** Number of aligned blocks of s pages that [a, b) touches and does not cover. */
  function Ragged(s: nat, a: nat, b: nat): nat
    requires s > 0
  {
    if a >= b then 0
    else if Quot(a, s) == Quot(b - 1, s) then (if Rem(a, s) == 0 && Rem(b, s) == 0 then 0 else 1)
    else (if Rem(a, s) == 0 then 0 else 1) + (if Rem(b, s) == 0 then 0 else 1)
  }

  /**
   Tables that a walk over [a, b) may have to create below a level-`level` table, when blocks of a level up to
   `reach` need none if the range covers them.
   */
  function TableNeed(reach: nat, level: Level, a: nat, b: nat): nat {
    if level == 0 then 0
    else
      (if level <= reach then Ragged(Span(level), a, b) else Blocks(Span(level), a, b))
      + TableNeed(reach, level - 1, a, b)
  }

  lemma BlocksSplit(s: nat, a: nat, mid: nat, b: nat)
    requires s > 0 && a <= mid <= b && Rem(mid, s) == 0
    ensures Blocks(s, a, b) == Blocks(s, a, mid) + Blocks(s, mid, b)
  {
    if a < mid {
      var k := Quot(mid, s);
      QuotRem(mid, s);
      TimesAdd(k - 1, 1, s);
      QuotUnique(k - 1, s - 1, s);
    }
  }

  lemma CoarserAligned(level: nat, a: nat)
    requires 1 <= level <= 4 && Aligned(level, a)
    ensures Aligned(level - 1, a)
  {
    SpanStep(level - 1);
    Digits(ENTRIES, Span(level - 1), a);
  }

  /** A range up to or from a block boundary is ragged at the other end only. */
  lemma RaggedSide(s: nat, a: nat, b: nat)
    requires s > 0 && a < b && (Rem(a, s) == 0 || Rem(b, s) == 0)
    ensures Ragged(s, a, b) == (if Rem(a, s) == 0 then 0 else 1) + (if Rem(b, s) == 0 then 0 else 1)
  {
  }

  lemma RaggedSplit(s: nat, a: nat, mid: nat, b: nat)
    requires s > 0 && a <= mid <= b && Rem(mid, s) == 0
    ensures Ragged(s, a, b) == Ragged(s, a, mid) + Ragged(s, mid, b)
  {
    if a < mid < b {
      RaggedSide(s, a, mid);
      RaggedSide(s, mid, b);
      QuotRem(a, s);
      QuotRem(mid, s);
      QuotOrder(a, mid, s);
      QuotOrder(mid, b - 1, s);
    }
  }

  lemma {:induction false} NeedSplit(reach: nat, level: Level, a: nat, mid: nat, b: nat)
    requires a <= mid <= b && Aligned(level, mid)
    ensures TableNeed(reach, level, a, b) == TableNeed(reach, level, a, mid) + TableNeed(reach, level, mid, b)
  {
    if level > 0 {
      BlocksSplit(Span(level), a, mid, b);
      RaggedSplit(Span(level), a, mid, b);
      CoarserAligned(level, mid);
      NeedSplit(reach, level - 1, a, mid, b);
    }
  }

  lemma {:induction false} NeedNone(reach: nat, level: Level, a: nat)
    ensures TableNeed(reach, level, a, a) == 0
  {
    if level > 0 {
      NeedNone(reach, level - 1, a);
    }
  }

  /** A new table is paid for, unless the range covers a block within reach. */
  lemma NeedBelow(reach: nat, level: Level, a: nat, b: nat, new_: nat)
    requires level > 0 && a < b && new_ <= 1
    requires new_ == 1 ==> level > reach || !Aligned(level, a) || !Aligned(level, b)
    ensures new_ + TableNeed(reach, level - 1, a, b) <= TableNeed(reach, level, a, b)
  {
  }

  /** The lowest level whose tables an edit below a level-`level` table neither creates nor frees. */
  function KeptLevel(level: Level): Level {
    if level == 3 then 2 else level
  }

  /** Tables that modifying or deleting [a, b) may have to create: only leaves of level 1 and 2 are split. */
  function EditNeed(level: Level, a: nat, b: nat): nat {
    TableNeed(2, KeptLevel(level), a, b)
  }

  /** Splitting a leaf that the range does not cover is paid for. */
  lemma EditNeedBelow(level: Level, a: nat, b: nat, new_: nat)
    requires level > 0 && a < b && new_ <= 1
    requires new_ == 1 ==> level <= 2 && (!Aligned(level, a) || !Aligned(level, b))
    ensures new_ + EditNeed(level - 1, a, b) <= EditNeed(level, a, b)
  {
    if level <= 2 {
      NeedBelow(2, level, a, b, new_);
    }
  }

  /**
   How a walk over pages up to b ended, when the pool had `was` of `pool` pages taken before and has `now` after:
   it went through and took no more than `need`, or it stopped at page `to` with the pool exhausted.
   */
  ghost predicate Ended(ok: bool, was: nat, now: nat, pool: nat, need: nat, to: nat, b: nat) {
    && now <= was + need
    && if ok then to == b else to < b && now == pool < was + need
  }

  // ---------------------------------------------------------------------
  // The effect of one call of the add walk
  // ---------------------------------------------------------------------

  /**
   [a, b) was added below a level-`level` table: tables of that level and above
   stay allocated as they were, and pages above it are untouched.
   */
  ghost predicate AddStep(m: Memory, nd: Nodes, m': Memory, nd': Nodes, level: Level,
                          root: nat, a: nat, b: nat, frame: nat, prot: Prot)
  {
    && NodesFrom(nd, nd', level) && PagesFrom(m, m', nd, level + 1) && NodesGrow(nd, nd')
    && Added(m, m', Roots(nd), root, a, b, frame, prot)
  }

  lemma SameRoots(nd: Nodes, nd': Nodes, level: Level)
    requires NodesFrom(nd, nd', level)
    ensures Roots(nd') == Roots(nd)
  {
  }

  lemma AddStepNone(m: Memory, nd: Nodes, level: Level, root: nat, a: nat, frame: nat, prot: Prot)
    ensures AddStep(m, nd, m, nd, level, root, a, a, frame, prot)
  {
  }

  lemma AddStepMore(m0: Memory, nd0: Nodes, m1: Memory, nd1: Nodes, m2: Memory, nd2: Nodes, level: Level,
                    root: nat, a: nat, mid: nat, b: nat, frame: nat, frame': nat, prot: Prot)
    requires a <= mid <= b && frame' == frame + (mid - a)
    requires AddStep(m0, nd0, m1, nd1, level, root, a, mid, frame, prot)
    requires AddStep(m1, nd1, m2, nd2, level, root, mid, b, frame', prot)
    ensures AddStep(m0, nd0, m2, nd2, level, root, a, b, frame, prot)
  {
    SameRoots(nd0, nd1, level);
    AddedCompose(m0, m1, m2, Roots(nd0), root, a, mid, b, frame, prot);
  }

  /** What the child call adds is what the parent's entry adds; the entry may be a new empty table. */
  lemma AddStepBelow(m0: Memory, nd0: Nodes, m1: Memory, nd1: Nodes, m2: Memory, nd2: Nodes, level: Level,
                     root: nat, a: nat, b: nat, frame: nat, prot: Prot)
    requires level > 0
    requires NodesFrom(nd0, nd1, level) && PagesFrom(m0, m1, nd0, level + 1)
    requires NodesGrow(nd0, nd1) && SameView(m0, m1, Roots(nd0))
    requires AddStep(m1, nd1, m2, nd2, level - 1, root, a, b, frame, prot)
    ensures AddStep(m0, nd0, m2, nd2, level, root, a, b, frame, prot)
  {
    SameRoots(nd0, nd1, level);
  }

  // ---------------------------------------------------------------------
  // The effect of one call of the modify/delete walk
  // ---------------------------------------------------------------------

  /** [a, b) was edited below a level-`level` table; tables of the kept level and above stay
      allocated as they were, and pages above `level` are untouched. */
  ghost predicate EditStep(m: Memory, nd: Nodes, m': Memory, nd': Nodes, level: Level,
                           root: nat, a: nat, b: nat, e: Edit)
  {
    && NodesFrom(nd, nd', KeptLevel(level)) && PagesFrom(m, m', nd, level + 1)
    && Edited(m, m', Roots(nd), root, a, b, e)
  }

  lemma EditStepNone(m: Memory, nd: Nodes, level: Level, root: nat, a: nat, e: Edit)
    ensures EditStep(m, nd, m, nd, level, root, a, a, e)
  {
  }

  lemma EditStepMore(m0: Memory, nd0: Nodes, m1: Memory, nd1: Nodes, m2: Memory, nd2: Nodes, level: Level,
                     root: nat, a: nat, mid: nat, b: nat, e: Edit)
    requires a <= mid <= b
    requires EditStep(m0, nd0, m1, nd1, level, root, a, mid, e)
    requires EditStep(m1, nd1, m2, nd2, level, root, mid, b, e)
    ensures EditStep(m0, nd0, m2, nd2, level, root, a, b, e)
  {
    SameRoots(nd0, nd1, KeptLevel(level));
    EditedCompose(m0, m1, m2, Roots(nd0), root, a, mid, b, e);
  }

  /** A change of one entry with no effect on translations, such as a split, before an edit. */
  lemma EditStepBelow(m0: Memory, nd0: Nodes, m1: Memory, nd1: Nodes, m2: Memory, nd2: Nodes, level: Level,
                      root: nat, a: nat, b: nat, e: Edit)
    requires NodesFrom(nd0, nd1, KeptLevel(level)) && PagesFrom(m0, m1, nd0, level + 1) && SameView(m0, m1, Roots(nd0))
    requires EditStep(m1, nd1, m2, nd2, level, root, a, b, e)
    ensures EditStep(m0, nd0, m2, nd2, level, root, a, b, e)
  {
    SameRoots(nd0, nd1, KeptLevel(level));
  }

  /** The same, such as freeing the table, after an edit one level down. */
  lemma EditStepAbove(m0: Memory, nd0: Nodes, m1: Memory, nd1: Nodes, m2: Memory, nd2: Nodes, level: Level,
                      root: nat, a: nat, b: nat, e: Edit)
    requires level > 0
    requires EditStep(m0, nd0, m1, nd1, level - 1, root, a, b, e)
    requires NodesFrom(nd1, nd2, KeptLevel(level)) && PagesFrom(m1, m2, nd1, level + 1) && SameView(m1, m2, Roots(nd1))
    ensures EditStep(m0, nd0, m2, nd2, level, root, a, b, e)
  {
    SameRoots(nd0, nd1, KeptLevel(level));
  }

  lemma FullCount(n: nat, s: set<nat>)
    requires forall p: nat :: p < n ==> p in s
    ensures |s| >= n
  {
    if n > 0 {
      FullCount(n - 1, s - {n - 1});
    }
  }

  lemma {:induction false} CountBelow(n: nat, s: set<nat>)
    requires forall p :: p in s ==> p < n
    ensures |s| <= n
  {
    if n == 0 {
      assert s == {};
    } else {
      CountBelow(n - 1, s - {n - 1});
    }
  }

  /** A pool page is free exactly when fewer pages are taken than there are. */
  lemma RoomLeft(n: nat, s: set<nat>, free: Option<nat>)
    requires forall p :: p in s ==> p < n
    requires if free.Some? then free.value < n && free.value !in s else forall p: nat :: p < n ==> p in s
    ensures free == None <==> |s| == n
  {
    CountBelow(n, s);
    if free.Some? {
      CountBelow(n, s + {free.value});
    } else {
      FullCount(n, s);
    }
  }
}
