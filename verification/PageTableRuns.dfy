/**
 Runs of page-table operations against the flat map they stand for, and what
 the pool's bitmap says about the trees.
 */
module PageTableRuns {
  import opened Options
  import opened PageTableModel
  import opened PageTableSpec
  import opened PageTableHooks
  import opened PageTableEngine

  // ---------------------------------------------------------------------
  // The flat map
  // ---------------------------------------------------------------------

  datatype Op =
    | Add(root: nat, paddr: nat, vaddr: nat, size: nat, prot: Prot)
    | Change(root: nat, vaddr: nat, size: nat, edit: Edit)
  {
    function First(): nat { FirstPage(vaddr) }

    function Last(): nat { FirstPage(vaddr) + Pages(size) }

    /** Table pages that the operation takes from the pool at most. */
    function Need(h: Hooks): nat {
      if Add? then TableNeed(Reach(h, First(), FirstPage(paddr), prot), 3, First(), Last())
      else EditNeed(3, First(), Last())
    }
  }

  /** One operation, carried out up to page `to`, on a flat map from pages to mappings, at page v of root r. */
  function FlatPart(h: Hooks, op: Op, to: nat, r: nat, v: nat, t: Option<Mapping>): Option<Mapping> {
    if r != op.root || !(op.First() <= v < to) then t
    else match op
      case Add(_, paddr, _, _, prot) => AddMapping(t, op.First(), FirstPage(paddr), Complete(h, prot), v)
      case Change(_, _, _, e) => EditMapping(e, t)
  }

  function FlatStep(h: Hooks, op: Op, r: nat, v: nat, t: Option<Mapping>): Option<Mapping> {
    FlatPart(h, op, op.Last(), r, v, t)
  }

  function Flat(h: Hooks, ops: seq<Op>, r: nat, v: nat, t: Option<Mapping>): Option<Mapping> {
    if ops == [] then t
    else FlatStep(h, ops[|ops| - 1], r, v, Flat(h, ops[..|ops| - 1], r, v, t))
  }

  /** The first `done` operations, and the next one, if there is one, up to page `to`. */
  function FlatUpTo(h: Hooks, ops: seq<Op>, done: nat, to: nat, r: nat, v: nat, t: Option<Mapping>): Option<Mapping>
    requires done <= |ops|
  {
    var u := Flat(h, ops[..done], r, v, t);
    if done < |ops| then FlatPart(h, ops[done], to, r, v, u) else u
  }

  function TotalNeed(h: Hooks, ops: seq<Op>): nat {
    if ops == [] then 0 else TotalNeed(h, ops[..|ops| - 1]) + ops[|ops| - 1].Need(h)
  }

  lemma {:induction false} NeedPrefix(h: Hooks, ops: seq<Op>, k: nat)
    requires k < |ops|
    ensures TotalNeed(h, ops[..k]) + ops[k].Need(h) == TotalNeed(h, ops[..k + 1]) <= TotalNeed(h, ops)
    decreases |ops|
  {
    assert ops[..k + 1][..k] == ops[..k];
    if k == |ops| - 1 {
      assert ops[..k + 1] == ops;
    } else {
      NeedPrefix(h, ops[..|ops| - 1], k);
      assert ops[..|ops| - 1][..k] == ops[..k] && ops[..|ops| - 1][..k + 1] == ops[..k + 1];
    }
  }

  // ---------------------------------------------------------------------
  // When a run may be carried out
  // ---------------------------------------------------------------------

  /** An earlier operation of the run added a page under the level-3 entry of page v. */
  ghost predicate Covered(ops: seq<Op>, k: nat, root: nat, v: nat)
    requires k <= |ops|
  {
    exists j, w: nat :: 0 <= j < k && CoveredBy(ops[j], root, v, w)
  }

  predicate CoveredBy(op: Op, root: nat, v: nat, w: nat) {
    op.Add? && op.root == root && op.First() <= w < op.Last() && Index(3, w) == Index(3, v)
  }

  ghost predicate TopEntry(m: Memory, root: nat, v: nat) {
    root < |m| && |m[root]| == ENTRIES && m[root][Index(3, v)] != Empty
  }

  /** What operation k of a run asks of the tables the run starts from. */
  ghost predicate OpOk(h: Hooks, m: Memory, roots: set<nat>, ops: seq<Op>, k: nat)
    requires k < |ops|
  {
    var op := ops[k];
    && op.root in roots && op.Last() <= SPACE
    && (op.Add? ==> FirstPage(op.paddr) + Pages(op.size) <= h.frames && h.isProt(op.prot))
    && (op.Change? ==>
          && EditOk(h, op.edit)
          && forall v: nat :: op.First() <= v < op.Last() ==> TopEntry(m, op.root, v) || Covered(ops, k, op.root, v))
  }

  ghost predicate Runnable(h: Hooks, m: Memory, nd: Nodes, ops: seq<Op>) {
    forall k: nat :: k < |ops| ==> OpOk(h, m, Roots(nd), ops, k)
  }

  /** Every page the first k operations promised a level-3 entry has one. */
  ghost predicate TopsKept(m0: Memory, m: Memory, ops: seq<Op>, k: nat, roots: set<nat>)
    requires k <= |ops|
  {
    forall r, v: nat :: r in roots && v < SPACE && (TopEntry(m0, r, v) || Covered(ops, k, r, v)) ==> TopEntry(m, r, v)
  }

  /** A level-3 entry stays present while the tables of level 2 stay allocated. */
  lemma TopEntryStays(m: Memory, nd: Nodes, m': Memory, nd': Nodes, r: nat, v: nat)
    requires Inv(m, nd) && Inv(m', nd') && r in Roots(nd) && TopEntry(m, r, v)
    requires forall p :: p in nd && nd[p].level >= 2 ==> p in nd' && nd'[p] == nd[p]
    ensures TopEntry(m', r, v)
  {
    assert EntryOk(m, nd, r, Index(3, v));
    assert NodeOk(m', nd', m[r][Index(3, v)].page);
  }

  lemma AddedTop(m: Memory, m': Memory, nd: Nodes, h: Hooks, op: Op, v: nat, w: nat)
    requires op.Add? && op.root in Roots(nd) && op.Last() <= SPACE && CoveredBy(op, op.root, v, w)
    requires Added(m, m', Roots(nd), op.root, op.First(), op.Last(), FirstPage(op.paddr), Complete(h, op.prot))
    ensures TopEntry(m', op.root, v)
  {
    assert View(m', op.root, w).Some?;
  }

  lemma TopsSuffice(m0: Memory, m: Memory, roots: set<nat>, h: Hooks, ops: seq<Op>, k: nat)
    requires k < |ops| && OpOk(h, m0, roots, ops, k) && TopsKept(m0, m, ops, k, roots) && ops[k].Change?
    requires ops[k].root < |m| && |m[ops[k].root]| == ENTRIES
    ensures TopPresent(m, ops[k].root, ops[k].First(), ops[k].Last())
  {
    forall v: nat | ops[k].First() <= v < ops[k].Last() ensures m[ops[k].root][Index(3, v)] != Empty {
      assert TopEntry(m, ops[k].root, v);
    }
  }

  lemma TopsStep(m0: Memory, m: Memory, nd: Nodes, m': Memory, nd': Nodes, h: Hooks, ops: seq<Op>, k: nat)
    requires k < |ops| && OpOk(h, m0, Roots(nd), ops, k) && Inv(m, nd) && Inv(m', nd')
    requires TopsKept(m0, m, ops, k, Roots(nd))
    requires forall p :: p in nd && nd[p].level >= 2 ==> p in nd' && nd'[p] == nd[p]
    requires var op := ops[k];
             op.Add? ==>
               Added(m, m', Roots(nd), op.root, op.First(), op.Last(), FirstPage(op.paddr), Complete(h, op.prot))
    ensures TopsKept(m0, m', ops, k + 1, Roots(nd))
  {
    forall r, v: nat | r in Roots(nd) && v < SPACE && (TopEntry(m0, r, v) || Covered(ops, k + 1, r, v))
      ensures TopEntry(m', r, v)
    {
      if TopEntry(m0, r, v) || Covered(ops, k, r, v) {
        TopEntryStays(m, nd, m', nd', r, v);
      } else {
        var j, w: nat :| 0 <= j < k + 1 && CoveredBy(ops[j], r, v, w);
        AddedTop(m, m', nd, h, ops[k], v, w);
      }
    }
  }

  // ---------------------------------------------------------------------
  // The refinement
  // ---------------------------------------------------------------------

  ghost predicate Refines(h: Hooks, m0: Memory, m: Memory, roots: set<nat>, ops: seq<Op>) {
    forall r, v: nat :: r in roots && v < SPACE ==> View(m, r, v) == Flat(h, ops, r, v, View(m0, r, v))
  }

  ghost predicate StepDone(h: Hooks, m: Memory, m': Memory, roots: set<nat>, op: Op, to: nat) {
    match op
    case Add(root, paddr, _, _, prot) =>
      Added(m, m', roots, root, op.First(), to, FirstPage(paddr), Complete(h, prot))
    case Change(root, _, _, e) => Edited(m, m', roots, root, op.First(), to, e)
  }

  lemma RefinesStep(h: Hooks, m0: Memory, m: Memory, m': Memory, roots: set<nat>, ops: seq<Op>, k: nat, to: nat)
    requires k < |ops| && Refines(h, m0, m, roots, ops[..k]) && StepDone(h, m, m', roots, ops[k], to)
    requires to == ops[k].Last()
    ensures Refines(h, m0, m', roots, ops[..k + 1])
  {
    var more := ops[..k + 1];
    assert more[..|more| - 1] == ops[..k];
    forall r, v: nat | r in roots && v < SPACE
      ensures View(m', r, v) == Flat(h, more, r, v, View(m0, r, v))
    {
      assert View(m', r, v) == FlatStep(h, ops[k], r, v, View(m, r, v));
    }
  }

  /** The tables after `done` operations and the next one up to page `to`. */
  ghost predicate RefinesUpTo(h: Hooks, m0: Memory, m: Memory, roots: set<nat>, ops: seq<Op>, done: nat, to: nat)
    requires done <= |ops|
  {
    forall r, v: nat :: r in roots && v < SPACE ==> View(m, r, v) == FlatUpTo(h, ops, done, to, r, v, View(m0, r, v))
  }

  lemma RefinesPart(h: Hooks, m0: Memory, m: Memory, m': Memory, roots: set<nat>, ops: seq<Op>, k: nat, to: nat)
    requires k < |ops| && Refines(h, m0, m, roots, ops[..k]) && StepDone(h, m, m', roots, ops[k], to)
    ensures RefinesUpTo(h, m0, m', roots, ops, k, to)
  {
    forall r, v: nat | r in roots && v < SPACE
      ensures View(m', r, v) == FlatUpTo(h, ops, k, to, r, v, View(m0, r, v))
    {
      assert View(m', r, v) == FlatPart(h, ops[k], to, r, v, View(m, r, v));
    }
  }

  method Perform(pt: PageTables, op: Op) returns (ok: bool, ghost to: nat)
    requires pt.Valid() && NoEmptyTables(pt.mem, pt.nodes, {})
    requires op.root in Roots(pt.nodes) && op.Last() <= SPACE
    requires op.Add? ==> FirstPage(op.paddr) + Pages(op.size) <= pt.hooks.frames && pt.hooks.isProt(op.prot)
    requires op.Change? ==> EditOk(pt.hooks, op.edit) && TopPresent(pt.mem, op.root, op.First(), op.Last())
    modifies pt
    ensures pt.Valid() && |pt.mem| == old(|pt.mem|) && (ok ==> NoEmptyTables(pt.mem, pt.nodes, {}))
    ensures Roots(pt.nodes) == old(Roots(pt.nodes))
    ensures forall p :: p in old(pt.nodes) && old(pt.nodes)[p].level >= 2 ==>
              p in pt.nodes && pt.nodes[p] == old(pt.nodes)[p]
    ensures forall r, v: nat :: r in Roots(pt.nodes) && TopEntry(old(pt.mem), r, v) ==> TopEntry(pt.mem, r, v)
    ensures op.First() <= to && Ended(ok, old(|pt.nodes|), |pt.nodes|, |pt.mem|, op.Need(pt.hooks), to, op.Last())
    ensures StepDone(pt.hooks, old(pt.mem), pt.mem, Roots(pt.nodes), op, to)
  {
    match op {
      case Add(root, paddr, vaddr, size, prot) => ok, to := pt.AddMap(root, paddr, vaddr, size, prot);
      case Change(root, vaddr, size, e) => ok, to := pt.ModifyOrDeleteMap(root, vaddr, size, e);
    }
    forall r, v: nat | r in Roots(pt.nodes) && TopEntry(old(pt.mem), r, v) ensures TopEntry(pt.mem, r, v) {
      TopEntryStays(old(pt.mem), old(pt.nodes), pt.mem, pt.nodes, r, v);
    }
  }

  /** How a run that began with `was` of `pool` pages taken ended: all operations done, or the pool exhausted in the
      middle of the next one, which its total need would have prevented. */
  ghost predicate RunEnded(h: Hooks, ops: seq<Op>, done: nat, to: nat, was: nat, now: nat, pool: nat) {
    && done <= |ops|
    && (done < |ops| ==> ops[done].First() <= to < ops[done].Last() && now == pool < was + TotalNeed(h, ops))
  }

  /** The tables after k operations of a run that began at m0. */
  ghost predicate Progress(h: Hooks, m0: Memory, roots: set<nat>, was: nat, m: Memory, nd: Nodes, ops: seq<Op>, k: nat)
  {
    && k <= |ops| && NoEmptyTables(m, nd, {}) && |m| == |m0| && Roots(nd) == roots
    && |nd| <= was + TotalNeed(h, ops[..k])
    && TopsKept(m0, m, ops, k, roots) && Refines(h, m0, m, roots, ops[..k])
  }

  lemma ProgressStep(h: Hooks, m0: Memory, roots: set<nat>, was: nat, m: Memory, nd: Nodes, m': Memory, nd': Nodes,
                     ops: seq<Op>, k: nat, to: nat)
    requires Progress(h, m0, roots, was, m, nd, ops, k) && k < |ops| && OpOk(h, m0, roots, ops, k)
    requires Inv(m, nd) && Inv(m', nd') && NoEmptyTables(m', nd', {}) && |m'| == |m| && Roots(nd') == roots
    requires forall p :: p in nd && nd[p].level >= 2 ==> p in nd' && nd'[p] == nd[p]
    requires StepDone(h, m, m', roots, ops[k], to) && Ended(true, |nd|, |nd'|, |m'|, ops[k].Need(h), to, ops[k].Last())
    ensures Progress(h, m0, roots, was, m', nd', ops, k + 1)
  {
    NeedPrefix(h, ops, k);
    TopsStep(m0, m, nd, m', nd', h, ops, k);
    RefinesStep(h, m0, m, m', roots, ops, k, to);
  }

  /** Operation k of the run. */
  method PerformNext(pt: PageTables, ops: seq<Op>, k: nat, ghost m0: Memory, ghost roots: set<nat>, ghost was: nat)
    returns (ok: bool, ghost to: nat)
    requires pt.Valid() && k < |ops| && OpOk(pt.hooks, m0, roots, ops, k)
    requires Progress(pt.hooks, m0, roots, was, pt.mem, pt.nodes, ops, k)
    modifies pt
    ensures pt.Valid() && Roots(pt.nodes) == roots
    ensures ok ==> Progress(pt.hooks, m0, roots, was, pt.mem, pt.nodes, ops, k + 1)
    ensures !ok ==> RefinesUpTo(pt.hooks, m0, pt.mem, roots, ops, k, to)
    ensures !ok ==> RunEnded(pt.hooks, ops, k, to, was, |pt.nodes|, |pt.mem|)
  {
    ghost var m, nd := pt.mem, pt.nodes;
    assert NodeOk(m, nd, ops[k].root);
    if ops[k].Change? {
      TopsSuffice(m0, m, roots, pt.hooks, ops, k);
    }
    ok, to := Perform(pt, ops[k]);
    if ok {
      ProgressStep(pt.hooks, m0, roots, was, m, nd, pt.mem, pt.nodes, ops, k, to);
    } else {
      NeedPrefix(pt.hooks, ops, k);
      RefinesPart(pt.hooks, m0, m, pt.mem, roots, ops, k, to);
    }
  }

  /**
   Any run of add, modify and delete calls leaves every address space of the
   pool equal, page by page, to the flat map the same calls produce, as far as
   the run came before the pool was exhausted.
   */
  method Execute(pt: PageTables, ops: seq<Op>) returns (done: nat, ghost to: nat)
    requires pt.Valid() && NoEmptyTables(pt.mem, pt.nodes, {})
    requires Runnable(pt.hooks, pt.mem, pt.nodes, ops)
    modifies pt
    ensures pt.Valid() && Roots(pt.nodes) == old(Roots(pt.nodes))
    ensures RunEnded(pt.hooks, ops, done, to, old(|pt.nodes|), |pt.nodes|, |pt.mem|)
    ensures done == |ops| ==> NoEmptyTables(pt.mem, pt.nodes, {})
    ensures RefinesUpTo(pt.hooks, old(pt.mem), pt.mem, Roots(pt.nodes), ops, done, to)
  {
    ghost var m0, roots, was := pt.mem, Roots(pt.nodes), |pt.nodes|;
    var ok := true;
    done, to := 0, 0;
    assert ops[..0] == [];
    while done < |ops|
      invariant pt.Valid() && Progress(pt.hooks, m0, roots, was, pt.mem, pt.nodes, ops, done)
    {
      ok, to := PerformNext(pt, ops, done, m0, roots, was);
      if !ok {
        return;
      }
      done := done + 1;
    }
  }

  /** The same of the translations that a walk over the descriptors finds. */
  method Run(pt: PageTables, ops: seq<Op>) returns (done: nat, ghost to: nat)
    requires pt.Valid() && NoEmptyTables(pt.mem, pt.nodes, {})
    requires Runnable(pt.hooks, pt.mem, pt.nodes, ops)
    modifies pt
    ensures pt.Valid() && Roots(pt.nodes) == old(Roots(pt.nodes))
    ensures RunEnded(pt.hooks, ops, done, to, old(|pt.nodes|), |pt.nodes|, |pt.mem|)
    ensures done == |ops| ==> NoEmptyTables(pt.mem, pt.nodes, {})
    ensures forall r, v: nat :: r in Roots(pt.nodes) && v < SPACE ==>
              Translation(pt.hooks, pt.words, r, v) ==
                  FlatUpTo(pt.hooks, ops, done, to, r, v, old(Translation(pt.hooks, pt.words, r, v)))
  {
    ghost var w0, m0, nd0 := pt.words, pt.mem, pt.nodes;
    done, to := Execute(pt, ops);
    forall r, v: nat | r in Roots(pt.nodes) && v < SPACE
      ensures Translation(pt.hooks, pt.words, r, v) ==
              FlatUpTo(pt.hooks, ops, done, to, r, v, Translation(pt.hooks, w0, r, v))
    {
      TranslationIsView(pt.hooks, w0, m0, nd0, r, v);
      TranslationIsView(pt.hooks, pt.words, pt.mem, pt.nodes, r, v);
    }
  }

  // ---------------------------------------------------------------------
  // The bitmap and the trees
  // ---------------------------------------------------------------------

  /** Page q is one of the tables that the walk of page v from `page` goes through. */
  predicate Visits(m: Memory, level: Level, page: nat, v: nat, q: nat)
    decreases level
  {
    || q == page
    || (page < |m| && |m[page]| == ENTRIES && level > 0 &&
        var e := m[page][Index(level, v)];
        e.Table? && Visits(m, level - 1, e.page, v, q))
  }

  lemma {:induction false} VisitsBelow(m: Memory, nd: Nodes, x: nat, v: nat, q: nat)
    requires Inv(m, nd) && x in nd && InBlock(nd[x], v) && Visits(m, nd[x].level, x, v, q)
    ensures q in nd && nd[q].root == nd[x].root && nd[q].level <= nd[x].level && InBlock(nd[q], v)
    decreases nd[x].level
  {
    if q != x {
      ChildBlock(m, nd, x, v);
      var e := m[x][Index(nd[x].level, v)];
      assert NodeOk(m, nd, e.page);
      VisitsBelow(m, nd, e.page, v, q);
    }
  }

  lemma {:induction false} VisitsAbove(m: Memory, nd: Nodes, x: nat, v: nat, q: nat)
    requires Inv(m, nd) && x in nd && InBlock(nd[x], v) && Visits(m, nd[x].level, x, v, q)
    ensures Visits(m, 3, nd[x].root, v, q)
    decreases 3 - nd[x].level
  {
    assert NodeOk(m, nd, x);
    if nd[x].level < 3 {
      var up := nd[x].parent;
      assert NodeOk(m, nd, up);
      SlotInBlock(nd[up], nd[x].slot, v);
      SlotOfAddress(nd[up], nd[x].slot, v);
      VisitsAbove(m, nd, up, v, q);
    }
  }

  ghost predicate Reached(m: Memory, nd: Nodes, q: nat) {
    exists r, v: nat :: r in Roots(nd) && v < SPACE && Visits(m, 3, r, v, q)
  }

  /** A page is allocated exactly when it is a table that some walk from a root goes through. */
  lemma AllocatedIffReached(m: Memory, nd: Nodes, q: nat)
    requires Inv(m, nd)
    ensures q in nd <==> Reached(m, nd, q)
  {
    if q in nd {
      assert NodeOk(m, nd, q);
      var r, v := nd[q].root, nd[q].base;
      assert InBlock(nd[q], v) && Visits(m, nd[q].level, q, v, q);
      VisitsAbove(m, nd, q, v, q);
      assert r in Roots(nd) && v < SPACE && Visits(m, 3, r, v, q);
    }
    if Reached(m, nd, q) {
      var r, v: nat :| r in Roots(nd) && v < SPACE && Visits(m, 3, r, v, q);
      assert NodeOk(m, nd, r);
      VisitsBelow(m, nd, r, v, q);
    }
  }

  /** No page is reached from two roots, or through two entries. */
  lemma OneParent(m: Memory, nd: Nodes, p: nat, i: nat, p': nat, i': nat, q: nat)
    requires Inv(m, nd) && p in nd && p' in nd && i < ENTRIES && i' < ENTRIES
    requires m[p][i] == Table(q) && m[p'][i'] == Table(q)
    ensures p == p' && i == i' && q !in Roots(nd)
  {
    assert EntryOk(m, nd, p, i) && EntryOk(m, nd, p', i');
  }

  lemma OneRoot(m: Memory, nd: Nodes, r: nat, v: nat, r': nat, v': nat, q: nat)
    requires Inv(m, nd) && r in Roots(nd) && r' in Roots(nd) && v < SPACE && v' < SPACE
    requires Visits(m, 3, r, v, q) && Visits(m, 3, r', v', q)
    ensures r == r'
  {
    assert NodeOk(m, nd, r) && NodeOk(m, nd, r');
    VisitsBelow(m, nd, r, v, q);
    VisitsBelow(m, nd, r', v', q);
  }
}
