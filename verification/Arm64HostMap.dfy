/**
 The hypervisor's own stage-1 map (init_hv_mapping, arch/arm64/mmu.c): device
 windows, RAM, holes for reserved memory, and the hypervisor image, built by one
 run of page-table operations.
 */
module Arm64HostMap {
  import opened Options
  import opened Division
  import opened PagePool
  import opened PageTableModel
  import opened PageTableSpec
  import opened PageTableHooks
  import opened PageTableEngine
  import opened PageTableRuns
  import opened Arm64Descriptors
  import opened Arm64Encoding
  import opened Arm64Hooks

  datatype Region = Region(base: nat, size: nat)

  /** Page v belongs to the region, as the page-table operations round it. */
  predicate InPages(g: Region, v: nat) {
    FirstPage(g.base) <= v < FirstPage(g.base) + Pages(g.size)
  }

  ghost predicate InAny(gs: seq<Region>, v: nat) {
    exists g :: g in gs && InPages(g, v)
  }

  /** pgtable_add_map of each region to itself. */
  function MapAll(root: nat, gs: seq<Region>, prot: Prot): seq<Op> {
    if gs == [] then []
    else
      var g := gs[|gs| - 1];
      MapAll(root, gs[..|gs| - 1], prot) + [Add(root, g.base, g.base, g.size, prot)]
  }

  /** pgtable_modify_or_del_map with MR_DEL of each region. */
  function UnmapAll(root: nat, gs: seq<Region>): seq<Op> {
    if gs == [] then []
    else
      var g := gs[|gs| - 1];
      UnmapAll(root, gs[..|gs| - 1]) + [Change(root, g.base, g.size, Delete)]
  }

  function HostOps(root: nat, mmio: seq<Region>, ram: Region, reserved: seq<Region>, image: Region): seq<Op> {
    MapAll(root, mmio, ATTR_DEVICE | BLOCK_DESC)
    + MapAll(root, [ram], ATTR_NORMAL | BLOCK_DESC)
    + UnmapAll(root, reserved)
    + [Change(root, image.base, image.size, Modify(0, PXN | UXN))]
  }

  lemma {:induction false} FlatAppend(h: Hooks, a: seq<Op>, b: seq<Op>, r: nat, v: nat, t: Option<Mapping>)
    ensures Flat(h, a + b, r, v, t) == Flat(h, b, r, v, Flat(h, a, r, v, t))
    decreases |b|
  {
    if b == [] {
      assert a + b == a;
    } else {
      var all := a + b;
      assert all[..|all| - 1] == a + b[..|b| - 1];
      FlatAppend(h, a, b[..|b| - 1], r, v, t);
    }
  }

  lemma InAnyLast(gs: seq<Region>, v: nat)
    requires gs != []
    ensures InAny(gs, v) <==> InAny(gs[..|gs| - 1], v) || InPages(gs[|gs| - 1], v)
  {
    var front, g := gs[..|gs| - 1], gs[|gs| - 1];
    assert g in gs && forall x :: x in gs <==> x in front || x == g;
  }

  lemma {:induction false} FlatMapAll(h: Hooks, root: nat, gs: seq<Region>, prot: Prot, v: nat, t: Option<Mapping>)
    ensures Flat(h, MapAll(root, gs, prot), root, v, t) ==
            if t == None && InAny(gs, v) then Some(Mapping(v, Complete(h, prot))) else t
  {
    if gs != [] {
      var front, g := gs[..|gs| - 1], gs[|gs| - 1];
      FlatMapAll(h, root, front, prot, v, t);
      var ops := MapAll(root, gs, prot);
      assert ops[..|ops| - 1] == MapAll(root, front, prot) && ops[|ops| - 1] == Add(root, g.base, g.base, g.size, prot);
      InAnyLast(gs, v);
    }
  }

  lemma {:induction false} FlatUnmapAll(h: Hooks, root: nat, gs: seq<Region>, v: nat, t: Option<Mapping>)
    ensures Flat(h, UnmapAll(root, gs), root, v, t) == if InAny(gs, v) then None else t
  {
    if gs != [] {
      var front, g := gs[..|gs| - 1], gs[|gs| - 1];
      FlatUnmapAll(h, root, front, v, t);
      var ops := UnmapAll(root, gs);
      assert ops[..|ops| - 1] == UnmapAll(root, front) && ops[|ops| - 1] == Change(root, g.base, g.size, Delete);
      InAnyLast(gs, v);
    }
  }

  /** What the host map is meant to be: every device and RAM page that is not reserved maps to itself. */
  ghost function HostPage(mmio: seq<Region>, ram: Region, reserved: seq<Region>, image: Region,
                          v: nat): Option<Mapping> {
    if InAny(reserved, v) || !(InAny(mmio, v) || InPages(ram, v)) then None
    else
      var attrs := if InAny(mmio, v) then ATTR_DEVICE else ATTR_NORMAL;
      Some(Mapping(v, if InPages(image, v) then Retag(attrs, 0, PXN | UXN) else attrs))
  }

  lemma HostAttributes()
    ensures Normal(Stage1, ATTR_DEVICE | BLOCK_DESC) == ATTR_DEVICE
    ensures Normal(Stage1, ATTR_NORMAL | BLOCK_DESC) == ATTR_NORMAL
  {
  }

  /** The run of operations in init_hv_mapping builds exactly that map from an empty root. */
  lemma HostMapIsIdentity(base: nat, root: nat, mmio: seq<Region>, ram: Region, reserved: seq<Region>, image: Region,
                          v: nat)
    ensures Flat(HooksOf(Stage1, base), HostOps(root, mmio, ram, reserved, image), root, v, None) ==
            HostPage(mmio, ram, reserved, image, v)
  {
    var h := HooksOf(Stage1, base);
    var devices, memory := MapAll(root, mmio, ATTR_DEVICE | BLOCK_DESC), MapAll(root, [ram], ATTR_NORMAL | BLOCK_DESC);
    var holes, last := UnmapAll(root, reserved), [Change(root, image.base, image.size, Modify(0, PXN | UXN))];
    FlatAppend(h, devices + memory + holes, last, root, v, None);
    FlatAppend(h, devices + memory, holes, root, v, None);
    FlatAppend(h, devices, memory, root, v, None);
    FlatMapAll(h, root, mmio, ATTR_DEVICE | BLOCK_DESC, v, None);
    var t := Flat(h, devices, root, v, None);
    FlatMapAll(h, root, [ram], ATTR_NORMAL | BLOCK_DESC, v, t);
    assert InAny([ram], v) <==> InPages(ram, v) by {
      assert ram in [ram];
    }
    var u := Flat(h, memory, root, v, t);
    FlatUnmapAll(h, root, reserved, v, u);
    HostAttributes();
    var w := Flat(h, holes, root, v, u);
    assert last[..0] == [];
    assert Flat(h, last, root, v, w) == FlatStep(h, last[0], root, v, Flat(h, [], root, v, w));
  }

  // ---------------------------------------------------------------------
  // When the operations may be carried out
  // ---------------------------------------------------------------------

  function FirstOf(g: Region): nat { FirstPage(g.base) }

  function LastOf(g: Region): nat { FirstPage(g.base) + Pages(g.size) }

  ghost predicate Fits(g: Region) {
    LastOf(g) <= SPACE
  }

  ghost predicate Maps(mmio: seq<Region>, ram: Region, w: nat) {
    InAny(mmio, w) || InPages(ram, w)
  }

  /** Page v lies under a level-3 entry that the devices or the RAM need. */
  ghost predicate UnderMap(mmio: seq<Region>, ram: Region, v: nat) {
    exists w: nat :: Maps(mmio, ram, w) && Index(3, w) == Index(3, v)
  }

  /** What init_hv_mapping asks of the regions: reserved memory and the image lie under what was mapped. */
  ghost predicate RegionsOk(mmio: seq<Region>, ram: Region, reserved: seq<Region>, image: Region) {
    && (forall g :: g in mmio ==> Fits(g)) && Fits(ram) && (forall g :: g in reserved ==> Fits(g)) && Fits(image)
    && forall v: nat :: InAny(reserved, v) || InPages(image, v) ==> UnderMap(mmio, ram, v)
  }

  lemma {:induction false} MapAllAt(root: nat, gs: seq<Region>, prot: Prot, j: nat)
    ensures |MapAll(root, gs, prot)| == |gs|
    ensures j < |gs| ==> MapAll(root, gs, prot)[j] == Add(root, gs[j].base, gs[j].base, gs[j].size, prot)
  {
    if gs != [] {
      MapAllAt(root, gs[..|gs| - 1], prot, j);
    }
  }

  lemma {:induction false} UnmapAllAt(root: nat, gs: seq<Region>, j: nat)
    ensures |UnmapAll(root, gs)| == |gs|
    ensures j < |gs| ==> UnmapAll(root, gs)[j] == Change(root, gs[j].base, gs[j].size, Delete)
  {
    if gs != [] {
      UnmapAllAt(root, gs[..|gs| - 1], j);
    }
  }

  /** Operation k of the sequence. */
  function HostOp(root: nat, mmio: seq<Region>, ram: Region, reserved: seq<Region>, image: Region, k: nat): Op
    requires k < |mmio| + |reserved| + 2
  {
    var n := |mmio|;
    if k < n then Add(root, mmio[k].base, mmio[k].base, mmio[k].size, ATTR_DEVICE | BLOCK_DESC)
    else if k == n then Add(root, ram.base, ram.base, ram.size, ATTR_NORMAL | BLOCK_DESC)
    else if k <= n + |reserved| then Change(root, reserved[k - n - 1].base, reserved[k - n - 1].size, Delete)
    else Change(root, image.base, image.size, Modify(0, PXN | UXN))
  }

  lemma HostOpsAt(root: nat, mmio: seq<Region>, ram: Region, reserved: seq<Region>, image: Region, k: nat)
    ensures |HostOps(root, mmio, ram, reserved, image)| == |mmio| + |reserved| + 2
    ensures k < |mmio| + |reserved| + 2 ==>
              HostOps(root, mmio, ram, reserved, image)[k] == HostOp(root, mmio, ram, reserved, image, k)
  {
    MapAllAt(root, mmio, ATTR_DEVICE | BLOCK_DESC, k);
    MapAllAt(root, [ram], ATTR_NORMAL | BLOCK_DESC, 0);
    UnmapAllAt(root, reserved, if k > |mmio| then k - |mmio| - 1 else 0);
  }

  lemma HostProts()
    ensures IsProt(ATTR_DEVICE | BLOCK_DESC) && IsProt(ATTR_NORMAL | BLOCK_DESC)
    ensures KeepsFlag(0, PXN | UXN)
  {
  }

  lemma HostRunnable(h: Hooks, base: nat, m: Memory, nd: Nodes, root: nat, mmio: seq<Region>, ram: Region,
                     reserved: seq<Region>, image: Region, ops: seq<Op>)
    requires h == HooksOf(Stage1, base) && root in Roots(nd) && RegionsOk(mmio, ram, reserved, image)
    requires ops == HostOps(root, mmio, ram, reserved, image)
    ensures Runnable(h, m, nd, ops)
  {
    HostOpsAt(root, mmio, ram, reserved, image, 0);
    forall k: nat | k < |ops| ensures OpOk(h, m, Roots(nd), ops, k) {
      HostOpsAt(root, mmio, ram, reserved, image, k);
      if k <= |mmio| {
        HostProts();
        assert Fits(ram) && (k < |mmio| ==> mmio[k] in mmio && Fits(mmio[k]));
      } else {
        HostChangeOk(h, base, m, nd, root, mmio, ram, reserved, image, ops, k);
      }
    }
  }

  lemma HostChangeOk(h: Hooks, base: nat, m: Memory, nd: Nodes, root: nat, mmio: seq<Region>, ram: Region,
                     reserved: seq<Region>, image: Region, ops: seq<Op>, k: nat)
    requires h == HooksOf(Stage1, base) && root in Roots(nd) && RegionsOk(mmio, ram, reserved, image)
    requires ops == HostOps(root, mmio, ram, reserved, image)
    requires |mmio| < k < |ops| == |mmio| + |reserved| + 2 && ops[k] == HostOp(root, mmio, ram, reserved, image, k)
    ensures OpOk(h, m, Roots(nd), ops, k)
  {
    HostProts();
    ModifyKeepsNormal(Stage1, base, 0, PXN | UXN);
    if k <= |mmio| + |reserved| {
      assert reserved[k - |mmio| - 1] in reserved && Fits(reserved[k - |mmio| - 1]);
    }
    assert Fits(image);
    forall v: nat | ops[k].First() <= v < ops[k].Last() ensures Covered(ops, k, root, v) {
      if k <= |mmio| + |reserved| {
        assert reserved[k - |mmio| - 1] in reserved && InPages(reserved[k - |mmio| - 1], v);
      }
      assert UnderMap(mmio, ram, v);
      MapCovers(root, mmio, ram, reserved, image, ops, k, v);
    }
  }

  lemma MapCovers(root: nat, mmio: seq<Region>, ram: Region, reserved: seq<Region>, image: Region, ops: seq<Op>, k: nat,
                  v: nat)
    requires ops == HostOps(root, mmio, ram, reserved, image) && |mmio| < k <= |ops| && UnderMap(mmio, ram, v)
    ensures Covered(ops, k, root, v)
  {
    var w: nat :| Maps(mmio, ram, w) && Index(3, w) == Index(3, v);
    var j := |mmio|;
    if !InPages(ram, w) {
      var g :| g in mmio && InPages(g, w);
      j :| 0 <= j < |mmio| && mmio[j] == g;
    }
    HostOpsAt(root, mmio, ram, reserved, image, j);
    assert CoveredBy(ops[j], root, v, w);
  }

  // ---------------------------------------------------------------------
  // How many table pages they need
  // ---------------------------------------------------------------------

  /** Tables below level 3 for the ends of a region that are not whole blocks. */
  function EndNeed(g: Region): nat {
    Ragged(Span(2), FirstOf(g), LastOf(g)) + Ragged(Span(1), FirstOf(g), LastOf(g))
  }

  function AddsNeed(gs: seq<Region>): nat {
    if gs == [] then 0
    else
      AddsNeed(gs[..|gs| - 1])
      + Blocks(Span(3), FirstOf(gs[|gs| - 1]), LastOf(gs[|gs| - 1])) + EndNeed(gs[|gs| - 1])
  }

  function EndsNeed(gs: seq<Region>): nat {
    if gs == [] then 0 else EndsNeed(gs[..|gs| - 1]) + EndNeed(gs[|gs| - 1])
  }

  lemma NeedOpened(a: nat, b: nat)
    ensures TableNeed(2, 3, a, b) == Blocks(Span(3), a, b) + Ragged(Span(2), a, b) + Ragged(Span(1), a, b)
    ensures TableNeed(2, 2, a, b) == Ragged(Span(2), a, b) + Ragged(Span(1), a, b)
  {
    assert TableNeed(2, 1, a, b) == Ragged(Span(1), a, b) + TableNeed(2, 0, a, b);
    assert TableNeed(2, 2, a, b) == Ragged(Span(2), a, b) + TableNeed(2, 1, a, b);
  }

  lemma {:induction false} NeedAppend(h: Hooks, a: seq<Op>, b: seq<Op>)
    ensures TotalNeed(h, a + b) == TotalNeed(h, a) + TotalNeed(h, b)
    decreases |b|
  {
    if b == [] {
      assert a + b == a;
    } else {
      var all := a + b;
      assert all[..|all| - 1] == a + b[..|b| - 1];
      NeedAppend(h, a, b[..|b| - 1]);
    }
  }

  lemma {:induction false} MapAllNeed(h: Hooks, base: nat, root: nat, gs: seq<Region>, prot: Prot)
    requires h == HooksOf(Stage1, base)
    ensures TotalNeed(h, MapAll(root, gs, prot)) == AddsNeed(gs)
  {
    if gs != [] {
      var front, g := gs[..|gs| - 1], gs[|gs| - 1];
      var ops := MapAll(root, gs, prot);
      assert ops[..|ops| - 1] == MapAll(root, front, prot) && ops[|ops| - 1] == Add(root, g.base, g.base, g.size, prot);
      MapAllNeed(h, base, root, front, prot);
      NeedOpened(FirstOf(g), LastOf(g));
    }
  }

  lemma {:induction false} UnmapAllNeed(h: Hooks, root: nat, gs: seq<Region>)
    ensures TotalNeed(h, UnmapAll(root, gs)) == EndsNeed(gs)
  {
    if gs != [] {
      var front, g := gs[..|gs| - 1], gs[|gs| - 1];
      var ops := UnmapAll(root, gs);
      assert ops[..|ops| - 1] == UnmapAll(root, front) && ops[|ops| - 1] == Change(root, g.base, g.size, Delete);
      UnmapAllNeed(h, root, front);
      NeedOpened(FirstOf(g), LastOf(g));
    }
  }

  /** A region within one gigabyte needs at most three tables for its ends. */
  predicate WithinBlock(g: Region) {
    FirstOf(g) < LastOf(g) ==> Quot(FirstOf(g), Span(2)) == Quot(LastOf(g) - 1, Span(2))
  }

  lemma {:induction false} EndsBound(gs: seq<Region>)
    requires forall g :: g in gs ==> WithinBlock(g)
    ensures EndsNeed(gs) <= 3 * |gs|
  {
    if gs != [] {
      EndsBound(gs[..|gs| - 1]);
      assert WithinBlock(gs[|gs| - 1]);
    }
  }

  /** Pages that init_hv_mapping takes for tables at most, the root among them. */
  function HostNeed(mmio: seq<Region>, ram: Region, reserved: seq<Region>, image: Region): nat {
    1 + AddsNeed(mmio + [ram]) + EndsNeed(reserved + [image])
  }

  lemma HostOpsNeed(h: Hooks, base: nat, root: nat, mmio: seq<Region>, ram: Region, reserved: seq<Region>,
                    image: Region)
    requires h == HooksOf(Stage1, base)
    ensures 1 + TotalNeed(h, HostOps(root, mmio, ram, reserved, image)) == HostNeed(mmio, ram, reserved, image)
  {
    var device, normal, e := ATTR_DEVICE | BLOCK_DESC, ATTR_NORMAL | BLOCK_DESC, Modify(0, PXN | UXN);
    MapAllNeed(h, base, root, mmio, device);
    MapAllNeed(h, base, root, [ram], normal);
    UnmapAllNeed(h, root, reserved);
    SumNeed(h, MapAll(root, mmio, device), MapAll(root, [ram], normal), UnmapAll(root, reserved),
            Change(root, image.base, image.size, e));
    NeedOpened(FirstOf(image), LastOf(image));
    LastNeed(mmio, ram, reserved, image);
  }

  lemma SumNeed(h: Hooks, a: seq<Op>, b: seq<Op>, c: seq<Op>, op: Op)
    ensures TotalNeed(h, a + b + c + [op]) == TotalNeed(h, a) + TotalNeed(h, b) + TotalNeed(h, c) + op.Need(h)
  {
    NeedAppend(h, a + b + c, [op]);
    NeedAppend(h, a + b, c);
    NeedAppend(h, a, b);
    assert [op][..0] == [];
  }

  lemma LastNeed(mmio: seq<Region>, ram: Region, reserved: seq<Region>, image: Region)
    ensures AddsNeed(mmio + [ram]) == AddsNeed(mmio) + AddsNeed([ram])
    ensures EndsNeed(reserved + [image]) == EndsNeed(reserved) + EndNeed(image)
  {
    assert (mmio + [ram])[..|mmio|] == mmio && (reserved + [image])[..|reserved|] == reserved;
    assert [ram][..0] == [];
  }

  // ---------------------------------------------------------------------
  // init_hv_mapping
  // ---------------------------------------------------------------------

  /** The operations of init_hv_mapping on an empty root: unless the pool is exhausted, the tables translate every
      page as intended. */
  method BuildHostMap(pt: PageTables, ghost base: nat, root: nat, mmio: seq<Region>, ram: Region,
                      reserved: seq<Region>, image: Region)
    returns (ok: bool)
    requires pt.Valid() && NoEmptyTables(pt.mem, pt.nodes, {}) && pt.hooks == HooksOf(Stage1, base)
    requires root in Roots(pt.nodes) && RegionsOk(mmio, ram, reserved, image)
    requires forall v: nat :: v < SPACE ==> Translation(pt.hooks, pt.words, root, v) == None
    modifies pt
    ensures pt.Valid() && Roots(pt.nodes) == old(Roots(pt.nodes))
    ensures !ok ==> |pt.nodes| == |pt.mem| && |pt.mem| + 1 < old(|pt.nodes|) + HostNeed(mmio, ram, reserved, image)
    ensures ok ==> NoEmptyTables(pt.mem, pt.nodes, {})
    ensures ok ==> forall v: nat :: v < SPACE ==>
                     Translation(pt.hooks, pt.words, root, v) == HostPage(mmio, ram, reserved, image, v)
  {
    ghost var w0 := pt.words;
    var ops := HostOps(root, mmio, ram, reserved, image);
    HostRunnable(pt.hooks, base, pt.mem, pt.nodes, root, mmio, ram, reserved, image, ops);
    HostOpsNeed(pt.hooks, base, root, mmio, ram, reserved, image);
    var done, _ := Run(pt, ops);
    ok := done == |ops|;
    assert ops[..|ops|] == ops;
    forall v: nat | ok && v < SPACE
      ensures Translation(pt.hooks, pt.words, root, v) == HostPage(mmio, ram, reserved, image, v)
    {
      HostMapIsIdentity(base, root, mmio, ram, reserved, image, v);
      assert Translation(pt.hooks, w0, root, v) == None;
    }
  }

  lemma EmptyRoot(h: Hooks, w: Words, m: Memory, nd: Nodes, root: nat)
    requires Inv(m, nd) && Holds(h, w, m, nd) && root in Roots(nd) && forall v: nat :: View(m, root, v) == None
    ensures forall v: nat :: v < SPACE ==> Translation(h, w, root, v) == None
  {
    forall v: nat | v < SPACE ensures Translation(h, w, root, v) == None {
      TranslationIsView(h, w, m, nd, root, v);
    }
  }

  /** init_paging's pool of PPT_PAGE_NUM pages, and init_hv_mapping from the allocation of the root on. */
  method InitHvMapping(base: nat, mmio: seq<Region>, ram: Region, reserved: seq<Region>, image: Region)
    returns (pt: PageTables, root: nat, ok: bool)
    requires base + WORD_BITS <= FRAMES && RegionsOk(mmio, ram, reserved, image)
    ensures fresh(pt) && pt.Valid() && Roots(pt.nodes) == {root}
    ensures HostNeed(mmio, ram, reserved, image) <= WORD_BITS ==> ok
    ensures ok ==> forall v: nat :: v < SPACE ==>
                     Translation(pt.hooks, pt.words, root, v) == HostPage(mmio, ram, reserved, image, v)
  {
    HooksLawful(Stage1, base);
    pt := new PageTables(HooksOf(Stage1, base), 1);
    var page := pt.CreateRoot();
    root := page.value;
    EmptyRoot(pt.hooks, pt.words, pt.mem, pt.nodes, root);
    ok := BuildHostMap(pt, base, root, mmio, ram, reserved, image);
  }

  // ---------------------------------------------------------------------
  // The platforms
  // ---------------------------------------------------------------------

  const MAX_FDT_RSVD_REGIONS: nat := 16

  const QEMU_MMIO: seq<Region> := [Region(0, 0x10000000), Region(0x10000000, 0x30000000)]
  const QEMU_RAM: Region := Region(0x40000000, 0x40000000)

  const RK356X_MMIO: seq<Region> := [Region(0xF0000000, 0x10000000)]
  const RK356X_RAM: Region := Region(0x00200000, 0x80000000)

  /** A region of the first 512 gigabytes, within one of them. */
  ghost predicate LocalRegion(g: Region) {
    LastOf(g) <= Span(3) && WithinBlock(g)
  }

  /** Below 512 gigabytes one level-3 entry serves everything, if there is any RAM. */
  lemma LowRegions(mmio: seq<Region>, ram: Region, reserved: seq<Region>, image: Region)
    requires FirstOf(ram) < LastOf(ram) <= Span(3) && LastOf(image) <= Span(3)
    requires (forall g :: g in mmio ==> LastOf(g) <= Span(3)) && forall g :: g in reserved ==> LastOf(g) <= Span(3)
    ensures RegionsOk(mmio, ram, reserved, image)
  {
    forall v: nat | InAny(reserved, v) || InPages(image, v) ensures UnderMap(mmio, ram, v) {
      var w := FirstOf(ram);
      assert v < Span(3) && w < Span(3);
      assert Maps(mmio, ram, w) && Index(3, w) == Index(3, v);
    }
  }

  lemma PlatformNeed(mmio: seq<Region>, ram: Region, reserved: seq<Region>, image: Region)
    requires AddsNeed(mmio + [ram]) <= 5 && |reserved| <= MAX_FDT_RSVD_REGIONS
    requires WithinBlock(image) && forall g :: g in reserved ==> WithinBlock(g)
    ensures HostNeed(mmio, ram, reserved, image) <= WORD_BITS
  {
    EndsBound(reserved + [image]);
  }

  /** With the largest number of reserved regions, each within a gigabyte, QEMU's map fits the pool. */
  lemma QemuFits(reserved: seq<Region>, image: Region)
    requires |reserved| <= MAX_FDT_RSVD_REGIONS && LocalRegion(image) && forall g :: g in reserved ==> LocalRegion(g)
    ensures RegionsOk(QEMU_MMIO, QEMU_RAM, reserved, image)
    ensures HostNeed(QEMU_MMIO, QEMU_RAM, reserved, image) <= WORD_BITS
  {
    LowRegions(QEMU_MMIO, QEMU_RAM, reserved, image);
    QemuNeed();
    PlatformNeed(QEMU_MMIO, QEMU_RAM, reserved, image);
  }

  /** And so does the map of the RK356x. */
  lemma Rk356xFits(reserved: seq<Region>, image: Region)
    requires |reserved| <= MAX_FDT_RSVD_REGIONS && LocalRegion(image) && forall g :: g in reserved ==> LocalRegion(g)
    ensures RegionsOk(RK356X_MMIO, RK356X_RAM, reserved, image)
    ensures HostNeed(RK356X_MMIO, RK356X_RAM, reserved, image) <= WORD_BITS
  {
    LowRegions(RK356X_MMIO, RK356X_RAM, reserved, image);
    Rk356xNeed();
    PlatformNeed(RK356X_MMIO, RK356X_RAM, reserved, image);
  }

  /** The need of one region, from quotients and remainders. */
  lemma RegionNeed(g: Region, a: nat, b: nat)
    requires a == FirstOf(g) && b == LastOf(g) && a < b
    ensures Blocks(Span(3), a, b) == (b - 1) / 134217728 - a / 134217728 + 1
    ensures Ragged(Span(1), a, b) == 0 <== a % 512 == 0 && b % 512 == 0
    ensures Ragged(Span(2), a, b) <= 2
    ensures a / 262144 == (b - 1) / 262144 ==> Ragged(Span(2), a, b) <= 1
    ensures a % 262144 == 0 && b % 262144 == 0 ==> Ragged(Span(2), a, b) == 0
  {
    QuotIsDiv(a, 134217728);
    QuotIsDiv(b - 1, 134217728);
    QuotIsDiv(a, 262144);
    QuotIsDiv(b - 1, 262144);
    QuotIsDiv(b, 262144);
    QuotIsDiv(a, 512);
    QuotIsDiv(b, 512);
  }

  lemma QemuNeed()
    ensures AddsNeed(QEMU_MMIO + [QEMU_RAM]) <= 5
  {
    RegionNeed(QEMU_MMIO[0], 0, 0x10000);
    RegionNeed(QEMU_MMIO[1], 0x10000, 0x40000);
    RegionNeed(QEMU_RAM, 0x40000, 0x80000);
    var gs := QEMU_MMIO + [QEMU_RAM];
    assert gs[..2] == QEMU_MMIO && gs[..2][..1] == [QEMU_MMIO[0]] && [QEMU_MMIO[0]][..0] == [];
    assert AddsNeed([QEMU_MMIO[0]]) <= 2;
    assert AddsNeed(QEMU_MMIO) <= 4;
  }

  lemma Rk356xNeed()
    ensures AddsNeed(RK356X_MMIO + [RK356X_RAM]) <= 5
  {
    RegionNeed(RK356X_MMIO[0], 0xF0000, 0x100000);
    RegionNeed(RK356X_RAM, 0x200, 0x80200);
    var gs := RK356X_MMIO + [RK356X_RAM];
    assert gs[..1] == RK356X_MMIO && RK356X_MMIO[..0] == [];
    assert AddsNeed(RK356X_MMIO) <= 2;
  }

  /** Making the image executable changes exactly its device pages: RAM was executable before. */
  lemma ImageChangeIsVacuousForRam(mmio: seq<Region>, ram: Region, reserved: seq<Region>, image: Region, v: nat)
    ensures HostPage(mmio, ram, reserved, image, v) == HostPage(mmio, ram, reserved, Region(0, 0), v)
            <==> !(InPages(image, v) && InAny(mmio, v) && !InAny(reserved, v))
  {
    RetaggedAttributes();
  }

  lemma RetaggedAttributes()
    ensures Retag(ATTR_NORMAL, 0, PXN | UXN) == ATTR_NORMAL && Retag(ATTR_DEVICE, 0, PXN | UXN) != ATTR_DEVICE
  {
  }
}
