/**
 The physical memory map of arch/x86/e820.c as a list of typed intervals, and
 what it says about each byte of memory.  Addresses and lengths do not wrap.
 */
module E820Model {

  const MAX_ENTRIES: nat := 64
  const PAGE_SIZE: nat := 4096
  const INVALID_HPA: nat := 0x10_0000_0000_0000

  datatype Kind = Ram | Reserved | AcpiReclaim | AcpiNvs | Unusable

  /** struct e820_entry. */
  datatype Entry = Entry(base: nat, length: nat, kind: Kind)
  {
    function End(): nat { base + length }
  }

  predicate Covers(e: Entry, b: nat) {
    e.base <= b < e.End()
  }

  /** Some entry says that byte b is of kind k. */
  ghost predicate Has(es: seq<Entry>, b: nat, k: Kind) {
    exists e :: e in es && Covers(e, b) && e.kind == k
  }

  predicate Apart(x: Entry, y: Entry) {
    x.length == 0 || y.length == 0 || x.End() <= y.base || y.End() <= x.base
  }

  /** No byte is described twice. */
  ghost predicate Disjoint(es: seq<Entry>) {
    forall i, j :: 0 <= i < j < |es| ==> Apart(es[i], es[j])
  }

  lemma OneEntry(es: seq<Entry>, i: nat, j: nat, b: nat)
    requires Disjoint(es) && i < |es| && j < |es| && Covers(es[i], b) && Covers(es[j], b)
    ensures i == j
  {
  }

  function RoundUp(a: nat): nat {
    (a + PAGE_SIZE - 1) / PAGE_SIZE * PAGE_SIZE
  }

  function RoundDown(a: nat): nat {
    a / PAGE_SIZE * PAGE_SIZE
  }

  lemma RoundingBounds(a: nat)
    ensures a <= RoundUp(a) < a + PAGE_SIZE && RoundUp(a) % PAGE_SIZE == 0
    ensures a - PAGE_SIZE < RoundDown(a) <= a && RoundDown(a) % PAGE_SIZE == 0
  {
  }

  // ---------------------------------------------------------------------
  // Building the map from the firmware's
  // ---------------------------------------------------------------------

  datatype EfiType = Loader | Conventional | EfiUnusable | EfiAcpiReclaim | EfiAcpiNvs | OtherType

  /** struct efi_memory_desc; `writeBack` is EFI_MEMORY_WB. */
  datatype Desc = Desc(phys: nat, pages: nat, efi: EfiType, writeBack: bool)

  function KindOf(d: Desc): Kind {
    match d.efi
    case Loader => if d.writeBack then Ram else Reserved
    case Conventional => if d.writeBack then Ram else Reserved
    case EfiUnusable => Unusable
    case EfiAcpiReclaim => AcpiReclaim
    case EfiAcpiNvs => AcpiNvs
    case OtherType => Reserved
  }

  function EntryOf(d: Desc): Entry {
    Entry(d.phys, d.pages * PAGE_SIZE, KindOf(d))
  }

  /** What the firmware's descriptors say about byte b. */
  ghost predicate DescHas(ds: seq<Desc>, b: nat, k: Kind) {
    exists d :: d in ds && Covers(EntryOf(d), b) && KindOf(d) == k
  }

  /** Append an entry, or extend the last one when it continues it. */
  function Merge(es: seq<Entry>, e: Entry): seq<Entry> {
    if es != [] && es[|es| - 1].kind == e.kind && e.base == es[|es| - 1].End()
    then es[..|es| - 1] + [es[|es| - 1].(length := es[|es| - 1].length + e.length)]
    else es + [e]
  }

  function MergeAll(ds: seq<Desc>): seq<Entry> {
    if ds == [] then [] else Merge(MergeAll(ds[..|ds| - 1]), EntryOf(ds[|ds| - 1]))
  }

  lemma MergeMeaning(es: seq<Entry>, e: Entry, b: nat, k: Kind)
    ensures Has(Merge(es, e), b, k) <==> Has(es, b, k) || (Covers(e, b) && e.kind == k)
  {
    var fs := Merge(es, e);
    if fs == es + [e] {
      assert forall x :: x in fs <==> x in es || x == e;
    } else {
      var front, last := es[..|es| - 1], es[|es| - 1];
      var long := last.(length := last.length + e.length);
      assert forall x :: x in fs <==> x in front || x == long;
      assert forall x :: x in es <==> x in front || x == last;
      assert Covers(long, b) <==> Covers(last, b) || Covers(e, b);
    }
  }

  /** Merging neighbours keeps the meaning of every byte. */
  lemma {:induction false} MergeAllMeaning(ds: seq<Desc>, b: nat, k: Kind)
    ensures Has(MergeAll(ds), b, k) <==> DescHas(ds, b, k)
  {
    if ds != [] {
      var front, last := ds[..|ds| - 1], ds[|ds| - 1];
      assert forall d :: d in ds <==> d in front || d == last;
      MergeAllMeaning(front, b, k);
      MergeMeaning(MergeAll(front), EntryOf(last), b, k);
    }
  }

  /** x ends before y begins, if neither is empty. */
  predicate Before(x: Entry, y: Entry) {
    x.length == 0 || y.length == 0 || x.End() <= y.base
  }

  /** Descriptors in address order that do not overlap. */
  ghost predicate Layout(ds: seq<Desc>) {
    forall i, j :: 0 <= i < j < |ds| ==> Before(EntryOf(ds[i]), EntryOf(ds[j]))
  }

  ghost predicate AllBefore(es: seq<Entry>, e: Entry) {
    forall i :: 0 <= i < |es| ==> Before(es[i], e)
  }

  /** Entries in address order that do not overlap. */
  ghost predicate InOrder(es: seq<Entry>) {
    forall i, j :: 0 <= i < j < |es| ==> Before(es[i], es[j])
  }

  lemma MergeInOrder(es: seq<Entry>, e: Entry)
    requires InOrder(es) && AllBefore(es, e)
    ensures InOrder(Merge(es, e)) && forall f :: AllBefore(es, f) && Before(e, f) ==> AllBefore(Merge(es, e), f)
  {
    var fs := Merge(es, e);
    forall i, j | 0 <= i < j < |fs| ensures Before(fs[i], fs[j]) {
      assert fs[i] == es[i];
      assert j < |es| - 1 ==> fs[j] == es[j];
    }
    forall f, i | AllBefore(es, f) && Before(e, f) && 0 <= i < |fs| ensures Before(fs[i], f) {
      assert i < |es| - 1 ==> fs[i] == es[i];
    }
  }

  /** The merged map is in address order, without overlap. */
  lemma {:induction false} MergeAllInOrder(ds: seq<Desc>)
    requires Layout(ds)
    ensures InOrder(MergeAll(ds))
    ensures forall e :: (forall i :: 0 <= i < |ds| ==> Before(EntryOf(ds[i]), e)) ==> AllBefore(MergeAll(ds), e)
  {
    if ds != [] {
      var front, last := ds[..|ds| - 1], EntryOf(ds[|ds| - 1]);
      MergeAllInOrder(front);
      MergeInOrder(MergeAll(front), last);
      forall e | forall i :: 0 <= i < |ds| ==> Before(EntryOf(ds[i]), e) ensures AllBefore(MergeAll(ds), e) {
        assert forall i :: 0 <= i < |front| ==> Before(EntryOf(front[i]), e);
      }
    }
  }

  /** No entry continues the one before it. */
  ghost predicate Coalesced(es: seq<Entry>) {
    forall i :: 0 < i < |es| ==> es[i].kind != es[i - 1].kind || es[i].base != es[i - 1].End()
  }

  /** No two neighbours of the merged map can be merged any further. */
  lemma {:induction false} MergeAllCoalesced(ds: seq<Desc>)
    ensures Coalesced(MergeAll(ds))
  {
    if ds != [] {
      MergeAllCoalesced(ds[..|ds| - 1]);
    }
  }

  lemma InOrderDisjoint(es: seq<Entry>)
    requires InOrder(es)
    ensures Disjoint(es)
  {
  }

  // ---------------------------------------------------------------------
  // Reserving a region
  // ---------------------------------------------------------------------

  /** The RAM entry lies around the region, or does not touch it. */
  predicate Reservable(e: Entry, start: nat, end: nat) {
    e.kind != Ram || e.End() <= start || e.base >= end || (e.base <= start && e.End() >= end)
  }

  /** What reserve_e820_region makes of one entry. */
  function Reserve(e: Entry, start: nat, end: nat): seq<Entry>
    requires Reservable(e, start, end)
  {
    if e.kind != Ram || e.End() <= start || e.base >= end then [e]
    else if end < e.End() then [Entry(e.base, start - e.base, Ram), Entry(end, e.End() - end, Ram)]
    else [Entry(e.base, start - e.base, Ram)]
  }

  function ReserveAll(es: seq<Entry>, start: nat, end: nat): (fs: seq<Entry>)
    requires forall e :: e in es ==> Reservable(e, start, end)
    ensures |fs| >= |es|
  {
    if es == [] then []
    else
      var front, last := es[..|es| - 1], es[|es| - 1];
      assert last in es && forall e :: e in front ==> e in es;
      ReserveAll(front, start, end) + Reserve(last, start, end)
  }

  lemma ReserveMeaning(e: Entry, start: nat, end: nat, b: nat, k: Kind)
    requires Reservable(e, start, end) && start <= end
    ensures Has(Reserve(e, start, end), b, k) <==>
            Covers(e, b) && e.kind == k && !(k == Ram && start <= b < end)
  {
    var fs := Reserve(e, start, end);
    if e.kind != Ram || e.End() <= start || e.base >= end {
      assert fs == [e] && e in fs;
    } else {
      assert fs[0] in fs && (|fs| > 1 ==> fs[1] in fs);
      assert forall x :: x in fs ==> x == fs[0] || (|fs| > 1 && x == fs[1]);
    }
  }

  /** Exactly the region stops being RAM; nothing else changes. */
  lemma {:induction false} ReserveAllMeaning(es: seq<Entry>, start: nat, end: nat, b: nat, k: Kind)
    requires (forall e :: e in es ==> Reservable(e, start, end)) && start <= end
    ensures Has(ReserveAll(es, start, end), b, k) <==> Has(es, b, k) && !(k == Ram && start <= b < end)
  {
    if es != [] {
      var front, last := es[..|es| - 1], es[|es| - 1];
      assert last in es && forall e :: e in es <==> e in front || e == last;
      var before, after := ReserveAll(front, start, end), Reserve(last, start, end);
      assert forall e :: e in before + after <==> e in before || e in after;
      ReserveMeaning(last, start, end, b, k);
      ReserveAllMeaning(front, start, end, b, k);
    }
  }

  lemma {:induction false} ReserveApart(es: seq<Entry>, start: nat, end: nat, x: Entry)
    requires (forall e :: e in es ==> Reservable(e, start, end) && Apart(e, x)) && start <= end
    ensures forall f :: f in ReserveAll(es, start, end) ==> Apart(f, x)
  {
    if es != [] {
      var front, last := es[..|es| - 1], es[|es| - 1];
      assert last in es && forall e :: e in front ==> e in es;
      ReserveApart(front, start, end, x);
      assert forall f :: f in Reserve(last, start, end) ==> Apart(f, x);
    }
  }

  lemma {:induction false} ReserveAllDisjoint(es: seq<Entry>, start: nat, end: nat)
    requires (forall e :: e in es ==> Reservable(e, start, end)) && start <= end && Disjoint(es)
    ensures Disjoint(ReserveAll(es, start, end))
  {
    if es != [] {
      var front, last := es[..|es| - 1], es[|es| - 1];
      assert last in es && forall e :: e in front ==> e in es;
      ReserveAllDisjoint(front, start, end);
      var before, after := ReserveAll(front, start, end), Reserve(last, start, end);
      forall i, j | 0 <= i < |before| && 0 <= j < |after| ensures Apart(before[i], after[j]) {
        forall e | e in front ensures Apart(e, after[j]) {
          var n :| 0 <= n < |front| && front[n] == e;
          assert Apart(es[n], es[|es| - 1]);
        }
        ReserveApart(front, start, end, after[j]);
        assert before[i] in before;
      }
    }
  }

  // ---------------------------------------------------------------------
  // Allocating
  // ---------------------------------------------------------------------

  /** The whole pages of an entry. */
  function Start(e: Entry): nat { RoundUp(e.base) }

  function Stop(e: Entry): nat { RoundDown(e.End()) }

  function Room(e: Entry): nat {
    if Stop(e) > Start(e) then Stop(e) - Start(e) else 0
  }

  /** e820_alloc_memory can use the entry in a table of n entries. */
  predicate Usable(e: Entry, n: nat, size: nat, max: nat) {
    && e.kind == Ram && Room(e) >= size && Start(e) + size <= max
    && (Room(e) == size || (n < MAX_ENTRIES && Stop(e) <= max))
  }

  /** Where the allocation lies in a usable entry. */
  function Place(e: Entry, size: nat): (p: nat)
    requires Room(e) >= size && size % PAGE_SIZE == 0
    ensures p % PAGE_SIZE == 0 && (size > 0 ==> e.base <= p && p + size <= e.End())
  {
    RoundingBounds(e.base);
    RoundingBounds(e.End());
    if Room(e) == size then Start(e) else Stop(e) - size
  }

  /** The first byte that stops being RAM; the last one is the last byte of the entry. */
  function GoneFrom(e: Entry, size: nat): (p: nat)
    requires Room(e) >= size && size % PAGE_SIZE == 0
    ensures e.base <= p <= e.End() && (size > 0 ==> p <= Place(e, size))
  {
    RoundingBounds(e.base);
    RoundingBounds(e.End());
    if Room(e) == size then e.base else Stop(e) - size
  }

  /** Give the part of entry i from GoneFrom on another type; a smaller part becomes an entry of its own. */
  function Take(es: seq<Entry>, i: nat, size: nat): seq<Entry>
    requires i < |es| && Room(es[i]) >= size && size % PAGE_SIZE == 0
  {
    var e, p := es[i], GoneFrom(es[i], size);
    if Room(e) == size then es[i := e.(kind := Reserved)]
    else es[i := e.(length := p - e.base)] + [Entry(p, e.End() - p, Reserved)]
  }

  datatype Allocation = Allocation(table: seq<Entry>, at: nat)

  /** The search of e820_alloc_memory over the entries below index n, from the top. */
  function Search(es: seq<Entry>, n: nat, size: nat, max: nat): Allocation
    requires n <= |es| && size % PAGE_SIZE == 0
    decreases n
  {
    if n == 0 then Allocation(es, INVALID_HPA)
    else if Usable(es[n - 1], |es|, size, max) then
      var fs := Take(es, n - 1, size);
      var at := Place(es[n - 1], size);
      if at != INVALID_HPA then Allocation(fs, at) else Search(fs, n - 1, size, max)
    else Search(es, n - 1, size, max)
  }

  /** Bytes from `from` to the end of entry e turned from RAM to reserved; nothing else changed. */
  ghost predicate Reserves(es: seq<Entry>, fs: seq<Entry>, from: nat, to: nat) {
    && (forall b: nat :: Has(fs, b, Ram) <==> Has(es, b, Ram) && !(from <= b < to))
    && (forall b: nat :: Has(fs, b, Reserved) <==> Has(es, b, Reserved) || from <= b < to)
    && (forall b: nat, k: Kind :: k != Ram && k != Reserved ==> (Has(fs, b, k) <==> Has(es, b, k)))
  }

  lemma Replaced(es: seq<Entry>, i: nat, f: Entry, b: nat, k: Kind)
    requires i < |es|
    ensures Has(es[i := f], b, k) <==>
            (Covers(f, b) && f.kind == k) || exists j :: 0 <= j < |es| && j != i && Covers(es[j], b) && es[j].kind == k
  {
    var fs := es[i := f];
    assert fs[i] in fs;
    if Has(fs, b, k) {
      var e :| e in fs && Covers(e, b) && e.kind == k;
      var j :| 0 <= j < |fs| && fs[j] == e;
      assert j != i ==> es[j] == e;
    }
    forall j | 0 <= j < |es| && j != i && Covers(es[j], b) && es[j].kind == k ensures Has(fs, b, k) {
      assert fs[j] == es[j] && fs[j] in fs;
    }
  }

  lemma Appended(es: seq<Entry>, f: Entry, b: nat, k: Kind)
    ensures Has(es + [f], b, k) <==> Has(es, b, k) || (Covers(f, b) && f.kind == k)
  {
    assert forall x :: x in es + [f] <==> x in es || x == f;
  }

  lemma TakeByte(es: seq<Entry>, i: nat, size: nat, b: nat, k: Kind)
    requires i < |es| && Room(es[i]) >= size && size % PAGE_SIZE == 0 && es[i].kind == Ram && Disjoint(es)
    ensures var p := GoneFrom(es[i], size);
            var gone := p <= b < es[i].End();
            Has(Take(es, i, size), b, k) <==> (Has(es, b, k) && !(k == Ram && gone)) || (k == Reserved && gone)
  {
    var e, p := es[i], GoneFrom(es[i], size);
    Replaced(es, i, e, b, k);
    assert es[i := e] == es;
    if Room(e) == size {
      Replaced(es, i, e.(kind := Reserved), b, k);
    } else {
      var f := e.(length := p - e.base);
      Replaced(es, i, f, b, k);
      Appended(es[i := f], Entry(p, e.End() - p, Reserved), b, k);
    }
    forall j | 0 <= j < |es| && j != i && Covers(es[j], b) ensures !Covers(e, b) {
      if Covers(e, b) {
        OneEntry(es, i, j, b);
      }
    }
  }

  lemma TakeMeaning(es: seq<Entry>, i: nat, size: nat)
    requires i < |es| && Room(es[i]) >= size && size % PAGE_SIZE == 0 && es[i].kind == Ram && Disjoint(es)
    ensures Reserves(es, Take(es, i, size), GoneFrom(es[i], size), es[i].End())
  {
    var p := GoneFrom(es[i], size);
    forall b: nat, k: Kind
      ensures Has(Take(es, i, size), b, k) <==>
              (Has(es, b, k) && !(k == Ram && p <= b < es[i].End())) || (k == Reserved && p <= b < es[i].End())
    {
      TakeByte(es, i, size, b, k);
    }
  }

  lemma TakeDisjoint(es: seq<Entry>, i: nat, size: nat)
    requires i < |es| && Room(es[i]) >= size && size % PAGE_SIZE == 0 && Disjoint(es)
    ensures Disjoint(Take(es, i, size)) && |Take(es, i, size)| <= |es| + 1
    ensures forall j :: 0 <= j < |es| && j != i ==> Take(es, i, size)[j] == es[j]
  {
    var fs := Take(es, i, size);
    forall x, y | 0 <= x < y < |fs| ensures Apart(fs[x], fs[y]) {
      if y < |es| {
        assert Apart(es[x], es[y]);
      } else if x < i {
        assert Apart(es[x], es[i]);
      } else if x > i {
        assert Apart(es[i], es[x]);
      }
    }
  }

  // ---------------------------------------------------------------------
  // What an allocation guarantees
  // ---------------------------------------------------------------------

  /** RAM only shrinks, what leaves it becomes reserved, and no other byte changes. */
  ghost predicate Shrinks(es: seq<Entry>, fs: seq<Entry>) {
    && (forall b: nat :: Has(fs, b, Ram) ==> Has(es, b, Ram))
    && (forall b: nat :: Has(es, b, Ram) ==> Has(fs, b, Ram) || Has(fs, b, Reserved))
    && (forall b: nat :: Has(es, b, Reserved) ==> Has(fs, b, Reserved))
    && (forall b: nat :: Has(fs, b, Reserved) ==> Has(es, b, Reserved) || Has(es, b, Ram))
    && (forall b: nat, k: Kind :: k != Ram && k != Reserved ==> (Has(fs, b, k) <==> Has(es, b, k)))
  }

  /** [at, at + size) was RAM and is now reserved and nothing else. */
  ghost predicate Claimed(es: seq<Entry>, fs: seq<Entry>, at: nat, size: nat) {
    forall b: nat :: at <= b < at + size ==> Has(es, b, Ram) && Has(fs, b, Reserved) && !Has(fs, b, Ram)
  }

  lemma ReservesShrinks(es: seq<Entry>, fs: seq<Entry>, from: nat, to: nat)
    requires Reserves(es, fs, from, to) && forall b: nat :: from <= b < to ==> Has(es, b, Ram)
    ensures Shrinks(es, fs)
  {
  }

  lemma TakeClaims(es: seq<Entry>, i: nat, size: nat)
    requires i < |es| && Room(es[i]) >= size && size % PAGE_SIZE == 0 && es[i].kind == Ram && Disjoint(es)
    ensures Shrinks(es, Take(es, i, size)) && Claimed(es, Take(es, i, size), Place(es[i], size), size)
  {
    var p := GoneFrom(es[i], size);
    TakeMeaning(es, i, size);
    assert es[i] in es;
    forall b: nat | p <= b < es[i].End() ensures Has(es, b, Ram) {
      assert Covers(es[i], b);
    }
    ReservesShrinks(es, Take(es, i, size), p, es[i].End());
  }

  lemma ShrinksTwice(es: seq<Entry>, fs: seq<Entry>, gs: seq<Entry>)
    requires Shrinks(es, fs) && Shrinks(fs, gs)
    ensures Shrinks(es, gs)
  {
  }

  ghost predicate Allocated(es: seq<Entry>, a: Allocation, size: nat, max: nat) {
    && Disjoint(a.table) && Shrinks(es, a.table) && |a.table| <= MAX_ENTRIES
    && (a.at != INVALID_HPA ==>
          && a.at % PAGE_SIZE == 0 && (size > 0 ==> a.at + size <= max) && Claimed(es, a.table, a.at, size))
  }

  lemma PlaceBelow(e: Entry, n: nat, size: nat, max: nat)
    requires Usable(e, n, size, max) && size % PAGE_SIZE == 0
    ensures size > 0 ==> Place(e, size) + size <= max
  {
  }

  lemma ShrinksSame(es: seq<Entry>)
    ensures Shrinks(es, es)
  {
  }

  /** Whatever the search finds is page-aligned, below the limit, RAM before and reserved after. */
  lemma {:induction false} SearchAllocates(es: seq<Entry>, n: nat, size: nat, max: nat)
    requires Disjoint(es) && n <= |es| <= MAX_ENTRIES && size % PAGE_SIZE == 0
    ensures Allocated(es, Search(es, n, size, max), size, max)
    decreases n
  {
    if n == 0 {
      ShrinksSame(es);
    } else if Usable(es[n - 1], |es|, size, max) {
      var fs := Take(es, n - 1, size);
      TakeDisjoint(es, n - 1, size);
      TakeClaims(es, n - 1, size);
      PlaceBelow(es[n - 1], |es|, size, max);
      if Place(es[n - 1], size) == INVALID_HPA {
        SearchAllocates(fs, n - 1, size, max);
        ShrinksTwice(es, fs, Search(fs, n - 1, size, max).table);
      }
    } else {
      SearchAllocates(es, n - 1, size, max);
    }
  }

  /** The entry is usable, but would be given out at the address that the source takes for a failure. */
  ghost predicate Misplaced(e: Entry, n: nat, size: nat, max: nat) {
    size % PAGE_SIZE == 0 && Usable(e, n, size, max) && Place(e, size) == INVALID_HPA
  }

  /** The search fails if no entry below index n is usable, or only misplaced ones are; it fails only if none is, or
      some is misplaced. */
  lemma {:induction false} SearchFails(es: seq<Entry>, n: nat, size: nat, max: nat)
    requires n <= |es| && size % PAGE_SIZE == 0
    ensures (forall i :: 0 <= i < n && Usable(es[i], |es|, size, max) ==> Misplaced(es[i], |es|, size, max)) ==>
              Search(es, n, size, max).at == INVALID_HPA
    ensures Search(es, n, size, max).at == INVALID_HPA ==>
              || (forall i :: 0 <= i < n ==> !Usable(es[i], |es|, size, max))
              || (exists i :: 0 <= i < n && Misplaced(es[i], |es|, size, max))
    decreases n
  {
    if n > 0 {
      if !Usable(es[n - 1], |es|, size, max) {
        SearchFails(es, n - 1, size, max);
      } else if Misplaced(es[n - 1], |es|, size, max) {
        var fs := Take(es, n - 1, size);
        SearchFails(fs, n - 1, size, max);
        forall i | 0 <= i < n - 1 && Usable(fs[i], |fs|, size, max) && Misplaced(es[i], |es|, size, max)
          ensures Misplaced(fs[i], |fs|, size, max)
        {
        }
      }
    }
  }

  /** Over any sequence of allocations no two overlap. */
  lemma {:induction false} NoTwoOverlap(tables: seq<seq<Entry>>, ats: seq<nat>, sizes: seq<nat>, i: nat, j: nat, b: nat)
    requires |tables| == |ats| + 1 && |sizes| == |ats| && i < j < |ats|
    requires forall k :: 0 <= k < |ats| ==>
               Shrinks(tables[k], tables[k + 1]) && Claimed(tables[k], tables[k + 1], ats[k], sizes[k])
    requires ats[i] <= b < ats[i] + sizes[i]
    ensures !(ats[j] <= b < ats[j] + sizes[j])
  {
    assert Claimed(tables[i], tables[i + 1], ats[i], sizes[i]);
    StaysTaken(tables, i + 1, j, b);
    assert Claimed(tables[j], tables[j + 1], ats[j], sizes[j]);
  }

  lemma {:induction false} StaysTaken(tables: seq<seq<Entry>>, i: nat, j: nat, b: nat)
    requires i <= j < |tables| && !Has(tables[i], b, Ram)
    requires forall k :: 0 <= k < |tables| - 1 ==> Shrinks(tables[k], tables[k + 1])
    ensures !Has(tables[j], b, Ram)
    decreases j - i
  {
    if i < j {
      assert Shrinks(tables[i], tables[i + 1]);
      StaysTaken(tables, i + 1, j, b);
    }
  }

  // ---------------------------------------------------------------------
  // Trimming to whole pages
  // ---------------------------------------------------------------------

  /** The second pass of alloc_mods_memory: keep the whole pages of each entry. */
  function Trimmed(es: seq<Entry>): seq<Entry> {
    if es == [] then []
    else
      var e, front := es[|es| - 1], Trimmed(es[..|es| - 1]);
      if Start(e) < Stop(e) then front + [Entry(Start(e), Stop(e) - Start(e), e.kind)] else front
  }

  /** Byte b lies in a whole page of some entry of kind k. */
  ghost predicate HasWholePage(es: seq<Entry>, b: nat, k: Kind) {
    exists e :: e in es && Start(e) <= b < Stop(e) && e.kind == k
  }

  lemma {:induction false} TrimmedMeaning(es: seq<Entry>, b: nat, k: Kind)
    ensures Has(Trimmed(es), b, k) <==> HasWholePage(es, b, k)
    ensures |Trimmed(es)| <= |es|
  {
    if es != [] {
      var e, front := es[|es| - 1], es[..|es| - 1];
      assert forall x :: x in es <==> x in front || x == e;
      TrimmedMeaning(front, b, k);
      if Start(e) < Stop(e) {
        Appended(Trimmed(front), Entry(Start(e), Stop(e) - Start(e), e.kind), b, k);
      }
    }
  }

  lemma WholePagesInside(es: seq<Entry>, b: nat, k: Kind)
    requires HasWholePage(es, b, k)
    ensures Has(es, b, k)
  {
    var e :| e in es && Start(e) <= b < Stop(e) && e.kind == k;
    RoundingBounds(e.base);
    RoundingBounds(e.End());
    assert Covers(e, b);
  }

  lemma TrimApart(e: Entry, f: Entry, x: Entry)
    requires Apart(e, x) && e.base <= f.base && f.End() <= e.End()
    ensures Apart(f, x)
  {
  }

  lemma {:induction false} TrimmedApart(es: seq<Entry>, x: Entry)
    requires forall e :: e in es ==> Apart(e, x)
    ensures forall f :: f in Trimmed(es) ==> Apart(f, x)
  {
    if es != [] {
      var e, front := es[|es| - 1], es[..|es| - 1];
      assert e in es && forall y :: y in front ==> y in es;
      TrimmedApart(front, x);
      if Start(e) < Stop(e) {
        RoundingBounds(e.base);
        RoundingBounds(e.End());
        TrimApart(e, Entry(Start(e), Stop(e) - Start(e), e.kind), x);
      }
    }
  }

  lemma {:induction false} TrimmedDisjoint(es: seq<Entry>)
    requires Disjoint(es)
    ensures Disjoint(Trimmed(es))
  {
    if es != [] {
      var e, front := es[|es| - 1], es[..|es| - 1];
      TrimmedDisjoint(front);
      if Start(e) < Stop(e) {
        var f := Entry(Start(e), Stop(e) - Start(e), e.kind);
        RoundingBounds(e.base);
        RoundingBounds(e.End());
        forall x | x in front ensures Apart(x, f) {
          var n :| 0 <= n < |front| && front[n] == x;
          assert Apart(es[n], e);
          TrimApart(e, f, x);
        }
        TrimmedApart(front, f);
        assert forall i :: 0 <= i < |Trimmed(front)| ==> Trimmed(front)[i] in Trimmed(front);
      }
    }
  }

  lemma {:induction false} TrimmedAligned(es: seq<Entry>)
    ensures forall e :: e in Trimmed(es) ==> e.base % PAGE_SIZE == 0 && e.length % PAGE_SIZE == 0 && e.length > 0
  {
    if es != [] {
      var e, front := es[|es| - 1], es[..|es| - 1];
      TrimmedAligned(front);
      RoundingBounds(e.base);
      RoundingBounds(e.End());
    }
  }
}
