/**
 The e820 table of arch/x86/e820.c and the descriptor sort of core/efi_mmap.c,
 updated in place.
 */
module E820Table {
  import opened Options
  import opened E820Model

  // ---------------------------------------------------------------------
  // Sorting the firmware's descriptors
  // ---------------------------------------------------------------------

  ghost predicate Sorted(ds: seq<Desc>, lo: nat, hi: nat)
    requires lo <= hi <= |ds|
  {
    forall i, j :: lo <= i < j < hi ==> ds[i].phys <= ds[j].phys
  }

  /** No descriptor of the first part lies above one of the second. */
  ghost predicate Split(ds: seq<Desc>, m: nat, n: nat)
    requires m <= n <= |ds|
  {
    forall i, j :: 0 <= i < m <= j < n ==> ds[i].phys <= ds[j].phys
  }

  ghost predicate Largest(ds: seq<Desc>, j: nat)
    requires j < |ds|
  {
    forall i :: 0 <= i < j ==> ds[i].phys <= ds[j].phys
  }

  /** The comparison and swap of the inner loop. */
  function Exchanged(ds: seq<Desc>, j: nat): (r: seq<Desc>)
    requires j + 1 < |ds|
    ensures |r| == |ds|
  {
    if ds[j].phys > ds[j + 1].phys then ds[j := ds[j + 1]][j + 1 := ds[j]] else ds
  }

  /** No two of the first n descriptors overlap. */
  ghost predicate AllApart(ds: seq<Desc>, n: nat)
    requires n <= |ds|
  {
    forall i, j :: 0 <= i < j < n ==> Apart(EntryOf(ds[i]), EntryOf(ds[j]))
  }

  lemma ExchangedApart(ds: seq<Desc>, j: nat, n: nat)
    requires j + 1 < n <= |ds| && AllApart(ds, n)
    ensures AllApart(Exchanged(ds, j), n)
  {
  }

  /** Descriptors in address order that do not overlap are a layout. */
  lemma SortedIsLayout(ds: seq<Desc>, n: nat)
    requires n <= |ds| && Sorted(ds, 0, n) && AllApart(ds, n)
    ensures Layout(ds[..n])
  {
  }

  /** The inner loop over the first m of n descriptors stands at j. */
  ghost predicate Bubbling(was: seq<Desc>, ds: seq<Desc>, j: nat, m: nat, n: nat) {
    && j < m <= n <= |was| == |ds| && Largest(ds, j) && Split(ds, m, n)
    && (AllApart(was, n) ==> AllApart(ds, n))
    && multiset(ds[..n]) == multiset(was[..n]) && ds[m..] == was[m..]
  }

  lemma ExchangedPermutes(ds: seq<Desc>, j: nat, n: nat)
    requires j + 1 < n <= |ds|
    ensures multiset(Exchanged(ds, j)[..n]) == multiset(ds[..n])
  {
    var front := ds[..n];
    assert Exchanged(ds, j)[..n] == Exchanged(front, j);
  }

  lemma BubblingNext(was: seq<Desc>, ds: seq<Desc>, j: nat, m: nat, n: nat)
    requires Bubbling(was, ds, j, m, n) && j + 1 < m
    ensures Bubbling(was, Exchanged(ds, j), j + 1, m, n)
  {
    ExchangedPermutes(ds, j, n);
    if AllApart(ds, n) {
      ExchangedApart(ds, j, n);
    }
    assert Exchanged(ds, j)[m..] == ds[m..];
  }

  /** The outer loop has put the i largest of n descriptors in place. */
  ghost predicate Sorting(was: seq<Desc>, ds: seq<Desc>, i: nat, n: nat) {
    && i < n <= |was| == |ds| && Sorted(ds, n - i, n) && Split(ds, n - i, n)
    && (AllApart(was, n) ==> AllApart(ds, n))
    && multiset(ds[..n]) == multiset(was[..n]) && ds[n..] == was[n..]
  }

  lemma SortingNext(was: seq<Desc>, before: seq<Desc>, ds: seq<Desc>, i: nat, n: nat)
    requires Sorting(was, before, i, n) && i + 1 < n && Bubbling(before, ds, n - i - 1, n - i, n)
    ensures Sorting(was, ds, i + 1, n)
  {
    var m := n - i;
    assert forall x :: m <= x < n ==> ds[x] == ds[m..][x - m] == before[m..][x - m] == before[x];
    assert ds[n..] == ds[m..][i..] && before[n..] == before[m..][i..];
  }

  /** sort_efi_mmap_entries: bubble sort.  The source counts up to n - 1 in unsigned arithmetic, so
      there has to be a descriptor. */
  method SortDescs(a: array<Desc>, n: nat)
    requires 0 < n <= a.Length
    modifies a
    ensures Sorted(a[..], 0, n) && multiset(a[..][..n]) == multiset(old(a[..])[..n]) && a[..][n..] == old(a[..])[n..]
    ensures AllApart(old(a[..]), n) ==> AllApart(a[..], n)
  {
    ghost var was := a[..];
    var i: nat := 0;
    while i < n - 1
      invariant Sorting(was, a[..], i, n)
    {
      ghost var before := a[..];
      BubblePass(a, n, n - i);
      SortingNext(was, before, a[..], i, n);
      i := i + 1;
    }
  }

  method BubblePass(a: array<Desc>, n: nat, m: nat)
    requires 0 < m <= n <= a.Length && Split(a[..], m, n)
    modifies a
    ensures Bubbling(old(a[..]), a[..], m - 1, m, n)
  {
    ghost var before := a[..];
    var j: nat := 0;
    while j < m - 1
      invariant Bubbling(before, a[..], j, m, n)
    {
      BubblingNext(before, a[..], j, m, n);
      Exchange(a, j);
      j := j + 1;
    }
  }

  method Exchange(a: array<Desc>, j: nat)
    requires j + 1 < a.Length
    modifies a
    ensures a[..] == Exchanged(old(a[..]), j)
  {
    if a[j].phys > a[j + 1].phys {
      var tmp := a[j];
      a[j] := a[j + 1];
      a[j + 1] := tmp;
    }
  }

  /** Reordering descriptors does not change what they say. */
  lemma PermutationMeaning(ds: seq<Desc>, es: seq<Desc>, b: nat, k: Kind)
    requires multiset(ds) == multiset(es)
    ensures DescHas(ds, b, k) <==> DescHas(es, b, k)
  {
    assert forall d :: d in ds <==> d in multiset(ds);
    assert forall d :: d in es <==> d in multiset(es);
  }

  // ---------------------------------------------------------------------
  // The table
  // ---------------------------------------------------------------------

  /** A boot module's memory. */
  datatype Region = Region(start: nat, size: nat)

  predicate InRegion(m: Region, b: nat) {
    m.start <= b < m.start + m.size
  }

  predicate InModules(mods: seq<Region>, b: nat) {
    exists m :: m in mods && InRegion(m, b)
  }

  ghost predicate AllReservable(es: seq<Entry>, start: nat, end: nat) {
    forall e :: e in es ==> Reservable(e, start, end)
  }

  /** The loop of reserve_e820_region has dealt with the first k entries of `was` and stands at index i;
      `half` says that the second half of a split entry is still to be looked at. */
  ghost predicate Reserving(was: seq<Entry>, es: seq<Entry>, i: nat, k: nat, half: bool, start: nat, end: nat) {
    && k <= |was| && AllReservable(was[..k], start, end)
    && var done := ReserveAll(was[..k], start, end);
       && es == done + was[k..] && i + (if half then 1 else 0) == |done|
       && (half ==> done[|done| - 1].base == end)
  }

  lemma ReserveNext(was: seq<Entry>, k: nat, start: nat, end: nat)
    requires k < |was| && AllReservable(was[..k], start, end) && Reservable(was[k], start, end)
    ensures AllReservable(was[..k + 1], start, end)
    ensures ReserveAll(was[..k + 1], start, end) == ReserveAll(was[..k], start, end) + Reserve(was[k], start, end)
  {
    assert was[..k + 1][..k] == was[..k];
    assert forall e :: e in was[..k + 1] <==> e in was[..k] || e == was[k];
  }

  /** Every entry still to come takes at least one place. */
  lemma {:induction false} ReserveLength(was: seq<Entry>, k: nat, start: nat, end: nat)
    requires AllReservable(was, start, end) && k <= |was|
    ensures AllReservable(was[..k], start, end)
    ensures |ReserveAll(was, start, end)| >= |ReserveAll(was[..k], start, end)| + (|was| - k)
  {
    assert forall e :: e in was[..k] ==> e in was;
    if k < |was| {
      var front := was[..|was| - 1];
      assert forall e :: e in front ==> e in was;
      assert front[..k] == was[..k];
      ReserveLength(front, k, start, end);
    } else {
      assert was[..k] == was;
    }
  }

  lemma SkipHalf(was: seq<Entry>, es: seq<Entry>, i: nat, k: nat, start: nat, end: nat)
    requires Reserving(was, es, i, k, true, start, end)
    ensures i < |es| && es[i].base == end && Reserving(was, es, i + 1, k, false, start, end)
  {
  }

  lemma AtEntry(was: seq<Entry>, es: seq<Entry>, i: nat, k: nat, start: nat, end: nat)
    requires Reserving(was, es, i, k, false, start, end) && i < |es|
    ensures k < |was| && es[i] == was[k] && |es| == i + (|was| - k)
    ensures Reservable(was[k], start, end) ==>
              && AllReservable(was[..k + 1], start, end)
              && ReserveAll(was[..k + 1], start, end) == es[..i] + Reserve(was[k], start, end)
              && was[k + 1..] == es[i + 1..]
  {
    if Reservable(was[k], start, end) {
      ReserveNext(was, k, start, end);
    }
    assert es[..i] == ReserveAll(was[..k], start, end);
    assert es[i + 1..] == was[k..][1..];
  }

  lemma ReservingNext(was: seq<Entry>, es: seq<Entry>, fs: seq<Entry>, i: nat, k: nat, start: nat, end: nat)
    requires Reserving(was, es, i, k, false, start, end) && i < |es| && Reservable(es[i], start, end) && start <= end
    requires fs == es[..i] + Reserve(es[i], start, end) + es[i + 1..]
    ensures k < |was| && Reserving(was, fs, i + 1, k + 1, |Reserve(es[i], start, end)| == 2, start, end)
  {
    AtEntry(was, es, i, k, start, end);
  }

  lemma ReservingEnds(was: seq<Entry>, es: seq<Entry>, i: nat, k: nat, half: bool, start: nat, end: nat)
    requires Reserving(was, es, i, k, half, start, end) && i >= |es|
    ensures AllReservable(was, start, end) && es == ReserveAll(was, start, end)
  {
    assert k == |was| && was[..k] == was;
  }

  /** The trimming loop has dealt with the first i entries and kept `target` of them. */
  ghost predicate Trimming(was: seq<Entry>, es: seq<Entry>, i: nat, target: nat) {
    && target <= i <= |was| == |es| && es[i..] == was[i..] && es[..target] == Trimmed(was[..i])
  }

  lemma TrimmingNext(was: seq<Entry>, es: seq<Entry>, i: nat, target: nat)
    requires Trimming(was, es, i, target) && i < |was|
    ensures es[i] == was[i]
    ensures var e := es[i];
            if Start(e) < Stop(e)
            then Trimming(was, es[target := Entry(Start(e), Stop(e) - Start(e), e.kind)], i + 1, target + 1)
            else Trimming(was, es, i + 1, target)
  {
    assert was[..i + 1][..i] == was[..i];
    assert es[i] == es[i..][0] == was[i..][0];
    assert es[i + 1..] == es[i..][1..] && was[i + 1..] == was[i..][1..];
    var e := es[i];
    if Start(e) < Stop(e) {
      var f := Entry(Start(e), Stop(e) - Start(e), e.kind);
      var fs := es[target := f];
      assert fs[..target + 1] == es[..target] + [f];
      assert fs[i + 1..] == es[i + 1..];
    }
  }

  /** Exactly the modules' bytes stopped being RAM. */
  ghost predicate Cleared(was: seq<Entry>, es: seq<Entry>, mods: seq<Region>) {
    forall b: nat, k: Kind :: Has(es, b, k) <==> Has(was, b, k) && !(k == Ram && InModules(mods, b))
  }

  /** Module by module, no RAM entry is cut at a boundary and the table does not overflow. */
  ghost predicate CanReserve(es: seq<Entry>, mods: seq<Region>)
    decreases |mods|
  {
    mods == [] ||
    (var start, end := mods[0].start, mods[0].start + mods[0].size;
     && AllReservable(es, start, end) && |ReserveAll(es, start, end)| <= MAX_ENTRIES
     && CanReserve(ReserveAll(es, start, end), mods[1..]))
  }

  lemma CanReserveNext(es: seq<Entry>, mods: seq<Region>, i: nat, start: nat, end: nat)
    requires i < |mods| && start == mods[i].start && end == start + mods[i].size
    ensures CanReserve(es, mods[i..]) <==>
            && AllReservable(es, start, end) && |ReserveAll(es, start, end)| <= MAX_ENTRIES
            && CanReserve(ReserveAll(es, start, end), mods[i + 1..])
  {
    assert mods[i..] == [mods[i]] + mods[i + 1..];
    CanReserveFirst(es, mods[i], mods[i + 1..], start, end);
  }

  lemma CanReserveFirst(es: seq<Entry>, m: Region, mods: seq<Region>, start: nat, end: nat)
    requires start == m.start && end == start + m.size
    ensures CanReserve(es, [m] + mods) <==>
            && AllReservable(es, start, end) && |ReserveAll(es, start, end)| <= MAX_ENTRIES
            && CanReserve(ReserveAll(es, start, end), mods)
  {
    assert ([m] + mods)[1..] == mods;
  }

  /** The first i modules have been reserved, or one of them could not be. */
  ghost predicate ModulesReserved(was: seq<Entry>, es: seq<Entry>, mods: seq<Region>, i: nat, ok: bool) {
    && i <= |mods| && (CanReserve(was, mods) <==> ok && CanReserve(es, mods[i..]))
    && (ok ==> Cleared(was, es, mods[..i]) && (Disjoint(was) ==> Disjoint(es)))
  }

  /** An allocation of `request` bytes fails in table es. */
  ghost predicate Refused(es: seq<Entry>, request: nat, max: nat) {
    RoundingBounds(request);
    var a := Search(es, |es|, RoundUp(request), max);
    a.at == INVALID_HPA || a.at == 0
  }

  /** Regions that do not overlap. */
  ghost predicate RegionsApart(mods: seq<Region>) {
    forall i, j :: 0 <= i < j < |mods| ==> Separate(mods[i].start, mods[i].size, mods[j].start, mods[j].size)
  }

  ghost predicate AllPlaced(es: seq<Entry>, mods: seq<Region>) {
    forall m :: m in mods ==> m.size > 0 && AllReservable(es, m.start, m.start + m.size)
  }

  lemma {:induction false} ReservableStays(es: seq<Entry>, m: Region, x: Region)
    requires AllReservable(es, m.start, m.start + m.size) && AllReservable(es, x.start, x.start + x.size)
    requires m.size > 0 && x.size > 0 && Separate(m.start, m.size, x.start, x.size)
    ensures AllReservable(ReserveAll(es, m.start, m.start + m.size), x.start, x.start + x.size)
  {
    if es != [] {
      var front, last := es[..|es| - 1], es[|es| - 1];
      assert last in es && forall e :: e in front ==> e in es;
      ReservableStays(front, m, x);
    }
  }

  /** Of disjoint entries at most one is split. */
  lemma {:induction false} ReserveCount(es: seq<Entry>, start: nat, end: nat)
    requires Disjoint(es) && AllReservable(es, start, end) && start < end
    ensures |ReserveAll(es, start, end)| <= |es| + 1
    ensures (forall e :: e in es ==> |Reserve(e, start, end)| == 1) ==> |ReserveAll(es, start, end)| == |es|
  {
    if es != [] {
      var front, last := es[..|es| - 1], es[|es| - 1];
      assert last in es && forall e :: e in front ==> e in es;
      ReserveCount(front, start, end);
      if |Reserve(last, start, end)| == 2 {
        forall e | e in front ensures |Reserve(e, start, end)| == 1 {
          var i :| 0 <= i < |front| && front[i] == e;
          assert Apart(es[i], es[|es| - 1]);
        }
      }
    }
  }

  /** Modules that lie apart, each inside one RAM entry or outside RAM, can be reserved if there is room. */
  lemma {:induction false} ModulesFit(es: seq<Entry>, mods: seq<Region>)
    requires Disjoint(es) && RegionsApart(mods) && AllPlaced(es, mods) && |es| + |mods| <= MAX_ENTRIES
    ensures CanReserve(es, mods)
    decreases |mods|
  {
    if mods != [] {
      var m, rest := mods[0], mods[1..];
      assert m in mods && forall x :: x in rest ==> x in mods;
      var fs := ReserveAll(es, m.start, m.start + m.size);
      ReserveAllDisjoint(es, m.start, m.start + m.size);
      ReserveCount(es, m.start, m.start + m.size);
      forall x | x in rest ensures AllReservable(fs, x.start, x.start + x.size) {
        var j :| 0 <= j < |rest| && rest[j] == x;
        assert mods[j + 1] == x && x in mods;
        ReservableStays(es, m, x);
      }
      ModulesFit(fs, rest);
    }
  }

  lemma ModulesStart(was: seq<Entry>, mods: seq<Region>)
    ensures ModulesReserved(was, was, mods, 0, true)
  {
    assert mods[0..] == mods;
  }

  lemma ModulesNext(was: seq<Entry>, es: seq<Entry>, fs: seq<Entry>, mods: seq<Region>, i: nat, start: nat, end: nat,
                    ok: bool)
    requires ModulesReserved(was, es, mods, i, true) && i < |mods|
    requires start == mods[i].start && end == start + mods[i].size
    requires ok <==> AllReservable(es, start, end) && |ReserveAll(es, start, end)| <= MAX_ENTRIES
    requires ok ==> fs == ReserveAll(es, start, end) && (Disjoint(es) ==> Disjoint(fs))
    ensures ModulesReserved(was, fs, mods, i + 1, ok)
  {
    CanReserveNext(es, mods, i, start, end);
    if ok {
      ClearedNext(was, es, fs, mods, i);
    }
  }

  lemma ModulesEnd(was: seq<Entry>, es: seq<Entry>, mods: seq<Region>, i: nat, ok: bool)
    requires ModulesReserved(was, es, mods, i, ok) && (ok ==> i == |mods|)
    ensures ok <==> CanReserve(was, mods)
    ensures ok ==> Cleared(was, es, mods) && (Disjoint(was) ==> Disjoint(es))
  {
    assert mods[..|mods|] == mods;
  }

  lemma OneMoreModule(mods: seq<Region>, i: nat, b: nat)
    requires i < |mods|
    ensures InModules(mods[..i + 1], b) <==> InModules(mods[..i], b) || InRegion(mods[i], b)
  {
    var some, more := mods[..i], mods[..i + 1];
    assert more == some + [mods[i]] && mods[i] in more;
    assert forall m :: m in some ==> m in more;
  }

  lemma ClearedNext(was: seq<Entry>, es: seq<Entry>, fs: seq<Entry>, mods: seq<Region>, i: nat)
    requires i < |mods| && Cleared(was, es, mods[..i])
    requires var start, end := mods[i].start, mods[i].start + mods[i].size;
             AllReservable(es, start, end) && fs == ReserveAll(es, start, end)
    ensures Cleared(was, fs, mods[..i + 1])
  {
    forall b: nat, k: Kind ensures Has(fs, b, k) <==> Has(was, b, k) && !(k == Ram && InModules(mods[..i + 1], b)) {
      ReserveAllMeaning(es, mods[i].start, mods[i].start + mods[i].size, b, k);
      OneMoreModule(mods, i, b);
    }
  }

  /** The search has come down to index i, with nothing found so far, or has found `at`. */
  ghost predicate Searching(was: seq<Entry>, es: seq<Entry>, i: nat, at: nat, size: nat, max: nat) {
    && size % PAGE_SIZE == 0 && i <= |es|
    && Search(was, |was|, size, max) == if at == INVALID_HPA then Search(es, i, size, max) else Allocation(es, at)
  }

  lemma SearchingNext(was: seq<Entry>, es: seq<Entry>, fs: seq<Entry>, i: nat, at: nat, size: nat, max: nat)
    requires Searching(was, es, i + 1, INVALID_HPA, size, max)
    requires if Usable(es[i], |es|, size, max)
             then fs == Take(es, i, size) && at == Place(es[i], size) else fs == es && at == INVALID_HPA
    ensures Searching(was, fs, i, at, size, max)
  {
  }

  lemma ShiftEnds(was: seq<Entry>, es: seq<Entry>, index: nat, e: Entry)
    requires index <= |was| && |es| == |was| + 1 && es[index] == e
    requires forall j :: 0 <= j < index ==> es[j] == was[j]
    requires forall j :: index < j < |es| ==> es[j] == was[j - 1]
    ensures es == was[..index] + [e] + was[index..]
  {
  }

  lemma InsertShape(es: seq<Entry>, i: nat, f: Entry, g: Entry, mid: seq<Entry>)
    requires i < |es| && mid == es[i := f]
    ensures mid[..i + 1] + [g] + mid[i + 1..] == es[..i] + [f, g] + es[i + 1..]
  {
    assert mid[..i + 1] == es[..i] + [f];
  }

  ghost predicate Granted(tables: seq<seq<Entry>>, ats: seq<nat>, sizes: seq<nat>) {
    && |tables| == |ats| + 1 && |sizes| == |ats|
    && forall k :: 0 <= k < |ats| ==>
         Shrinks(tables[k], tables[k + 1]) && Claimed(tables[k], tables[k + 1], ats[k], sizes[k])
  }

  /** Two ranges share no byte. */
  predicate Separate(a: nat, m: nat, b: nat, n: nat) {
    m == 0 || n == 0 || a + m <= b || b + n <= a
  }

  lemma GrantsSeparate(tables: seq<seq<Entry>>, ats: seq<nat>, sizes: seq<nat>, i: nat, j: nat)
    requires Granted(tables, ats, sizes) && i < j < |ats|
    ensures Separate(ats[i], sizes[i], ats[j], sizes[j])
  {
    if !Separate(ats[i], sizes[i], ats[j], sizes[j]) {
      NoTwoOverlap(tables, ats, sizes, i, j, if ats[i] < ats[j] then ats[j] else ats[i]);
    }
  }

  lemma GrantedNext(tables: seq<seq<Entry>>, ats: seq<nat>, sizes: seq<nat>, es: seq<Entry>, at: nat, size: nat)
    requires Granted(tables, ats, sizes) && Shrinks(tables[|ats|], es) && Claimed(tables[|ats|], es, at, size)
    ensures Granted(tables + [es], ats + [at], sizes + [size])
  {
  }

  /** The table made of the first `used` of n sorted descriptors says what firmware said, as far as it goes. */
  lemma FirmwareMeaning(was: seq<Desc>, ds: seq<Desc>, n: nat, used: nat, es: seq<Entry>)
    requires used <= n <= |ds| == |was| && multiset(ds[..n]) == multiset(was[..n]) && es == MergeAll(ds[..n][..used])
    ensures forall b: nat, k: Kind :: Has(es, b, k) ==> DescHas(was[..n], b, k)
    ensures used == n ==> forall b: nat, k: Kind :: DescHas(was[..n], b, k) ==> Has(es, b, k)
  {
    var all, some := ds[..n], ds[..n][..used];
    assert used == n ==> some == all;
    assert forall d :: d in some ==> d in all;
    forall b: nat, k: Kind
      ensures Has(es, b, k) ==> DescHas(was[..n], b, k)
      ensures used == n && DescHas(was[..n], b, k) ==> Has(es, b, k)
    {
      MergeAllMeaning(some, b, k);
      PermutationMeaning(all, was[..n], b, k);
    }
  }

  /** Each grant is a run of whole pages below the limit that was RAM in `es`, and no two overlap. */
  ghost predicate GrantsOk(es: seq<Entry>, requests: seq<nat>, ats: seq<nat>, max: nat) {
    && |ats| <= |requests|
    && (forall i :: 0 <= i < |ats| ==>
          && ats[i] > 0 && ats[i] % PAGE_SIZE == 0 && (requests[i] > 0 ==> ats[i] + RoundUp(requests[i]) <= max)
          && forall b: nat :: ats[i] <= b < ats[i] + RoundUp(requests[i]) ==> Has(es, b, Ram))
    && (forall i, j :: 0 <= i < j < |ats| ==> Separate(ats[i], RoundUp(requests[i]), ats[j], RoundUp(requests[j])))
  }

  /** The grants made so far, with the tables before and after each. */
  ghost predicate Serving(tables: seq<seq<Entry>>, ats: seq<nat>, sizes: seq<nat>, requests: seq<nat>, max: nat) {
    && |ats| <= |requests| && Granted(tables, ats, sizes)
    && forall i :: 0 <= i < |ats| ==>
         && sizes[i] == RoundUp(requests[i]) && ats[i] > 0 && ats[i] % PAGE_SIZE == 0
         && (requests[i] > 0 ==> ats[i] + sizes[i] <= max)
  }

  lemma ServingNext(tables: seq<seq<Entry>>, ats: seq<nat>, sizes: seq<nat>, requests: seq<nat>, max: nat,
                    es: seq<Entry>, at: nat)
    requires Serving(tables, ats, sizes, requests, max) && |ats| < |requests| && at > 0 && at != INVALID_HPA
    requires Allocated(tables[|ats|], Allocation(es, at), RoundUp(requests[|ats|]), max)
    ensures Serving(tables + [es], ats + [at], sizes + [RoundUp(requests[|ats|])], requests, max)
  {
    RoundingBounds(requests[|ats|]);
    GrantedNext(tables, ats, sizes, es, at, RoundUp(requests[|ats|]));
  }

  lemma ServingEnds(tables: seq<seq<Entry>>, ats: seq<nat>, sizes: seq<nat>, requests: seq<nat>, max: nat)
    requires Serving(tables, ats, sizes, requests, max)
    ensures GrantsOk(tables[0], requests, ats, max)
  {
    forall i, j | 0 <= i < j < |ats| ensures Separate(ats[i], sizes[i], ats[j], sizes[j]) {
      GrantsSeparate(tables, ats, sizes, i, j);
    }
    forall i, b: nat | 0 <= i < |ats| && ats[i] <= b < ats[i] + sizes[i] ensures Has(tables[0], b, Ram) {
      assert Claimed(tables[i], tables[i + 1], ats[i], sizes[i]);
      if !Has(tables[0], b, Ram) {
        StaysTaken(tables, 0, i, b);
      }
    }
  }

  /** Each grant is a run of whole pages below the limit, of memory that firmware called usable, outside the
      image and every module; no two overlap. */
  ghost predicate BootOk(ds: seq<Desc>, image: Region, mods: seq<Region>, requests: seq<nat>, ats: seq<nat>, max: nat) {
    && |ats| <= |requests|
    && (forall i :: 0 <= i < |ats| ==>
          && ats[i] > 0 && ats[i] % PAGE_SIZE == 0 && (requests[i] > 0 ==> ats[i] + RoundUp(requests[i]) <= max)
          && forall b: nat :: ats[i] <= b < ats[i] + RoundUp(requests[i]) ==>
               DescHas(ds, b, Ram) && !InRegion(image, b) && !InModules(mods, b))
    && (forall i, j :: 0 <= i < j < |ats| ==> Separate(ats[i], RoundUp(requests[i]), ats[j], RoundUp(requests[j])))
  }

  /** What the table holds firmware reported, and its RAM lies outside the image and every module. */
  ghost predicate Cleaned(ds: seq<Desc>, gs: seq<Entry>, image: Region, mods: seq<Region>) {
    forall b: nat, k: Kind :: Has(gs, b, k) ==>
      DescHas(ds, b, k) && (k == Ram ==> !InRegion(image, b) && !InModules(mods, b))
  }

  /** The tables `es` from firmware, `fs` without the image, and `gs` without the modules. */
  lemma CleanedUp(ds: seq<Desc>, es: seq<Entry>, fs: seq<Entry>, gs: seq<Entry>, image: Region, mods: seq<Region>,
                  start: nat, end: nat)
    requires forall b: nat, k: Kind :: Has(es, b, k) ==> DescHas(ds, b, k)
    requires start == image.start && end == start + image.size
    requires AllReservable(es, start, end) && fs == ReserveAll(es, start, end)
    requires forall b: nat, k: Kind :: Has(gs, b, k) ==> Has(fs, b, k) && !(k == Ram && InModules(mods, b))
    ensures Cleaned(ds, gs, image, mods)
  {
    forall b: nat, k: Kind | Has(gs, b, k)
      ensures DescHas(ds, b, k) && (k == Ram ==> !InRegion(image, b) && !InModules(mods, b))
    {
      ReserveAllMeaning(es, start, end, b, k);
    }
  }

  lemma BootMeaning(ds: seq<Desc>, gs: seq<Entry>, image: Region, mods: seq<Region>, requests: seq<nat>, ats: seq<nat>,
                    max: nat)
    requires Cleaned(ds, gs, image, mods) && GrantsOk(gs, requests, ats, max)
    ensures BootOk(ds, image, mods, requests, ats, max)
  {
    forall i, b: nat | 0 <= i < |ats| && ats[i] <= b < ats[i] + RoundUp(requests[i])
      ensures DescHas(ds, b, Ram) && !InRegion(image, b) && !InModules(mods, b)
    {
      assert Has(gs, b, Ram);
    }
  }

  class MemoryMap {
    const table: array<Entry>
    var nr: nat

    ghost predicate Valid()
      reads this
    {
      table.Length == MAX_ENTRIES && nr <= MAX_ENTRIES
    }

    ghost function Contents(): seq<Entry>
      requires Valid()
      reads this, table
    {
      table[..nr]
    }

    constructor ()
      ensures Valid() && nr == 0 && fresh(table)
    {
      table := new Entry[MAX_ENTRIES](_ => Entry(0, 0, Reserved));
      nr := 0;
    }

    /** init_e820_from_efi_mmap: stops early only when the table is full. */
    method InitFromEfi(ds: seq<Desc>) returns (used: nat)
      requires Valid()
      modifies this, table
      ensures Valid() && used <= |ds| && Contents() == MergeAll(ds[..used])
      ensures used == |ds| || nr == MAX_ENTRIES
    {
      nr := 0;
      used := 0;
      assert ds[..0] == [];
      while used < |ds|
        invariant Valid() && used <= |ds| && table[..nr] == MergeAll(ds[..used])
      {
        if nr >= MAX_ENTRIES {
          break;
        }
        assert ds[..used + 1][..used] == ds[..used];
        StoreMerged(EntryOf(ds[used]));
        used := used + 1;
      }
      assert ds[..|ds|] == ds;
    }

    /** Sort the firmware's descriptors and build the table from them: if they all fit, the table says
        about every byte what they say. */
    method InitFromFirmware(a: array<Desc>, n: nat) returns (used: nat)
      requires Valid() && 0 < n <= a.Length
      modifies this, table, a
      ensures Valid() && used <= n && (used == n || nr == MAX_ENTRIES)
      ensures forall b: nat, k: Kind :: Has(Contents(), b, k) ==> DescHas(old(a[..])[..n], b, k)
      ensures used == n ==> forall b: nat, k: Kind :: DescHas(old(a[..])[..n], b, k) ==> Has(Contents(), b, k)
      ensures Coalesced(Contents())
      ensures AllApart(old(a[..]), n) ==> InOrder(Contents()) && Disjoint(Contents())
    {
      ghost var was := a[..];
      SortDescs(a, n);
      ghost var ds := a[..n];
      used := InitFromEfi(a[..n]);
      FirmwareMeaning(was, a[..], n, used, Contents());
      MergeAllCoalesced(ds[..used]);
      if AllApart(was, n) {
        SortedIsLayout(a[..], n);
        assert ds == a[..][..n];
        MergeAllInOrder(ds[..used]);
        InOrderDisjoint(Contents());
      }
    }

    method StoreMerged(e: Entry)
      requires Valid() && nr < MAX_ENTRIES
      modifies this, table
      ensures Valid() && Contents() == Merge(old(Contents()), e)
    {
      table[nr] := e;
      if nr > 0 && table[nr].kind == table[nr - 1].kind && table[nr].base == table[nr - 1].base + table[nr - 1].length {
        table[nr - 1] := table[nr - 1].(length := table[nr - 1].length + table[nr].length);
      } else {
        nr := nr + 1;
      }
    }

    /** insert_e820_entry: false when the table would overflow. */
    method InsertEntry(index: nat, e: Entry) returns (ok: bool)
      requires Valid() && index <= nr
      modifies this, table
      ensures Valid() && ok == (old(nr) < MAX_ENTRIES)
      ensures Contents() == if ok then old(Contents())[..index] + [e] + old(Contents())[index..] else old(Contents())
    {
      if nr >= MAX_ENTRIES {
        return false;
      }
      ok := true;
      ghost var was := table[..nr];
      nr := nr + 1;
      var i: nat := nr - 1;
      while i > index
        invariant index <= i < nr == |was| + 1 <= MAX_ENTRIES == table.Length
        invariant forall j :: 0 <= j <= i && j < |was| ==> table[j] == was[j]
        invariant forall j :: i < j < nr ==> table[j] == was[j - 1]
      {
        table[i] := table[i - 1];
        i := i - 1;
      }
      table[index] := e;
      ShiftEnds(was, table[..nr], index, e);
    }

    /** The second pass of alloc_mods_memory: keep the whole pages of each entry, moving entries down. */
    method TrimEntries()
      requires Valid()
      modifies this, table
      ensures Valid() && Contents() == Trimmed(old(Contents()))
    {
      ghost var was := table[..nr];
      var target: nat, i: nat, n := 0, 0, nr;
      while i < n
        invariant Valid() && nr == n && Trimming(was, table[..nr], i, target)
      {
        target := TrimOne(was, i, target);
        i := i + 1;
      }
      assert was[..n] == was;
      nr := target;
    }

    method TrimOne(ghost was: seq<Entry>, i: nat, target: nat) returns (target': nat)
      requires Valid() && i < nr && Trimming(was, table[..nr], i, target)
      modifies table
      ensures Trimming(was, table[..nr], i + 1, target')
    {
      ghost var es := table[..nr];
      TrimmingNext(was, es, i, target);
      target' := target;
      var e := table[i];
      if Start(e) < Stop(e) {
        table[target] := Entry(Start(e), Stop(e) - Start(e), e.kind);
        target' := target + 1;
        assert table[..nr] == es[target := Entry(Start(e), Stop(e) - Start(e), e.kind)];
      }
    }

    /** reserve_e820_region: false when a RAM entry crosses the region's ends, or the table overflows. */
    method ReserveRegion(start: nat, end: nat) returns (ok: bool)
      requires Valid() && start <= end
      modifies this, table
      ensures Valid()
      ensures ok <==>
              AllReservable(old(Contents()), start, end) && |ReserveAll(old(Contents()), start, end)| <= MAX_ENTRIES
      ensures ok ==> Contents() == ReserveAll(old(Contents()), start, end)
      ensures ok && Disjoint(old(Contents())) ==> Disjoint(Contents())
    {
      ghost var was, k, half := table[..nr], 0, false;
      assert was[..0] == [];
      var i: nat := 0;
      ok := true;
      while ok && i < nr
        invariant Valid()
        invariant if ok then Reserving(was, table[..nr], i, k, half, start, end)
                  else !(AllReservable(was, start, end) && |ReserveAll(was, start, end)| <= MAX_ENTRIES)
        decreases ok, |was| - k, half
      {
        ok, k, half := ReserveOne(was, i, k, half, start, end);
        i := i + 1;
      }
      if ok {
        ReservingEnds(was, table[..nr], i, k, half, start, end);
        if Disjoint(was) {
          ReserveAllDisjoint(was, start, end);
        }
      }
    }

    /** One iteration of the loop of reserve_e820_region. */
    method ReserveOne(ghost was: seq<Entry>, i: nat, ghost k: nat, ghost half: bool, start: nat, end: nat)
      returns (ok: bool, ghost k': nat, ghost half': bool)
      requires Valid() && i < nr && start <= end && Reserving(was, table[..nr], i, k, half, start, end)
      modifies this, table
      ensures Valid()
      ensures if ok then Reserving(was, table[..nr], i + 1, k', half', start, end)
              else !(AllReservable(was, start, end) && |ReserveAll(was, start, end)| <= MAX_ENTRIES)
      ensures ok ==> if half then k' == k && !half' else k' == k + 1 <= |was|
    {
      ok, k', half' := true, k, false;
      ghost var es := table[..nr];
      var e := table[i];
      if half {
        SkipHalf(was, es, i, k, start, end);
        assert e.base >= end;
      } else {
        AtEntry(was, es, i, k, start, end);
        k' := k + 1;
      }
      if e.kind != Ram || e.End() <= start || e.base >= end {
        if !half {
          ReservingNext(was, es, es, i, k, start, end);
        }
      } else if e.base <= start && e.End() >= end {
        ok := SplitEntry(i, start, end);
        half' := end < e.End();
        if ok {
          ReservingNext(was, es, table[..nr], i, k, start, end);
        } else if AllReservable(was, start, end) {
          ReserveLength(was, k + 1, start, end);
        }
      } else {
        ok := false;
        assert was[k] in was;
      }
    }

    /** Cut the region out of a RAM entry around it. */
    method SplitEntry(i: nat, start: nat, end: nat) returns (ok: bool)
      requires Valid() && i < nr && table[i].kind == Ram && table[i].base <= start <= end <= table[i].End()
      requires table[i].End() > start && table[i].base < end
      modifies this, table
      ensures Valid()
      ensures ok ==>
                Contents() == old(Contents())[..i] + Reserve(old(Contents())[i], start, end) + old(Contents())[i + 1..]
      ensures !ok ==> |Reserve(old(Contents())[i], start, end)| == 2 && old(nr) == MAX_ENTRIES
    {
      ghost var es := table[..nr];
      var e := table[i];
      var f, g := e.(length := start - e.base), Entry(end, e.End() - end, Ram);
      assert es[i] == e && Reserve(e, start, end) == if end < e.End() then [f, g] else [f];
      table[i] := f;
      ghost var mid := es[i := f];
      assert table[..nr] == mid;
      ok := true;
      if end < e.End() {
        ok := InsertEntry(i + 1, g);
        InsertShape(es, i, f, g, mid);
      } else {
        assert mid == es[..i] + [f] + es[i + 1..];
      }
    }

    /** e820_alloc_memory: None where the source panics. */
    method AllocMemory(sizeArg: nat, max: nat) returns (r: Option<nat>)
      requires Valid()
      modifies this, table
      ensures Valid() && RoundUp(sizeArg) % PAGE_SIZE == 0
      ensures var a := Search(old(Contents()), old(nr), RoundUp(sizeArg), max);
              && Contents() == a.table && r == (if a.at == INVALID_HPA || a.at == 0 then None else Some(a.at))
              && (Disjoint(old(Contents())) ==> Allocated(old(Contents()), a, RoundUp(sizeArg), max))
    {
      var size := RoundUp(sizeArg);
      RoundingBounds(sizeArg);
      ghost var was := table[..nr];
      if Disjoint(was) {
        SearchAllocates(was, nr, size, max);
      }
      var i: nat, at: nat := nr, INVALID_HPA;
      while i > 0 && at == INVALID_HPA
        invariant Valid() && Searching(was, table[..nr], i, at, size, max)
        decreases i
      {
        ghost var es := table[..nr];
        i := i - 1;
        at := TryEntry(i, size, max);
        SearchingNext(was, es, table[..nr], i, at, size, max);
      }
      r := if at == INVALID_HPA || at == 0 then None else Some(at);
    }

    /** The body of the loop of e820_alloc_memory. */
    method TryEntry(i: nat, size: nat, max: nat) returns (at: nat)
      requires Valid() && i < nr && size % PAGE_SIZE == 0
      modifies this, table
      ensures Valid() && nr >= old(nr)
      ensures if Usable(old(table[i]), old(nr), size, max)
              then Contents() == Take(old(Contents()), i, size) && at == Place(old(table[i]), size)
              else Contents() == old(Contents()) && at == INVALID_HPA
    {
      at := INVALID_HPA;
      var e := table[i];
      RoundingBounds(e.base);
      RoundingBounds(e.End());
      ghost var es := table[..nr];
      var start, end := Start(e), Stop(e);
      var length := if end > start then end - start else 0;
      if e.kind == Ram && length >= size && start + size <= max {
        if length == size {
          table[i] := e.(kind := Reserved);
          at := start;
        } else if nr < MAX_ENTRIES && end <= max {
          at := end - size;
          var f := Entry(at, e.End() - at, Reserved);
          table[nr] := f;
          table[i] := e.(length := e.length - f.length);
          nr := nr + 1;
          assert table[..nr] == es[i := e.(length := at - e.base)] + [f];
        }
      }
    }

    /** The first pass of alloc_mods_memory. */
    method ReserveModules(mods: seq<Region>) returns (ok: bool)
      requires Valid()
      modifies this, table
      ensures Valid() && (ok <==> CanReserve(old(Contents()), mods))
      ensures ok ==> Cleared(old(Contents()), Contents(), mods)
      ensures ok && Disjoint(old(Contents())) ==> Disjoint(Contents())
    {
      ghost var was := table[..nr];
      ok := true;
      var i: nat := 0;
      ModulesStart(was, mods);
      while ok && i < |mods|
        invariant Valid() && ModulesReserved(was, table[..nr], mods, i, ok)
        decreases ok, |mods| - i
      {
        ghost var es := table[..nr];
        var start, end := mods[i].start, mods[i].start + mods[i].size;
        ok := ReserveRegion(start, end);
        ModulesNext(was, es, table[..nr], mods, i, start, end, ok);
        i := i + 1;
      }
      ModulesEnd(was, table[..nr], mods, i, ok);
    }

    /** alloc_mods_memory: the whole pages of what is left without the modules. */
    method AllocModules(mods: seq<Region>) returns (ok: bool, ghost left: seq<Entry>)
      requires Valid()
      modifies this, table
      ensures Valid() && (ok <==> CanReserve(old(Contents()), mods))
      ensures ok ==> Cleared(old(Contents()), left, mods) && Contents() == Trimmed(left)
      ensures ok ==> forall b: nat, k: Kind :: Has(Contents(), b, k) <==> HasWholePage(left, b, k)
      ensures ok ==> forall b: nat, k: Kind :: Has(Contents(), b, k) ==>
              Has(old(Contents()), b, k) && !(k == Ram && InModules(mods, b))
      ensures ok ==> forall e :: e in Contents() ==>
              e.base % PAGE_SIZE == 0 && e.length % PAGE_SIZE == 0 && e.length > 0
      ensures ok && Disjoint(old(Contents())) ==> Disjoint(Contents())
    {
      ok := ReserveModules(mods);
      left := table[..nr];
      if ok {
        TrimEntries();
        TrimmedAligned(left);
        forall b: nat, k: Kind ensures Has(table[..nr], b, k) <==> HasWholePage(left, b, k) {
          TrimmedMeaning(left, b, k);
        }
        forall b: nat, k: Kind | HasWholePage(left, b, k) ensures Has(left, b, k) {
          WholePagesInside(left, b, k);
        }
        if Disjoint(left) {
          TrimmedDisjoint(left);
        }
      }
    }

    /** A run of allocations, up to the first that cannot be met, in table `last`. */
    method AllocAll(requests: seq<nat>, max: nat) returns (ats: seq<nat>, ghost last: seq<Entry>)
      requires Valid()
      modifies this, table
      ensures Valid() && |ats| <= |requests|
      ensures |ats| < |requests| ==> Refused(last, requests[|ats|], max)
      ensures Disjoint(old(Contents())) ==> Disjoint(last) && Shrinks(old(Contents()), last)
      ensures Disjoint(old(Contents())) ==> Disjoint(Contents()) && GrantsOk(old(Contents()), requests, ats, max)
      ensures Disjoint(old(Contents())) ==> forall b: nat :: Has(Contents(), b, Ram) ==> Has(old(Contents()), b, Ram)
    {
      ats, last := [], Contents();
      ghost var tables, sizes := [Contents()], [];
      ghost var apart := Disjoint(Contents());
      ShrinksSame(Contents());
      while |ats| < |requests|
        invariant Valid() && |ats| <= |requests|
        invariant tables != [] && tables[0] == old(Contents())
        invariant apart ==>
                    Disjoint(Contents()) && Serving(tables, ats, sizes, requests, max) && Shrinks(tables[0], Contents())
        invariant apart ==> tables[|ats|] == Contents()
        invariant last == Contents()
      {
        var r := AllocMemory(requests[|ats|], max);
        if apart {
          ShrinksTwice(tables[0], last, Contents());
        }
        if r.None? {
          break;
        }
        if apart {
          ServingNext(tables, ats, sizes, requests, max, Contents(), r.value);
        }
        tables, sizes, ats := tables + [Contents()], sizes + [RoundUp(requests[|ats|])], ats + [r.value];
        last := Contents();
      }
      if apart {
        ServingEnds(tables, ats, sizes, requests, max);
      }
    }

    /** init_e820 after a UEFI boot; `found` is the table made from firmware's descriptors. */
    method Init(a: array<Desc>, n: nat, image: Region, mods: seq<Region>) returns (ok: bool, ghost found: seq<Entry>)
      requires Valid() && 0 < n <= a.Length
      modifies this, table, a
      ensures Valid() && (ok <==> CanReserve(found, [image] + mods))
      ensures forall b: nat, k: Kind :: Has(found, b, k) ==> DescHas(old(a[..])[..n], b, k)
      ensures AllApart(old(a[..]), n) ==> Disjoint(found) && (ok ==> Disjoint(Contents()))
      ensures ok ==> Cleaned(old(a[..])[..n], Contents(), image, mods)
    {
      ghost var ds := a[..][..n];
      var used := InitFromFirmware(a, n);
      found := Contents();
      var start, end := image.start, image.start + image.size;
      CanReserveFirst(found, image, mods, start, end);
      ok := ReserveRegion(start, end);
      if ok {
        ghost var fs := Contents();
        ghost var left;
        ok, left := AllocModules(mods);
        if ok {
          CleanedUp(ds, found, fs, Contents(), image, mods, start, end);
        }
      }
    }

    /** init_e820, and then any allocations: if firmware's descriptors do not overlap, every grant lies in write-back
        conventional or loader memory that firmware reported, outside the hypervisor's image and every module. */
    method Boot(a: array<Desc>, n: nat, image: Region, mods: seq<Region>, requests: seq<nat>, max: nat)
      returns (ok: bool, ats: seq<nat>, ghost found: seq<Entry>, ghost last: seq<Entry>)
      requires Valid() && 0 < n <= a.Length
      modifies this, table, a
      ensures Valid() && |ats| <= |requests| && (ok <==> CanReserve(found, [image] + mods))
      ensures forall b: nat, k: Kind :: Has(found, b, k) ==> DescHas(old(a[..])[..n], b, k)
      ensures AllApart(old(a[..]), n) ==> Disjoint(found)
      ensures ok && |ats| < |requests| ==> Refused(last, requests[|ats|], max)
      ensures ok && AllApart(old(a[..]), n) ==> BootOk(old(a[..])[..n], image, mods, requests, ats, max)
    {
      ghost var was := a[..];
      ats, last := [], [];
      ok, found := Init(a, n, image, mods);
      if ok {
        ghost var gs := Contents();
        ats, last := AllocAll(requests, max);
        if AllApart(was, n) {
          BootMeaning(was[..n], gs, image, mods, requests, ats, max);
        }
      }
    }
  }
}
