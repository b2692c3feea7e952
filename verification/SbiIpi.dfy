/**
 The IPI mask coalescer of arch/riscv/sbi.c, which turns a set of CPUs into SBI
 calls of a base hart and a 64-bit mask (section 3.1 of the RISC-V SBI
 specification, version 2.0).

 A 64-bit mask is modelled by the set of its bits.
 */
module SbiIpi {

  const BITS_PER_LONG: nat := 64
  const UINT32: nat := 0x1_0000_0000

  /** One sbi_send_ipi call. */
  datatype Call = Call(mask: set<nat>, base: nat)

  /** The call names hart h. */
  predicate Names(c: Call, h: nat) {
    c.base <= h && h - c.base in c.mask
  }

  /** `mask << n` in 64 bits: bits shifted out are lost. */
  function ShiftLeft(mask: set<nat>, n: nat): set<nat> {
    set b | b in mask && b + n < BITS_PER_LONG :: b + n
  }

  /** ffs64 of a mask that is not zero. */
  method FindFirst(mask: set<nat>) returns (i: nat)
    requires mask != {}
    ensures i in mask && forall b :: b in mask ==> i <= b
  {
    ghost var m :| m in mask;
    i := 0;
    while i !in mask
      invariant i <= m && forall b :: b in mask ==> i <= b
      decreases m - i
    {
      i := i + 1;
    }
  }

  /** Some call names hart h. */
  ghost predicate Named(calls: seq<Call>, h: nat) {
    exists k :: 0 <= k < |calls| && Names(calls[k], h)
  }

  /** Hart h belongs to one of the CPUs. */
  ghost predicate Requested(cpus: set<nat>, harts: seq<nat>, h: nat) {
    exists i :: i in cpus && i < |harts| && harts[i] == h
  }

  /** No two calls name the same hart. */
  ghost predicate OnceOnly(calls: seq<Call>) {
    forall j, k, h: nat :: 0 <= j < k < |calls| && Names(calls[j], h) ==> !Names(calls[k], h)
  }

  ghost predicate Injective(cpus: set<nat>, harts: seq<nat>) {
    forall i, j :: i in cpus && j in cpus && i < |harts| && j < |harts| && harts[i] == harts[j] ==> i == j
  }

  /** The call being collected: empty, or based on its least hart and with its greatest hart in reach. */
  ghost predicate Collecting(c: Call, max: nat) {
    && (forall b :: b in c.mask ==> b < BITS_PER_LONG)
    && (c.mask != {} ==> 0 in c.mask && Names(c, max) && forall b :: b in c.mask ==> c.base + b <= max)
  }

  /** Rebasing a call to a lower hart keeps every hart it names. */
  lemma RebaseKeeps(c: Call, max: nat, base: nat, h: nat)
    requires Collecting(c, max) && c.mask != {} && base < c.base && max < base + BITS_PER_LONG
    ensures Names(Call(ShiftLeft(c.mask, c.base - base), base), h) <==> Names(c, h)
  {
    var n := c.base - base;
    if Names(c, h) {
      assert h - c.base in c.mask;
      assert (h - c.base) + n in ShiftLeft(c.mask, n);
    }
  }

  /** What the next hart does to the call being collected. */
  datatype Collected = Collected(issue: bool, call: Call, max: nat)

  function Collect(c: Call, max: nat, hart: nat): Collected {
    if c.mask == {} then Collected(false, Call({0}, hart), hart)
    else if c.base + BITS_PER_LONG <= hart || (hart + BITS_PER_LONG) % UINT32 <= max then
      Collected(true, Call({0}, hart), hart)
    else if hart < c.base then
      Collected(false, Call(ShiftLeft(c.mask, c.base - hart) + {0}, hart), max)
    else Collected(false, c.(mask := c.mask + {hart - c.base}), if hart > max then hart else max)
  }

  lemma CollectNames(c: Call, max: nat, hart: nat, h: nat)
    requires Collecting(c, max) && hart < UINT32 && max < UINT32
    ensures var r := Collect(c, max, hart);
            Collecting(r.call, r.max) && r.max < UINT32 && r.call.mask != {} &&
            (Names(r.call, h) <==> h == hart || (!r.issue && Names(c, h)))
  {
    if c.mask != {} && !(c.base + BITS_PER_LONG <= hart || (hart + BITS_PER_LONG) % UINT32 <= max) {
      assert max < hart + BITS_PER_LONG;
      if hart < c.base {
        RebaseKeeps(c, max, hart, h);
        RebaseKeeps(c, max, hart, max);
        RebaseBounds(c, max, hart, ShiftLeft(c.mask, c.base - hart));
      }
    }
  }

  lemma RebaseBounds(c: Call, max: nat, base: nat, mask: set<nat>)
    requires Collecting(c, max) && c.mask != {} && base < c.base && max < base + BITS_PER_LONG
    requires mask == ShiftLeft(c.mask, c.base - base)
    ensures forall b :: b in mask ==> b < BITS_PER_LONG && base + b <= max
  {
  }

  /** The calls issued so far and the one being collected name exactly the harts of the CPUs done. */
  ghost predicate Progress(calls: seq<Call>, c: Call, max: nat, done: set<nat>, harts: seq<nat>) {
    && Collecting(c, max) && max < UINT32
    && (forall k :: 0 <= k < |calls| ==> calls[k].mask != {} && forall b :: b in calls[k].mask ==> b < BITS_PER_LONG)
    && (forall h: nat :: Named(calls, h) || Names(c, h) <==> Requested(done, harts, h))
    && (Injective(done, harts) ==> OnceOnly(calls + [c]))
  }

  lemma NamedAppend(calls: seq<Call>, c: Call, h: nat)
    ensures Named(calls + [c], h) <==> Named(calls, h) || Names(c, h)
  {
    if Names(c, h) {
      assert (calls + [c])[|calls|] == c;
    }
    if Named(calls, h) {
      var k :| 0 <= k < |calls| && Names(calls[k], h);
      assert (calls + [c])[k] == calls[k];
    }
  }

  lemma RequestedAdd(done: set<nat>, i: nat, harts: seq<nat>, h: nat)
    requires i < |harts|
    ensures Requested(done + {i}, harts, h) <==> Requested(done, harts, h) || h == harts[i]
  {
    if Requested(done, harts, h) {
      var j :| j in done && j < |harts| && harts[j] == h;
      assert j in done + {i};
    }
    if h == harts[i] {
      assert i in done + {i};
    }
  }

  /** A hart not requested so far is in none of the calls, so collecting it keeps the calls apart. */
  lemma CollectOnce(calls: seq<Call>, c: Call, max: nat, done: set<nat>, harts: seq<nat>, i: nat, calls': seq<Call>)
    requires Progress(calls, c, max, done, harts) && i < |harts| && harts[i] < UINT32 && i !in done
    requires Injective(done + {i}, harts)
    requires var r := Collect(c, max, harts[i]); calls' == if r.issue then calls + [c] else calls
    ensures OnceOnly(calls' + [Collect(c, max, harts[i]).call])
  {
    var r := Collect(c, max, harts[i]);
    assert Injective(done, harts);
    var before, after := calls + [c], calls' + [r.call];
    forall j, k, h: nat | 0 <= j < k < |after| && Names(after[j], h) ensures !Names(after[k], h) {
      assert after[j] == before[j];
      NamedAppend(calls, c, h);
      if k == |after| - 1 {
        CollectNames(c, max, harts[i], h);
        assert Named(before, h);
        assert Requested(done, harts, h);
        assert h != harts[i];
        if !r.issue {
          assert before[k] == c;
        }
      } else {
        assert after[k] == before[k];
      }
    }
  }

  lemma CollectProgress(calls: seq<Call>, c: Call, max: nat, done: set<nat>, harts: seq<nat>, i: nat, calls': seq<Call>)
    requires Progress(calls, c, max, done, harts) && i < |harts| && harts[i] < UINT32 && i !in done
    requires var r := Collect(c, max, harts[i]); calls' == if r.issue then calls + [c] else calls
    ensures var r := Collect(c, max, harts[i]); Progress(calls', r.call, r.max, done + {i}, harts)
  {
    var r := Collect(c, max, harts[i]);
    forall h: nat ensures Named(calls', h) || Names(r.call, h) <==> Requested(done + {i}, harts, h) {
      CollectNames(c, max, harts[i], h);
      NamedAppend(calls, c, h);
      RequestedAdd(done, i, harts, h);
    }
    CollectNames(c, max, harts[i], 0);
    if Injective(done + {i}, harts) {
      CollectOnce(calls, c, max, done, harts, i, calls');
    }
  }

  /** The body of the loop of send_dest_ipi_mask for the next hart. */
  method CollectHart(mask: set<nat>, base: nat, max: nat, hart: nat)
    returns (issue: bool, mask': set<nat>, base': nat, max': nat)
    requires Collecting(Call(mask, base), max) && hart < UINT32 && max < UINT32
    ensures Collected(issue, Call(mask', base'), max') == Collect(Call(mask, base), max, hart)
  {
    issue, mask', base', max' := false, mask, base, max;
    if mask' != {} {
      if base' + BITS_PER_LONG <= hart || (hart + BITS_PER_LONG) % UINT32 <= max' {
        issue := true;
        mask' := {};
      } else if hart < base' {
        RebaseKeeps(Call(mask, base), max, hart, max);
        mask' := ShiftLeft(mask', base' - hart);
        base' := hart;
      } else if hart > max' {
        max' := hart;
      }
    }
    if mask' == {} {
      base', max' := hart, hart;
    }
    mask' := mask' + {hart - base'};
  }

  /** send_dest_ipi_mask: the SBI calls it makes, in order. */
  method SendDestIpiMask(dest: set<nat>, harts: seq<nat>) returns (calls: seq<Call>)
    requires (forall i :: i in dest ==> i < |harts|) && forall i :: 0 <= i < |harts| ==> harts[i] < UINT32
    ensures forall h: nat :: Named(calls, h) <==> Requested(dest, harts, h)
    ensures Injective(dest, harts) ==> OnceOnly(calls)
    ensures forall k :: 0 <= k < |calls| ==> calls[k].mask != {} && forall b :: b in calls[k].mask ==> b < BITS_PER_LONG
  {
    calls := [];
    var left, mask: set<nat>, base: nat, max: nat := dest, {}, 0, 0;
    ghost var done: set<nat> := {};
    while left != {}
      invariant done + left == dest && done !! left && Progress(calls, Call(mask, base), max, done, harts)
      decreases |left|
    {
      var i := FindFirst(left);
      ghost var calls0 := calls;
      left := left - {i};
      var issue, mask', base', max' := CollectHart(mask, base, max, harts[i]);
      if issue {
        calls := calls + [Call(mask, base)];
      }
      CollectProgress(calls0, Call(mask, base), max, done, harts, i, calls);
      mask, base, max, done := mask', base', max', done + {i};
    }
    assert done == dest;
    ProgressEnds(calls, Call(mask, base), max, dest, harts);
    if mask != {} {
      calls := calls + [Call(mask, base)];
    }
  }

  lemma ProgressEnds(calls: seq<Call>, c: Call, max: nat, dest: set<nat>, harts: seq<nat>)
    requires Progress(calls, c, max, dest, harts)
    ensures var all := if c.mask != {} then calls + [c] else calls;
            && (forall h: nat :: Named(all, h) <==> Requested(dest, harts, h))
            && (Injective(dest, harts) ==> OnceOnly(all))
  {
    if c.mask != {} {
      forall h: nat ensures Named(calls + [c], h) <==> Requested(dest, harts, h) {
        NamedAppend(calls, c, h);
      }
    } else {
      EmptyEnd(calls, c);
    }
  }

  lemma EmptyEnd(calls: seq<Call>, c: Call)
    requires c.mask == {}
    ensures OnceOnly(calls + [c]) ==> OnceOnly(calls)
  {
    if OnceOnly(calls + [c]) {
      forall j, k, h: nat | 0 <= j < k < |calls| && Names(calls[j], h) ensures !Names(calls[k], h) {
        assert (calls + [c])[j] == calls[j] && (calls + [c])[k] == calls[k];
      }
    }
  }
}
