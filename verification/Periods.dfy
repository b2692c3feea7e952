/**
 The period grid of the RTDS servers (core/sched_rtds.c): period boundaries and
 the jump over missed periods.
 */
module Periods {
  import opened Division

  /** rtds_next_period_boundary. */
  function Boundary(now: nat, period: nat): nat {
    if period == 0 then now else Times(Quot(now, period) + 1, period)
  }

  /** The deadline after rtds_advance_period. */
  function Jump(deadline: nat, now: nat, period: nat): nat
    requires period > 0
  {
    if now < deadline then deadline else deadline + Times(Quot(now - deadline, period) + 1, period)
  }

  /** Reference definition: one period at a time until the deadline is in the future. */
  function Step(deadline: nat, now: nat, period: nat): nat
    requires period > 0
    decreases now + 1 - deadline
  {
    if now < deadline then deadline else Step(deadline + period, now, period)
  }

  predicate OnGrid(d: nat, period: nat)
    requires period > 0
  {
    Rem(d, period) == 0
  }

  /** Jumping over the missed periods at once is stepping over them one by one. */
  lemma {:induction false} JumpIsStepping(deadline: nat, now: nat, period: nat)
    requires period > 0
    ensures Jump(deadline, now, period) == Step(deadline, now, period)
    decreases now + 1 - deadline
  {
    if deadline <= now {
      var k := Quot(now - deadline, period);
      assert Times(k + 1, period) == period + Times(k, period);
      JumpIsStepping(deadline + period, now, period);
    }
  }

  /** The next boundary is the only grid point in (now, now + period]. */
  lemma BoundaryIsNext(now: nat, period: nat)
    requires period > 0
    ensures now < Boundary(now, period) <= now + period && OnGrid(Boundary(now, period), period)
    ensures forall d: nat :: OnGrid(d, period) && now < d <= now + period ==> d == Boundary(now, period)
  {
    QuotRem(now, period);
    QuotUnique(Quot(now, period) + 1, 0, period);
    forall d: nat | OnGrid(d, period) && now < d <= now + period ensures d == Boundary(now, period) {
      var k, b := Quot(d, period), Quot(now, period) + 1;
      QuotRem(d, period);
      if k < b {
        TimesOrder(k, b, period);
      } else if b < k {
        TimesOrder(b, k, period);
      }
    }
  }

  lemma BoundaryOrder(a: nat, b: nat, period: nat)
    requires period > 0 && a <= b
    ensures Boundary(a, period) <= Boundary(b, period)
  {
    QuotOrder(a, b, period);
    if Quot(a, period) < Quot(b, period) {
      TimesOrder(Quot(a, period) + 1, Quot(b, period) + 1, period);
    }
  }

  /** A deadline on the grid jumps to the next period boundary. */
  lemma JumpLands(deadline: nat, now: nat, period: nat)
    requires period > 0 && OnGrid(deadline, period)
    ensures now < Jump(deadline, now, period) && OnGrid(Jump(deadline, now, period), period)
    ensures deadline <= now ==> Jump(deadline, now, period) == Boundary(now, period)
  {
    if deadline <= now {
      var k := Quot(now - deadline, period) + 1;
      assert Times(k, period) == period + Times(k - 1, period);
      QuotRem(now - deadline, period);
      QuotRem(deadline, period);
      TimesAdd(Quot(deadline, period), k, period);
      QuotUnique(Quot(deadline, period) + k, 0, period);
      BoundaryIsNext(now, period);
      var d := Jump(deadline, now, period);
      assert OnGrid(d, period) && now < d <= now + period;
    }
  }
}
