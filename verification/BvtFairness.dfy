/**
 Proportional share under BVT: warps change the order but not the ledger, the
 virtual times of threads that stay runnable keep close together, and so the
 service they receive stays in proportion to their weights.
 */
module BvtFairness {
  import opened Division
  import opened Lists
  import opened Threads
  import opened BvtModel
  import opened BvtInvariant

  // ---------------------------------------------------------------------
  // The ledger
  // ---------------------------------------------------------------------

  /** Virtual time booked but not yet accounted for by service. */
  function Balance(d: Share, mcu: nat): int {
    d.avt * mcu + d.residual - d.served * d.ratio
  }

  lemma ChargeBalance(d: Share, mcu: nat, now: nat)
    requires mcu > 0
    ensures Balance(Charge(d, mcu, now), mcu) == Balance(d, mcu)
  {
    ChargeLedger(d, mcu, now);
    var e := Charge(d, mcu, now);
    MulSub(e.avt, d.avt, mcu);
    MulSub(e.served, d.served, d.ratio);
  }

  ghost predicate SameBalance(s: State, f: State) {
    && f.mcu == s.mcu && |f.threads| == |s.threads|
    && forall t :: 0 <= t < |s.threads| ==>
         Data(f, t).ratio == Data(s, t).ratio && Balance(Data(f, t), s.mcu) == Balance(Data(s, t), s.mcu)
  }

  lemma {:induction false} PrioritizeBalance(s: State, n: nat, prio: seq<nat>, r: State)
    requires n <= |s.threads| == |prio| && r == PrioritizeAll(s, n, prio)
    ensures SameBalance(s, r)
  {
    if n > 0 {
      var before := PrioritizeAll(s, n - 1, prio);
      assert SameBalance(s, before) by {
        PrioritizeBalance(s, n - 1, prio, before);
      }
      assert r == PrioritizeOne(before, n - 1, prio[n - 1]);
    }
  }

  /** schedule() keeps every ledger balanced, whatever warps begin or end in it. */
  lemma ScheduleBalance(s: State, c: Readings, f: State)
    requires Inv(s) && |c.prio| == |s.threads| && f == Schedule(s, c)
    ensures SameBalance(s, f)
  {
    var p := PrioritizeAll(s, |s.threads|, c.prio);
    var r := Charged(p, c.charge);
    PrioritizeBalance(s, |s.threads|, c.prio, p);
    ChargedBalance(p, c.charge, r);
    SelectionState(s, c, r);
    DispatchBalance(r, Chosen(r), c, f);
    SameBalanceTwice(s, p, r, f);
  }

  lemma ChargedBalance(p: State, now: nat, r: State)
    requires Sane(p) && r == Charged(p, now)
    ensures SameBalance(p, r)
  {
    ChargeBalance(Data(p, p.curr), p.mcu, now);
  }

  lemma DispatchBalance(r: State, next: nat, c: Readings, f: State)
    requires Inv(r) && next == Chosen(r) && f == Dispatch(r, next, c)
    ensures SameBalance(r, f)
  {
    DispatchThreads(r, next, c, f);
    forall t | 0 <= t < |r.threads| ensures Balance(Data(f, t), r.mcu) == Balance(Data(r, t), r.mcu) {
    }
  }

  lemma SameBalanceTwice(s: State, p: State, r: State, f: State)
    requires SameBalance(s, p) && SameBalance(p, r) && SameBalance(r, f)
    ensures SameBalance(s, f)
  {
  }

  // ---------------------------------------------------------------------
  // Bounded lag
  // ---------------------------------------------------------------------

  lemma QuotBelow(v: nat, k: nat, mcu: nat)
    requires mcu > 0 && v < k * mcu + mcu
    ensures v / mcu <= k
  {
    var q := v / mcu;
    assert q * mcu <= v;
    if q > k {
      MulOrder(k, q, mcu);
    }
  }

  /** ticks of at most k units, at `ratio` and with less than a unit carried over. */
  lemma UnitsBound(ticks: nat, k: nat, mcu: nat, ratio: nat, residual: nat)
    requires mcu > 0 && residual < mcu && ticks <= k * mcu
    ensures (ticks * ratio + residual) / mcu <= k * ratio
  {
    MulMono(ticks, k * mcu, ratio);
    MulSwap(k, mcu, ratio);
    QuotBelow(ticks * ratio + residual, k * ratio, mcu);
  }

  lemma CountdownBound(gap: nat, ratio: nat, x: nat, k: nat)
    requires ratio > 0 && k == gap / ratio + x
    ensures k * ratio <= gap + x * ratio
  {
    MulAdd(gap / ratio, x, ratio);
    assert (gap / ratio) * ratio + gap % ratio == gap;
  }

  /** A thread that runs no longer than its countdown, and x units over, ends at most CSA + x units
      of its own ratio ahead of where the second thread was. */
  lemma ChargeBound(d: Share, mcu: nat, now: nat, gap: nat, x: nat, k: nat)
    requires mcu > 0 && d.ratio > 0 && d.residual < mcu && k == Quot(gap, d.ratio) + x && now <= d.start + Times(k, mcu)
    ensures Charge(d, mcu, now).avt <= d.avt + gap + x * d.ratio
  {
    QuotIsDiv(gap, d.ratio);
    CountdownBound(gap, d.ratio, x, k);
    if now > d.start {
      TimesIsMul(k, mcu);
      var ticks := now - d.start;
      TimesIsMul(ticks, d.ratio);
      QuotIsDiv(Times(ticks, d.ratio) + d.residual, mcu);
      UnitsBound(ticks, k, mcu, d.ratio, d.residual);
    } else {
      MulMono(0, x, d.ratio);
    }
  }

  /** Every two competing threads: the first is at most k units of its own ratio ahead of the second. */
  ghost predicate Lag(s: State, k: nat) {
    forall i: nat, j: nat :: i < |s.threads| && j < |s.threads| && i != j && i in s.runqueue && j in s.runqueue ==>
      Data(s, i).avt - Data(s, j).avt <= k * Data(s, i).ratio
  }

  /** At least two threads compete, none is warped or asks to be, and the first in the queue runs. */
  ghost predicate Steady(s: State) {
    && Inv(s) && |s.runqueue| >= 2 && s.runqueue[0] == s.curr
    && forall t :: 0 <= t < |s.threads| ==> !s.threads[t].pending && !Data(s, t).warpOn
  }

  /** The running thread is charged no later than x units after its countdown, and EVTs are less than
      2^64 units apart. */
  ghost predicate Timely(s: State, c: Readings, x: nat)
    requires Steady(s)
  {
    var k := Countdown(s).value + x;
    && |c.prio| == |s.threads| && c.charge <= Data(s, s.curr).start + Times(k, s.mcu)
    && (assert s.runqueue[1] in s.runqueue; Data(s, s.runqueue[1]).evt - Data(s, s.curr).evt <= TICKS_MAX)
  }

  lemma NoRequest(s: State, t: nat, now: nat)
    requires t < |s.threads| && !s.threads[t].pending
    ensures PrioritizeOne(s, t, now) == s
  {
  }

  lemma {:induction false} NoRequests(s: State, n: nat, prio: seq<nat>)
    requires n <= |s.threads| == |prio| && forall t :: 0 <= t < |s.threads| ==> !s.threads[t].pending
    ensures PrioritizeAll(s, n, prio) == s
  {
    if n > 0 {
      NoRequests(s, n - 1, prio);
      assert PrioritizeAll(s, n, prio) == PrioritizeOne(s, n - 1, prio[n - 1]);
      NoRequest(s, n - 1, prio[n - 1]);
    }
  }

  /** In a steady state the second thread in the queue has the least AVT of the waiting ones. */
  lemma SecondIsNext(s: State, j: nat, gap: int)
    requires Steady(s) && j in s.runqueue && j != s.curr && j < |s.threads| && s.runqueue[1] < |s.threads|
    requires gap == Data(s, s.runqueue[1]).evt - Data(s, s.curr).evt
    ensures 0 <= gap <= Data(s, j).avt - Data(s, s.curr).avt
    ensures ShareOk(s.mcu, Data(s, s.curr))
  {
    var i, second, keys := s.curr, s.runqueue[1], Evts(s.threads);
    assert i in s.runqueue && second in s.runqueue;
    assert ThreadOk(s.mcu, s.curr, i, s.threads[i], i in s.runqueue);
    assert ThreadOk(s.mcu, s.curr, j, s.threads[j], j in s.runqueue);
    assert Key(keys, i) <= Key(keys, second);
    assert Key(keys, second) <= Key(keys, j) by {
      var p := IndexOf(s.runqueue, j);
    }
  }

  /** The thread that ran is at most CSA + x units of its ratio ahead of every other competing thread. */
  lemma RunnerLag(s: State, c: Readings, x: nat, d: Share, j: nat)
    requires Steady(s) && Timely(s, c, x) && d == Charge(Data(s, s.curr), s.mcu, c.charge)
    requires j in s.runqueue && j != s.curr && j < |s.threads|
    ensures d.avt - Data(s, j).avt <= (CSA + x) * Data(s, s.curr).ratio
  {
    var second := s.runqueue[1];
    assert second in s.runqueue && s.runqueue[0] in s.runqueue;
    var gap := Data(s, second).evt - Data(s, s.curr).evt;
    SecondIsNext(s, j, gap);
    var k := Countdown(s).value + x;
    assert Distance(Data(s, s.curr), Data(s, second)) == gap;
    ChargeBound(Data(s, s.curr), s.mcu, c.charge, gap, CSA + x, k);
  }

  lemma ChargedAvts(s: State, now: nat, r: State)
    requires Inv(s) && s.curr != IDLE && r == Charged(s, now)
    ensures |r.threads| == |s.threads|
    ensures forall t :: 0 <= t < |s.threads| ==>
              r.threads[t] == if t == s.curr then s.threads[t].(data := Charge(Data(s, t), s.mcu, now))
                  else s.threads[t]
  {
  }

  lemma ChargedLag(s: State, c: Readings, x: nat, r: State)
    requires Steady(s) && Timely(s, c, x) && r == Charged(s, c.charge) && Lag(s, CSA + x)
    ensures Lag(r, CSA + x)
  {
    assert s.curr in s.runqueue;
    assert ThreadOk(s.mcu, s.curr, s.curr, s.threads[s.curr], s.curr in s.runqueue);
    ChargedKeeps(s, c.charge, r);
    ChargedAvts(s, c.charge, r);
    ChargeLedger(Data(s, s.curr), s.mcu, c.charge);
    forall i: nat, j: nat | i < |r.threads| && j < |r.threads| && i != j && i in r.runqueue && j in r.runqueue
      ensures Data(r, i).avt - Data(r, j).avt <= (CSA + x) * Data(r, i).ratio
    {
      assert Data(s, i).avt - Data(s, j).avt <= (CSA + x) * Data(s, i).ratio;
      if i == s.curr {
        RunnerLag(s, c, x, Data(r, i), j);
      }
    }
  }

  /** One timely dispatch keeps the lag bound and the steady state. */
  lemma LagStep(s: State, c: Readings, x: nat, f: State)
    requires Steady(s) && Timely(s, c, x) && Lag(s, CSA + x) && f == Schedule(s, c)
    ensures Steady(f) && Lag(f, CSA + x) && SameMembers(s, f)
  {
    NoRequests(s, |s.threads|, c.prio);
    var r := Charged(s, c.charge);
    assert Inv(r) && SameMembers(s, r) by {
      SelectionState(s, c, r);
    }
    ChargedLag(s, c, x, r);
    DispatchLag(s, c, r, Chosen(r), CSA + x, f);
    SteadyAfter(s, c, r, Chosen(r), f);
  }

  lemma DispatchLag(s: State, c: Readings, r: State, next: nat, k: nat, f: State)
    requires Inv(r) && next == Chosen(r) && f == Dispatch(r, next, c) && Lag(r, k)
    ensures Inv(f) && Lag(f, k)
  {
    DispatchThreads(r, next, c, f);
    DispatchKeeps(r, next, c, f);
    forall i: nat, j: nat | i < |f.threads| && j < |f.threads| && i != j && i in f.runqueue && j in f.runqueue
      ensures Data(f, i).avt - Data(f, j).avt <= k * Data(f, i).ratio
    {
      assert Data(r, i).avt - Data(r, j).avt <= k * Data(r, i).ratio;
    }
  }

  lemma SteadyAfter(s: State, c: Readings, r: State, next: nat, f: State)
    requires Steady(s) && r == Charged(s, c.charge) && Inv(r) && SameMembers(s, r)
    requires next == Chosen(r) && f == Dispatch(r, next, c) && Inv(f)
    ensures Steady(f) && SameMembers(s, f)
  {
    assert s.curr in s.runqueue;
    assert ThreadOk(s.mcu, s.curr, s.curr, s.threads[s.curr], s.curr in s.runqueue);
    TwoMembers(s.runqueue, r.runqueue);
    DispatchThreads(r, next, c, f);
    ChargedAvts(s, c.charge, r);
    ChargeOk(Data(s, s.curr), s.mcu, c.charge);
    forall t | 0 <= t < |s.threads| ensures !f.threads[t].pending && !Data(f, t).warpOn {
      assert !s.threads[t].pending && !Data(s, t).warpOn;
    }
  }

  lemma TwoMembers(p: seq<nat>, q: seq<nat>)
    requires |p| >= 2 && NoDup(p) && forall x: nat :: x in q <==> x in p
    ensures |q| >= 2
  {
    assert p[0] in q && p[1] in q && p[0] != p[1];
  }

  // ---------------------------------------------------------------------
  // Runs
  // ---------------------------------------------------------------------

  /** A run of timely dispatches over a fixed set of competing threads. */
  ghost predicate Run(states: seq<State>, readings: seq<Readings>, x: nat) {
    && |states| == |readings| + 1 && Steady(states[0])
    && forall k :: 0 <= k < |readings| ==>
         (Steady(states[k]) ==> Timely(states[k], readings[k], x) && states[k + 1] == Schedule(states[k], readings[k]))
  }

  lemma {:induction false} RunLag(states: seq<State>, readings: seq<Readings>, x: nat, k: nat)
    requires Run(states, readings, x) && Lag(states[0], CSA + x) && k < |states|
    ensures Steady(states[k]) && Lag(states[k], CSA + x) && SameMembers(states[0], states[k])
    ensures SameBalance(states[0], states[k])
  {
    if k > 0 {
      RunLag(states, readings, x, k - 1);
      LagStep(states[k - 1], readings[k - 1], x, states[k]);
      ScheduleBalance(states[k - 1], readings[k - 1], states[k]);
    }
  }

  /** Ticks a thread was charged for between two states, in units of virtual time. */
  function Service(a: Share, b: Share): int {
    (b.served - a.served) * a.ratio
  }

  /** Between any two states of a run the weighted service of two competing threads differs by less
      than a bound that does not depend on how long the run is. */
  lemma ProportionalShare(states: seq<State>, readings: seq<Readings>, x: nat, k: nat, i: nat, j: nat)
    requires Run(states, readings, x) && Lag(states[0], CSA + x) && k < |states|
    requires i < |states[0].threads| && j < |states[0].threads| && i in states[0].runqueue && j in states[0].runqueue
    requires i != j
    ensures |states[k].threads| == |states[0].threads|
    ensures var a, b := states[0], states[k];
            Service(Data(a, i), Data(b, i)) - Service(Data(a, j), Data(b, j))
              < ((CSA + x) * (Data(a, i).ratio + Data(a, j).ratio) + 2) * a.mcu
  {
    RunLag(states, readings, x, k);
    var a, b := states[0], states[k];
    assert ThreadOk(a.mcu, a.curr, i, a.threads[i], i in a.runqueue)
        && ThreadOk(a.mcu, a.curr, j, a.threads[j], j in a.runqueue);
    assert ThreadOk(b.mcu, b.curr, i, b.threads[i], i in b.runqueue)
        && ThreadOk(b.mcu, b.curr, j, b.threads[j], j in b.runqueue);
    ShareGap(Data(a, i), Data(b, i), Data(a, j), Data(b, j), a.mcu, CSA + x);
  }

  lemma ServiceIsProgress(a: Share, b: Share, mcu: nat)
    requires b.ratio == a.ratio && Balance(a, mcu) == Balance(b, mcu)
    ensures Service(a, b) == (b.avt - a.avt) * mcu + b.residual - a.residual
  {
    MulSub(b.served, a.served, a.ratio);
    MulSub(b.avt, a.avt, mcu);
  }

  lemma ProgressGap(pi: int, pj: int, bound: int, mcu: nat)
    requires pi - pj <= bound
    ensures pi * mcu - pj * mcu + 2 * mcu <= (bound + 2) * mcu
  {
    MulSub(pi, pj, mcu);
    MulMono(pi - pj, bound, mcu);
    MulAdd(bound, 2, mcu);
  }

  lemma ShareGap(ai: Share, bi: Share, aj: Share, bj: Share, mcu: nat, k: nat)
    requires bi.ratio == ai.ratio && bj.ratio == aj.ratio
    requires Balance(ai, mcu) == Balance(bi, mcu) && Balance(aj, mcu) == Balance(bj, mcu)
    requires ai.residual < mcu && bi.residual < mcu && aj.residual < mcu && bj.residual < mcu
    requires bi.avt - bj.avt <= k * bi.ratio && aj.avt - ai.avt <= k * aj.ratio
    ensures Service(ai, bi) - Service(aj, bj) < (k * (ai.ratio + aj.ratio) + 2) * mcu
  {
    var pi, pj, bound := bi.avt - ai.avt, bj.avt - aj.avt, k * (ai.ratio + aj.ratio);
    assert pi - pj <= bound by {
      MulAdd(ai.ratio, aj.ratio, k);
    }
    assert Service(ai, bi) == pi * mcu + bi.residual - ai.residual by {
      ServiceIsProgress(ai, bi, mcu);
    }
    assert Service(aj, bj) == pj * mcu + bj.residual - aj.residual by {
      ServiceIsProgress(aj, bj, mcu);
    }
    ProgressGap(pi, pj, bound, mcu);
  }
}
