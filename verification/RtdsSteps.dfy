/**
 The RTDS operations one by one: each keeps the invariant; schedule() makes the
 EDF choice, arms the timer in time and replenishes on the period grid.
 */
module RtdsSteps {
  import opened Options
  import opened Periods
  import opened Lists
  import opened Threads
  import opened RtdsModel
  import opened RtdsInvariant

  // ---------------------------------------------------------------------
  // The timer
  // ---------------------------------------------------------------------

  lemma {:induction false} NextDepletedIsLeast(keys: seq<int>, q: seq<nat>)
    requires forall t :: t in q ==> Key(keys, t) > 0
    ensures q == [] ==> NextDepleted(keys, q) == 0
    ensures q != [] ==> exists t :: t in q && NextDepleted(keys, q) == Key(keys, t)
    ensures forall t :: t in q ==> 0 < NextDepleted(keys, q) <= Key(keys, t)
  {
    if q != [] {
      var front, last := q[..|q| - 1], q[|q| - 1];
      assert forall t :: t in q <==> t in front || t == last;
      NextDepletedIsLeast(keys, front);
      assert last in q;
      if front != [] {
        var t :| t in front && NextDepleted(keys, front) == Key(keys, t);
        assert t in q;
      }
    }
  }

  /** The next moment the scheduler has to look again: the running server's limit, or a replenishment. */
  ghost predicate Wakeup(s: State, running: Option<nat>, now: nat, at: int)
    requires running.Some? ==> running.value < |s.threads|
  {
    || (running.Some? && running.value != IDLE && at == RunLimit(Data(s, running.value), now))
    || (exists t :: t in s.depleted && t < |s.threads| && at == Data(s, t).deadline)
  }

  /** The timer is armed for the earliest such moment, and is off only when there is none. */
  ghost predicate TimerArmed(s: State, running: Option<nat>, now: nat, timer: Option<nat>)
    requires running.Some? ==> running.value < |s.threads|
  {
    && (timer.Some? ==> Wakeup(s, running, now, timer.value))
    && (forall at: int :: Wakeup(s, running, now, at) ==> timer.Some? && timer.value <= at)
  }

  lemma TimerArms(s: State, running: Option<nat>, now: nat)
    requires QueuesKnown(s) && (running.Some? ==> running.value < |s.threads| && Data(s, running.value).deadline > 0)
    requires forall t :: t in s.depleted ==> Data(s, t).deadline > 0
    ensures TimerArmed(s, running, now, ProgramTimer(s, running, now).timer)
  {
    var keys := Deadlines(s.threads);
    NextDepletedIsLeast(keys, s.depleted);
    var next := NextDepleted(keys, s.depleted);
    if s.depleted != [] {
      var t :| t in s.depleted && next == Key(keys, t);
      assert Wakeup(s, running, now, next);
    }
  }

  // ---------------------------------------------------------------------
  // schedule()
  // ---------------------------------------------------------------------

  predicate HasBudget(s: State, t: nat)
    requires t < |s.threads|
  {
    Data(s, t).remaining > 0
  }

  predicate NoLater(s: State, a: nat, b: nat)
    requires a < |s.threads| && b < |s.threads|
  {
    Data(s, a).deadline <= Data(s, b).deadline
  }

  /** `next` is an active thread with budget and the earliest deadline; if none has budget, the
      active thread with the earliest deadline; if none is active, the idle thread. */
  ghost predicate BestActive(s: State, next: nat) {
    && next < |s.threads|
    && (forall t: nat :: t < |s.threads| && Active(s, t) ==> Active(s, next))
    && (forall t: nat :: t < |s.threads| && Active(s, t) && HasBudget(s, t) ==>
         HasBudget(s, next) && NoLater(s, next, t))
    && (!HasBudget(s, next) ==> forall t: nat :: t < |s.threads| && Active(s, t) ==> NoLater(s, next, t))
    && (!Active(s, next) ==> next == IDLE)
  }

  lemma ChosenIsBest(s: State, clock: nat)
    requires Inv(s, clock) && Settled(s)
    ensures BestActive(s, Chosen(s))
  {
    var keys, next := Deadlines(s.threads), Chosen(s);
    if next == IDLE {
      assert ThreadOk(s.period, clock, s.curr, IDLE, s.threads[IDLE]);
    }
    assert forall t: nat :: t < |s.threads| ==> SettledAt(s, t);
    forall t: nat | t < |s.threads| && Active(s, t)
      ensures Active(s, next) && (HasBudget(s, t) ==> HasBudget(s, next))
      ensures (HasBudget(s, t) || !HasBudget(s, next) ==> NoLater(s, next, t))
    {
      assert SettledAt(s, t) && SettledAt(s, next);
      if t in s.ready {
        FirstIsLeast(keys, s.ready, t);
      } else {
        assert t in s.depleted;
      }
    }
  }

  /** The thread switched to by schedule() is the EDF choice among the competing threads. */
  ghost predicate EdfChoice(s: State) {
    && s.curr < |s.threads|
    && (forall t: nat :: t < |s.threads| && Competes(t, s.threads[t]) ==> Competes(s.curr, s.threads[s.curr]))
    && (forall t: nat :: t < |s.threads| && Competes(t, s.threads[t]) && HasBudget(s, t) ==>
         HasBudget(s, s.curr) && NoLater(s, s.curr, t))
    && (!HasBudget(s, s.curr) ==> forall t: nat :: t < |s.threads| && Competes(t, s.threads[t]) ==>
         NoLater(s, s.curr, t))
  }

  /** What selection leaves: the queues without `next`, and every server otherwise as it was. */
  ghost predicate Taken(s: State, f: State, next: nat, now: nat) {
    && |f.threads| == |s.threads| && next < |s.threads| && f.period == s.period && f.charged == s.charged
    && f.ready == Without(s.ready, next) && f.depleted == Without(s.depleted, next) && f.curr == next
    && forall t :: 0 <= t < |s.threads| ==>
         f.threads[t].data == if t == next && t != IDLE
                              then s.threads[t].data.(queue := NoQueue, lastStart := now) else s.threads[t].data
  }

  lemma DispatchTakes(s: State, clock: nat, next: nat, c: Readings)
    requires Inv(s, clock) && Settled(s) && next == Chosen(s) && next < |s.threads|
    ensures Taken(s, Dispatch(s, next, c), next, c.pick)
  {
    if next == IDLE {
      assert ThreadOk(s.period, clock, s.curr, IDLE, s.threads[IDLE]);
      WithoutAbsent(s.ready, IDLE);
      WithoutAbsent(s.depleted, IDLE);
    }
  }

  lemma TakenQueues(s: State, f: State, clock: nat, next: nat, now: nat)
    requires Inv(s, clock) && Taken(s, f, next, now)
    ensures Links(f) && EdfOrder(f) && Books(f)
  {
    SameDeadlines(s.threads, f.threads);
    WithoutSorted(Deadlines(s.threads), s.ready, next);
    WithoutNoDup(s.ready, next);
    WithoutNoDup(s.depleted, next);
    assert ThreadOk(s.period, clock, s.curr, next, s.threads[next]);
    SameBooks(s, f);
  }

  /** The threads after the switch: only `next` runs, and the outgoing thread is queued or blocked. */
  lemma DispatchThread(s: State, clock: nat, next: nat, c: Readings, t: nat)
    requires Inv(s, clock) && Settled(s) && next == Chosen(s) && next < |s.threads| && t < |s.threads|
    requires BestActive(s, next) && clock <= c.switch_ && c.pick <= c.switch_
    ensures var th := Dispatch(s, next, c).threads[t];
            && ThreadOk(s.period, c.switch_, next, t, th)
            && (Competes(t, th) <==> Active(s, t))
  {
    BoundaryOrder(clock, c.switch_, s.period);
    assert ThreadOk(s.period, clock, s.curr, t, s.threads[t]);
    assert SettledAt(s, t);
  }

  lemma DispatchKeeps(s: State, clock: nat, next: nat, c: Readings)
    requires Inv(s, clock) && Settled(s) && next == Chosen(s) && next < |s.threads|
    requires BestActive(s, next) && clock <= c.switch_ && c.pick <= c.switch_
    ensures Inv(Dispatch(s, next, c), c.switch_)
    ensures EdfChoice(Dispatch(s, next, c))
  {
    var f := Dispatch(s, next, c);
    DispatchTakes(s, clock, next, c);
    TakenQueues(s, f, clock, next, c.pick);
    forall t: nat | t < |s.threads|
      ensures ThreadOk(s.period, c.switch_, next, t, f.threads[t]) && (Competes(t, f.threads[t]) <==> Active(s, t))
    {
      DispatchThread(s, clock, next, c, t);
    }
    DispatchChoice(s, f, next, c.pick);
  }

  lemma DispatchChoice(s: State, f: State, next: nat, now: nat)
    requires Taken(s, f, next, now) && s.curr < |s.threads| && BestActive(s, next)
    requires forall t: nat :: t < |s.threads| ==> (Competes(t, f.threads[t]) <==> Active(s, t))
    ensures EdfChoice(f)
  {
    forall t: nat | t < |s.threads|
      ensures (HasBudget(f, t) <==> HasBudget(s, t)) && (NoLater(f, next, t) <==> NoLater(s, next, t))
    {
    }
  }

  lemma DispatchTimer(s: State, clock: nat, next: nat, c: Readings)
    requires Inv(s, clock) && Settled(s) && next == Chosen(s) && next < |s.threads|
    ensures var f := Dispatch(s, next, c); next < |f.threads| && TimerArmed(f, Some(next), c.timer, f.timer)
  {
    var r := Take(s, next, c.pick);
    var f := Dispatch(s, next, c);
    DispatchTakes(s, clock, next, c);
    forall t: nat | t < |s.threads|
      ensures Data(r, t).deadline == Data(f, t).deadline > 0
      ensures RunLimit(Data(r, t), c.timer) == RunLimit(Data(f, t), c.timer)
    {
      assert ThreadOk(s.period, clock, s.curr, t, s.threads[t]);
    }
    TimerArms(r, Some(next), c.timer);
    forall at: int ensures Wakeup(f, Some(next), c.timer, at) <==> Wakeup(r, Some(next), c.timer, at) {
    }
  }

  // ---------------------------------------------------------------------
  // Priority requests
  // ---------------------------------------------------------------------

  /** Replenishing later starts from what was replenished earlier. */
  lemma ReplenishTwice(period: nat, clock: nat, d: Server, a: nat, b: nat)
    requires ServerOk(period, clock, d) && a <= b
    ensures Replenish(Replenish(d, period, a), period, b) == Replenish(d, period, b)
  {
    JumpLands(d.deadline, a, period);
    JumpLands(d.deadline, b, period);
    BoundaryIsNext(a, period);
    BoundaryIsNext(b, period);
    var m := Jump(d.deadline, a, period);
    JumpLands(m, b, period);
    assert OnGrid(m, period);
  }

  /** With one period for all, a server inserted at the current time goes to the tail, so the
      thread that is out of place does not disturb the others. */
  lemma ReadyOrderBut(s: State, a: State, t: nat, c: nat, keys: seq<int>)
    requires Links(s) && t < |s.threads| && Only(s, a, t) && a.ready == s.ready && keys == Deadlines(a.threads)
    requires SortedBut(Deadlines(s.threads), s.ready, c)
    requires forall x :: 0 <= x < |s.threads| ==> Data(a, x).deadline <= Data(a, t).deadline
    ensures SortedBut(keys, ReadyInsert(a, t).ready, c)
  {
    var q := Without(s.ready, t);
    WithoutSortedBut(Deadlines(s.threads), s.ready, c, t);
    SortedButSame(Deadlines(s.threads), keys, q, c);
    SameDeadlines(a.threads, QueueRemove(a, t).threads);
    forall j | 0 <= j < |q| ensures Key(keys, q[j]) <= Key(keys, t) {
      assert q[j] in q && q[j] in s.ready;
      assert Data(a, q[j]).deadline <= Data(a, t).deadline;
    }
    AppendSortedBut(keys, q, c, t);
  }

  lemma PrioritizeOrder(s: State, t: nat, now: nat)
    requires LoopInv(s, now) && t < |s.threads|
    ensures SortedBut(Deadlines(Prioritize(s, t, now).threads), Prioritize(s, t, now).ready, s.curr)
  {
    var a, r := Advance(s, t, now), Prioritize(s, t, now);
    assert ThreadOk(s.period, now, s.curr, t, s.threads[t]);
    if t == s.curr {
      AdvanceCore(s, t, now, now);
    } else if Data(a, t).remaining > 0 {
      ReplenishOk(s.period, now, now, Data(s, t));
      forall x | 0 <= x < |s.threads| ensures Data(a, x).deadline <= Data(a, t).deadline {
        assert ThreadOk(s.period, now, s.curr, x, s.threads[x]);
      }
      SameDeadlines(a.threads, r.threads);
      ReadyOrderBut(s, a, t, s.curr, Deadlines(a.threads));
    } else {
      SameDeadlines(s.threads, a.threads);
    }
  }

  lemma PrioritizeLinks(s: State, t: nat, now: nat)
    requires Core(s, now) && t < |s.threads|
    ensures Links(Prioritize(s, t, now)) && Books(Prioritize(s, t, now))
  {
    var a, r := Advance(s, t, now), Prioritize(s, t, now);
    assert Links(a) && Books(a) by {
      AdvanceCore(s, t, now, now);
    }
    InsertKeepsBooks(a, t, ReadyInsert(a, t));
  }

  lemma InsertKeepsBooks(a: State, t: nat, r: State)
    requires Links(a) && Books(a) && t < |a.threads| && r == ReadyInsert(a, t)
    ensures Links(r) && Books(r)
  {
    ReadyLinks(a, t);
    SameBooks(a, r);
  }

  lemma PrioritizeKeeps(s: State, t: nat, now: nat)
    requires LoopInv(s, now) && t < |s.threads| && t != IDLE && OnCpu(s.threads[t]) && !s.threads[t].beBlocking
    ensures LoopInv(Prioritize(s, t, now), now)
  {
    var r := Prioritize(s, t, now);
    assert ThreadOk(s.period, now, s.curr, t, s.threads[t]);
    ReplenishOk(s.period, now, now, Data(s, t));
    PrioritizeOrder(s, t, now);
    PrioritizeLinks(s, t, now);
    forall x | 0 <= x < |s.threads| ensures ThreadOk(s.period, now, s.curr, x, r.threads[x]) {
      assert ThreadOk(s.period, now, s.curr, x, s.threads[x]);
    }
  }

  lemma PrioritizeOneKeeps(s: State, t: nat, clock: nat, now: nat, f: State)
    requires LoopInv(s, clock) && t < |s.threads| && clock <= now && f == PrioritizeOne(s, t, now)
    ensures LoopInv(f, now)
  {
    CoreLater(s, clock, now);
    if s.threads[t].pending {
      var r := SetThread(s, t, s.threads[t].(pending := false));
      assert ThreadOk(s.period, now, s.curr, t, s.threads[t]);
      SameDeadlines(s.threads, r.threads);
      SameBooks(s, r);
      forall x | 0 <= x < |s.threads| ensures ThreadOk(s.period, now, s.curr, x, r.threads[x]) {
        assert ThreadOk(s.period, now, s.curr, x, s.threads[x]);
      }
      if OnCpu(r.threads[t]) && !r.threads[t].beBlocking {
        PrioritizeKeeps(r, t, now);
      }
    }
  }

  /** The clock readings of one call come after `clock` and do not decrease. */
  ghost predicate Ordered(c: Readings, n: nat, clock: nat) {
    && |c.prio| == n
    && (forall i :: 0 <= i < n ==> clock <= c.prio[i] <= c.pick)
    && (forall i, j :: 0 <= i < j < n ==> c.prio[i] <= c.prio[j])
    && clock <= c.pick <= c.timer <= c.switch_
  }

  /** The last clock reading before thread n is looked at. */
  function LastRead(prio: seq<nat>, n: nat, clock: nat): nat
    requires n <= |prio|
  {
    if n == 0 then clock else prio[n - 1]
  }

  lemma PrioritizeMore(before: State, t: nat, n: nat, earlier: nat, last: nat, s: State, prio: seq<nat>, f: State)
    requires t < |s.threads| == |before.threads| == |prio| && s.period > 0 && before == PrioritizeAll(s, t, prio)
    requires n == t + 1 && f == PrioritizeAll(s, n, prio) && LoopInv(before, earlier) && earlier <= last == prio[t]
    ensures LoopInv(f, last)
  {
    assert f == PrioritizeOne(before, t, last);
    PrioritizeOneKeeps(before, t, earlier, last, f);
  }

  lemma ReadInOrder(c: Readings, n: nat, m: nat, clock: nat)
    requires Ordered(c, m, clock) && 0 < n <= m
    ensures LastRead(c.prio, n - 1, clock) <= LastRead(c.prio, n, clock) == c.prio[n - 1]
  {
  }

  lemma {:induction false} PrioritizeAllKeeps(s: State, n: nat, c: Readings, clock: nat, f: State, last: nat)
    requires LoopInv(s, clock) && n <= |s.threads| && Ordered(c, |s.threads|, clock)
    requires f == PrioritizeAll(s, n, c.prio) && last == LastRead(c.prio, n, clock)
    ensures LoopInv(f, last)
  {
    if n > 0 {
      var m, before, earlier := n - 1, PrioritizeAll(s, n - 1, c.prio), LastRead(c.prio, n - 1, clock);
      ReadInOrder(c, n, |s.threads|, clock);
      PrioritizeAllKeeps(s, m, c, clock, before, earlier);
      PrioritizeMore(before, m, n, earlier, last, s, c.prio, f);
    }
  }

  /** The queues that schedule() selects from. */
  lemma SelectionState(s: State, c: Readings, clock: nat, r: State)
    requires Inv(s, clock) && Ordered(c, |s.threads|, clock) && QueuesKnown(s)
    requires r == Refreshed(PrioritizeAll(s, |s.threads|, c.prio), c.pick)
    ensures Inv(r, c.pick) && Settled(r) && Fresh(r, c.pick) && BestActive(r, Chosen(r))
  {
    var n := |s.threads|;
    var p, last := PrioritizeAll(s, n, c.prio), LastRead(c.prio, n, clock);
    PrioritizeAllKeeps(s, n, c, clock, p, last);
    CoreLater(p, last, c.pick);
    RefreshedKeeps(p, c.pick, c.pick);
    ChosenIsBest(r, c.pick);
  }

  /** What schedule() achieves. */
  ghost predicate Scheduled(f: State, c: Readings) {
    && Inv(f, c.switch_) && EdfChoice(f) && !f.resched
    && TimerArmed(f, Some(f.curr), c.timer, f.timer)
    && forall t: nat :: t < |f.threads| && Competes(t, f.threads[t]) ==> c.pick < Data(f, t).deadline
  }

  lemma DispatchSchedules(r: State, next: nat, c: Readings, f: State)
    requires Inv(r, c.pick) && Settled(r) && Fresh(r, c.pick) && next == Chosen(r) && BestActive(r, next)
    requires f == Dispatch(r, next, c) && c.pick <= c.timer <= c.switch_
    ensures Scheduled(f, c)
  {
    DispatchKeeps(r, c.pick, next, c);
    DispatchTimer(r, c.pick, next, c);
    DispatchFresh(r, c);
  }

  /** schedule() keeps the invariant, makes the EDF choice and arms the timer for the next decision. */
  lemma ScheduleKeeps(s: State, c: Readings, clock: nat)
    requires Inv(s, clock) && Ordered(c, |s.threads|, clock) && QueuesKnown(s)
    ensures Scheduled(Schedule(s, c), c)
  {
    var r := Refreshed(PrioritizeAll(s, |s.threads|, c.prio), c.pick);
    SelectionState(s, c, clock, r);
    DispatchSchedules(r, Chosen(r), c, Schedule(s, c));
  }

  lemma DispatchFresh(r: State, c: Readings)
    requires Inv(r, c.pick) && Settled(r) && Fresh(r, c.pick) && Chosen(r) < |r.threads| && BestActive(r, Chosen(r))
    requires c.pick <= c.switch_
    ensures var f := Dispatch(r, Chosen(r), c);
            forall t: nat :: t < |f.threads| && Competes(t, f.threads[t]) ==> c.pick < Data(f, t).deadline
  {
    var f := Dispatch(r, Chosen(r), c);
    DispatchTakes(r, c.pick, Chosen(r), c);
    forall t: nat | t < |f.threads| && Competes(t, f.threads[t]) ensures c.pick < Data(f, t).deadline {
      DispatchThread(r, c.pick, Chosen(r), c, t);
      assert SettledAt(r, t);
    }
  }
}
