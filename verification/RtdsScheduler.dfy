/**
 The RTDS scheduler as the object core/sched_rtds.c and core/schedule.c update
 in place: its loops and list operations, each proved equal to the function that
 specifies it.
 */
module RtdsScheduler {
  import opened Options
  import opened Periods
  import opened Lists
  import opened Threads
  import opened RtdsModel
  import opened RtdsInvariant
  import opened RtdsWalk
  import opened RtdsSteps
  import opened RtdsRuns

  /** The search of rtds_ready_insert: the first server with a later deadline than thread t. */
  method FindPlace(ths: seq<Thread<Server>>, q: seq<nat>, t: nat) returns (i: nat)
    requires t < |ths| && forall x :: x in q ==> x < |ths|
    ensures i == InsertPos(Deadlines(ths), q, t)
  {
    ghost var keys := Deadlines(ths);
    assert forall i :: 0 <= i < |q| ==> q[i] in q;
    i := 0;
    while i < |q| && ths[q[i]].data.deadline <= ths[t].data.deadline
      invariant i <= |q|
      invariant forall j :: 0 <= j < i ==> Key(keys, q[j]) <= Key(keys, t)
    {
      i := i + 1;
    }
  }

  /** The scan of rtds_next_depleted_deadline. */
  method NextDepletedDeadline(ths: seq<Thread<Server>>, q: seq<nat>) returns (next: int)
    requires forall x :: x in q ==> x < |ths|
    ensures next == NextDepleted(Deadlines(ths), q)
  {
    assert forall i :: 0 <= i < |q| ==> q[i] in q;
    next := 0;
    for i: nat := 0 to |q|
      invariant next == NextDepleted(Deadlines(ths), q[..i])
    {
      assert q[..i + 1][..i] == q[..i];
      var deadline := ths[q[i]].data.deadline;
      if next == 0 || deadline < next {
        next := deadline;
      }
    }
    assert q[..|q|] == q;
  }

  /** The scan of rtds_pick_depleted_slack. */
  method EarliestDeadline(ths: seq<Thread<Server>>, q: seq<nat>) returns (best: Option<nat>)
    requires forall x :: x in q ==> x < |ths|
    ensures best == Earliest(Deadlines(ths), q)
  {
    assert forall i :: 0 <= i < |q| ==> q[i] in q;
    best := None;
    for i: nat := 0 to |q|
      invariant best == Earliest(Deadlines(ths), q[..i]) && (best.Some? ==> best.value < |ths|)
    {
      assert q[..i + 1][..i] == q[..i];
      if best.None? || ths[q[i]].data.deadline < ths[best.value].data.deadline {
        best := Some(q[i]);
      }
    }
    assert q[..|q|] == q;
  }

  /** The loop over the ready queue stands at `pos`; the rest of the snapshot is still to be refreshed. */
  ghost predicate AtReady(s0: State, s: State, pos: Option<nat>, rest: seq<nat>, e: nat, now: nat, clk: nat) {
    && s0.period > 0 && Known(s0, s0.ready)
    && Inv(s, clk) && Settled(s) && Walking(s, rest, e, now)
    && RefreshReadyAll(s, rest, now) == RefreshReadyAll(s0, s0.ready, now)
    && (e > 0 ==> |s.ready| > 0 && pos == Some(s.ready[0]))
    && (pos.Some? ==> pos.value in s.ready)
  }

  /** How far the loop over the ready queue still has to go once nothing is expired. */
  ghost function ReadyLeft(q: seq<nat>, pos: Option<nat>): nat {
    if pos.Some? && pos.value in q then |q| - IndexOf(q, pos.value) else 0
  }

  lemma AtReadyStart(s: State, now: nat, clk: nat) returns (e: nat)
    requires Inv(s, clk) && Settled(s) && now <= clk && QueuesKnown(s)
    ensures AtReady(s, s, First(s.ready), s.ready, e, now, clk)
  {
    assert forall i :: 0 <= i < |s.ready| ==> s.ready[i] in s.ready;
    e := LinedStart(Deadlines(s.threads), s.ready, 0, now);
  }

  lemma AtReadyExpired(s0: State, s: State, t: nat, rest: seq<nat>, e: nat, now: nat, clk: nat, r: State,
                       tmp: Option<nat>)
    requires AtReady(s0, s, Some(t), rest, e, now, clk) && now <= clk && t < |s.threads| && Data(s, t).deadline <= now
    requires r == RefreshReady(s, t, now) && tmp == Next(s.ready, t)
    ensures e > 0 && AtReady(s0, r, tmp, rest[1..], e - 1, now, clk)
  {
    ExpiredIsLeft(s, rest, e, now, t);
    WalkStep(s, rest, e, now, clk, r);
    assert IndexOf(s.ready, t) == 0;
    if tmp.Some? {
      NextIsFurther(s.ready, t);
    }
  }

  lemma AtReadyUnexpired(s0: State, s: State, t: nat, rest: seq<nat>, e: nat, now: nat, clk: nat, tmp: Option<nat>)
    requires AtReady(s0, s, Some(t), rest, e, now, clk) && t < |s.threads| && now < Data(s, t).deadline
    requires tmp == Next(s.ready, t)
    ensures AtReady(s0, s, tmp, rest, e, now, clk) && ReadyLeft(s.ready, tmp) < ReadyLeft(s.ready, Some(t))
  {
    if tmp.Some? {
      NextIsFurther(s.ready, t);
    }
  }

  /** The loop over priority requests has dealt with the first n threads. */
  ghost predicate Requested(s0: State, s: State, n: nat, c: Readings, clk: nat, last: nat) {
    && n <= |s0.threads| == |s.threads| == |c.prio| && s0.period > 0
    && last == LastRead(c.prio, n, clk) && LoopInv(s, last) && s == PrioritizeAll(s0, n, c.prio)
  }

  lemma RequestedNext(s0: State, s: State, r: State, t: nat, c: Readings, clk: nat, last: nat, next: nat)
    requires Requested(s0, s, t, c, clk, last) && t < |s0.threads| && next == c.prio[t]
    requires r == PrioritizeOne(s, t, next) && LoopInv(r, next)
    ensures Requested(s0, r, t + 1, c, clk, next)
  {
  }

  lemma RequestedStart(s: State, c: Readings, clk: nat)
    requires Inv(s, clk) && Ordered(c, |s.threads|, clk)
    ensures Requested(s, s, 0, c, clk, clk)
  {
  }

  lemma RequestedEnd(s0: State, s: State, n: nat, c: Readings, clk: nat, last: nat)
    requires Requested(s0, s, n, c, clk, last) && n == |s0.threads| && Ordered(c, n, clk)
    ensures LoopInv(s, c.pick) && s == PrioritizeAll(s0, n, c.prio)
  {
    CoreLater(s, last, c.pick);
  }

  class Scheduler {
    const period: nat
    var threads: seq<Thread<Server>>
    var ready: seq<nat>
    var depleted: seq<nat>
    var curr: nat
    var resched: bool
    var timer: Option<nat>
    ghost var charged: map<(nat, nat), nat>
    ghost var clock: nat
    ghost var start: nat

    ghost function St(): State
      reads this
    {
      State(period, threads, ready, depleted, curr, resched, timer, charged)
    }

    /** The invariant between operations; no clock reading so far exceeds `clock`. */
    ghost predicate Valid()
      reads this
    {
      Inv(St(), clock) && Booked(threads, curr, start, clock)
    }

    /** run_idle_thread: only the idle thread exists, and it runs. */
    constructor (period: nat, budget: nat, now: nat, runNow: nat)
      requires period > 0 && budget > 0 && 0 < now <= runNow
      ensures Valid() && clock == start == runNow && curr == IDLE && |threads| == 1 && this.period == period
    {
      this.period := period;
      threads := [Thread(Running, false, false, runNow, 0, Server(budget, budget, Boundary(now, period), 0, NoQueue))];
      ready, depleted, curr, resched, timer := [], [], IDLE, false, None;
      charged, clock, start := map[], runNow, runNow;
      new;
      BoundaryIsNext(now, period);
      BoundaryOrder(now, runNow, period);
      assert TotalRuntime(threads) == TotalRuntime(threads[..0]) + threads[0].runtime;
    }

    // -------------------------------------------------------------------
    // Queues
    // -------------------------------------------------------------------

    method SetServer(t: nat, d: Server)
      requires t < |threads|
      modifies `threads
      ensures St() == SetData(old(St()), t, d)
    {
      threads := threads[t := threads[t].(data := d)];
    }

    /** rtds_queue_remove: the tag says which list the node is on. */
    method RemoveFromQueue(t: nat)
      requires t < |threads| && Links(St())
      modifies `threads, `ready, `depleted
      ensures St() == QueueRemove(old(St()), t)
    {
      var d := threads[t].data;
      if d.queue == Ready {
        WithoutAbsent(depleted, t);
        ready := Without(ready, t);
      } else if d.queue == Depleted {
        WithoutAbsent(ready, t);
        depleted := Without(depleted, t);
      } else {
        WithoutAbsent(ready, t);
        WithoutAbsent(depleted, t);
      }
      threads := threads[t := threads[t].(data := d.(queue := NoQueue))];
    }

    /** rtds_ready_insert. */
    method InsertReady(t: nat)
      requires t < |threads| && Links(St())
      modifies `threads, `ready, `depleted
      ensures St() == ReadyInsert(old(St()), t)
    {
      RemoveLinks(St(), t);
      RemoveFromQueue(t);
      var i := FindPlace(threads, ready, t);
      ready := InsertAt(ready, i, t);
      threads := threads[t := threads[t].(data := threads[t].data.(queue := Ready))];
    }

    /** rtds_depleted_insert. */
    method InsertDepleted(t: nat)
      requires t < |threads| && Links(St())
      modifies `threads, `ready, `depleted
      ensures St() == DepletedInsert(old(St()), t)
    {
      if threads[t].data.queue == Depleted {
        return;
      }
      RemoveFromQueue(t);
      depleted := depleted + [t];
      threads := threads[t := threads[t].(data := threads[t].data.(queue := Depleted))];
    }

    // -------------------------------------------------------------------
    // Budget
    // -------------------------------------------------------------------

    /** rtds_account_runtime. */
    method AccountRuntime(t: nat, now: nat)
      requires t < |threads|
      modifies `threads, `charged
      ensures St() == Account(old(St()), t, now)
    {
      if t == IDLE || threads[t].status != Running {
        return;
      }
      var d := threads[t].data;
      var e := d;
      if d.lastStart != 0 && now > d.lastStart {
        var delta := now - d.lastStart;
        e := e.(lastStart := now);
        if delta >= e.remaining {
          e := e.(remaining := 0);
        } else {
          e := e.(remaining := e.remaining - delta);
        }
      }
      charged := charged[(t, d.deadline) := Charged(charged, t, d.deadline) + (d.remaining - e.remaining)];
      threads := threads[t := threads[t].(data := e)];
    }

    /** rtds_advance_period: says whether a deadline was passed. */
    method AdvancePeriod(t: nat, now: nat) returns (advanced: bool)
      requires t < |threads| && period > 0
      modifies `threads
      ensures St() == Advance(old(St()), t, now) && advanced == (old(threads)[t].data.deadline <= now)
    {
      var d := threads[t].data;
      advanced := d.deadline <= now;
      var e := if advanced then d.(deadline := Jump(d.deadline, now, period), remaining := d.budget) else d;
      threads := threads[t := threads[t].(data := e)];
    }

    /** rtds_refresh_thread. */
    method Refresh(t: nat, now: nat)
      requires t < |threads| && period > 0 && Links(St())
      modifies `threads, `ready, `depleted
      ensures St() == RefreshThread(old(St()), t, now)
    {
      var _ := AdvancePeriod(t, now);
      if t != IDLE && ((t == curr && !threads[t].beBlocking) || threads[t].status == Runnable) {
        if threads[t].data.remaining > 0 {
          InsertReady(t);
        } else if !threads[t].beBlocking {
          InsertDepleted(t);
        }
      }
    }

    /** rtds_refresh_queues: both loops save the next node before they touch the current one. */
    method RefreshAll(now: nat, ghost clk: nat)
      requires Inv(St(), clk) && Settled(St()) && now <= clk
      modifies `threads, `ready, `depleted
      ensures QueuesKnown(old(St())) && St() == RefreshQueues(old(St()), now)
    {
      CoreKnown(St(), clk);
      ghost var s0 := St();
      RefreshReadyQueue(now, clk);
      ghost var s1 := St();
      assert Inv(s1, clk) && Settled(s1) by {
        ReadyAllKeeps(s0, s0.ready, clk, now, s1);
      }
      CoreKnown(s1, clk);
      RefreshDepletedQueue(now, clk);
    }

    method RefreshReadyQueue(now: nat, ghost clk: nat)
      requires Inv(St(), clk) && Settled(St()) && now <= clk && QueuesKnown(St())
      modifies `threads, `ready, `depleted
      ensures St() == RefreshReadyAll(old(St()), old(ready), now)
    {
      ghost var s0, rest := St(), ready;
      ghost var e := AtReadyStart(St(), now, clk);
      var pos := First(ready);
      while pos.Some?
        invariant AtReady(s0, St(), pos, rest, e, now, clk)
        decreases e, ReadyLeft(ready, pos)
      {
        pos, rest, e := VisitReady(s0, pos.value, rest, e, now, clk);
      }
      NothingExpired(St(), rest, now);
    }

    /** One iteration of the loop over the ready queue. */
    method VisitReady(ghost s0: State, t: nat, ghost rest: seq<nat>, ghost e: nat, now: nat, ghost clk: nat)
      returns (pos': Option<nat>, ghost rest': seq<nat>, ghost e': nat)
      requires AtReady(s0, St(), Some(t), rest, e, now, clk) && now <= clk
      modifies `threads, `ready, `depleted
      ensures AtReady(s0, St(), pos', rest', e', now, clk)
      ensures e' < e || (e' == e && ReadyLeft(ready, pos') < ReadyLeft(old(ready), Some(t)))
    {
      ghost var s := St();
      CoreKnown(s, clk);
      pos', rest', e' := Next(ready, t), rest, e;
      if threads[t].data.deadline <= now {
        RefreshOne(t, now, clk);
        rest', e' := rest[1..], e - 1;
        AtReadyExpired(s0, s, t, rest, e, now, clk, St(), pos');
      } else {
        AtReadyUnexpired(s0, s, t, rest, e, now, clk, pos');
      }
    }

    method RefreshOne(t: nat, now: nat, ghost clk: nat)
      requires Inv(St(), clk) && now <= clk && t < |threads| && threads[t].data.deadline <= now
      modifies `threads, `ready, `depleted
      ensures St() == RefreshReady(old(St()), t, now)
    {
      AdvanceCore(St(), t, clk, now);
      var _ := AdvancePeriod(t, now);
      RemoveLinks(St(), t);
      RemoveFromQueue(t);
      Refresh(t, now);
    }

    method RefreshDepletedQueue(now: nat, ghost clk: nat)
      requires Inv(St(), clk) && Settled(St()) && now <= clk && QueuesKnown(St())
      modifies `threads, `ready, `depleted
      ensures St() == RefreshDepletedAll(old(St()), old(depleted), now)
    {
      ghost var s0, rest := St(), depleted;
      var pos := First(depleted);
      while pos.Some?
        invariant Inv(St(), clk) && Settled(St()) && Known(St(), rest) && Trailing(depleted, rest) && pos == First(rest)
        invariant RefreshDepletedAll(St(), rest, now) == RefreshDepletedAll(s0, s0.depleted, now)
        decreases |rest|
      {
        ghost var s := St();
        var t := pos.value;
        assert t in rest;
        TrailingStep(depleted, rest);
        var tmp := Next(depleted, t);
        Refresh(t, now);
        DepletedStep(s, rest, now, clk, St());
        rest := rest[1..];
        pos := tmp;
      }
    }

    // -------------------------------------------------------------------
    // Selection and timer
    // -------------------------------------------------------------------

    /** rtds_program_local_timer. */
    method ProgramLocalTimer(running: Option<nat>, now: nat)
      requires QueuesKnown(St()) && (running.Some? ==> running.value < |threads|)
      modifies `timer
      ensures St() == ProgramTimer(old(St()), running, now)
    {
      timer := None;
      var timeout: int := 0;
      if running.Some? && running.value != IDLE {
        var d := threads[running.value].data;
        if d.remaining > 0 {
          timeout := if d.lastStart != 0 then d.lastStart + d.remaining else now + d.remaining;
          if d.deadline < timeout {
            timeout := d.deadline;
          }
          if timeout <= now {
            timeout := now;
          }
        } else {
          timeout := if d.deadline > now then d.deadline else now;
        }
      }
      var replenish := NextDepletedDeadline(threads, depleted);
      if replenish != 0 && (timeout == 0 || replenish < timeout) {
        timeout := replenish;
      }
      if timeout > 0 {
        timer := Some(timeout);
      }
    }

    /** The part of sched_rtds_pick_next and rtds_timer_handler that charges the current thread and
        refreshes both queues. */
    method RefreshForSelection(now: nat, ghost clk: nat)
      requires LoopInv(St(), clk) && now <= clk
      modifies `threads, `ready, `depleted, `charged
      ensures QueuesKnown(old(St())) && St() == Refreshed(old(St()), now)
    {
      CoreKnown(St(), clk);
      RefreshCurrentKeeps(St(), clk, now);
      if curr != IDLE {
        AccountCore(St(), clk, now);
        AccountRuntime(curr, now);
        Refresh(curr, now);
      }
      RefreshAll(now, clk);
    }

    /** The selection of sched_rtds_pick_next, after the refresh. */
    method SelectNext() returns (next: nat)
      requires Links(St())
      ensures next == Chosen(St())
    {
      if ready != [] {
        next := ready[0];
      } else {
        var best := EarliestDeadline(threads, depleted);
        next := if best.Some? then best.value else IDLE;
      }
    }

    /** The end of sched_rtds_pick_next: take the selected server off its queue, start charging it
        and program the timer. */
    method TakeNext(next: nat, now: nat, timerNow: nat)
      requires next < |threads| && Links(St())
      modifies `threads, `ready, `depleted, `timer
      ensures St() == ProgramTimer(Take(old(St()), next, now), Some(next), timerNow)
    {
      if next != IDLE {
        RemoveLinks(St(), next);
        RemoveFromQueue(next);
        SetServer(next, threads[next].data.(lastStart := now));
      }
      ProgramLocalTimer(Some(next), timerNow);
    }

    // -------------------------------------------------------------------
    // The operations of core/schedule.c
    // -------------------------------------------------------------------

    /** The loop of schedule() that consumes priority requests. */
    method ConsumeRequests(c: Readings, ghost clk: nat) returns (ghost last: nat)
      requires Inv(St(), clk) && Ordered(c, |threads|, clk)
      modifies `threads, `ready, `depleted
      ensures Requested(old(St()), St(), |old(threads)|, c, clk, last)
    {
      ghost var s0 := St();
      last := clk;
      RequestedStart(s0, c, clk);
      var t: nat, n: nat := 0, |threads|;
      while t < n
        invariant t <= n && Requested(s0, St(), t, c, clk, last)
      {
        t, last := ConsumeNext(s0, t, n, c, clk, last);
      }
    }

    method ConsumeNext(ghost s0: State, t: nat, n: nat, c: Readings, ghost clk: nat, ghost last: nat)
      returns (t': nat, ghost next: nat)
      requires Requested(s0, St(), t, c, clk, last) && t < n == |s0.threads| && Ordered(c, n, clk)
      modifies `threads, `ready, `depleted
      ensures t' == t + 1 && Requested(s0, St(), t', c, clk, next)
    {
      t' := t + 1;
      ghost var s := St();
      next := c.prio[t];
      ConsumeRequest(t, c.prio[t], last);
      RequestedNext(s0, s, St(), t, c, clk, last, next);
    }

    method ConsumeRequest(t: nat, now: nat, ghost before: nat)
      requires LoopInv(St(), before) && before <= now && t < |threads|
      modifies `threads, `ready, `depleted
      ensures St() == PrioritizeOne(old(St()), t, now) && LoopInv(St(), now)
    {
      ghost var s := St();
      if threads[t].pending {
        threads := threads[t := threads[t].(pending := false)];
        if (threads[t].status == Running || threads[t].status == Runnable) && !threads[t].beBlocking {
          assert Links(St());
          HonourRequest(t, now);
        }
      }
      PrioritizeOneKeeps(s, t, before, now, St());
    }

    /** sched_rtds_prioritize. */
    method HonourRequest(t: nat, now: nat)
      requires t < |threads| && period > 0 && Links(St())
      modifies `threads, `ready, `depleted
      ensures St() == Prioritize(old(St()), t, now)
    {
      var _ := AdvancePeriod(t, now);
      if t != curr && threads[t].data.remaining > 0 {
        InsertReady(t);
      }
    }

    /** schedule(). */
    method Schedule(c: Readings)
      requires Valid() && Ordered(c, |threads|, clock) && c.switch_ <= TICKS_MAX
      modifies this
      ensures Valid() && clock == c.switch_ && start == old(start)
      ensures Scheduled(St(), c)
      ensures QueuesKnown(old(St())) && St() == RtdsModel.Schedule(old(St()), c)
    {
      ghost var s, before := St(), clock;
      clock := c.switch_;
      SelectAndSwitch(c, before);
      ScheduleSound(s, c, before, start, St());
    }

    method SelectAndSwitch(c: Readings, ghost clk: nat)
      requires Inv(St(), clk) && Ordered(c, |threads|, clk)
      modifies `threads, `ready, `depleted, `timer, `resched, `curr, `charged
      ensures QueuesKnown(old(St())) && St() == RtdsModel.Schedule(old(St()), c)
    {
      ghost var s := St();
      CoreKnown(s, clk);
      ghost var last := ConsumeRequests(c, clk);
      RequestedEnd(s, St(), |s.threads|, c, clk, last);
      RefreshForSelection(c.pick, c.pick);
      assert Links(St()) && Chosen(St()) < |threads| by {
        SelectionState(s, c, clk, St());
      }
      var next := SelectNext();
      Dispatch(next, c);
    }

    method Dispatch(next: nat, c: Readings)
      requires next < |threads| && curr < |threads| && Links(St())
      modifies `threads, `ready, `depleted, `timer, `resched, `curr
      ensures St() == RtdsModel.Dispatch(old(St()), next, c)
    {
      TakeNext(next, c.pick, c.timer);
      resched := false;
      if next != curr {
        threads := Switch(threads, curr, next, c.switch_);
        curr := next;
      }
    }

    /** sleep_thread; `local` says that the caller runs on this CPU. */
    method SleepThread(t: nat, now: nat, timerNow: nat, markNow: nat, local: bool)
      requires Valid() && t < |threads| && t != IDLE && clock <= now <= timerNow <= markNow
      modifies this
      ensures Valid() && clock == markNow && start == old(start)
      ensures old(curr) < |old(threads)| && St() == RtdsModel.SleepThread(old(St()), t, now, timerNow, markNow, local)
    {
      ghost var s, before := St(), clock;
      clock := markNow;
      PutToSleep(t, now, timerNow, markNow, local, before);
      SleepSound(s, t, now, timerNow, markNow, local, before, start, St());
    }

    method PutToSleep(t: nat, now: nat, timerNow: nat, markNow: nat, local: bool, ghost clk: nat)
      requires Inv(St(), clk) && t < |threads|
      modifies `threads, `ready, `depleted, `timer, `resched, `charged
      ensures St() == RtdsModel.SleepThread(old(St()), t, now, timerNow, markNow, local)
    {
      CoreKnown(St(), clk);
      StopServer(t, now, timerNow, local);
      if threads[t].status == Running {
        resched := true;
        threads := threads[t := threads[t].(beBlocking := true)];
      } else {
        threads := threads[t := threads[t].(status := Blocked, stateSince := markNow)];
      }
    }

    /** sched_rtds_sleep. */
    method StopServer(t: nat, now: nat, timerNow: nat, local: bool)
      requires Links(St()) && QueuesKnown(St()) && t < |threads| && curr < |threads|
      modifies `threads, `ready, `depleted, `timer, `charged
      ensures St() == SleepHook(old(St()), t, now, timerNow, local)
    {
      if t == curr {
        AccountRuntime(t, now);
      }
      RemoveFromQueue(t);
      SetServer(t, threads[t].data.(lastStart := 0));
      if local {
        ProgramLocalTimer(if t == curr then None else Some(curr), timerNow);
      }
    }

    /** wake_thread. */
    method WakeThread(t: nat, now: nat, timerNow: nat, markNow: nat, local: bool)
      requires Valid() && t < |threads| && t != IDLE && clock <= now <= timerNow <= markNow
      modifies this
      ensures Valid() && clock == markNow && start == old(start)
      ensures old(curr) < |old(threads)| && period > 0
      ensures St() == RtdsModel.WakeThread(old(St()), t, now, timerNow, markNow, local)
    {
      ghost var s, before := St(), clock;
      clock := markNow;
      WakeUp(t, now, timerNow, markNow, local, before);
      WakeSound(s, t, now, timerNow, markNow, local, before, start, St());
    }

    method WakeUp(t: nat, now: nat, timerNow: nat, markNow: nat, local: bool, ghost clk: nat)
      requires Inv(St(), clk) && t < |threads|
      modifies `threads, `ready, `depleted, `timer, `resched
      ensures St() == RtdsModel.WakeThread(old(St()), t, now, timerNow, markNow, local)
    {
      CoreKnown(St(), clk);
      if threads[t].status == Blocked || threads[t].beBlocking {
        StartServer(t, now, timerNow, local);
        if threads[t].status == Blocked {
          threads := threads[t := threads[t].(status := Runnable, stateSince := markNow)];
          resched := true;
        }
        threads := threads[t := threads[t].(beBlocking := false)];
      }
    }

    /** sched_rtds_wake. */
    method StartServer(t: nat, now: nat, timerNow: nat, local: bool)
      requires Links(St()) && QueuesKnown(St()) && t < |threads| && curr < |threads| && period > 0
      modifies `threads, `ready, `depleted, `timer
      ensures St() == WakeHook(old(St()), t, now, timerNow, local)
    {
      var _ := AdvancePeriod(t, now);
      SetServer(t, threads[t].data.(lastStart := 0));
      if threads[t].data.remaining > 0 {
        InsertReady(t);
      } else {
        InsertDepleted(t);
      }
      if local {
        ProgramLocalTimer(Some(curr), timerNow);
      }
    }

    /** request_thread_priority. */
    method RequestPriority(t: nat)
      requires Valid() && t < |threads| && t != IDLE
      modifies this
      ensures Valid() && clock == old(clock) && start == old(start)
      ensures St() == RtdsModel.RequestPriority(old(St()), t)
    {
      ghost var s := St();
      threads := threads[t := threads[t].(pending := true)];
      resched := true;
      RequestSound(s, t, clock, start, St());
    }

    /** rtds_timer_handler.  It reads the clock before it takes the lock, so `now` may be older than
        readings that others made while it waited. */
    method TimerHandler(now: nat)
      requires Valid()
      modifies this
      ensures Valid() && clock == Max(old(clock), now) && start == old(start)
      ensures Looked(St(), clock, now)
      ensures QueuesKnown(old(St())) && period > 0 && old(curr) < |old(threads)|
      ensures St() == RtdsModel.TimerHandler(old(St()), now)
    {
      ghost var s, before := St(), clock;
      clock := Max(clock, now);
      HandleTick(now, before, clock);
      TimerSound(s, now, before, clock, start, St());
    }

    method HandleTick(now: nat, ghost before: nat, ghost clk: nat)
      requires Inv(St(), before) && clk == Max(before, now)
      modifies `threads, `ready, `depleted, `timer, `resched, `charged
      ensures QueuesKnown(old(St())) && St() == RtdsModel.TimerHandler(old(St()), now)
    {
      CoreLater(St(), before, clk);
      RefreshForSelection(now, clk);
      timer := None;
      resched := true;
    }

    /** init_thread_data for a new thread of this CPU. */
    method CreateThread(budget: nat, now: nat, markNow: nat)
      requires Valid() && budget > 0 && clock <= now <= markNow
      modifies this
      ensures Valid() && clock == markNow && start == old(start)
      ensures St() == RtdsModel.CreateThread(old(St()), budget, now, markNow)
    {
      ghost var s, before := St(), clock;
      clock := markNow;
      var server := Server(budget, budget, Boundary(now, period), 0, NoQueue);
      threads := threads + [Thread(Blocked, false, false, markNow, 0, server)];
      CreateSound(s, budget, now, markNow, before, start, St());
    }

    /** sched_clear_reschedule_if_current_only. */
    method ClearRescheduleIfCurrentOnly() returns (cleared: bool)
      requires Valid()
      modifies `resched
      ensures Valid() && cleared == (old(resched) && CurrentOnly(threads, curr))
      ensures resched == (old(resched) && !cleared)
      ensures cleared ==> forall c: Readings :: Ordered(c, |threads|, clock) && QueuesKnown(old(St())) ==>
                SameLife(old(St()), RtdsModel.Schedule(old(St()), c))
    {
      ghost var s := St();
      cleared := false;
      if resched {
        var only := CurrentIsOnlyRunnable(threads, curr);
        if only {
          resched := false;
          cleared := true;
          forall c: Readings | Ordered(c, |threads|, clock) && QueuesKnown(s)
            ensures SameLife(s, RtdsModel.Schedule(s, c))
          {
            SkipRefinesSchedule(s, c, clock);
          }
        }
      }
      FlagSound(s, St(), clock, start);
    }
  }
}
