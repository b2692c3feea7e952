/**
 Whole runs of the RTDS scheduler: every operation keeps the invariant, so every
 reachable state has it; CPU time is conserved; and the shortcut that skips
 schedule() is only taken when schedule() would change nothing.
 */
module RtdsRuns {
  import opened Options
  import opened Periods
  import opened Lists
  import opened Threads
  import opened RtdsModel
  import opened RtdsInvariant
  import opened RtdsSteps

  // ---------------------------------------------------------------------
  // The other operations
  // ---------------------------------------------------------------------

  /** Same queues and servers, apart from where charging starts. */
  ghost predicate SameServers(r: State, f: State) {
    && f.period == r.period && f.ready == r.ready && f.depleted == r.depleted && f.charged == r.charged
    && |f.threads| == |r.threads|
    && forall t :: 0 <= t < |r.threads| ==>
         f.threads[t].data == r.threads[t].data.(lastStart := f.threads[t].data.lastStart)
  }

  lemma SameQueues(r: State, f: State)
    requires Links(r) && EdfOrder(r) && Books(r) && SameServers(r, f)
    ensures Links(f) && EdfOrder(f) && Books(f)
  {
    SameDeadlines(r.threads, f.threads);
    SameBooks(r, f);
  }

  lemma RemoveQueues(s: State, t: nat, r: State)
    requires Links(s) && EdfOrder(s) && Books(s) && t < |s.threads| && r == QueueRemove(s, t)
    ensures Links(r) && EdfOrder(r) && Books(r)
  {
    RemoveLinks(s, t);
    SameDeadlines(s.threads, r.threads);
    WithoutSorted(Deadlines(s.threads), s.ready, t);
    SameBooks(s, r);
  }

  lemma SleepQueues(s: State, t: nat, now: nat, timerNow: nat, markNow: nat, local: bool, f: State)
    requires Inv(s, markNow) && t < |s.threads| && now <= markNow
    requires f == SleepThread(s, t, now, timerNow, markNow, local)
    ensures Links(f) && EdfOrder(f) && Books(f)
  {
    var a := if t == s.curr then Account(s, t, now) else s;
    assert Links(a) && EdfOrder(a) && Books(a) by {
      AccountCore(s, markNow, now);
    }
    var b := QueueRemove(a, t);
    RemoveQueues(a, t, b);
    SameQueues(b, f);
  }

  /** The thread objects of r with thread t replaced. */
  ghost predicate Replaced(s: State, f: State, t: nat, th: Thread<Server>) {
    && f.period == s.period && f.curr == s.curr && |f.threads| == |s.threads| && t < |s.threads|
    && f.threads[t] == th && forall x :: 0 <= x < |s.threads| && x != t ==> f.threads[x] == s.threads[x]
  }

  lemma ReplacedCore(s: State, f: State, t: nat, th: Thread<Server>, clock: nat)
    requires Core(s, clock) && Replaced(s, f, t, th) && ThreadOk(s.period, clock, s.curr, t, th)
    requires Links(f) && EdfOrder(f) && Books(f)
    ensures Inv(f, clock)
  {
    forall x | 0 <= x < |s.threads| ensures ThreadOk(s.period, clock, s.curr, x, f.threads[x]) {
      assert ThreadOk(s.period, clock, s.curr, x, s.threads[x]);
    }
  }

  /** A thread that goes to sleep: it stops being charged and leaves its queue. */
  function Asleep(th: Thread<Server>, d: Server, now: nat): Thread<Server> {
    if th.status == Running then th.(beBlocking := true, data := d)
    else th.(status := Blocked, stateSince := now, data := d)
  }

  lemma AsleepOk(period: nat, clock: nat, curr: nat, t: nat, th: Thread<Server>, d: Server, now: nat)
    requires ThreadOk(period, clock, curr, t, th) && t != IDLE && ServerOk(period, clock, d) && d.queue == NoQueue
    ensures ThreadOk(period, clock, curr, t, Asleep(th, d, now))
  {
  }

  lemma SleepThreads(s: State, t: nat, now: nat, timerNow: nat, markNow: nat, local: bool, f: State, d: Server)
    requires Inv(s, markNow) && t < |s.threads| && now <= markNow
    requires f == SleepThread(s, t, now, timerNow, markNow, local)
    requires d == Data(if t == s.curr then Account(s, t, now) else s, t).(queue := NoQueue, lastStart := 0)
    ensures Replaced(s, f, t, Asleep(s.threads[t], d, markNow)) && ServerOk(s.period, markNow, d)
  {
    assert ThreadOk(s.period, markNow, s.curr, t, s.threads[t]);
  }

  lemma SleepKeeps(s: State, t: nat, now: nat, timerNow: nat, markNow: nat, local: bool, clock: nat, f: State)
    requires Inv(s, clock) && t < |s.threads| && t != IDLE && clock <= now <= timerNow <= markNow
    requires f == SleepThread(s, t, now, timerNow, markNow, local)
    ensures Inv(f, markNow)
  {
    CoreLater(s, clock, markNow);
    var d := Data(if t == s.curr then Account(s, t, now) else s, t).(queue := NoQueue, lastStart := 0);
    SleepQueues(s, t, now, timerNow, markNow, local, f);
    SleepThreads(s, t, now, timerNow, markNow, local, f, d);
    assert ThreadOk(s.period, markNow, s.curr, t, s.threads[t]);
    AsleepOk(s.period, markNow, s.curr, t, s.threads[t], d, markNow);
    ReplacedCore(s, f, t, Asleep(s.threads[t], d, markNow), markNow);
  }

  lemma InsertQueues(s: State, t: nat, r: State)
    requires Links(s) && SortedBut(Deadlines(s.threads), s.ready, t) && Books(s) && t < |s.threads|
    requires r == if Data(s, t).remaining > 0 then ReadyInsert(s, t) else DepletedInsert(s, t)
    ensures Links(r) && EdfOrder(r) && Books(r)
  {
    if Data(s, t).remaining > 0 {
      ReadyLinks(s, t);
      ReadyOrder(s, t);
    } else {
      DepletedLinks(s, t);
      DepletedOrder(s, t);
    }
    SameBooks(s, r);
  }

  lemma AdvanceQueues(s: State, t: nat, clock: nat, now: nat, b: State)
    requires Inv(s, clock) && t < |s.threads| && now <= clock
    requires b == SetData(Advance(s, t, now), t, Replenish(Data(s, t), s.period, now).(lastStart := 0))
    ensures Links(b) && SortedBut(Deadlines(b.threads), b.ready, t) && Books(b)
  {
    var a := Advance(s, t, now);
    AdvanceCore(s, t, clock, now);
    SameDeadlines(a.threads, b.threads);
    SameBooks(a, b);
  }

  lemma WakeQueues(s: State, t: nat, now: nat, timerNow: nat, markNow: nat, local: bool, f: State)
    requires Inv(s, markNow) && t < |s.threads| && now <= markNow
    requires s.threads[t].status == Blocked || s.threads[t].beBlocking
    requires f == WakeThread(s, t, now, timerNow, markNow, local)
    ensures Links(f) && EdfOrder(f) && Books(f)
  {
    var b := SetData(Advance(s, t, now), t, Replenish(Data(s, t), s.period, now).(lastStart := 0));
    var r := if Data(b, t).remaining > 0 then ReadyInsert(b, t) else DepletedInsert(b, t);
    assert Links(r) && EdfOrder(r) && Books(r) by {
      AdvanceQueues(s, t, markNow, now, b);
      InsertQueues(b, t, r);
    }
    WakeSame(s, t, now, timerNow, markNow, local, r, f);
    SameQueues(r, f);
  }

  lemma WakeSame(s: State, t: nat, now: nat, timerNow: nat, markNow: nat, local: bool, r: State, f: State)
    requires s.period > 0 && t < |s.threads| && s.curr < |s.threads|
    requires s.threads[t].status == Blocked || s.threads[t].beBlocking
    requires f == WakeThread(s, t, now, timerNow, markNow, local)
    requires var b := SetData(Advance(s, t, now), t, Replenish(Data(s, t), s.period, now).(lastStart := 0));
             r == if Data(b, t).remaining > 0 then ReadyInsert(b, t) else DepletedInsert(b, t)
    ensures SameServers(r, f)
  {
  }

  function Awake(th: Thread<Server>, d: Server, now: nat): Thread<Server> {
    if th.status == Blocked then th.(status := Runnable, stateSince := now, beBlocking := false, data := d)
    else th.(beBlocking := false, data := d)
  }

  lemma AwakeOk(period: nat, clock: nat, curr: nat, t: nat, th: Thread<Server>, d: Server, now: nat)
    requires ThreadOk(period, clock, curr, t, th) && t != IDLE && (th.status == Blocked || th.beBlocking)
    requires ServerOk(period, clock, d)
    ensures ThreadOk(period, clock, curr, t, Awake(th, Woken(d), now))
  {
  }

  lemma WakeThreads(s: State, t: nat, now: nat, timerNow: nat, markNow: nat, local: bool, f: State, d: Server)
    requires Inv(s, markNow) && t < |s.threads| && now <= markNow
    requires s.threads[t].status == Blocked || s.threads[t].beBlocking
    requires f == WakeThread(s, t, now, timerNow, markNow, local) && d == Replenish(Data(s, t), s.period, now)
    ensures Replaced(s, f, t, Awake(s.threads[t], Woken(d), markNow)) && ServerOk(s.period, markNow, d)
  {
    assert ThreadOk(s.period, markNow, s.curr, t, s.threads[t]);
    ReplenishOk(s.period, markNow, now, Data(s, t));
  }

  lemma WakeKeeps(s: State, t: nat, now: nat, timerNow: nat, markNow: nat, local: bool, clock: nat, f: State)
    requires Inv(s, clock) && t < |s.threads| && t != IDLE && clock <= now <= timerNow <= markNow
    requires f == WakeThread(s, t, now, timerNow, markNow, local)
    ensures Inv(f, markNow)
  {
    CoreLater(s, clock, markNow);
    if s.threads[t].status == Blocked || s.threads[t].beBlocking {
      var d := Replenish(Data(s, t), s.period, now);
      WakeQueues(s, t, now, timerNow, markNow, local, f);
      WakeThreads(s, t, now, timerNow, markNow, local, f, d);
      assert ThreadOk(s.period, markNow, s.curr, t, s.threads[t]);
      AwakeOk(s.period, markNow, s.curr, t, s.threads[t], d, markNow);
      ReplacedCore(s, f, t, Awake(s.threads[t], Woken(d), markNow), markNow);
    }
  }

  /** Waking grants no credit: a server that slept past its deadline starts the current period with a
      full budget, any other keeps what it had; either way it is in the queue its budget asks for. */
  lemma WakeSupply(s: State, t: nat, now: nat, timerNow: nat, markNow: nat, local: bool, clock: nat, f: State)
    requires Inv(s, clock) && t < |s.threads| && clock <= now <= markNow
    requires s.threads[t].status == Blocked || s.threads[t].beBlocking
    requires f == WakeThread(s, t, now, timerNow, markNow, local)
    ensures t < |f.threads| && Data(f, t).deadline == Boundary(now, s.period)
    ensures Data(f, t).remaining == if Data(s, t).deadline <= now then Data(s, t).budget else Data(s, t).remaining
    ensures Data(f, t).queue == if Data(f, t).remaining > 0 then Ready else Depleted
    ensures OnCpu(f.threads[t]) && !f.threads[t].beBlocking
  {
    CoreLater(s, clock, markNow);
    CoreLater(s, clock, now);
    var d := Replenish(Data(s, t), s.period, now);
    WakeThreads(s, t, now, timerNow, markNow, local, f, d);
    assert ThreadOk(s.period, now, s.curr, t, s.threads[t]);
    ReplenishOk(s.period, now, now, Data(s, t));
  }

  /** Going to sleep settles the bill: the running thread is charged up to `now`, any other keeps its
      budget, and no deadline moves. */
  lemma SleepSupply(s: State, t: nat, now: nat, timerNow: nat, markNow: nat, local: bool, clock: nat, f: State)
    requires Inv(s, clock) && t < |s.threads| && t != IDLE && clock <= now <= markNow
    requires f == SleepThread(s, t, now, timerNow, markNow, local)
    ensures t < |f.threads| && Data(f, t).queue == NoQueue && Data(f, t).deadline == Data(s, t).deadline
    ensures Data(f, t).remaining == if t == s.curr then Charge(Data(s, t), now).remaining else Data(s, t).remaining
    ensures if t == s.curr then f.threads[t].beBlocking && f.resched else f.threads[t].status == Blocked
  {
    CoreLater(s, clock, markNow);
    assert ThreadOk(s.period, clock, s.curr, t, s.threads[t]);
    SleepThreads(s, t, now, timerNow, markNow, local, f,
                 Data(if t == s.curr then Account(s, t, now) else s, t).(queue := NoQueue, lastStart := 0));
  }

  lemma RequestKeeps(s: State, t: nat, clock: nat, f: State)
    requires Inv(s, clock) && t < |s.threads| && t != IDLE && f == RequestPriority(s, t)
    ensures Inv(f, clock)
  {
    SameQueues(s, f);
    forall x | 0 <= x < |s.threads| ensures ThreadOk(s.period, clock, s.curr, x, f.threads[x]) {
      assert ThreadOk(s.period, clock, s.curr, x, s.threads[x]);
    }
  }

  ghost predicate Looked(f: State, clock: nat, now: nat) {
    Inv(f, clock) && Settled(f) && Fresh(f, now) && f.resched
  }

  lemma FlagsKeep(r: State, f: State, clock: nat, now: nat)
    requires Inv(r, clock) && Settled(r) && Fresh(r, now) && f == r.(timer := None, resched := true)
    ensures Looked(f, clock, now)
  {
    forall x | 0 <= x < |r.threads|
      ensures SettledAt(f, x) && (Data(f, x).queue != NoQueue ==> now < Data(f, x).deadline)
    {
      assert SettledAt(r, x) && Data(r, x) == Data(f, x);
    }
  }

  /** The timer handler reads the clock before it takes the lock, so its reading may be older than others. */
  lemma TimerKeeps(s: State, now: nat, clock: nat, f: State)
    requires Inv(s, clock) && now <= clock && QueuesKnown(s) && f == TimerHandler(s, now)
    ensures Looked(f, clock, now)
  {
    var r := Refreshed(s, now);
    assert Inv(r, clock) && Settled(r) && Fresh(r, now) by {
      RefreshedKeeps(s, clock, now);
    }
    FlagsKeep(r, f, clock, now);
  }

  lemma CreateKeeps(s: State, budget: nat, now: nat, markNow: nat, clock: nat, f: State)
    requires Inv(s, clock) && clock <= now <= markNow && budget > 0 && f == CreateThread(s, budget, now, markNow)
    ensures Inv(f, markNow)
  {
    var n := |s.threads|;
    CoreLater(s, clock, markNow);
    BoundaryIsNext(now, s.period);
    BoundaryOrder(now, markNow, s.period);
    forall x | 0 <= x < |f.threads| ensures ThreadOk(s.period, markNow, s.curr, x, f.threads[x]) {
      assert x < n ==> ThreadOk(s.period, markNow, s.curr, x, s.threads[x]);
    }
    forall x | 0 <= x < |f.threads| ensures BookOk(f.charged, x, f.threads[x].data) {
      assert x < n ==> BookOk(s.charged, x, s.threads[x].data);
    }
    forall x | x in s.ready ensures Key(Deadlines(f.threads), x) == Key(Deadlines(s.threads), x) {
    }
    SortedSame(Deadlines(s.threads), Deadlines(f.threads), s.ready);
  }

  // ---------------------------------------------------------------------
  // What schedule() leaves alone
  // ---------------------------------------------------------------------

  /** Status, blocking requests and runtime books are the same. */
  ghost predicate SameLife(s: State, f: State) {
    && f.period == s.period && f.curr == s.curr
    && SameLives(s.threads, f.threads)
  }

  lemma {:induction false} PrioritizeLife(s: State, n: nat, prio: seq<nat>, f: State)
    requires n <= |s.threads| == |prio| && s.period > 0 && f == PrioritizeAll(s, n, prio)
    ensures SameLife(s, f)
  {
    if n > 0 {
      var before := PrioritizeAll(s, n - 1, prio);
      assert SameLife(s, before) by {
        PrioritizeLife(s, n - 1, prio, before);
      }
      assert f == PrioritizeOne(before, n - 1, prio[n - 1]);
    }
  }

  lemma RequestConsumes(before: State, x: nat, now: nat, t: nat, f: State)
    requires x < |before.threads| && t < |before.threads| && before.period > 0 && f == PrioritizeOne(before, x, now)
    ensures t < |f.threads| && f.threads[t].pending == (before.threads[t].pending && t != x)
  {
  }

  lemma {:induction false} PrioritizeConsumes(s: State, n: nat, prio: seq<nat>, t: nat, f: State)
    requires n <= |s.threads| == |prio| && s.period > 0 && t < |s.threads| && f == PrioritizeAll(s, n, prio)
    ensures t < |f.threads| && f.threads[t].pending == (s.threads[t].pending && t >= n)
  {
    if n > 0 {
      var before := PrioritizeAll(s, n - 1, prio);
      PrioritizeConsumes(s, n - 1, prio, t, before);
      RequestConsumes(before, n - 1, prio[n - 1], t, f);
    }
  }

  lemma DispatchRequests(r: State, next: nat, c: Readings, t: nat, f: State)
    requires next < |r.threads| && r.curr < |r.threads| && t < |r.threads| && f == Dispatch(r, next, c)
    ensures t < |f.threads| && f.threads[t].pending == r.threads[t].pending
  {
  }

  /** A priority request is honoured at most once: schedule() leaves none. */
  lemma ScheduleConsumes(s: State, c: Readings, clock: nat, t: nat)
    requires Inv(s, clock) && Ordered(c, |s.threads|, clock) && QueuesKnown(s) && t < |s.threads|
    ensures t < |Schedule(s, c).threads| && !Schedule(s, c).threads[t].pending
  {
    var p := PrioritizeAll(s, |s.threads|, c.prio);
    var r := Refreshed(p, c.pick);
    PrioritizeConsumes(s, |s.threads|, c.prio, t, p);
    SelectionState(s, c, clock, r);
    DispatchRequests(r, Chosen(r), c, t, Schedule(s, c));
  }

  lemma SelectionLife(s: State, c: Readings, r: State)
    requires |c.prio| == |s.threads| && s.period > 0 && s.curr < |s.threads| && QueuesKnown(s)
    requires r == Refreshed(PrioritizeAll(s, |s.threads|, c.prio), c.pick)
    ensures SameLife(s, r)
  {
    var p := PrioritizeAll(s, |s.threads|, c.prio);
    PrioritizeLife(s, |s.threads|, c.prio, p);
    FrameLife(s, p, r);
  }

  lemma FrameLife(s: State, p: State, r: State)
    requires SameLife(s, p) && Frame(p, r)
    ensures SameLife(s, r)
  {
  }

  lemma CompetesIsActive(s: State, clock: nat, t: nat)
    requires Core(s, clock) && t < |s.threads|
    ensures Competes(t, s.threads[t]) <==> Active(s, t)
  {
    assert ThreadOk(s.period, clock, s.curr, t, s.threads[t]);
  }

  /** The test of sched_clear_reschedule_if_current_only succeeds only when schedule() would pick
      the current thread again and switch nothing. */
  lemma SkipRefinesSchedule(s: State, c: Readings, clock: nat)
    requires Inv(s, clock) && Ordered(c, |s.threads|, clock) && QueuesKnown(s) && CurrentOnly(s.threads, s.curr)
    ensures SameLife(s, Schedule(s, c)) && !Schedule(s, c).resched
  {
    var r := Refreshed(PrioritizeAll(s, |s.threads|, c.prio), c.pick);
    SelectionState(s, c, clock, r);
    SelectionLife(s, c, r);
    OnlyChoice(s, clock, r);
    StayLife(s, r, c, Dispatch(r, r.curr, c));
  }

  lemma OnlyChoice(s: State, clock: nat, r: State)
    requires Inv(s, clock) && CurrentOnly(s.threads, s.curr) && SameLife(s, r) && BestActive(r, Chosen(r))
    ensures Chosen(r) == s.curr
  {
    var next := Chosen(r);
    CompetesIsActive(s, clock, s.curr);
    CompetesIsActive(s, clock, next);
    assert Active(r, s.curr) && Active(r, next);
  }

  lemma StayLife(s: State, r: State, c: Readings, f: State)
    requires SameLife(s, r) && r.curr < |r.threads| && f == Dispatch(r, r.curr, c)
    ensures SameLife(s, f) && !f.resched
  {
    TakeLife(r, r.curr, c, f);
  }

  /** What the skip leaves of the timer: it stays as it was, which is right exactly when it is already set for
      the current thread's own limit; nobody else is waiting for it. */
  lemma SkipTimer(s: State, clock: nat, now: nat)
    requires Inv(s, clock) && CurrentOnly(s.threads, s.curr)
    ensures forall t :: t in s.ready || t in s.depleted ==> t == s.curr
    ensures TimerArmed(s, Some(s.curr), now, s.timer) <==> s.timer.Some? && s.timer.value == OwnLimit(s, now)
  {
    forall t | t in s.ready || t in s.depleted ensures t == s.curr {
      assert t < |s.threads| && ThreadOk(s.period, clock, s.curr, t, s.threads[t]);
    }
    assert Wakeup(s, Some(s.curr), now, OwnLimit(s, now));
  }

  /** When the scheduler next has to look at the current thread, if nobody else competes. */
  function OwnLimit(s: State, now: nat): int
    requires s.curr < |s.threads|
  {
    var d := Data(s, s.curr);
    if s.curr in s.depleted && d.deadline < RunLimit(d, now) then d.deadline else RunLimit(d, now)
  }

  lemma TakeLife(r: State, next: nat, c: Readings, f: State)
    requires next < |r.threads| && next == r.curr && f == Dispatch(r, next, c)
    ensures SameLife(r, f) && !f.resched
  {
  }

  // ---------------------------------------------------------------------
  // Supply
  // ---------------------------------------------------------------------

  /** Remaining budget and deadline agree. */
  predicate SameSupply(d: Server, e: Server) {
    d.budget == e.budget && d.remaining == e.remaining && d.deadline == e.deadline
  }

  /** A priority request replenishes its thread at most, and touches no other. */
  lemma RequestSupply(before: State, x: nat, now: nat, t: nat, f: State)
    requires x < |before.threads| && t < |before.threads| && before.period > 0 && f == PrioritizeOne(before, x, now)
    ensures t != x ==> f.threads[t] == before.threads[t]
    ensures t == x ==> Bare(Data(f, t)) == Bare(Data(before, t)) ||
                       (before.threads[t].pending
                           && Bare(Data(f, t)) == Bare(Replenish(Data(before, t), before.period, now)))
    ensures t == x && before.threads[t].pending && OnCpu(before.threads[t]) && !before.threads[t].beBlocking ==>
              Bare(Data(f, t)) == Bare(Replenish(Data(before, t), before.period, now))
  {
  }

  ghost predicate Supplied(s: State, n: nat, prio: seq<nat>, t: nat, f: State)
    requires t < |s.threads| && s.period > 0
  {
    && t < |f.threads| && n <= |prio|
    && (Bare(Data(f, t)) == Bare(Data(s, t)) ||
        (t < n && s.threads[t].pending && Bare(Data(f, t)) == Bare(Replenish(Data(s, t), s.period, prio[t]))))
    && (t >= n ==> f.threads[t] == s.threads[t])
    && (t < n && s.threads[t].pending && OnCpu(s.threads[t]) && !s.threads[t].beBlocking ==>
          Bare(Data(f, t)) == Bare(Replenish(Data(s, t), s.period, prio[t])))
  }

  lemma {:induction false} PrioritizeSupply(s: State, n: nat, prio: seq<nat>, t: nat, f: State)
    requires n <= |s.threads| == |prio| && t < |s.threads| && s.period > 0 && f == PrioritizeAll(s, n, prio)
    ensures Supplied(s, n, prio, t, f)
  {
    if n > 0 {
      var before := PrioritizeAll(s, n - 1, prio);
      PrioritizeSupply(s, n - 1, prio, t, before);
      RequestSupply(before, n - 1, prio[n - 1], t, f);
    }
  }

  /** The server of an active thread once schedule() has charged and replenished it. */
  function Due(s: State, t: nat, now: nat): Server
    requires t < |s.threads| && s.period > 0
  {
    Replenish(if t == s.curr then Charge(Data(s, t), now) else Data(s, t), s.period, now)
  }

  /** A fresh server was replenished if it needed to be. */
  lemma FreshSupply(d: Server, e: Server, period: nat, now: nat)
    requires period > 0 && now < e.deadline && (Bare(e) == Bare(d) || Bare(e) == Bare(Replenish(d, period, now)))
    ensures SameSupply(e, Replenish(d, period, now))
  {
  }

  lemma CurrentSupply(p: State, now: nat, t: nat, a: State)
    requires LoopInv(p, now) && t < |p.threads| && Active(p, t) && a == RefreshCurrent(p, now)
    ensures SameSupply(Replenish(Data(a, t), p.period, now), Due(p, t, now))
  {
    assert ThreadOk(p.period, now, p.curr, t, p.threads[t]);
    if t == p.curr {
      AccountCore(p, now, now);
      assert ThreadOk(p.period, now, p.curr, t, Account(p, t, now).threads[t]);
      ReplenishTwice(p.period, now, Data(Account(p, t, now), t), now, now);
    }
  }

  lemma RefreshedSupply(p: State, now: nat, t: nat, r: State)
    requires LoopInv(p, now) && QueuesKnown(p) && t < |p.threads| && Active(p, t) && r == Refreshed(p, now)
    ensures SameSupply(Data(r, t), Due(p, t, now))
  {
    var a := RefreshCurrent(p, now);
    RefreshedKeeps(p, now, now);
    assert SettledAt(r, t);
    FreshSupply(Data(a, t), Data(r, t), p.period, now);
    CurrentSupply(p, now, t, a);
  }

  /** A priority request replenishes the current thread before its running time is charged, so that
      time of the period before is taken from the new budget. */
  predicate EarlyRefill(s: State, c: Readings, t: nat)
    requires t < |s.threads| == |c.prio| && s.period > 0
  {
    var d := Data(s, t);
    && t == s.curr && s.threads[t].pending
    && d.deadline <= c.prio[t] && c.pick < Boundary(c.prio[t], s.period)
    && 0 < d.lastStart < c.pick
  }

  /** Replenishing at `a`, then charging and replenishing at `b`, differs from charging first exactly
      when a boundary was crossed before `a`, none after, and there was running time to charge. */
  lemma OrderMatters(d: Server, period: nat, clock: nat, a: nat, b: nat)
    requires ServerOk(period, clock, d) && clock <= a <= b
    ensures SameSupply(Replenish(Charge(Replenish(d, period, a), b), period, b), Replenish(Charge(d, b), period, b))
            <==> !(d.deadline <= a && b < Boundary(a, period) && 0 < d.lastStart < b)
  {
    JumpLands(d.deadline, a, period);
    JumpLands(d.deadline, b, period);
    BoundaryIsNext(a, period);
    BoundaryIsNext(b, period);
    if d.deadline <= a {
      JumpLands(Boundary(a, period), b, period);
    }
  }

  /** A server `d`, replenished at `a` into `e` if that was asked for, and then settled at `b`. */
  lemma DueAfterRequest(d: Server, e: Server, period: nat, clock: nat, a: nat, b: nat, asked: bool)
    requires ServerOk(period, clock, d) && clock <= a <= b
    requires Bare(e) == Bare(if asked then Replenish(d, period, a) else d)
    ensures SameSupply(Replenish(e, period, b), Replenish(d, period, b))
    ensures SameSupply(Replenish(Charge(e, b), period, b), Replenish(Charge(d, b), period, b))
            <==> !(asked && d.deadline <= a && b < Boundary(a, period) && 0 < d.lastStart < b)
  {
    if asked {
      ReplenishTwice(period, clock, d, a, b);
      OrderMatters(d, period, clock, a, b);
    }
  }

  /** Priority requests leave a thread due what it was due, unless they refill it early. */
  lemma PrioritizeDue(s: State, c: Readings, clock: nat, t: nat, p: State)
    requires Inv(s, clock) && Ordered(c, |s.threads|, clock) && t < |s.threads| && Competes(t, s.threads[t])
    requires p == PrioritizeAll(s, |s.threads|, c.prio) && t < |p.threads|
    ensures SameSupply(Due(p, t, c.pick), Due(s, t, c.pick)) <==> !EarlyRefill(s, c, t)
  {
    var th, d, e := s.threads[t], Data(s, t), Data(p, t);
    assert ServerOk(s.period, clock, d) by {
      assert ThreadOk(s.period, clock, s.curr, t, th);
    }
    assert Bare(e) == Bare(if th.pending then Replenish(d, s.period, c.prio[t]) else d) by {
      PrioritizeSupply(s, |s.threads|, c.prio, t, p);
    }
    DueAfterRequest(d, e, s.period, clock, c.prio[t], c.pick, th.pending);
  }

  /** schedule() gives a competing thread the budget and deadline its own history asks for: the
      current thread is charged, and whoever passed a deadline is replenished.  The exception is a
      current thread whose priority request is honoured just after a boundary. */
  lemma ScheduleSupply(s: State, c: Readings, clock: nat, t: nat)
    requires Inv(s, clock) && Ordered(c, |s.threads|, clock) && QueuesKnown(s)
    requires t < |s.threads| && Competes(t, s.threads[t])
    ensures SameSupply(Data(Schedule(s, c), t), Due(s, t, c.pick)) <==> !EarlyRefill(s, c, t)
  {
    var p := PrioritizeAll(s, |s.threads|, c.prio);
    PrioritizeDue(s, c, clock, t, p);
    ScheduleDue(s, c, clock, t, p, Schedule(s, c));
  }

  /** Replenishing at `a` and then charging at `b` in the same period. */
  lemma RefillCost(d: Server, e: Server, period: nat, clock: nat, a: nat, b: nat)
    requires ServerOk(period, clock, d) && clock <= a <= b && Bare(e) == Bare(Replenish(d, period, a))
    requires d.deadline <= a && b < Boundary(a, period) && 0 < d.lastStart < b
    ensures Replenish(Charge(d, b), period, b).remaining == d.budget
    ensures Replenish(Charge(e, b), period, b).remaining ==
            if b - d.lastStart >= d.budget then 0 else d.budget - (b - d.lastStart)
  {
    JumpLands(d.deadline, a, period);
  }

  /** What an early refill costs: the running time since the last charge is taken from the new budget, all of
      which was due. */
  lemma EarlyRefillCost(s: State, c: Readings, clock: nat, t: nat, f: State)
    requires Inv(s, clock) && Ordered(c, |s.threads|, clock) && QueuesKnown(s) && f == Schedule(s, c)
    requires t < |s.threads| && Competes(t, s.threads[t]) && EarlyRefill(s, c, t)
    ensures t < |f.threads| && Due(s, t, c.pick).remaining == Data(s, t).budget
    ensures var d := Data(s, t);
            Data(f, t).remaining == if c.pick - d.lastStart >= d.budget then 0 else d.budget - (c.pick - d.lastStart)
  {
    var p := PrioritizeAll(s, |s.threads|, c.prio);
    assert ServerOk(s.period, clock, Data(s, t)) by {
      assert ThreadOk(s.period, clock, s.curr, t, s.threads[t]);
    }
    assert Bare(Data(p, t)) == Bare(Replenish(Data(s, t), s.period, c.prio[t])) by {
      PrioritizeSupply(s, |s.threads|, c.prio, t, p);
    }
    RefillCost(Data(s, t), Data(p, t), s.period, clock, c.prio[t], c.pick);
    ScheduleDue(s, c, clock, t, p, f);
  }

  /** schedule() gives a competing thread what it is due once requests are consumed. */
  lemma ScheduleDue(s: State, c: Readings, clock: nat, t: nat, p: State, f: State)
    requires Inv(s, clock) && Ordered(c, |s.threads|, clock) && QueuesKnown(s) && f == Schedule(s, c)
    requires t < |s.threads| && Competes(t, s.threads[t]) && p == PrioritizeAll(s, |s.threads|, c.prio)
    requires t < |p.threads|
    ensures t < |f.threads| && SameSupply(Data(f, t), Due(p, t, c.pick))
  {
    var r := Refreshed(p, c.pick);
    SelectionSupply(s, c, clock, t, p, r);
    SelectionState(s, c, clock, r);
    DispatchSupply(r, c.pick, Chosen(r), c, t, f);
  }

  /** What schedule() leaves of the thread it dispatches. */
  lemma Dispatched(s: State, c: Readings, clock: nat, f: State, t: nat)
    requires Inv(s, clock) && Ordered(c, |s.threads|, clock) && QueuesKnown(s) && f == Schedule(s, c)
    requires t == f.curr != IDLE
    ensures |f.threads| == |s.threads| && t < |f.threads| && f.period == s.period && Inv(f, c.switch_)
    ensures Data(f, t).lastStart == c.pick < Data(f, t).deadline && Competes(t, f.threads[t])
  {
    var r := Refreshed(PrioritizeAll(s, |s.threads|, c.prio), c.pick);
    SelectionState(s, c, clock, r);
    ScheduleKeeps(s, c, clock);
    DispatchTakes(r, c.pick, Chosen(r), c);
    assert ThreadOk(f.period, c.switch_, f.curr, t, f.threads[t]);
    NoneBlocking(r, c.pick, Chosen(r), c, t, f);
  }

  /** Whenever schedule() dispatches a thread, a priority request for it and a schedule() at its deadline make
      an early refill. */
  lemma EarlyRefillFollows(s: State, c: Readings, clock: nat, f: State, g: State, t: nat, late: Readings)
    requires Inv(s, clock) && Ordered(c, |s.threads|, clock) && QueuesKnown(s) && f == Schedule(s, c)
    requires t == f.curr != IDLE && 0 < c.pick && t < |f.threads| && c.switch_ <= Data(f, t).deadline
    requires g == RequestPriority(f, t) && late.pick == late.timer == late.switch_ == Data(f, t).deadline
    requires |late.prio| == |s.threads| && forall i :: 0 <= i < |s.threads| ==> late.prio[i] == late.pick
    ensures Inv(g, c.switch_) && Ordered(late, |g.threads|, c.switch_) && Competes(t, g.threads[t])
    ensures EarlyRefill(g, late, t)
  {
    Dispatched(s, c, clock, f, t);
    RequestKeeps(f, t, c.switch_, g);
    LateRequest(f, g, t, late);
  }

  lemma LateRequest(f: State, g: State, t: nat, late: Readings)
    requires f.period > 0 && t == f.curr < |f.threads| == |late.prio| && g == RequestPriority(f, t)
    requires 0 < Data(f, t).lastStart < Data(f, t).deadline == late.pick == late.prio[t]
    ensures EarlyRefill(g, late, t)
  {
    BoundaryIsNext(late.pick, f.period);
  }

  lemma NoneBlocking(r: State, clock: nat, next: nat, c: Readings, t: nat, f: State)
    requires Inv(r, clock) && Settled(r) && next == Chosen(r) && next < |r.threads| && BestActive(r, next)
    requires t < |r.threads| && f == Dispatch(r, next, c)
    ensures !f.threads[t].beBlocking
  {
    assert ThreadOk(r.period, clock, r.curr, t, r.threads[t]);
  }

  /** The current thread, asked for, has run since tick 8 of a period that ends at 10, on a budget of 5. */
  ghost predicate IsLate(s: State) {
    && Inv(s, 9) && s.period == 10 && |s.threads| == 2 && s.curr == 1 && s.threads[1].pending
         && Competes(1, s.threads[1])
    && Data(s, 1) == Server(5, 5, 10, 8, NoQueue)
  }

  /** The four ticks since tick 8 are taken from the budget of the period that begins at 10. */
  lemma LateRefill(s: State, c: Readings, f: State)
    requires IsLate(s) && c == Readings([12, 12], 12, 12, 12) && QueuesKnown(s) && f == Schedule(s, c)
    ensures EarlyRefill(s, c, 1) && Due(s, 1, 12).remaining == 5 && |f.threads| > 1 && Data(f, 1).remaining == 1
  {
    BoundaryIsNext(12, 10);
    assert OnGrid(20, 10);
    EarlyRefillCost(s, c, 9, 1, f);
  }

  function Late(): State {
    var idle := Thread(Runnable, false, false, 1, 0, Server(5, 5, 10, 0, NoQueue));
    var worker := Thread(Running, false, true, 8, 0, Server(5, 5, 10, 8, NoQueue));
    State(10, [idle, worker], [], [], 1, true, None, map[])
  }

  lemma LateState() returns (s: State)
    ensures IsLate(s)
  {
    LateInv();
    s := Late();
  }

  lemma LateInv()
    ensures Inv(Late(), 9)
  {
    LateServers();
    NobodyQueued(Late());
    NobodyCharged(Late());
  }

  lemma NobodyQueued(s: State)
    requires s.ready == s.depleted == []
    requires forall t :: 0 <= t < |s.threads| ==> s.threads[t].data.queue == NoQueue
    ensures Links(s) && EdfOrder(s)
  {
  }

  lemma NobodyCharged(s: State)
    requires s.charged == map[]
    requires forall t :: 0 <= t < |s.threads| ==> s.threads[t].data.remaining == s.threads[t].data.budget
    ensures Books(s)
  {
  }

  lemma LateServers()
    ensures var s := Late(); forall t :: 0 <= t < |s.threads| ==> ThreadOk(s.period, 9, s.curr, t, s.threads[t])
  {
    BoundaryIsNext(9, 10);
    assert OnGrid(10, 10);
  }

  /** There is such a state: four ticks of the old period leave one tick of a new budget of five. */
  lemma EarlyRefillHappens() returns (s: State, c: Readings, f: State)
    ensures IsLate(s) && c.pick == 12 && QueuesKnown(s) && |c.prio| == |s.threads| && f == Schedule(s, c)
    ensures EarlyRefill(s, c, 1) && Due(s, 1, 12).remaining == 5 && |f.threads| > 1 && Data(f, 1).remaining == 1
  {
    s := LateState();
    c := Readings([12, 12], 12, 12, 12);
    CoreKnown(s, 9);
    f := Schedule(s, c);
    LateRefill(s, c, f);
  }

  lemma DispatchSupply(r: State, clock: nat, next: nat, c: Readings, t: nat, f: State)
    requires Inv(r, clock) && Settled(r) && next == Chosen(r) && next < |r.threads| && t < |r.threads|
    requires f == Dispatch(r, next, c)
    ensures t < |f.threads| && SameSupply(Data(f, t), Data(r, t))
  {
    DispatchTakes(r, clock, next, c);
  }

  lemma SelectionSupply(s: State, c: Readings, clock: nat, t: nat, p: State, r: State)
    requires Inv(s, clock) && Ordered(c, |s.threads|, clock) && QueuesKnown(s)
    requires t < |s.threads| && Competes(t, s.threads[t])
    requires p == PrioritizeAll(s, |s.threads|, c.prio) && r == Refreshed(p, c.pick)
    ensures SameSupply(Data(r, t), Due(p, t, c.pick))
  {
    var n := |s.threads|;
    var last := LastRead(c.prio, n, clock);
    CompetesIsActive(s, clock, t);
    PrioritizeLife(s, n, c.prio, p);
    PrioritizeAllKeeps(s, n, c, clock, p, last);
    CoreLater(p, last, c.pick);
    RefreshedSupply(p, c.pick, t, r);
  }

  // ---------------------------------------------------------------------
  // Runs
  // ---------------------------------------------------------------------

  lemma ReplacedBooked(s: State, f: State, t: nat, th: Thread<Server>, start: nat, clock: nat)
    requires Replaced(s, f, t, th) && Booked(s.threads, s.curr, start, clock)
    requires th.runtime == s.threads[t].runtime && (t == s.curr ==> th.stateSince == s.threads[t].stateSince)
    ensures Booked(f.threads, f.curr, start, clock)
  {
    SameTotal(s.threads, f.threads);
  }

  lemma ScheduleBooked(s: State, c: Readings, clock: nat, start: nat, r: State, f: State)
    requires Inv(s, clock) && Ordered(c, |s.threads|, clock) && QueuesKnown(s)
    requires Booked(s.threads, s.curr, start, clock)
    requires c.switch_ <= TICKS_MAX && r == Refreshed(PrioritizeAll(s, |s.threads|, c.prio), c.pick)
    requires Chosen(r) < |r.threads| && f == Dispatch(r, Chosen(r), c)
    ensures Booked(f.threads, f.curr, start, c.switch_)
  {
    SelectionLife(s, c, r);
    LivesBooked(s.threads, r.threads, s.curr, start, clock);
    DispatchBooked(r, Chosen(r), c, start, clock, f);
  }

  lemma DispatchBooked(r: State, next: nat, c: Readings, start: nat, clock: nat, f: State)
    requires next < |r.threads| && r.curr < |r.threads| && f == Dispatch(r, next, c)
    requires Booked(r.threads, r.curr, start, clock) && clock <= c.switch_ <= TICKS_MAX
    ensures Booked(f.threads, f.curr, start, c.switch_)
  {
    var q := Take(r, next, c.pick);
    SameTotal(r.threads, q.threads);
    if next != r.curr {
      SwitchConserves(q.threads, r.curr, next, c.switch_, start);
    }
  }

  lemma ScheduleSound(s: State, c: Readings, clock: nat, start: nat, f: State)
    requires Inv(s, clock) && Ordered(c, |s.threads|, clock) && QueuesKnown(s)
    requires Booked(s.threads, s.curr, start, clock)
    requires c.switch_ <= TICKS_MAX && f == Schedule(s, c)
    ensures Scheduled(f, c) && Booked(f.threads, f.curr, start, c.switch_)
  {
    ScheduleKeeps(s, c, clock);
    ScheduleBooked(s, c, clock, start, Refreshed(PrioritizeAll(s, |s.threads|, c.prio), c.pick), f);
  }

  ghost predicate Sound(s: State, start: nat, clock: nat) {
    Inv(s, clock) && Booked(s.threads, s.curr, start, clock)
  }

  lemma SleepSound(s: State, t: nat, now: nat, timerNow: nat, markNow: nat, local: bool, clock: nat, start: nat,
                   f: State)
    requires Sound(s, start, clock) && t < |s.threads| && t != IDLE && clock <= now <= timerNow <= markNow
    requires f == SleepThread(s, t, now, timerNow, markNow, local)
    ensures Sound(f, start, markNow)
  {
    SleepKeeps(s, t, now, timerNow, markNow, local, clock, f);
    CoreLater(s, clock, markNow);
    var d := Data(if t == s.curr then Account(s, t, now) else s, t).(queue := NoQueue, lastStart := 0);
    SleepThreads(s, t, now, timerNow, markNow, local, f, d);
    assert ThreadOk(s.period, clock, s.curr, t, s.threads[t]);
    ReplacedBooked(s, f, t, Asleep(s.threads[t], d, markNow), start, clock);
  }

  lemma WakeSound(s: State, t: nat, now: nat, timerNow: nat, markNow: nat, local: bool, clock: nat, start: nat,
                  f: State)
    requires Sound(s, start, clock) && t < |s.threads| && t != IDLE && clock <= now <= timerNow <= markNow
    requires f == WakeThread(s, t, now, timerNow, markNow, local)
    ensures Sound(f, start, markNow)
  {
    WakeKeeps(s, t, now, timerNow, markNow, local, clock, f);
    if s.threads[t].status == Blocked || s.threads[t].beBlocking {
      CoreLater(s, clock, markNow);
      var d := Replenish(Data(s, t), s.period, now);
      WakeThreads(s, t, now, timerNow, markNow, local, f, d);
      assert ThreadOk(s.period, clock, s.curr, t, s.threads[t]);
      ReplacedBooked(s, f, t, Awake(s.threads[t], Woken(d), markNow), start, clock);
    }
  }

  lemma RequestSound(s: State, t: nat, clock: nat, start: nat, f: State)
    requires Sound(s, start, clock) && t < |s.threads| && t != IDLE && f == RequestPriority(s, t)
    ensures Sound(f, start, clock)
  {
    RequestKeeps(s, t, clock, f);
    LivesBooked(s.threads, f.threads, s.curr, start, clock);
  }

  lemma TimerSound(s: State, now: nat, clock: nat, clock': nat, start: nat, f: State)
    requires Sound(s, start, clock) && clock' == Max(clock, now) && QueuesKnown(s) && f == TimerHandler(s, now)
    ensures Sound(f, start, clock') && Looked(f, clock', now)
  {
    CoreLater(s, clock, clock');
    TimerKeeps(s, now, clock', f);
    LivesBooked(s.threads, Refreshed(s, now).threads, s.curr, start, clock);
  }

  lemma CreateSound(s: State, budget: nat, now: nat, markNow: nat, clock: nat, start: nat, f: State)
    requires Sound(s, start, clock) && clock <= now <= markNow && budget > 0
    requires f == CreateThread(s, budget, now, markNow)
    ensures Sound(f, start, markNow)
  {
    CreateKeeps(s, budget, now, markNow, clock, f);
    assert f.threads[..|f.threads| - 1] == s.threads;
  }

  lemma FlagSound(s: State, f: State, clock: nat, start: nat)
    requires Sound(s, start, clock) && f == s.(resched := f.resched)
    ensures Sound(f, start, clock)
  {
  }

  datatype Step =
    | ScheduleStep(c: Readings)
    | SleepStep(t: nat, now: nat, timerNow: nat, markNow: nat, local: bool)
    | WakeStep(t: nat, now: nat, timerNow: nat, markNow: nat, local: bool)
    | RequestStep(t: nat)
    | TickStep(now: nat)
    | CreateStep(budget: nat, now: nat, markNow: nat)

  /** The clock does not run backwards, and nobody puts the idle thread to sleep or asks priority for it. */
  ghost predicate CanStep(s: State, clock: nat, e: Step) {
    && s.period > 0 && s.curr < |s.threads| && QueuesKnown(s)
    && match e
       case ScheduleStep(c) => Ordered(c, |s.threads|, clock) && c.switch_ <= TICKS_MAX
       case SleepStep(t, now, timerNow, markNow, _) =>
         t < |s.threads| && t != IDLE && clock <= now <= timerNow <= markNow
       case WakeStep(t, now, timerNow, markNow, _) =>
         t < |s.threads| && t != IDLE && clock <= now <= timerNow <= markNow
       case RequestStep(t) => t < |s.threads| && t != IDLE
       case TickStep(_) => true
       case CreateStep(budget, now, markNow) => budget > 0 && clock <= now <= markNow
  }

  ghost function After(s: State, clock: nat, e: Step): State
    requires CanStep(s, clock, e)
  {
    match e
    case ScheduleStep(c) => Schedule(s, c)
    case SleepStep(t, now, timerNow, markNow, local) => SleepThread(s, t, now, timerNow, markNow, local)
    case WakeStep(t, now, timerNow, markNow, local) => WakeThread(s, t, now, timerNow, markNow, local)
    case RequestStep(t) => RequestPriority(s, t)
    case TickStep(now) => TimerHandler(s, now)
    case CreateStep(budget, now, markNow) => CreateThread(s, budget, now, markNow)
  }

  function ClockAfter(clock: nat, e: Step): nat {
    match e
    case ScheduleStep(c) => c.switch_
    case SleepStep(_, _, _, markNow, _) => markNow
    case WakeStep(_, _, _, markNow, _) => markNow
    case RequestStep(_) => clock
    case TickStep(now) => Max(clock, now)
    case CreateStep(_, _, markNow) => markNow
  }

  ghost predicate Steps(s: State, clock: nat, e: Step, start: nat, f: State) {
    Sound(s, start, clock) && CanStep(s, clock, e) && f == After(s, clock, e)
  }

  lemma SleepStepSound(s: State, clock: nat, e: Step, start: nat, f: State)
    requires Steps(s, clock, e, start, f) && e.SleepStep?
    ensures Sound(f, start, ClockAfter(clock, e))
  {
    SleepSound(s, e.t, e.now, e.timerNow, e.markNow, e.local, clock, start, f);
  }

  lemma WakeStepSound(s: State, clock: nat, e: Step, start: nat, f: State)
    requires Steps(s, clock, e, start, f) && e.WakeStep?
    ensures Sound(f, start, ClockAfter(clock, e))
  {
    WakeSound(s, e.t, e.now, e.timerNow, e.markNow, e.local, clock, start, f);
  }

  lemma RequestStepSound(s: State, clock: nat, e: Step, start: nat, f: State)
    requires Steps(s, clock, e, start, f) && e.RequestStep?
    ensures Sound(f, start, ClockAfter(clock, e))
  {
    RequestSound(s, e.t, clock, start, f);
  }

  lemma TickStepSound(s: State, clock: nat, e: Step, start: nat, f: State)
    requires Steps(s, clock, e, start, f) && e.TickStep?
    ensures Sound(f, start, ClockAfter(clock, e))
  {
    TimerSound(s, e.now, clock, Max(clock, e.now), start, f);
  }

  lemma CreateStepSound(s: State, clock: nat, e: Step, start: nat, f: State)
    requires Steps(s, clock, e, start, f) && e.CreateStep?
    ensures Sound(f, start, ClockAfter(clock, e))
  {
    CreateSound(s, e.budget, e.now, e.markNow, clock, start, f);
  }

  lemma ScheduleStepSound(s: State, clock: nat, e: Step, start: nat, f: State)
    requires Steps(s, clock, e, start, f) && e.ScheduleStep?
    ensures Sound(f, start, ClockAfter(clock, e)) && Scheduled(f, e.c)
  {
    ScheduleSound(s, e.c, clock, start, f);
  }

  /** Every operation keeps the invariant and the books. */
  lemma StepSound(s: State, clock: nat, e: Step, start: nat, f: State)
    requires Steps(s, clock, e, start, f)
    ensures Sound(f, start, ClockAfter(clock, e))
    ensures e.ScheduleStep? ==> Scheduled(f, e.c)
  {
    if e.ScheduleStep? {
      ScheduleStepSound(s, clock, e, start, f);
    } else if e.SleepStep? {
      SleepStepSound(s, clock, e, start, f);
    } else if e.WakeStep? {
      WakeStepSound(s, clock, e, start, f);
    } else if e.RequestStep? {
      RequestStepSound(s, clock, e, start, f);
    } else if e.TickStep? {
      TickStepSound(s, clock, e, start, f);
    } else {
      CreateStepSound(s, clock, e, start, f);
    }
  }

  /** A run: the states a CPU goes through, the latest clock reading in each, and the steps between them. */
  ghost predicate Run(states: seq<State>, clocks: seq<nat>, steps: seq<Step>) {
    && |states| == |clocks| == |steps| + 1
    && forall i :: 0 <= i < |steps| ==>
         && CanStep(states[i], clocks[i], steps[i])
         && states[i + 1] == After(states[i], clocks[i], steps[i])
         && clocks[i + 1] == ClockAfter(clocks[i], steps[i])
  }

  /** Every state of every run is sound. */
  lemma {:induction false} RunSound(states: seq<State>, clocks: seq<nat>, steps: seq<Step>, start: nat, k: nat)
    requires Run(states, clocks, steps) && Sound(states[0], start, clocks[0]) && k < |states|
    ensures Sound(states[k], start, clocks[k])
  {
    if k > 0 {
      RunSound(states, clocks, steps, start, k - 1);
      StepSound(states[k - 1], clocks[k - 1], steps[k - 1], start, states[k]);
    }
  }

  /** In every state of every run no thread has been charged more than its budget in any period,
      and all time since the start has been booked to some thread. */
  lemma RunBudget(states: seq<State>, clocks: seq<nat>, steps: seq<Step>, start: nat, k: nat, t: nat, deadline: nat,
                  now: nat)
    requires Run(states, clocks, steps) && Sound(states[0], start, clocks[0]) && k < |states| && t < |states[k].threads|
    requires clocks[k] <= now <= TICKS_MAX
    ensures Charged(states[k].charged, t, deadline) <= Data(states[k], t).budget
    ensures TotalLive(states[k].threads, now) == now - start
  {
    RunSound(states, clocks, steps, start, k);
    var s := states[k];
    assert BookOk(s.charged, t, s.threads[t].data);
    forall x | 0 <= x < |s.threads| ensures s.threads[x].status == Running <==> x == s.curr {
      assert ThreadOk(s.period, clocks[k], s.curr, x, s.threads[x]);
    }
    TimeIsConserved(s.threads, s.curr, start, now);
  }
}
