/**
 What RTDS is for: if the budgets on a CPU, and the ticks lost because schedule() came late, add up to at most the
 period, a thread that competes for the CPU through a whole period is given its whole budget in it.
 */
module RtdsGuarantee {
  import opened Options
  import opened Periods
  import opened Lists
  import opened Threads
  import opened RtdsModel
  import opened RtdsInvariant
  import opened RtdsSteps
  import opened RtdsRuns

  type Book = map<(nat, nat), nat>

  // ---------------------------------------------------------------------
  // Sums over the threads other than the idle thread
  // ---------------------------------------------------------------------

  /** The time charged to the first n threads for the period that ends at `end`. */
  function Spent(charged: Book, n: nat, end: nat): nat {
    if n <= 1 then 0 else Spent(charged, n - 1, end) + Charged(charged, n - 1, end)
  }

  function Budgets(ths: seq<Thread<Server>>, n: nat): nat
    requires n <= |ths|
  {
    if n <= 1 then 0 else Budgets(ths, n - 1) + ths[n - 1].data.budget
  }

  /** The book after thread t, with server d, is charged at `now`. */
  function Used(charged: Book, t: nat, d: Server, now: nat): Book {
    charged[(t, d.deadline) := Charged(charged, t, d.deadline) + (d.remaining - Charge(d, now).remaining)]
  }

  lemma {:induction false} SpentSame(a: Book, b: Book, n: nat, end: nat)
    requires forall x :: 1 <= x < n ==> Charged(a, x, end) == Charged(b, x, end)
    ensures Spent(a, n, end) == Spent(b, n, end)
  {
    if n > 1 {
      SpentSame(a, b, n - 1, end);
    }
  }

  lemma {:induction false} SpentUsed(a: Book, b: Book, n: nat, end: nat, t: nat, more: nat)
    requires 1 <= t < n && Charged(b, t, end) == Charged(a, t, end) + more
    requires forall x :: 1 <= x < n && x != t ==> Charged(a, x, end) == Charged(b, x, end)
    ensures Spent(b, n, end) == Spent(a, n, end) + more
  {
    if t < n - 1 {
      SpentUsed(a, b, n - 1, end, t, more);
    } else {
      SpentSame(a, b, n - 1, end);
    }
  }

  lemma {:induction false} SpentGrows(a: Book, b: Book, n: nat, end: nat)
    requires forall x :: 1 <= x < n ==> Charged(a, x, end) <= Charged(b, x, end)
    ensures Spent(a, n, end) <= Spent(b, n, end)
  {
    if n > 1 {
      SpentGrows(a, b, n - 1, end);
    }
  }

  lemma {:induction false} SpentBound(a: Book, ths: seq<Thread<Server>>, n: nat, end: nat)
    requires n <= |ths| && forall x :: 1 <= x < n ==> Charged(a, x, end) <= ths[x].data.budget
    ensures Spent(a, n, end) <= Budgets(ths, n)
  {
    if n > 1 {
      SpentBound(a, ths, n - 1, end);
    }
  }

  /** When as much was spent as all budgets together, every budget was. */
  lemma {:induction false} AllSpent(a: Book, ths: seq<Thread<Server>>, n: nat, end: nat, t: nat)
    requires 1 <= t < n <= |ths| && Spent(a, n, end) >= Budgets(ths, n)
    requires forall x :: 1 <= x < n ==> Charged(a, x, end) <= ths[x].data.budget
    ensures Charged(a, t, end) == ths[t].data.budget
  {
    SpentBound(a, ths, n - 1, end);
    if t < n - 1 {
      AllSpent(a, ths, n - 1, end, t);
    }
  }

  // ---------------------------------------------------------------------
  // What each operation charges
  // ---------------------------------------------------------------------

  lemma {:induction false} RefreshReadyFree(s: State, q: seq<nat>, now: nat, r: State)
    requires s.period > 0 && Known(s, q) && r == RefreshReadyAll(s, q, now)
    ensures r.charged == s.charged
    decreases |q|
  {
    if q != [] {
      assert q[0] in q && forall x :: x in q[1..] ==> x in q;
      var a := RefreshReady(s, q[0], now);
      RefreshReadyFree(a, q[1..], now, r);
    }
  }

  lemma {:induction false} RefreshDepletedFree(s: State, q: seq<nat>, now: nat, r: State)
    requires s.period > 0 && Known(s, q) && r == RefreshDepletedAll(s, q, now)
    ensures r.charged == s.charged
    decreases |q|
  {
    if q != [] {
      assert q[0] in q && forall x :: x in q[1..] ==> x in q;
      var a := RefreshThread(s, q[0], now);
      RefreshDepletedFree(a, q[1..], now, r);
    }
  }

  lemma QueuesFree(s: State, now: nat, r: State)
    requires s.period > 0 && QueuesKnown(s) && r == RefreshQueues(s, now)
    ensures r.charged == s.charged
  {
    var b := RefreshReadyAll(s, s.ready, now);
    RefreshReadyFree(s, s.ready, now, b);
    RefreshDepletedFree(b, b.depleted, now, r);
  }

  lemma RequestFree(s: State, t: nat, now: nat, r: State)
    requires t < |s.threads| && s.period > 0 && r == PrioritizeOne(s, t, now)
    ensures r.charged == s.charged
  {
  }

  lemma {:induction false} RequestsFree(s: State, n: nat, prio: seq<nat>, r: State)
    requires n <= |s.threads| == |prio| && s.period > 0 && r == PrioritizeAll(s, n, prio)
    ensures r.charged == s.charged
  {
    if n > 0 {
      var before := PrioritizeAll(s, n - 1, prio);
      RequestsFree(s, n - 1, prio, before);
      RequestFree(before, n - 1, prio[n - 1], r);
    }
  }

  lemma AccountCharges(s: State, t: nat, now: nat, r: State)
    requires t < |s.threads| && t != IDLE && s.threads[t].status == Running && r == Account(s, t, now)
    ensures r.charged == Used(s.charged, t, Data(s, t), now)
  {
  }

  lemma CurrentCharges(s: State, now: nat, a: State)
    requires s.period > 0 && s.curr < |s.threads| && s.curr != IDLE && a == RefreshCurrent(s, now)
    requires s.threads[s.curr].status == Running
    ensures a.charged == Used(s.charged, s.curr, Data(s, s.curr), now)
  {
    var b := Account(s, s.curr, now);
    AccountCharges(s, s.curr, now, b);
    assert a == RefreshThread(b, s.curr, now);
  }

  /** Refreshing charges the current thread and nobody else. */
  lemma RefreshedCharges(s: State, now: nat, r: State)
    requires s.period > 0 && s.curr < |s.threads| && QueuesKnown(s) && r == Refreshed(s, now)
    requires s.threads[s.curr].status == Running
    ensures r.charged == if s.curr == IDLE then s.charged else Used(s.charged, s.curr, Data(s, s.curr), now)
  {
    var a := RefreshCurrent(s, now);
    if s.curr != IDLE {
      CurrentCharges(s, now, a);
    }
    QueuesFree(a, now, r);
  }

  lemma ScheduleCharges(s: State, c: Readings, clock: nat, p: State, f: State)
    requires Inv(s, clock) && Ordered(c, |s.threads|, clock) && QueuesKnown(s)
    requires p == PrioritizeAll(s, |s.threads|, c.prio) && f == Schedule(s, c)
    ensures s.curr < |p.threads|
    ensures f.charged == if s.curr == IDLE then s.charged else Used(s.charged, s.curr, Data(p, s.curr), c.pick)
  {
    var r := Refreshed(p, c.pick);
    RequestsFree(s, |s.threads|, c.prio, p);
    PrioritizeLife(s, |s.threads|, c.prio, p);
    assert ThreadOk(s.period, clock, s.curr, s.curr, s.threads[s.curr]);
    RefreshedCharges(p, c.pick, r);
  }

  lemma SleepCharges(s: State, clock: nat, t: nat, now: nat, timerNow: nat, markNow: nat, local: bool, f: State)
    requires Inv(s, clock) && t < |s.threads| && t != IDLE && f == SleepThread(s, t, now, timerNow, markNow, local)
    ensures f.charged == if t == s.curr then Used(s.charged, t, Data(s, t), now) else s.charged
  {
    assert ThreadOk(s.period, clock, s.curr, t, s.threads[t]);
    var a := if t == s.curr then Account(s, t, now) else s;
    if t == s.curr {
      AccountCharges(s, t, now, a);
    }
    SleepFree(s, t, now, timerNow, local, a, SleepHook(s, t, now, timerNow, local));
  }

  lemma SleepFree(s: State, t: nat, now: nat, timerNow: nat, local: bool, a: State, r: State)
    requires t < |s.threads| && s.curr < |s.threads| && a == (if t == s.curr then Account(s, t, now) else s)
    requires r == SleepHook(s, t, now, timerNow, local)
    ensures r.charged == a.charged
  {
  }

  lemma WakeFree(s: State, t: nat, now: nat, timerNow: nat, markNow: nat, local: bool, f: State)
    requires t < |s.threads| && s.curr < |s.threads| && s.period > 0
    requires f == WakeThread(s, t, now, timerNow, markNow, local)
    ensures f.charged == s.charged
  {
  }

  // ---------------------------------------------------------------------
  // One period
  // ---------------------------------------------------------------------

  /** Up to when the running thread has been charged: while it is not being charged, time is lost. */
  function Since(s: State, clock: nat): nat
    requires s.curr < |s.threads|
  {
    if Data(s, s.curr).lastStart == 0 then clock else Data(s, s.curr).lastStart
  }

  /** Every tick of the period that ends at `end`, up to Since, was charged to somebody or is among the lost. */
  ghost predicate Busy(s: State, clock: nat, end: nat, lost: nat) {
    && 0 < s.curr < |s.threads| && Data(s, s.curr).deadline == end
    && (s.threads[s.curr].beBlocking ==> Data(s, s.curr).lastStart == 0)
    && Spent(s.charged, |s.threads|, end) + lost + end >= Since(s, clock) + s.period
  }

  /** Thread t was charged its whole budget in that period. */
  ghost predicate Served(s: State, t: nat, end: nat) {
    t < |s.threads| && Charged(s.charged, t, end) == Data(s, t).budget
  }

  ghost predicate AllDue(s: State, end: nat) {
    forall x: nat :: x < |s.threads| && Competes(x, s.threads[x]) ==> Data(s, x).deadline == end
  }

  /** The clock stands in the period that ends at `end`; t competes, and has been served or the account is right. */
  ghost predicate Within(s: State, clock: nat, t: nat, end: nat, lost: nat) {
    && Inv(s, clock) && 0 < clock < end <= clock + s.period && OnGrid(end, s.period)
    && t < |s.threads| && Competes(t, s.threads[t]) && AllDue(s, end)
    && (Served(s, t, end) || Busy(s, clock, end, lost))
  }

  function Gap(a: nat, b: nat): nat {
    if a < b then b - a else 0
  }

  /** How long after the end of the budget a charge at `now` comes. */
  function Overrun(d: Server, now: nat): nat {
    Gap(d.lastStart + d.remaining, now)
  }

  /** A priority request replenishes the running thread before schedule() charges it. */
  predicate Refills(s: State, c: Readings) {
    s.curr < |s.threads| == |c.prio| && s.threads[s.curr].pending && Data(s, s.curr).deadline <= c.prio[s.curr]
  }

  /**
   The ticks that a step leaves uncharged: those that the running thread ran beyond its budget, those in which it
   was no longer being charged, and those that an early refill does not charge to the period.
   */
  function LostBy(s: State, clock: nat, e: Step): nat {
    if s.curr >= |s.threads| then 0
    else
      var d := Data(s, s.curr);
      if d.lastStart == 0 then Gap(clock, if e.ScheduleStep? then e.c.pick else ClockAfter(clock, e))
      else match e
        case ScheduleStep(c) => if Refills(s, c) then Gap(d.lastStart, c.pick) else Overrun(d, c.pick)
        case TickStep(now) => Overrun(d, now)
        case SleepStep(t, now, _, markNow, _) => if t == s.curr then Overrun(d, now) + Gap(now, markNow) else 0
        case _ => 0
  }

  /** Only what is lost while t is still short counts. */
  ghost function Loss(s: State, clock: nat, e: Step, t: nat, end: nat): nat {
    if Served(s, t, end) then 0 else LostBy(s, clock, e)
  }

  /** A charge takes all of the time since the last one but the overrun. */
  lemma ChargeTakes(s: State, clock: nat, d: Server, now: nat, end: nat, lost: nat, book: Book)
    requires Busy(s, clock, end, lost) && d.(queue := NoQueue) == Data(s, s.curr).(queue := NoQueue)
    requires book == Used(s.charged, s.curr, d, now)
    ensures d.lastStart == 0 ==> Spent(book, |s.threads|, end) + lost + end >= clock + s.period
    ensures d.lastStart != 0 ==>
              Spent(book, |s.threads|, end) + lost + Overrun(d, now) + end >= Max(d.lastStart, now) + s.period
  {
    var used := d.remaining - Charge(d, now).remaining;
    SpentUsed(s.charged, book, |s.threads|, end, s.curr, used);
  }

  lemma UsedGrows(charged: Book, t: nat, d: Server, now: nat, x: nat, end: nat)
    ensures Charged(Used(charged, t, d, now), x, end) >= Charged(charged, x, end)
  {
  }

  /** A thread once served stays served. */
  lemma StaysServed(s: State, f: State, clock: nat, t: nat, end: nat)
    requires Served(s, t, end) && Inv(f, clock) && t < |f.threads| && Data(f, t).budget == Data(s, t).budget
    requires Charged(f.charged, t, end) >= Charged(s.charged, t, end)
    ensures Served(f, t, end)
  {
    assert BookOk(f.charged, t, f.threads[t].data);
  }

  lemma InPeriod(d: nat, period: nat, now: nat, end: nat)
    requires period > 0 && OnGrid(d, period) && OnGrid(end, period) && now < d <= end <= now + period
    ensures d == end && end == Boundary(now, period)
  {
    BoundaryIsNext(now, period);
  }

  // ---------------------------------------------------------------------
  // schedule()
  // ---------------------------------------------------------------------

  /** Before its deadline a thread's server is not changed by priority requests. */
  lemma RequestsKeep(s: State, prio: seq<nat>, t: nat, p: State)
    requires |s.threads| == |prio| && t < |s.threads| && s.period > 0 && p == PrioritizeAll(s, |s.threads|, prio)
    requires !s.threads[t].pending || prio[t] < Data(s, t).deadline
    ensures t < |p.threads| && Data(p, t).(queue := NoQueue) == Data(s, t).(queue := NoQueue)
  {
    PrioritizeSupply(s, |s.threads|, prio, t, p);
  }

  lemma ScheduleBudgets(s: State, c: Readings, clock: nat, t: nat, p: State, f: State)
    requires Inv(s, clock) && Ordered(c, |s.threads|, clock) && QueuesKnown(s) && t < |s.threads|
    requires p == PrioritizeAll(s, |s.threads|, c.prio) && f == Schedule(s, c)
    ensures t < |f.threads| && Data(f, t).budget == Data(s, t).budget
  {
    RequestBudget(s, |s.threads|, c.prio, t, p);
    PickBudget(p, c, t, f);
  }

  lemma RequestBudget(s: State, n: nat, prio: seq<nat>, t: nat, p: State)
    requires t < n == |s.threads| == |prio| && s.period > 0 && p == PrioritizeAll(s, n, prio)
    ensures Data(p, t).budget == Data(s, t).budget
  {
    PrioritizeSupply(s, n, prio, t, p);
  }

  lemma PickBudget(p: State, c: Readings, t: nat, f: State)
    requires p.period > 0 && p.curr < |p.threads| && QueuesKnown(p) && t < |p.threads|
    requires f == Dispatch(Refreshed(p, c.pick), Chosen(Refreshed(p, c.pick)), c)
    ensures t < |f.threads| && Data(f, t).budget == Data(p, t).budget
  {
    var r := Refreshed(p, c.pick);
    FrameBudget(p, r, t);
    DispatchBudget(r, Chosen(r), c, t, f);
  }

  lemma DispatchBudget(r: State, next: nat, c: Readings, t: nat, f: State)
    requires next < |r.threads| && r.curr < |r.threads| && t < |r.threads| && f == Dispatch(r, next, c)
    ensures t < |f.threads| && Data(f, t).budget == Data(r, t).budget
  {
  }

  lemma FrameBudget(p: State, r: State, t: nat)
    requires Frame(p, r) && t < |p.threads|
    ensures t < |r.threads| && Data(r, t).budget == Data(p, t).budget
  {
  }

  /** The book after schedule() accounts for every tick up to its reading that is not lost. */
  lemma ScheduleSpends(s: State, c: Readings, clock: nat, end: nat, lost: nat, f: State)
    requires Inv(s, clock) && Ordered(c, |s.threads|, clock) && QueuesKnown(s) && f == Schedule(s, c)
    requires Busy(s, clock, end, lost)
    ensures |f.threads| == |s.threads| && f.period == s.period
    ensures Spent(f.charged, |f.threads|, end) + lost + LostBy(s, clock, ScheduleStep(c)) + end >= c.pick + s.period
  {
    var p := PrioritizeAll(s, |s.threads|, c.prio);
    ScheduleCharges(s, c, clock, p, f);
    ScheduleShape(s, c, clock, p, f);
    if !Refills(s, c) {
      RequestsKeep(s, c.prio, s.curr, p);
    }
    ScheduleBooks(s, c, clock, end, lost, f.charged, Data(p, s.curr));
  }

  lemma ScheduleBooks(s: State, c: Readings, clock: nat, end: nat, lost: nat, book: Book, d: Server)
    requires Busy(s, clock, end, lost) && book == Used(s.charged, s.curr, d, c.pick)
    requires !Refills(s, c) ==> d.(queue := NoQueue) == Data(s, s.curr).(queue := NoQueue)
    ensures Spent(book, |s.threads|, end) + lost + LostBy(s, clock, ScheduleStep(c)) + end >= c.pick + s.period
  {
    if Refills(s, c) {
      UsedSpends(s.charged, s.curr, d, c.pick, |s.threads|, end, book);
    } else {
      ChargeTakes(s, clock, d, c.pick, end, lost, book);
    }
  }

  lemma UsedSpends(charged: Book, t: nat, d: Server, now: nat, n: nat, end: nat, book: Book)
    requires book == Used(charged, t, d, now)
    ensures Spent(charged, n, end) <= Spent(book, n, end)
  {
    forall x | 1 <= x < n ensures Charged(charged, x, end) <= Charged(book, x, end) {
      UsedGrows(charged, t, d, now, x, end);
    }
    SpentGrows(charged, book, n, end);
  }

  lemma ScheduleShape(s: State, c: Readings, clock: nat, p: State, f: State)
    requires Inv(s, clock) && Ordered(c, |s.threads|, clock) && QueuesKnown(s)
    requires p == PrioritizeAll(s, |s.threads|, c.prio) && f == Schedule(s, c)
    ensures |f.threads| == |s.threads| && f.period == s.period
  {
  }

  /** After schedule() the competing threads are due at the end of the period its reading lies in. */
  lemma ScheduleAllDue(s: State, c: Readings, clock: nat, end: nat, f: State)
    requires Inv(s, clock) && Ordered(c, |s.threads|, clock) && QueuesKnown(s) && f == Schedule(s, c)
    requires f.period == s.period
    requires OnGrid(end, s.period) && c.switch_ < end <= c.pick + s.period
    ensures Inv(f, c.switch_) && EdfChoice(f) && AllDue(f, end)
  {
    ScheduleKeeps(s, c, clock);
    BoundaryIsNext(c.switch_, s.period);
    forall x: nat | x < |f.threads| && Competes(x, f.threads[x]) ensures Data(f, x).deadline == end {
      assert ThreadOk(f.period, c.switch_, f.curr, x, f.threads[x]);
      InPeriod(Data(f, x).deadline, s.period, c.pick, end);
    }
  }

  /** The thread that runs while t still has budget carries the account on. */
  lemma RunnerBusy(f: State, clock: nat, pick: nat, t: nat, end: nat, lost: nat)
    requires Inv(f, clock) && EdfChoice(f) && AllDue(f, end) && t < |f.threads| && Competes(t, f.threads[t]) && 0 < pick
    requires Spent(f.charged, |f.threads|, end) + lost + end >= pick + f.period
    requires f.curr != IDLE ==>
               f.curr < |f.threads| && Data(f, f.curr).lastStart == pick && Competes(f.curr, f.threads[f.curr])
    ensures Served(f, t, end) || Busy(f, clock, end, lost)
  {
    if Data(f, t).remaining == 0 {
      assert BookOk(f.charged, t, f.threads[t].data);
    } else {
      assert HasBudget(f, t);
    }
  }

  lemma DispatchedBusy(s: State, c: Readings, clock: nat, t: nat, end: nat, lost: nat, f: State)
    requires Inv(s, clock) && Ordered(c, |s.threads|, clock) && QueuesKnown(s) && f == Schedule(s, c) && 0 < c.pick
    requires Inv(f, c.switch_) && EdfChoice(f) && AllDue(f, end) && t < |f.threads| && Competes(t, f.threads[t])
    requires f.period == s.period && Spent(f.charged, |f.threads|, end) + lost + end >= c.pick + s.period
    ensures Served(f, t, end) || Busy(f, c.switch_, end, lost)
  {
    if f.curr != IDLE {
      Dispatched(s, c, clock, f, f.curr);
    }
    RunnerBusy(f, c.switch_, c.pick, t, end, lost);
  }

  lemma ScheduleWithin(s: State, c: Readings, clock: nat, t: nat, end: nat, lost: nat, f: State, lost': nat)
    requires Within(s, clock, t, end, lost) && CanStep(s, clock, ScheduleStep(c))
    requires lost' == lost + Loss(s, clock, ScheduleStep(c), t, end)
    requires f == Schedule(s, c) && c.switch_ < end && t < |f.threads| && Competes(t, f.threads[t])
    ensures Within(f, c.switch_, t, end, lost')
  {
    var p := PrioritizeAll(s, |s.threads|, c.prio);
    ScheduleShape(s, c, clock, p, f);
    ScheduleAllDue(s, c, clock, end, f);
    if Served(s, t, end) {
      ScheduleServed(s, c, clock, t, end, f);
    } else {
      ScheduleSpends(s, c, clock, end, lost, f);
      DispatchedBusy(s, c, clock, t, end, lost', f);
    }
  }

  lemma ScheduleServed(s: State, c: Readings, clock: nat, t: nat, end: nat, f: State)
    requires Inv(s, clock) && Ordered(c, |s.threads|, clock) && QueuesKnown(s) && f == Schedule(s, c)
    requires Served(s, t, end) && t < |f.threads| && Inv(f, c.switch_)
    ensures Served(f, t, end)
  {
    var p := PrioritizeAll(s, |s.threads|, c.prio);
    ScheduleCharges(s, c, clock, p, f);
    ScheduleBudgets(s, c, clock, t, p, f);
    if s.curr != IDLE {
      UsedGrows(s.charged, s.curr, Data(p, s.curr), c.pick, t, end);
    }
    StaysServed(s, f, c.switch_, t, end);
  }

  // ---------------------------------------------------------------------
  // The other operations
  // ---------------------------------------------------------------------

  /** What refreshing leaves of a thread's server before its deadline: charged if it runs, and otherwise as it was. */
  lemma RefreshedServer(s: State, clock: nat, now: nat, t: nat, r: State)
    requires Inv(s, clock) && now <= clock && QueuesKnown(s) && t < |s.threads| && r == Refreshed(s, now)
    requires now < Data(s, t).deadline
    ensures t < |r.threads| && r.curr == s.curr && r.period == s.period && |r.threads| == |s.threads|
    ensures Data(r, t).(queue := NoQueue) ==
            (if t == s.curr && t != IDLE then Charge(Data(s, t), now) else Data(s, t)).(queue := NoQueue)
  {
    var a := RefreshCurrent(s, now);
    RefreshedKeeps(s, clock, now);
    assert ThreadOk(s.period, clock, s.curr, t, s.threads[t]);
    CurrentServer(s, now, t, a);
    assert Bare(Data(r, t)) == Bare(Data(a, t)) || Bare(Data(r, t)) == Bare(Replenish(Data(a, t), a.period, now));
  }

  lemma CurrentServer(s: State, now: nat, t: nat, a: State)
    requires s.period > 0 && s.curr < |s.threads| && t < |s.threads| && a == RefreshCurrent(s, now)
    requires now < Data(s, t).deadline
    requires s.threads[s.curr].status == Running
    ensures t < |a.threads| && a.period == s.period
    ensures Data(a, t).(queue := NoQueue) ==
            (if t == s.curr && t != IDLE then Charge(Data(s, t), now) else Data(s, t)).(queue := NoQueue)
  {
  }

  lemma TickServer(s: State, now: nat, clock: nat, t: nat, f: State)
    requires Inv(s, clock) && QueuesKnown(s) && t < |s.threads| && f == TimerHandler(s, now)
    requires now < Data(s, t).deadline
    ensures t < |f.threads| == |s.threads| && f.curr == s.curr && f.period == s.period
    ensures f.threads[t] == s.threads[t].(data := f.threads[t].data)
    ensures Data(f, t).(queue := NoQueue) ==
            (if t == s.curr && t != IDLE then Charge(Data(s, t), now) else Data(s, t)).(queue := NoQueue)
  {
    var later := Max(clock, now);
    CoreLater(s, clock, later);
    RefreshedServer(s, later, now, t, Refreshed(s, now));
  }

  lemma TickCharges(s: State, now: nat, clock: nat, f: State)
    requires Inv(s, clock) && QueuesKnown(s) && f == TimerHandler(s, now)
    ensures f.charged == if s.curr == IDLE then s.charged else Used(s.charged, s.curr, Data(s, s.curr), now)
  {
    assert ThreadOk(s.period, clock, s.curr, s.curr, s.threads[s.curr]);
    RefreshedCharges(s, now, Refreshed(s, now));
  }

  lemma TickAllDue(s: State, now: nat, clock: nat, end: nat, f: State)
    requires Inv(s, clock) && now < end && QueuesKnown(s) && f == TimerHandler(s, now) && AllDue(s, end)
    ensures AllDue(f, end)
  {
    forall x: nat | x < |f.threads| && Competes(x, f.threads[x]) ensures Data(f, x).deadline == end {
      TickLife(s, now, x, f);
      TickServer(s, now, clock, x, f);
    }
  }

  lemma TickLife(s: State, now: nat, x: nat, f: State)
    requires s.period > 0 && s.curr < |s.threads| && QueuesKnown(s) && f == TimerHandler(s, now) && x < |f.threads|
    ensures |f.threads| == |s.threads| && f.threads[x] == s.threads[x].(data := f.threads[x].data)
    ensures Data(f, x).budget == Data(s, x).budget && f.curr == s.curr && f.period == s.period
  {
    var r := Refreshed(s, now);
    assert r.threads[x] == s.threads[x].(data := r.threads[x].data);
  }

  lemma TickServed(s: State, now: nat, clock: nat, clock': nat, t: nat, end: nat, f: State)
    requires Inv(s, clock) && QueuesKnown(s) && f == TimerHandler(s, now) && Served(s, t, end) && Inv(f, clock')
    requires t < |f.threads|
    ensures Served(f, t, end)
  {
    TickCharges(s, now, clock, f);
    TickLife(s, now, t, f);
    if s.curr != IDLE {
      UsedGrows(s.charged, s.curr, Data(s, s.curr), now, t, end);
    }
    StaysServed(s, f, clock', t, end);
  }

  /** Up to when the running thread, with server d, has been charged after a tick. */
  function Ticked(d: Server, clock: nat, now: nat): nat {
    if d.lastStart == 0 then Max(clock, now) else Max(d.lastStart, now)
  }

  lemma TickBooks(s: State, now: nat, clock: nat, end: nat, lost: nat, book: Book, d: Server)
    requires Busy(s, clock, end, lost) && d == Data(s, s.curr) && book == Used(s.charged, s.curr, d, now)
    ensures Spent(book, |s.threads|, end) + lost + LostBy(s, clock, TickStep(now)) + end >=
            Ticked(d, clock, now) + s.period
  {
    ChargeTakes(s, clock, d, now, end, lost, book);
  }

  lemma TickSpends(s: State, now: nat, clock: nat, end: nat, lost: nat, f: State)
    requires Inv(s, clock) && QueuesKnown(s) && f == TimerHandler(s, now) && s.curr < |f.threads|
    requires Busy(s, clock, end, lost)
    ensures |f.threads| == |s.threads| && f.period == s.period && f.curr == s.curr
    ensures Spent(f.charged, |f.threads|, end) + lost + LostBy(s, clock, TickStep(now)) + end >=
            Ticked(Data(s, s.curr), clock, now) + s.period
  {
    TickCharges(s, now, clock, f);
    TickLife(s, now, s.curr, f);
    TickBooks(s, now, clock, end, lost, f.charged, Data(s, s.curr));
  }

  lemma TickWithin(s: State, now: nat, clock: nat, t: nat, end: nat, lost: nat, f: State, clock': nat, lost': nat)
    requires Within(s, clock, t, end, lost) && CanStep(s, clock, TickStep(now)) && clock' == Max(clock, now)
    requires lost' == lost + Loss(s, clock, TickStep(now), t, end)
    requires f == TimerHandler(s, now) && clock' < end && Inv(f, clock') && t < |f.threads|
    ensures Within(f, clock', t, end, lost')
  {
    TickAllDue(s, now, clock, end, f);
    TickLife(s, now, t, f);
    if Served(s, t, end) {
      TickServed(s, now, clock, clock', t, end, f);
    } else {
      TickBusy(s, now, clock, end, lost, f, clock', lost');
    }
  }

  lemma TickBusy(s: State, now: nat, clock: nat, end: nat, lost: nat, f: State, clock': nat, lost': nat)
    requires Inv(s, clock) && QueuesKnown(s) && f == TimerHandler(s, now) && s.curr < |f.threads| && now < end
    requires Busy(s, clock, end, lost) && clock' == Max(clock, now)
    requires lost' == lost + LostBy(s, clock, TickStep(now))
    ensures Busy(f, clock', end, lost')
  {
    TickSpends(s, now, clock, end, lost, f);
    TickServer(s, now, clock, s.curr, f);
    TickedServer(Data(s, s.curr), Data(f, s.curr), clock, now, clock');
  }

  lemma TickedServer(d: Server, d': Server, clock: nat, now: nat, clock': nat)
    requires d'.(queue := NoQueue) == Charge(d, now).(queue := NoQueue) && clock' == Max(clock, now)
    ensures d'.deadline == d.deadline && (d'.lastStart == 0 <==> d.lastStart == 0)
    ensures (if d'.lastStart == 0 then clock' else d'.lastStart) == Ticked(d, clock, now)
  {
  }

  /** Operations that change only thread x and do not charge. */
  lemma ReplacedWithin(s: State, f: State, x: nat, th: Thread<Server>, clock: nat, clock': nat, t: nat, end: nat,
                       lost: nat, lost': nat)
    requires Within(s, clock, t, end, lost) && Replaced(s, f, x, th) && f.charged == s.charged && Inv(f, clock')
    requires clock <= clock' < end && t < |f.threads| && Competes(t, f.threads[t]) && lost <= lost'
    requires th.data.budget == Data(s, x).budget && (Competes(x, th) ==> th.data.deadline == end)
    requires !Served(s, t, end) && Data(s, s.curr).lastStart == 0 ==> lost' >= lost + (clock' - clock)
    requires x == s.curr && Busy(s, clock, end, lost) ==>
               && th.data.deadline == end && th.data.lastStart == Data(s, x).lastStart
               && (th.beBlocking ==> th.data.lastStart == 0)
    ensures Within(f, clock', t, end, lost')
  {
    if Served(s, t, end) {
      StaysServed(s, f, clock', t, end);
    }
  }

  lemma SleepWithin(s: State, e: Step, clock: nat, t: nat, end: nat, lost: nat, f: State, lost': nat)
    requires Within(s, clock, t, end, lost) && CanStep(s, clock, e) && e.SleepStep?
    requires f == After(s, clock, e) && lost' == lost + Loss(s, clock, e, t, end)
    requires e.markNow < end && Inv(f, e.markNow) && t < |f.threads| && Competes(t, f.threads[t])
    ensures Within(f, e.markNow, t, end, lost')
  {
    var d := Data(if e.t == s.curr then Account(s, e.t, e.now) else s, e.t).(queue := NoQueue, lastStart := 0);
    assert Replaced(s, f, e.t, Asleep(s.threads[e.t], d, e.markNow)) by {
      CoreLater(s, clock, e.markNow);
      SleepThreads(s, e.t, e.now, e.timerNow, e.markNow, e.local, f, d);
    }
    SleepCharges(s, clock, e.t, e.now, e.timerNow, e.markNow, e.local, f);
    if e.t != s.curr {
      SleepOtherWithin(s, e, clock, t, end, lost, f, d, lost');
    } else {
      SleepCurrentWithin(s, e, clock, t, end, lost, f, d, lost');
    }
  }

  lemma SleepOtherWithin(s: State, e: Step, clock: nat, t: nat, end: nat, lost: nat, f: State, d: Server, lost': nat)
    requires Within(s, clock, t, end, lost) && e.SleepStep? && e.t != s.curr && e.t < |s.threads|
    requires lost' == lost + Loss(s, clock, e, t, end)
    requires clock <= e.now <= e.markNow < end && Inv(f, e.markNow) && t < |f.threads| && Competes(t, f.threads[t])
    requires d == Data(s, e.t).(queue := NoQueue, lastStart := 0)
    requires Replaced(s, f, e.t, Asleep(s.threads[e.t], d, e.markNow)) && f.charged == s.charged
    ensures Within(f, e.markNow, t, end, lost')
  {
    assert ThreadOk(s.period, clock, s.curr, e.t, s.threads[e.t]);
    ReplacedWithin(s, f, e.t, Asleep(s.threads[e.t], d, e.markNow), clock, e.markNow, t, end, lost, lost');
  }

  lemma SleepCurrentWithin(s: State, e: Step, clock: nat, t: nat, end: nat, lost: nat, f: State, d: Server, lost': nat)
    requires Within(s, clock, t, end, lost) && e.SleepStep? && e.t == s.curr && s.curr != IDLE
    requires lost' == lost + Loss(s, clock, e, t, end)
    requires clock <= e.now <= e.markNow < end && Inv(f, e.markNow) && t < |f.threads| && Competes(t, f.threads[t])
    requires d == Data(Account(s, s.curr, e.now), s.curr).(queue := NoQueue, lastStart := 0)
    requires Replaced(s, f, s.curr, Asleep(s.threads[s.curr], d, e.markNow))
    requires f.charged == Used(s.charged, s.curr, Data(s, s.curr), e.now)
    ensures Within(f, e.markNow, t, end, lost')
  {
    assert ThreadOk(s.period, clock, s.curr, s.curr, s.threads[s.curr]);
    if Served(s, t, end) {
      UsedGrows(s.charged, s.curr, Data(s, s.curr), e.now, t, end);
      StaysServed(s, f, e.markNow, t, end);
    } else {
      ChargeTakes(s, clock, Data(s, s.curr), e.now, end, lost, f.charged);
    }
  }

  lemma WakeWithin(s: State, e: Step, clock: nat, t: nat, end: nat, lost: nat, f: State, lost': nat)
    requires Within(s, clock, t, end, lost) && CanStep(s, clock, e) && e.WakeStep?
    requires f == After(s, clock, e) && lost' == lost + Loss(s, clock, e, t, end)
    requires e.markNow < end && Inv(f, e.markNow) && t < |f.threads| && Competes(t, f.threads[t])
    ensures Within(f, e.markNow, t, end, lost')
  {
    var x := e.t;
    WakeFree(s, x, e.now, e.timerNow, e.markNow, e.local, f);
    if s.threads[x].status == Blocked || s.threads[x].beBlocking {
      var d := Replenish(Data(s, x), s.period, e.now);
      assert Replaced(s, f, x, Awake(s.threads[x], Woken(d), e.markNow)) by {
        CoreLater(s, clock, e.markNow);
        WakeThreads(s, x, e.now, e.timerNow, e.markNow, e.local, f, d);
      }
      WokenWithin(s, e, clock, t, end, lost, f, d, lost');
    } else {
      ReplacedWithin(s, f, x, s.threads[x], clock, e.markNow, t, end, lost, lost');
    }
  }

  lemma WokenWithin(s: State, e: Step, clock: nat, t: nat, end: nat, lost: nat, f: State, d: Server, lost': nat)
    requires Within(s, clock, t, end, lost) && e.WakeStep? && e.t < |s.threads|
    requires lost' == lost + Loss(s, clock, e, t, end)
    requires s.threads[e.t].status == Blocked || s.threads[e.t].beBlocking
    requires clock <= e.now <= e.markNow < end && Inv(f, e.markNow) && t < |f.threads| && Competes(t, f.threads[t])
    requires d == Replenish(Data(s, e.t), s.period, e.now) && f.charged == s.charged
    requires Replaced(s, f, e.t, Awake(s.threads[e.t], Woken(d), e.markNow))
    ensures Within(f, e.markNow, t, end, lost')
  {
    assert ThreadOk(s.period, clock, s.curr, e.t, s.threads[e.t]);
    assert ThreadOk(f.period, e.markNow, f.curr, e.t, f.threads[e.t]);
    JumpLands(Data(s, e.t).deadline, e.now, s.period);
    BoundaryIsNext(e.markNow, s.period);
    InPeriod(d.deadline, s.period, e.now, end);
    ReplacedWithin(s, f, e.t, Awake(s.threads[e.t], Woken(d), e.markNow), clock, e.markNow, t, end, lost, lost');
  }

  lemma CreateWithin(s: State, e: Step, clock: nat, t: nat, end: nat, lost: nat, f: State, lost': nat)
    requires Within(s, clock, t, end, lost) && CanStep(s, clock, e) && e.CreateStep?
    requires f == After(s, clock, e) && lost' == lost + Loss(s, clock, e, t, end)
    requires e.markNow < end && Inv(f, e.markNow)
    ensures Within(f, e.markNow, t, end, lost')
  {
    if Served(s, t, end) {
      StaysServed(s, f, e.markNow, t, end);
    } else {
      assert Charged(s.charged, |s.threads|, end) == 0;
    }
  }

  lemma RequestWithin(s: State, x: nat, clock: nat, t: nat, end: nat, lost: nat, f: State, lost': nat)
    requires Within(s, clock, t, end, lost) && x < |s.threads| && x != IDLE && f == RequestPriority(s, x)
    requires Inv(f, clock) && lost <= lost'
    ensures Within(f, clock, t, end, lost')
  {
    ReplacedWithin(s, f, x, s.threads[x].(pending := true), clock, clock, t, end, lost, lost');
  }

  /** A step from within the period to a later moment of it, at which t still competes. */
  ghost predicate Takes(s: State, clock: nat, e: Step, t: nat, end: nat, lost: nat, f: State, clock': nat, lost': nat) {
    && Within(s, clock, t, end, lost) && CanStep(s, clock, e)
    && f == After(s, clock, e) && clock' == ClockAfter(clock, e) && lost' == lost + Loss(s, clock, e, t, end)
    && Inv(f, clock') && clock' < end && t < |f.threads| && Competes(t, f.threads[t])
  }

  lemma ScheduleTakes(s: State, clock: nat, e: Step, t: nat, end: nat, lost: nat, f: State, clock': nat, lost': nat)
    requires Takes(s, clock, e, t, end, lost, f, clock', lost') && e.ScheduleStep?
    ensures Within(f, clock', t, end, lost')
  {
    ScheduleWithin(s, e.c, clock, t, end, lost, f, lost');
  }

  lemma SleepTakes(s: State, clock: nat, e: Step, t: nat, end: nat, lost: nat, f: State, clock': nat, lost': nat)
    requires Takes(s, clock, e, t, end, lost, f, clock', lost') && e.SleepStep?
    ensures Within(f, clock', t, end, lost')
  {
    SleepWithin(s, e, clock, t, end, lost, f, lost');
  }

  lemma WakeTakes(s: State, clock: nat, e: Step, t: nat, end: nat, lost: nat, f: State, clock': nat, lost': nat)
    requires Takes(s, clock, e, t, end, lost, f, clock', lost') && e.WakeStep?
    ensures Within(f, clock', t, end, lost')
  {
    WakeWithin(s, e, clock, t, end, lost, f, lost');
  }

  lemma RequestTakes(s: State, clock: nat, e: Step, t: nat, end: nat, lost: nat, f: State, clock': nat, lost': nat)
    requires Takes(s, clock, e, t, end, lost, f, clock', lost') && e.RequestStep?
    ensures Within(f, clock', t, end, lost')
  {
    RequestWithin(s, e.t, clock, t, end, lost, f, lost');
  }

  lemma TickTakes(s: State, clock: nat, e: Step, t: nat, end: nat, lost: nat, f: State, clock': nat, lost': nat)
    requires Takes(s, clock, e, t, end, lost, f, clock', lost') && e.TickStep?
    ensures Within(f, clock', t, end, lost')
  {
    TickWithin(s, e.now, clock, t, end, lost, f, clock', lost');
  }

  lemma CreateTakes(s: State, clock: nat, e: Step, t: nat, end: nat, lost: nat, f: State, clock': nat, lost': nat)
    requires Takes(s, clock, e, t, end, lost, f, clock', lost') && e.CreateStep?
    ensures Within(f, clock', t, end, lost')
  {
    CreateWithin(s, e, clock, t, end, lost, f, lost');
  }

  /** Every operation keeps the account of the period. */
  lemma StepWithin(s: State, clock: nat, e: Step, t: nat, end: nat, lost: nat, f: State, clock': nat, lost': nat)
    requires Takes(s, clock, e, t, end, lost, f, clock', lost')
    ensures Within(f, clock', t, end, lost')
  {
    if e.ScheduleStep? {
      ScheduleTakes(s, clock, e, t, end, lost, f, clock', lost');
    } else if e.SleepStep? {
      SleepTakes(s, clock, e, t, end, lost, f, clock', lost');
    } else if e.WakeStep? {
      WakeTakes(s, clock, e, t, end, lost, f, clock', lost');
    } else if e.RequestStep? {
      RequestTakes(s, clock, e, t, end, lost, f, clock', lost');
    } else if e.TickStep? {
      TickTakes(s, clock, e, t, end, lost, f, clock', lost');
    } else {
      CreateTakes(s, clock, e, t, end, lost, f, clock', lost');
    }
  }

  // ---------------------------------------------------------------------
  // The beginning and the end of a period
  // ---------------------------------------------------------------------

  /** schedule() opens the account of the period its reading lies in; the ticks before it are lost. */
  lemma PeriodBegins(s: State, c: Readings, clock: nat, t: nat, end: nat, f: State, lost: nat)
    requires Inv(s, clock) && Ordered(c, |s.threads|, clock) && QueuesKnown(s) && f == Schedule(s, c)
    requires 0 < c.pick && c.switch_ < end <= c.pick + s.period && OnGrid(end, s.period)
    requires t < |f.threads| && Competes(t, f.threads[t]) && lost + end == c.pick + s.period
    ensures Within(f, c.switch_, t, end, lost)
  {
    var p := PrioritizeAll(s, |s.threads|, c.prio);
    ScheduleShape(s, c, clock, p, f);
    ScheduleAllDue(s, c, clock, end, f);
    DispatchedBusy(s, c, clock, t, end, lost, f);
  }

  /** The step charges the running thread at the end of the period or later. */
  predicate Ends(e: Step, end: nat) {
    match e
    case ScheduleStep(c) => c.pick >= end
    case TickStep(now) => now >= end
    case _ => false
  }

  /** The threads' budgets and the lost ticks fit in a period. */
  ghost predicate Fits(s: State, lost: nat) {
    Budgets(s.threads, |s.threads|) + lost <= s.period
  }

  /** When all of the period was charged or lost and the budgets fit in the rest, everybody was served. */
  lemma AllServed(f: State, clock: nat, t: nat, end: nat, lost: nat)
    requires Inv(f, clock) && 0 < t < |f.threads| && Spent(f.charged, |f.threads|, end) + lost >= f.period
    requires Fits(f, lost)
    ensures Served(f, t, end)
  {
    forall x | 1 <= x < |f.threads| ensures Charged(f.charged, x, end) <= f.threads[x].data.budget {
      assert BookOk(f.charged, x, f.threads[x].data);
    }
    AllSpent(f.charged, f.threads, |f.threads|, end, t);
  }

  lemma PeriodEnds(s: State, clock: nat, e: Step, t: nat, end: nat, lost: nat, f: State, lost': nat)
    requires Within(s, clock, t, end, lost) && CanStep(s, clock, e) && Ends(e, end)
    requires f == After(s, clock, e) && Inv(f, ClockAfter(clock, e)) && t < |f.threads|
    requires lost' == lost + Loss(s, clock, e, t, end) && Fits(f, lost')
    ensures Served(f, t, end)
  {
    if e.ScheduleStep? {
      if Served(s, t, end) {
        ScheduleServed(s, e.c, clock, t, end, f);
      } else {
        ScheduleEnds(s, clock, e.c, t, end, lost, f, lost');
      }
    } else if Served(s, t, end) {
      TickServed(s, e.now, clock, ClockAfter(clock, e), t, end, f);
    } else {
      TickEnds(s, clock, e.now, t, end, lost, f, ClockAfter(clock, e), lost');
    }
  }

  lemma ScheduleEnds(s: State, clock: nat, c: Readings, t: nat, end: nat, lost: nat, f: State, lost': nat)
    requires Inv(s, clock) && Ordered(c, |s.threads|, clock) && QueuesKnown(s) && f == Schedule(s, c)
    requires Busy(s, clock, end, lost) && c.pick >= end && Inv(f, c.switch_) && 0 < t < |f.threads|
    requires lost' == lost + LostBy(s, clock, ScheduleStep(c)) && Fits(f, lost')
    ensures Served(f, t, end)
  {
    ScheduleSpends(s, c, clock, end, lost, f);
    AllServed(f, c.switch_, t, end, lost');
  }

  lemma TickEnds(s: State, clock: nat, now: nat, t: nat, end: nat, lost: nat, f: State, clock': nat, lost': nat)
    requires Inv(s, clock) && QueuesKnown(s) && f == TimerHandler(s, now) && s.curr < |f.threads|
    requires Busy(s, clock, end, lost) && now >= end && Inv(f, clock') && 0 < t < |f.threads|
    requires lost' == lost + LostBy(s, clock, TickStep(now)) && Fits(f, lost')
    ensures Served(f, t, end)
  {
    TickSpends(s, now, clock, end, lost, f);
    AllServed(f, clock', t, end, lost');
  }

  // ---------------------------------------------------------------------
  // The guarantee
  // ---------------------------------------------------------------------

  /** A schedule() in the period that ends at `end`. */
  ghost predicate Begins(s: State, e: Step, end: nat) {
    e.ScheduleStep? && s.period > 0 && OnGrid(end, s.period) && 0 < e.c.pick && end <= e.c.pick + s.period
  }

  /** The period has not ended, and t competes. */
  ghost predicate Continues(s: State, clock: nat, t: nat, end: nat) {
    clock < end && t < |s.threads| && Competes(t, s.threads[t])
  }

  /**
   The run goes through the period that ends at `end`: its first step is a schedule() in it, its last one charges at
   the end or later, and in between thread t competes all along.
   */
  ghost predicate Through(states: seq<State>, clocks: seq<nat>, steps: seq<Step>, t: nat, end: nat) {
    && Run(states, clocks, steps) && |steps| >= 2 && Begins(states[0], steps[0], end)
    && (forall k :: 1 <= k < |steps| ==> Continues(states[k], clocks[k], t, end))
    && Ends(steps[|steps| - 1], end)
  }

  /** The ticks of the period lost by the first k steps: those before the opening, and those that each step leaves
      uncharged while t is short. */
  ghost function Lost(states: seq<State>, clocks: seq<nat>, steps: seq<Step>, t: nat, end: nat, k: nat): nat
    requires Through(states, clocks, steps, t, end) && 1 <= k <= |steps|
  {
    if k == 1 then steps[0].c.pick + states[0].period - end
    else
      Lost(states, clocks, steps, t, end, k - 1) + Loss(states[k - 1], clocks[k - 1], steps[k - 1], t, end)
  }

  lemma {:induction false} ThroughWithin(states: seq<State>, clocks: seq<nat>, steps: seq<Step>, start: nat, t: nat,
                                         end: nat, k: nat, lost: nat)
    requires Through(states, clocks, steps, t, end) && Sound(states[0], start, clocks[0]) && 1 <= k < |steps|
    requires lost == Lost(states, clocks, steps, t, end, k)
    ensures Within(states[k], clocks[k], t, end, lost)
  {
    assert Continues(states[k], clocks[k], t, end);
    if k == 1 {
      PeriodBegins(states[0], steps[0].c, clocks[0], t, end, states[1], lost);
    } else {
      var before := Lost(states, clocks, steps, t, end, k - 1);
      ThroughWithin(states, clocks, steps, start, t, end, k - 1, before);
      RunInv(states, clocks, steps, start, k, states[k], clocks[k]);
      StepWithin(states[k - 1], clocks[k - 1], steps[k - 1], t, end, before, states[k], clocks[k], lost);
    }
  }

  /** If the budgets and the lost ticks fit in the period, the thread is charged its whole budget in it. */
  lemma FullBudget(states: seq<State>, clocks: seq<nat>, steps: seq<Step>, start: nat, t: nat, end: nat, n: nat,
                   f: State, lost: nat)
    requires Through(states, clocks, steps, t, end) && Sound(states[0], start, clocks[0])
    requires n == |steps| && f == states[n] && lost == Lost(states, clocks, steps, t, end, n) && Fits(f, lost)
    ensures Served(f, t, end)
  {
    ServedLast(states, clocks, steps, start, t, end, n, states[n - 1], clocks[n - 1], steps[n - 1], f, clocks[n],
               Lost(states, clocks, steps, t, end, n - 1), lost);
  }

  lemma ServedLast(states: seq<State>, clocks: seq<nat>, steps: seq<Step>, start: nat, t: nat, end: nat, n: nat,
                   s: State, clock: nat, e: Step, f: State, clock': nat, lost: nat, lost': nat)
    requires Through(states, clocks, steps, t, end) && Sound(states[0], start, clocks[0])
    requires n == |steps| && s == states[n - 1] && clock == clocks[n - 1] && e == steps[n - 1]
    requires f == states[n] && clock' == clocks[n] && lost == Lost(states, clocks, steps, t, end, n - 1)
    requires lost' == lost + Loss(s, clock, e, t, end) && Fits(f, lost')
    ensures Served(f, t, end)
  {
    WithinLast(states, clocks, steps, start, t, end, n, s, clock, lost);
    RunInv(states, clocks, steps, start, n, f, clock');
    ThroughEnds(states, clocks, steps, t, end, n, s, clock, e, f, clock');
    LastStep(s, clock, e, t, end, lost, f, clock', lost');
  }

  lemma WithinLast(states: seq<State>, clocks: seq<nat>, steps: seq<Step>, start: nat, t: nat, end: nat, n: nat,
                   s: State, clock: nat, lost: nat)
    requires Through(states, clocks, steps, t, end) && Sound(states[0], start, clocks[0])
    requires n == |steps| && s == states[n - 1] && clock == clocks[n - 1]
    requires lost == Lost(states, clocks, steps, t, end, n - 1)
    ensures Within(s, clock, t, end, lost)
  {
    ThroughWithin(states, clocks, steps, start, t, end, n - 1, lost);
  }

  /** The step that reads the end of the period. */
  ghost predicate Closes(s: State, clock: nat, e: Step, end: nat, f: State, clock': nat) {
    CanStep(s, clock, e) && Ends(e, end) && f == After(s, clock, e) && clock' == ClockAfter(clock, e)
  }

  lemma ThroughEnds(states: seq<State>, clocks: seq<nat>, steps: seq<Step>, t: nat, end: nat, n: nat,
                    s: State, clock: nat, e: Step, f: State, clock': nat)
    requires Through(states, clocks, steps, t, end) && n == |steps|
    requires s == states[n - 1] && clock == clocks[n - 1] && e == steps[n - 1]
    requires f == states[n] && clock' == clocks[n]
    ensures Closes(s, clock, e, end, f, clock')
  {
  }

  lemma RunInv(states: seq<State>, clocks: seq<nat>, steps: seq<Step>, start: nat, k: nat, s: State, clock: nat)
    requires Run(states, clocks, steps) && Sound(states[0], start, clocks[0]) && k < |states|
    requires s == states[k] && clock == clocks[k]
    ensures Inv(s, clock)
  {
    RunSound(states, clocks, steps, start, k);
  }

  lemma LastStep(s: State, clock: nat, e: Step, t: nat, end: nat, lost: nat, f: State, clock': nat, lost': nat)
    requires Within(s, clock, t, end, lost) && Closes(s, clock, e, end, f, clock') && Inv(f, clock')
    requires lost' == lost + Loss(s, clock, e, t, end) && Fits(f, lost')
    ensures Served(f, t, end)
  {
    StaysKnown(s, clock, e, t, f);
    PeriodEnds(s, clock, e, t, end, lost, f, lost');
  }

  lemma StaysKnown(s: State, clock: nat, e: Step, t: nat, f: State)
    requires CanStep(s, clock, e) && (e.ScheduleStep? || e.TickStep?) && f == After(s, clock, e) && t < |s.threads|
    ensures t < |f.threads|
  {
  }
}
