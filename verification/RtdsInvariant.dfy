/**
 What every step of the RTDS scheduler keeps: the thread life cycle, the two
 queues, the period grid, the EDF order and the budget ledger.
 */
module RtdsInvariant {
  import opened Periods
  import opened Lists
  import opened Threads
  import opened RtdsModel

  // ---------------------------------------------------------------------
  // The invariant
  // ---------------------------------------------------------------------

  /** Deadlines are period boundaries no later than the next one after `clock`. */
  ghost predicate ServerOk(period: nat, clock: nat, d: Server) {
    && period > 0 && 0 < d.budget && d.remaining <= d.budget && d.lastStart <= clock
    && OnGrid(d.deadline, period) && 0 < d.deadline <= Boundary(clock, period)
  }

  /** The queue tag says whether the server has budget. */
  predicate Funded(d: Server) {
    (d.queue == Ready ==> d.remaining > 0) && (d.queue == Depleted ==> d.remaining == 0)
  }

  ghost predicate ThreadOk(period: nat, clock: nat, curr: nat, t: nat, th: Thread<Server>) {
    && ServerOk(period, clock, th.data)
    && (th.status == Running <==> t == curr)
    && (th.beBlocking ==> t == curr && t != IDLE && th.data.queue == NoQueue)
    && (t == IDLE ==> th.status != Blocked && th.data.queue == NoQueue && !th.pending)
    && (t != curr && t != IDLE ==> (th.data.queue == NoQueue <==> th.status == Blocked) && Funded(th.data))
  }

  /** Each queue holds, once, exactly the threads whose tag names it. */
  ghost predicate Links(s: State) {
    && NoDup(s.ready) && NoDup(s.depleted)
    && (forall t: nat :: t in s.ready <==> t < |s.threads| && s.threads[t].data.queue == Ready)
    && (forall t: nat :: t in s.depleted <==> t < |s.threads| && s.threads[t].data.queue == Depleted)
  }

  /** In its current period a thread was charged exactly the budget it no longer has, and
      in no period was it charged more than its budget. */
  ghost predicate BookOk(charged: map<(nat, nat), nat>, t: nat, d: Server) {
    && Charged(charged, t, d.deadline) + d.remaining == d.budget
    && (forall x: nat :: x > d.deadline ==> Charged(charged, t, x) == 0)
    && (forall x: nat :: Charged(charged, t, x) <= d.budget)
  }

  ghost predicate Books(s: State) {
    && (forall t :: 0 <= t < |s.threads| ==> BookOk(s.charged, t, s.threads[t].data))
    && (forall t: nat, x: nat :: t >= |s.threads| ==> Charged(s.charged, t, x) == 0)
  }

  ghost predicate Core(s: State, clock: nat) {
    && s.period > 0 && s.curr < |s.threads| && Links(s) && Books(s)
    && forall t :: 0 <= t < |s.threads| ==> ThreadOk(s.period, clock, s.curr, t, s.threads[t])
  }

  ghost predicate EdfOrder(s: State) {
    Sorted(Deadlines(s.threads), s.ready)
  }

  /** The state between two operations, when no clock reading exceeds `clock`. */
  ghost predicate Inv(s: State, clock: nat) {
    Core(s, clock) && EdfOrder(s)
  }

  /** The state while schedule() consumes priority requests: only the current thread may be out of place. */
  ghost predicate LoopInv(s: State, clock: nat) {
    Core(s, clock) && SortedBut(Deadlines(s.threads), s.ready, s.curr)
  }

  lemma CoreKnown(s: State, clock: nat)
    requires Core(s, clock)
    ensures QueuesKnown(s)
  {
  }

  lemma CoreLater(s: State, clock: nat, now: nat)
    requires Core(s, clock) && clock <= now
    ensures Core(s, now)
  {
    BoundaryOrder(clock, now, s.period);
    forall t | 0 <= t < |s.threads| ensures ThreadOk(s.period, now, s.curr, t, s.threads[t]) {
      assert ThreadOk(s.period, clock, s.curr, t, s.threads[t]);
    }
  }

  // ---------------------------------------------------------------------
  // Queues
  // ---------------------------------------------------------------------

  lemma RemoveLinks(s: State, t: nat)
    requires Links(s) && t < |s.threads|
    ensures Links(QueueRemove(s, t))
  {
    WithoutNoDup(s.ready, t);
    WithoutNoDup(s.depleted, t);
  }

  lemma ReadyLinks(s: State, t: nat)
    requires Links(s) && t < |s.threads|
    ensures Links(ReadyInsert(s, t))
  {
    var r := QueueRemove(s, t);
    RemoveLinks(s, t);
    InsertNoDup(r.ready, InsertPos(Deadlines(r.threads), r.ready, t), t);
  }

  lemma DepletedLinks(s: State, t: nat)
    requires Links(s) && t < |s.threads|
    ensures Links(DepletedInsert(s, t))
  {
    RemoveLinks(s, t);
    var r := QueueRemove(s, t);
    assert forall x: nat :: x in r.depleted + [t] <==> x in r.depleted || x == t;
  }

  lemma SameDeadlines(a: seq<Thread<Server>>, b: seq<Thread<Server>>)
    requires |a| == |b| && forall t :: 0 <= t < |a| ==> a[t].data.deadline == b[t].data.deadline
    ensures Deadlines(a) == Deadlines(b)
  {
  }

  /** Reinserting the one thread that may be out of place restores the EDF order. */
  lemma ReadyOrder(s: State, t: nat)
    requires Links(s) && t < |s.threads| && SortedBut(Deadlines(s.threads), s.ready, t)
    ensures EdfOrder(ReadyInsert(s, t))
  {
    var keys := Deadlines(s.threads);
    var r := QueueRemove(s, t);
    SameDeadlines(s.threads, r.threads);
    SameDeadlines(s.threads, ReadyInsert(s, t).threads);
    WithoutSortedBut(keys, s.ready, t, t);
    var i := InsertPos(keys, r.ready, t);
    assert Fits(keys, r.ready, i, t);
    InsertSorted(keys, r.ready, i, t);
  }

  lemma DepletedOrder(s: State, t: nat)
    requires Links(s) && t < |s.threads| && SortedBut(Deadlines(s.threads), s.ready, t)
    ensures EdfOrder(DepletedInsert(s, t))
  {
    SameDeadlines(s.threads, DepletedInsert(s, t).threads);
    WithoutSortedBut(Deadlines(s.threads), s.ready, t, t);
    if Data(s, t).queue == Depleted {
      WithoutAbsent(s.ready, t);
    }
  }

  // ---------------------------------------------------------------------
  // Budget
  // ---------------------------------------------------------------------

  lemma ReplenishOk(period: nat, clock: nat, now: nat, d: Server)
    requires ServerOk(period, clock, d) && now <= clock
    ensures ServerOk(period, clock, Replenish(d, period, now))
    ensures now < Replenish(d, period, now).deadline && d.deadline <= Replenish(d, period, now).deadline
    ensures now == clock ==> Replenish(d, period, now).deadline == Boundary(now, period)
  {
    JumpLands(d.deadline, now, period);
    BoundaryOrder(now, clock, period);
    BoundaryIsNext(now, period);
    BoundaryIsNext(clock, period);
    if now == clock && now < d.deadline {
      assert OnGrid(d.deadline, period);
    }
  }

  lemma AdvanceCore(s: State, t: nat, clock: nat, now: nat)
    requires Core(s, clock) && t < |s.threads| && now <= clock
    ensures Links(Advance(s, t, now)) && Books(Advance(s, t, now))
    ensures ServerOk(s.period, clock, Data(Advance(s, t, now), t))
    ensures SortedBut(Deadlines(s.threads), s.ready, t) ==> SortedBut(Deadlines(Advance(s, t, now).threads), s.ready, t)
  {
    assert ThreadOk(s.period, clock, s.curr, t, s.threads[t]);
    ReplenishOk(s.period, clock, now, Data(s, t));
    var r := Advance(s, t, now);
    forall x | 0 <= x < |s.threads| ensures BookOk(r.charged, x, r.threads[x].data) {
      assert BookOk(s.charged, x, s.threads[x].data);
    }
  }

  /** Charging never takes more than the budget that is left. */
  lemma AccountCore(s: State, clock: nat, now: nat)
    requires Core(s, clock) && now <= clock
    ensures Core(Account(s, s.curr, now), clock)
    ensures Deadlines(Account(s, s.curr, now).threads) == Deadlines(s.threads)
  {
    var r := Account(s, s.curr, now);
    SameDeadlines(s.threads, r.threads);
    assert ThreadOk(s.period, clock, s.curr, s.curr, s.threads[s.curr]);
    forall t | 0 <= t < |s.threads| ensures BookOk(r.charged, t, r.threads[t].data) {
      assert BookOk(s.charged, t, s.threads[t].data);
      AccountBook(s, t, now);
    }
    forall t: nat, x: nat | t >= |s.threads| ensures Charged(r.charged, t, x) == 0 {
      assert Charged(s.charged, t, x) == 0;
    }
    forall t | 0 <= t < |s.threads| ensures ThreadOk(s.period, clock, s.curr, t, r.threads[t]) {
      assert ThreadOk(s.period, clock, s.curr, t, s.threads[t]);
    }
  }

  lemma AccountBook(s: State, t: nat, now: nat)
    requires s.curr < |s.threads| && t < |s.threads| && BookOk(s.charged, t, s.threads[t].data)
    ensures BookOk(Account(s, s.curr, now).charged, t, Account(s, s.curr, now).threads[t].data)
  {
    var r := Account(s, s.curr, now);
    var d := Data(s, t);
    forall x: nat ensures Charged(r.charged, t, x) ==
                          Charged(s.charged, t, x) +
                          if t == s.curr && x == d.deadline then d.remaining - Data(r, t).remaining else 0
    {
    }
  }

  // ---------------------------------------------------------------------
  // Refreshing
  // ---------------------------------------------------------------------

  /** The active threads are exactly the queued ones, each in the queue its budget asks for. */
  ghost predicate Settled(s: State) {
    forall t :: 0 <= t < |s.threads| ==> SettledAt(s, t)
  }

  predicate SettledAt(s: State, t: nat)
    requires t < |s.threads|
  {
    (Active(s, t) <==> Data(s, t).queue != NoQueue) && Funded(Data(s, t))
  }

  lemma OthersSettled(s: State, clock: nat, t: nat)
    requires Core(s, clock) && t < |s.threads| && t != s.curr
    ensures SettledAt(s, t)
  {
    assert ThreadOk(s.period, clock, s.curr, t, s.threads[t]);
  }

  lemma RefreshLinks(s: State, t: nat, clock: nat, now: nat)
    requires Core(s, clock) && t < |s.threads| && now <= clock
    requires SortedBut(Deadlines(s.threads), s.ready, t) && (t == s.curr || Active(s, t))
    ensures Links(RefreshThread(s, t, now)) && EdfOrder(RefreshThread(s, t, now))
  {
    var a := Advance(s, t, now);
    AdvanceCore(s, t, clock, now);
    if !Active(a, t) {
      assert ThreadOk(s.period, clock, s.curr, t, s.threads[t]);
      WithoutSortedBut(Deadlines(a.threads), a.ready, t, t);
      WithoutAbsent(a.ready, t);
    } else if Data(a, t).remaining > 0 {
      ReadyLinks(a, t);
      ReadyOrder(a, t);
    } else {
      DepletedLinks(a, t);
      DepletedOrder(a, t);
    }
  }

  /** The refreshed server: replenished when its deadline has passed, and in the queue its budget asks for. */
  lemma RefreshServer(s: State, t: nat, clock: nat, now: nat)
    requires Core(s, clock) && t < |s.threads| && now <= clock && t != IDLE && (t == s.curr || Active(s, t))
    ensures var r := RefreshThread(s, t, now);
            SettledAt(r, t) && now < Data(r, t).deadline && ThreadOk(s.period, clock, s.curr, t, r.threads[t])
  {
    assert ThreadOk(s.period, clock, s.curr, t, s.threads[t]);
    ReplenishOk(s.period, clock, now, Data(s, t));
  }

  /** Moving threads between queues leaves the ledger alone. */
  lemma SameBooks(s: State, r: State)
    requires Books(s) && r.charged == s.charged && |r.threads| == |s.threads|
    requires forall t :: 0 <= t < |s.threads| ==>
               r.threads[t].data == s.threads[t].data.(queue := r.threads[t].data.queue,
                   lastStart := r.threads[t].data.lastStart)
    ensures Books(r)
  {
    forall t | 0 <= t < |s.threads| ensures BookOk(r.charged, t, r.threads[t].data) {
      assert BookOk(s.charged, t, s.threads[t].data);
    }
  }

  lemma RefreshBooks(s: State, t: nat, clock: nat, now: nat)
    requires Core(s, clock) && t < |s.threads| && now <= clock
    ensures Books(RefreshThread(s, t, now))
  {
    var a, r := Advance(s, t, now), RefreshThread(s, t, now);
    assert Books(a) by {
      AdvanceCore(s, t, clock, now);
    }
    SameBooks(a, r);
  }

  /** Refreshing the current thread or a queued one. */
  lemma RefreshKeeps(s: State, t: nat, clock: nat, now: nat)
    requires Core(s, clock) && t < |s.threads| && now <= clock && t != IDLE
    requires SortedBut(Deadlines(s.threads), s.ready, t) && (t == s.curr || Active(s, t))
    ensures Inv(RefreshThread(s, t, now), clock) && SettledAt(RefreshThread(s, t, now), t)
  {
    var r := RefreshThread(s, t, now);
    RefreshLinks(s, t, clock, now);
    RefreshServer(s, t, clock, now);
    RefreshBooks(s, t, clock, now);
    forall x | 0 <= x < |s.threads| ensures ThreadOk(s.period, clock, s.curr, x, r.threads[x]) {
      assert ThreadOk(s.period, clock, s.curr, x, s.threads[x]);
    }
  }

  /** The advance and removal before the refresh of an expired ready server change nothing. */
  lemma RefreshReadyIs(s: State, t: nat, clock: nat, now: nat)
    requires Core(s, clock) && t < |s.threads| && now <= clock && Active(s, t) && Data(s, t).queue == Ready
    ensures RefreshReady(s, t, now) == if now < Data(s, t).deadline then s else RefreshThread(s, t, now)
  {
    assert ThreadOk(s.period, clock, s.curr, t, s.threads[t]);
    if Data(s, t).deadline <= now {
      ReplenishOk(s.period, clock, now, Data(s, t));
      var a := Advance(s, t, now);
      var b := QueueRemove(a, t);
      assert Advance(b, t, now) == b;
      WithoutAbsent(b.ready, t);
      WithoutAbsent(b.depleted, t);
      assert QueueRemove(b, t) == b;
    }
  }

  function Bare(d: Server): Server {
    d.(queue := NoQueue)
  }

  /** Every server is as before or has been replenished at `now`. */
  ghost predicate Refilled(s: State, r: State, now: nat) {
    && s.period > 0 && |r.threads| == |s.threads|
    && forall t :: 0 <= t < |s.threads| ==>
         || Bare(Data(r, t)) == Bare(Data(s, t))
         || Bare(Data(r, t)) == Bare(Replenish(Data(s, t), s.period, now))
  }

  ghost predicate SameQueued(s: State, r: State) {
    && |r.threads| == |s.threads|
    && forall t :: 0 <= t < |s.threads| ==> (Data(r, t).queue != NoQueue <==> Data(s, t).queue != NoQueue)
  }

  ghost predicate SameTags(s: State, r: State) {
    && |r.threads| == |s.threads|
    && forall t :: 0 <= t < |s.threads| ==> Data(r, t).queue == Data(s, t).queue
  }

  ghost predicate FreshIn(s: State, q: seq<nat>, now: nat) {
    forall t :: t in q ==> t < |s.threads| && now < Data(s, t).deadline
  }

  /** What refreshing queued servers keeps, and what it may change. */
  ghost predicate Progress(s: State, r: State, clock: nat, now: nat) {
    Inv(r, clock) && Settled(r) && r.period == s.period && Refilled(s, r, now) && SameQueued(s, r)
  }

  lemma ProgressTwice(a: State, b: State, c: State, clock: nat, now: nat)
    requires Core(a, clock) && now <= clock && Progress(a, b, clock, now) && Progress(b, c, clock, now)
    ensures Progress(a, c, clock, now)
  {
    forall t | 0 <= t < |a.threads|
      ensures Bare(Data(c, t)) == Bare(Data(a, t)) || Bare(Data(c, t)) == Bare(Replenish(Data(a, t), a.period, now))
    {
      assert ThreadOk(a.period, clock, a.curr, t, a.threads[t]);
      ReplenishOk(a.period, clock, now, Data(a, t));
    }
  }

  lemma StaysFresh(s: State, r: State, q: seq<nat>, now: nat)
    requires Refilled(s, r, now) && FreshIn(s, q, now)
    ensures FreshIn(r, q, now)
  {
    forall t | t in q ensures t < |r.threads| && now < Data(r, t).deadline {
      assert now < Data(s, t).deadline;
      assert Replenish(Data(s, t), s.period, now) == Data(s, t);
    }
  }

  /** One queued server is refreshed. */
  lemma QueuedStep(s: State, t: nat, clock: nat, now: nat, r: State)
    requires Inv(s, clock) && Settled(s) && t < |s.threads| && now <= clock && Data(s, t).queue != NoQueue
    requires r == RefreshThread(s, t, now)
    ensures Progress(s, r, clock, now) && now < Data(r, t).deadline
  {
    assert SettledAt(s, t);
    QueuedServer(s, t, clock, now, r);
    OnlySettled(s, r, t);
  }

  lemma QueuedServer(s: State, t: nat, clock: nat, now: nat, r: State)
    requires Inv(s, clock) && t < |s.threads| && Active(s, t) && SettledAt(s, t) && now <= clock
    requires Data(s, t).queue != NoQueue && r == RefreshThread(s, t, now)
    ensures Inv(r, clock) && SettledAt(r, t) && now < Data(r, t).deadline && Data(r, t).queue != NoQueue
  {
    RefreshServer(s, t, clock, now);
    RefreshKeeps(s, t, clock, now);
  }

  lemma OnlySettled(s: State, r: State, t: nat)
    requires Settled(s) && t < |s.threads| && Only(s, r, t) && SettledAt(r, t)
    ensures Settled(r)
  {
    forall x | 0 <= x < |s.threads| ensures SettledAt(r, x) {
      assert SettledAt(s, x);
    }
  }

  lemma ReadyStep(s: State, t: nat, clock: nat, now: nat, r: State)
    requires Inv(s, clock) && Settled(s) && t < |s.threads| && now <= clock && Data(s, t).queue == Ready
    requires r == RefreshReady(s, t, now)
    ensures Progress(s, r, clock, now) && SameTags(s, r) && now < Data(r, t).deadline
  {
    assert SettledAt(s, t);
    RefreshReadyIs(s, t, clock, now);
    if Data(s, t).deadline <= now {
      QueuedStep(s, t, clock, now, r);
      assert ThreadOk(s.period, clock, s.curr, t, s.threads[t]);
      assert SettledAt(r, t);
    }
  }

  lemma ProgressJoin(s: State, b: State, r: State, t: nat, q: seq<nat>, rest: seq<nat>, clock: nat, now: nat)
    requires q != [] && t == q[0] && rest == q[1..] && Core(s, clock) && now <= clock
    requires Progress(s, b, clock, now) && t < |b.threads| && now < Data(b, t).deadline && Progress(b, r, clock, now)
    requires FreshIn(r, rest, now)
    ensures Progress(s, r, clock, now) && FreshIn(r, q, now)
  {
    ProgressTwice(s, b, r, clock, now);
    assert FreshIn(b, [t], now);
    StaysFresh(b, r, [t], now);
    assert t in [t];
    assert forall x :: x in q ==> x == t || x in rest;
  }

  lemma {:induction false} ReadyAllKeeps(s: State, q: seq<nat>, clock: nat, now: nat, r: State)
    requires Inv(s, clock) && Settled(s) && now <= clock && Known(s, q) && r == RefreshReadyAll(s, q, now)
    requires forall t :: t in q ==> Data(s, t).queue == Ready
    ensures Progress(s, r, clock, now) && SameTags(s, r) && FreshIn(r, q, now)
    decreases |q|
  {
    if q != [] {
      var t, rest := q[0], q[1..];
      assert t in q && forall x :: x in rest ==> x in q;
      var b := RefreshReady(s, t, now);
      ReadyStep(s, t, clock, now, b);
      ReadyAllKeeps(b, rest, clock, now, r);
      ProgressJoin(s, b, r, t, q, rest, clock, now);
    }
  }

  lemma {:induction false} DepletedAllKeeps(s: State, q: seq<nat>, clock: nat, now: nat, r: State)
    requires Inv(s, clock) && Settled(s) && now <= clock && Known(s, q) && r == RefreshDepletedAll(s, q, now)
    requires forall t :: t in q ==> Data(s, t).queue != NoQueue
    ensures Progress(s, r, clock, now) && FreshIn(r, q, now)
    decreases |q|
  {
    if q != [] {
      var t, rest := q[0], q[1..];
      assert t in q && forall x :: x in rest ==> x in q;
      var b := RefreshThread(s, t, now);
      QueuedStep(s, t, clock, now, b);
      DepletedAllKeeps(b, rest, clock, now, r);
      ProgressJoin(s, b, r, t, q, rest, clock, now);
    }
  }

  /** Every queued server has a deadline in the future. */
  ghost predicate Fresh(s: State, now: nat) {
    forall t :: 0 <= t < |s.threads| && Data(s, t).queue != NoQueue ==> now < Data(s, t).deadline
  }

  lemma RefreshQueuesKeeps(s: State, clock: nat, now: nat)
    requires Inv(s, clock) && Settled(s) && now <= clock && QueuesKnown(s)
    ensures Progress(s, RefreshQueues(s, now), clock, now) && Fresh(RefreshQueues(s, now), now)
  {
    var b := RefreshReadyAll(s, s.ready, now);
    ReadyAllKeeps(s, s.ready, clock, now, b);
    var r := RefreshDepletedAll(b, b.depleted, now);
    DepletedAllKeeps(b, b.depleted, clock, now, r);
    ProgressTwice(s, b, r, clock, now);
    StaysFresh(b, r, s.ready, now);
    forall t | 0 <= t < |r.threads| && Data(r, t).queue != NoQueue ensures now < Data(r, t).deadline {
      assert t in s.ready || t in b.depleted;
    }
  }

  /** Before selecting, the current thread is charged and back in place, and every queued server is fresh. */
  lemma RefreshedKeeps(s: State, clock: nat, now: nat)
    requires LoopInv(s, clock) && now <= clock && QueuesKnown(s)
    ensures var r := Refreshed(s, now); Inv(r, clock) && Settled(r) && Fresh(r, now)
    ensures Progress(RefreshCurrent(s, now), Refreshed(s, now), clock, now)
  {
    var a := RefreshCurrent(s, now);
    RefreshCurrentKeeps(s, clock, now);
    RefreshQueuesKeeps(a, clock, now);
  }

  lemma RefreshCurrentKeeps(s: State, clock: nat, now: nat)
    requires LoopInv(s, clock) && now <= clock
    ensures Inv(RefreshCurrent(s, now), clock) && Settled(RefreshCurrent(s, now))
  {
    var r := RefreshCurrent(s, now);
    if s.curr == IDLE {
      assert ThreadOk(s.period, clock, s.curr, IDLE, s.threads[IDLE]);
      WithoutSortedBut(Deadlines(s.threads), s.ready, IDLE, IDLE);
      WithoutAbsent(s.ready, IDLE);
    } else {
      var a := Account(s, s.curr, now);
      AccountCore(s, clock, now);
      RefreshKeeps(a, s.curr, clock, now);
    }
    forall t | 0 <= t < |s.threads| ensures SettledAt(r, t) {
      if t != s.curr {
        OthersSettled(r, clock, t);
      }
    }
  }
}
