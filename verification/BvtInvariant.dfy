/**
 What every step of the BVT scheduler keeps, the choice schedule() makes, and
 the accounting laws of virtual time.
 */
module BvtInvariant {
  import opened Options
  import opened Division
  import opened Lists
  import opened Threads
  import opened BvtModel

  // ---------------------------------------------------------------------
  // The invariant
  // ---------------------------------------------------------------------

  ghost predicate ShareOk(mcu: nat, d: Share) {
    d.ratio > 0 && d.residual < mcu && (d.warpOn <==> d.warpLeft > 0) && (d.warpOn ==> d.warpValue > 0)
  }

  ghost predicate ThreadOk(mcu: nat, curr: nat, t: nat, th: Thread<Share>, queued: bool) {
    && ShareOk(mcu, th.data)
    && (th.status == Running <==> t == curr)
    && (th.beBlocking ==> t == curr && t != IDLE)
    && (t == IDLE ==> th.status != Blocked && !th.pending)
    && (queued <==> Competes(t, th))
    && (queued ==> th.data.evt == Evt(th.data))
  }

  ghost predicate EvtOrder(s: State) {
    NoDup(s.runqueue) && Sorted(Evts(s.threads), s.runqueue)
  }

  /** The runqueue holds exactly the competing threads, the running one included, in EVT order. */
  ghost predicate Inv(s: State) {
    && Sane(s) && EvtOrder(s)
    && forall t :: 0 <= t < |s.threads| ==> ThreadOk(s.mcu, s.curr, t, s.threads[t], t in s.runqueue)
  }

  ghost predicate SameMembers(s: State, r: State) {
    forall x: nat :: x in r.runqueue <==> x in s.runqueue
  }

  lemma SameEvts(a: seq<Thread<Share>>, b: seq<Thread<Share>>)
    requires |a| == |b| && forall t :: 0 <= t < |a| ==> a[t].data.evt == b[t].data.evt
    ensures Evts(a) == Evts(b)
  {
  }

  // ---------------------------------------------------------------------
  // Runqueue
  // ---------------------------------------------------------------------

  lemma EnqueueOrder(s: State, t: nat, r: State)
    requires EvtOrder(s) && t !in s.runqueue && r == Enqueue(s, t)
    ensures EvtOrder(r) && (forall x: nat :: x in r.runqueue <==> x in s.runqueue || x == t)
  {
    var keys := Evts(s.threads);
    var i := InsertPos(keys, s.runqueue, t);
    assert Fits(keys, s.runqueue, i, t);
    InsertSorted(keys, s.runqueue, i, t);
    InsertNoDup(s.runqueue, i, t);
  }

  lemma RemoveOrder(s: State, t: nat, th: Thread<Share>, r: State)
    requires EvtOrder(s) && t < |s.threads| && r == SetThread(s, t, th).(runqueue := Without(s.runqueue, t))
    ensures EvtOrder(r)
  {
    WithoutNoDup(s.runqueue, t);
    WithoutSorted(Evts(s.threads), s.runqueue, t);
    SortedSame(Evts(s.threads), Evts(r.threads), r.runqueue);
  }

  /** A queued thread whose data change moves to its place; the others do not move. */
  lemma UpdateOrder(s: State, t: nat, d: Share, r: State)
    requires EvtOrder(s) && t < |s.threads| && r == Update(s, t, d)
    ensures EvtOrder(r) && SameMembers(s, r)
  {
    var th := s.threads[t].(data := d);
    var a := SetThread(s, t, th).(runqueue := Without(s.runqueue, t));
    RemoveOrder(s, t, th, a);
    if t in s.runqueue {
      EnqueueOrder(a, t, r);
    } else {
      WithoutAbsent(s.runqueue, t);
    }
  }

  lemma UpdateKeeps(s: State, t: nat, d: Share, r: State)
    requires Inv(s) && t < |s.threads| && ShareOk(s.mcu, d) && d.evt == Evt(d) && r == Update(s, t, d)
    ensures Inv(r) && SameMembers(s, r)
  {
    UpdateOrder(s, t, d, r);
    forall x | 0 <= x < |s.threads| ensures ThreadOk(s.mcu, s.curr, x, r.threads[x], x in r.runqueue) {
      assert ThreadOk(s.mcu, s.curr, x, s.threads[x], x in s.runqueue);
    }
  }

  // ---------------------------------------------------------------------
  // Virtual time
  // ---------------------------------------------------------------------

  /** Charging loses nothing: whole units go to the AVT, and what is left over is carried. */
  lemma ChargeLedger(d: Share, mcu: nat, now: nat)
    requires mcu > 0
    ensures var e := Charge(d, mcu, now);
            && (e.avt - d.avt) * mcu + e.residual == (e.served - d.served) * d.ratio + d.residual
            && e.served - d.served == (if now > d.start then now - d.start else 0)
            && d.avt <= e.avt && e.ratio == d.ratio && e.weight == d.weight
  {
    if now > d.start {
      var v := Times(now - d.start, d.ratio) + d.residual;
      QuotRem(v, mcu);
      TimesIsMul(Quot(v, mcu), mcu);
      TimesIsMul(now - d.start, d.ratio);
    }
  }

  /** A warp is paid for by execution: it ends with the charge that uses up its window, and while it
      lasts the charges since it began stay below the window. */
  lemma ChargeOk(d: Share, mcu: nat, now: nat)
    requires mcu > 0 && ShareOk(mcu, d)
    ensures var e := Charge(d, mcu, now);
            && ShareOk(mcu, e) && e.evt == Evt(e)
            && (e.warpOn ==> d.warpOn && (e.avt - d.avt) + e.warpLeft == d.warpLeft)
            && (d.warpOn && !e.warpOn ==> e.avt - d.avt >= d.warpLeft && e.lastUnwarp == now)
  {
  }

  lemma StartWarpOk(d: Share, mcu: nat, now: nat)
    requires ShareOk(mcu, d)
    ensures ShareOk(mcu, StartWarp(d, mcu, now)) && StartWarp(d, mcu, now).avt == d.avt
    ensures StartWarp(d, mcu, now) != d ==>
              StartWarp(d, mcu, now).evt == Evt(StartWarp(d, mcu, now)) == d.avt - d.warpValue
  {
  }

  /** A warp opens a window of warpLimit units, at least one; an open window is not extended; and after
      a warp no other begins until the cooldown has passed. */
  lemma WarpIsBounded(d: Share, mcu: nat, now: nat)
    requires ShareOk(mcu, d)
    ensures d.warpOn ==> StartWarp(d, mcu, now) == d
    ensures !d.warpOn && StartWarp(d, mcu, now).warpOn ==>
              && StartWarp(d, mcu, now).warpLeft >= 1
              && (d.warpLimit != 0 ==> StartWarp(d, mcu, now).warpLeft == d.warpLimit)
    ensures d.unwarpPeriod != 0 && 0 < d.lastUnwarp <= now <= TICKS_MAX && now - d.lastUnwarp < d.unwarpPeriod * mcu ==>
              StartWarp(d, mcu, now).warpOn == d.warpOn
  {
    TimesIsMul(d.unwarpPeriod, mcu);
  }

  // ---------------------------------------------------------------------
  // schedule()
  // ---------------------------------------------------------------------

  lemma PrioritizeKeeps(s: State, t: nat, now: nat, r: State)
    requires Inv(s) && t < |s.threads| && r == Prioritize(s, t, now)
    ensures Inv(r) && SameMembers(s, r)
  {
    var d := StartWarp(Data(s, t), s.mcu, now);
    assert ThreadOk(s.mcu, s.curr, t, s.threads[t], t in s.runqueue);
    StartWarpOk(Data(s, t), s.mcu, now);
    if d != Data(s, t) {
      UpdateKeeps(s, t, d, r);
    }
  }

  lemma PrioritizeOneKeeps(s: State, t: nat, now: nat, r: State)
    requires Inv(s) && t < |s.threads| && r == PrioritizeOne(s, t, now)
    ensures Inv(r) && SameMembers(s, r)
  {
    if s.threads[t].pending {
      var a := SetThread(s, t, s.threads[t].(pending := false));
      PendingKeeps(s, t, false, a);
      if OnCpu(a.threads[t]) && !a.threads[t].beBlocking {
        PrioritizeKeeps(a, t, now, r);
      }
    }
  }

  lemma PendingKeeps(s: State, t: nat, pending: bool, a: State)
    requires Inv(s) && t < |s.threads| && (pending ==> t != IDLE)
    requires a == SetThread(s, t, s.threads[t].(pending := pending)).(resched := a.resched)
    ensures Inv(a)
  {
    SameEvts(s.threads, a.threads);
    forall x | 0 <= x < |s.threads| ensures ThreadOk(s.mcu, s.curr, x, a.threads[x], x in a.runqueue) {
      assert ThreadOk(s.mcu, s.curr, x, s.threads[x], x in s.runqueue);
    }
  }

  lemma {:induction false} PrioritizeAllKeeps(s: State, n: nat, prio: seq<nat>, r: State)
    requires Inv(s) && n <= |s.threads| == |prio| && r == PrioritizeAll(s, n, prio)
    ensures Inv(r) && SameMembers(s, r)
  {
    if n > 0 {
      var before := PrioritizeAll(s, n - 1, prio);
      assert Inv(before) && SameMembers(s, before) by {
        PrioritizeAllKeeps(s, n - 1, prio, before);
      }
      assert Inv(r) && SameMembers(before, r) by {
        PrioritizeOneKeeps(before, n - 1, prio[n - 1], r);
      }
    }
  }

  lemma ChargedKeeps(s: State, now: nat, r: State)
    requires Inv(s) && r == Charged(s, now)
    ensures Inv(r) && SameMembers(s, r)
    ensures r.runqueue != [] ==> r.runqueue[0] < |r.threads| && r.svt == Data(r, r.runqueue[0]).avt
  {
    if s.curr != IDLE {
      var d := Charge(Data(s, s.curr), s.mcu, now);
      assert ThreadOk(s.mcu, s.curr, s.curr, s.threads[s.curr], s.curr in s.runqueue);
      ChargeOk(Data(s, s.curr), s.mcu, now);
      var a := Update(s, s.curr, d);
      UpdateKeeps(s, s.curr, d, a);
      SvtKeeps(a, r);
    } else {
      SvtKeeps(s, r);
    }
    assert r.runqueue != [] ==> r.runqueue[0] in r.runqueue;
  }

  lemma SvtKeeps(a: State, r: State)
    requires Inv(a) && r == a.(svt := r.svt)
    ensures Inv(r)
  {
    forall x | 0 <= x < |a.threads| ensures ThreadOk(r.mcu, r.curr, x, r.threads[x], x in r.runqueue) {
      assert ThreadOk(a.mcu, a.curr, x, a.threads[x], x in a.runqueue);
    }
  }

  /** The running thread has the least EVT of the competing threads; the CPU idles only if there are none. */
  ghost predicate LeastEvt(s: State) {
    && s.curr < |s.threads|
    && forall t: nat :: t < |s.threads| && Competes(t, s.threads[t]) ==>
         Competes(s.curr, s.threads[s.curr]) && Data(s, s.curr).evt <= Data(s, t).evt
  }

  /** The timer is armed exactly when there is a second competing thread, for the moment the running
      thread has caught up with it plus the context switch allowance. */
  ghost predicate TimerSet(s: State, now: nat) {
    && Sane(s)
    && (s.timer == None <==> |s.runqueue| < 2)
    && (|s.runqueue| >= 2 ==>
          && s.runqueue[0] < |s.threads| && s.runqueue[1] < |s.threads|
          && var first, second := Data(s, s.runqueue[0]), Data(s, s.runqueue[1]);
             && first.evt <= second.evt
             && (second.evt - first.evt <= TICKS_MAX ==>
                   s.timer == Some(now + Times(Quot(second.evt - first.evt, first.ratio) + CSA, s.mcu))))
  }

  lemma DispatchThreads(s: State, next: nat, c: Readings, f: State)
    requires Inv(s) && next == Chosen(s) && f == Dispatch(s, next, c)
    ensures |f.threads| == |s.threads| && f.runqueue == s.runqueue && f.curr == next && f.mcu == s.mcu
    ensures forall t :: 0 <= t < |s.threads| ==>
              && Data(f, t) == (if t == next && t != IDLE then Data(s, t).(start := c.pick) else Data(s, t))
              && ThreadOk(f.mcu, f.curr, t, f.threads[t], t in f.runqueue)
              && (Competes(t, f.threads[t]) <==> t in s.runqueue)
  {
    assert ThreadOk(s.mcu, s.curr, s.curr, s.threads[s.curr], s.curr in s.runqueue);
    assert ThreadOk(s.mcu, s.curr, next, s.threads[next], next in s.runqueue);
    forall t | 0 <= t < |s.threads|
      ensures ThreadOk(f.mcu, f.curr, t, f.threads[t], t in f.runqueue)
      ensures (Competes(t, f.threads[t]) <==> t in s.runqueue)
    {
      assert ThreadOk(s.mcu, s.curr, t, s.threads[t], t in s.runqueue);
    }
  }

  lemma DispatchKeeps(s: State, next: nat, c: Readings, f: State)
    requires Inv(s) && next == Chosen(s) && f == Dispatch(s, next, c)
    ensures Inv(f) && LeastEvt(f) && !f.resched
  {
    DispatchThreads(s, next, c, f);
    SameEvts(s.threads, f.threads);
    forall t: nat | t < |f.threads| && Competes(t, f.threads[t])
      ensures Competes(f.curr, f.threads[f.curr]) && Data(f, f.curr).evt <= Data(f, t).evt
    {
      assert t in s.runqueue;
      assert next in s.runqueue;
      FirstIsLeast(Evts(s.threads), s.runqueue, t);
    }
  }

  lemma DispatchTimer(s: State, next: nat, c: Readings, f: State)
    requires Inv(s) && next == Chosen(s) && f == Dispatch(s, next, c)
    ensures TimerSet(f, c.timer)
  {
    DispatchThreads(s, next, c, f);
    if |s.runqueue| >= 2 {
      var a, b := s.runqueue[0], s.runqueue[1];
      assert a in s.runqueue && b in s.runqueue;
      assert Key(Evts(s.threads), a) <= Key(Evts(s.threads), b);
    }
  }

  /** What schedule() achieves. */
  ghost predicate Scheduled(f: State, c: Readings) {
    Inv(f) && LeastEvt(f) && !f.resched && TimerSet(f, c.timer)
  }

  lemma SelectionState(s: State, c: Readings, r: State)
    requires Inv(s) && |c.prio| == |s.threads| && r == Charged(PrioritizeAll(s, |s.threads|, c.prio), c.charge)
    ensures Inv(r) && SameMembers(s, r)
  {
    var p := PrioritizeAll(s, |s.threads|, c.prio);
    PrioritizeAllKeeps(s, |s.threads|, c.prio, p);
    ChargedKeeps(p, c.charge, r);
  }

  lemma ScheduleKeeps(s: State, c: Readings, f: State)
    requires Inv(s) && |c.prio| == |s.threads| && f == Schedule(s, c)
    ensures Scheduled(f, c)
  {
    var r := Charged(PrioritizeAll(s, |s.threads|, c.prio), c.charge);
    SelectionState(s, c, r);
    DispatchKeeps(r, Chosen(r), c, f);
    DispatchTimer(r, Chosen(r), c, f);
  }

  // ---------------------------------------------------------------------
  // The other operations
  // ---------------------------------------------------------------------

  lemma SleepKeeps(s: State, t: nat, markNow: nat, f: State)
    requires Inv(s) && t < |s.threads| && t != IDLE && f == SleepThread(s, t, markNow)
    ensures Inv(f)
  {
    RemoveOrder(s, t, f.threads[t], f.(resched := s.resched));
    forall x | 0 <= x < |s.threads| ensures ThreadOk(s.mcu, s.curr, x, f.threads[x], x in f.runqueue) {
      assert ThreadOk(s.mcu, s.curr, x, s.threads[x], x in s.runqueue);
    }
  }

  lemma WokenShareOk(mcu: nat, svt: int, now: nat, before: Share, d: Share)
    requires ShareOk(mcu, before) && d == WokenShare(before, mcu, svt, now)
    ensures ShareOk(mcu, d) && d.evt == Evt(d) && d.avt == WakeAvt(before.avt, svt)
  {
    StartWarpOk(before.(avt := WakeAvt(before.avt, svt)), mcu, now);
  }

  lemma WakeQueue(s: State, t: nat, now: nat, r: State)
    requires EvtOrder(s) && t < |s.threads| && t !in s.runqueue && r == WakeHook(s, t, now)
    ensures EvtOrder(r) && r.curr == s.curr && r.mcu == s.mcu && |r.threads| == |s.threads| && r.resched == s.resched
    ensures r.threads[t] == s.threads[t].(data := WokenShare(Data(s, t), s.mcu, s.svt, now))
    ensures forall x :: 0 <= x < |s.threads| && x != t ==> r.threads[x] == s.threads[x]
    ensures forall x: nat :: x in r.runqueue <==> x in s.runqueue || x == t
  {
    var a := SetThread(s, t, s.threads[t].(data := WokenShare(Data(s, t), s.mcu, s.svt, now)));
    WithoutAbsent(s.runqueue, t);
    RemoveOrder(s, t, a.threads[t], a);
    EnqueueOrder(a, t, r);
  }

  /** A waking thread is less than CSA units behind the scheduler virtual time. */
  lemma WakeKeeps(s: State, t: nat, now: nat, markNow: nat, f: State)
    requires Inv(s) && t < |s.threads| && t != IDLE && f == WakeThread(s, t, now, markNow)
    requires s.threads[t].status == Blocked || s.threads[t].beBlocking
    ensures Inv(f) && t in f.runqueue
    ensures Data(f, t).avt > s.svt - CSA && (Data(s, t).avt > s.svt - CSA ==> Data(f, t).avt == Data(s, t).avt)
  {
    assert ThreadOk(s.mcu, s.curr, t, s.threads[t], t in s.runqueue);
    var d := WokenShare(Data(s, t), s.mcu, s.svt, now);
    WokenShareOk(s.mcu, s.svt, now, Data(s, t), d);
    var r := WakeHook(s, t, now);
    WakeQueue(s, t, now, r);
    SameEvts(r.threads, f.threads);
    forall x | 0 <= x < |s.threads| ensures ThreadOk(s.mcu, s.curr, x, f.threads[x], x in f.runqueue) {
      assert ThreadOk(s.mcu, s.curr, x, s.threads[x], x in s.runqueue);
    }
  }

  lemma CreateKeeps(s: State, d: Share, markNow: nat, f: State)
    requires Inv(s) && ShareOk(s.mcu, d) && f == CreateThread(s, d, markNow)
    ensures Inv(f)
  {
    forall x | x in s.runqueue ensures Key(Evts(f.threads), x) == Key(Evts(s.threads), x) {
    }
    SortedSame(Evts(s.threads), Evts(f.threads), s.runqueue);
    forall x | 0 <= x < |f.threads| ensures ThreadOk(s.mcu, s.curr, x, f.threads[x], x in f.runqueue) {
      assert x < |s.threads| ==> ThreadOk(s.mcu, s.curr, x, s.threads[x], x in s.runqueue);
    }
  }

  // ---------------------------------------------------------------------
  // Scheduler virtual time
  // ---------------------------------------------------------------------

  ghost predicate LeastAvt(s: State) {
    forall t: nat :: t < |s.threads| && Competes(t, s.threads[t]) ==> s.svt <= Data(s, t).avt
  }

  function Boost(d: Share): int {
    if d.warpOn then d.warpValue else 0
  }

  /** The SVT that schedule() sets exceeds the AVT of a competing thread by no more than the warp of
      the first thread. */
  lemma SvtBound(s: State, now: nat, r: State, t: nat)
    requires Inv(s) && r == Charged(s, now) && t < |r.threads| && Competes(t, r.threads[t])
    ensures r.runqueue != [] && r.runqueue[0] < |r.threads| && r.svt <= Data(r, t).avt + Boost(Data(r, r.runqueue[0]))
  {
    ChargedKeeps(s, now, r);
    assert ThreadOk(r.mcu, r.curr, t, r.threads[t], t in r.runqueue);
    var first := r.runqueue[0];
    assert first in r.runqueue;
    assert ThreadOk(r.mcu, r.curr, first, r.threads[first], first in r.runqueue);
    FirstIsLeast(Evts(r.threads), r.runqueue, t);
  }

  /** Without a warp on the first thread it is the least AVT of the competing threads. */
  lemma SvtIsLeast(s: State, now: nat, r: State)
    requires Inv(s) && r == Charged(s, now) && r.runqueue != []
    requires r.runqueue[0] < |r.threads| && !Data(r, r.runqueue[0]).warpOn
    ensures LeastAvt(r)
  {
    forall t: nat | t < |r.threads| && Competes(t, r.threads[t]) ensures r.svt <= Data(r, t).avt {
      SvtBound(s, now, r, t);
    }
  }

  /** Whatever the warp, a warped thread in front can leave the SVT above the least AVT. */
  lemma SvtNotLeast(warp: nat) returns (s: State)
    requires warp > 0
    ensures Inv(s) && s == Charged(s, 0) && s.runqueue == [1, 2] && |s.threads| == 3
    ensures Boost(Data(s, 1)) == warp && !LeastAvt(s)
  {
    var idle := Thread(Running, false, false, 0, 0, InitShare(1, 0, 0, 0, 0, 0, 0));
    var d1 := InitShare(1, warp, 1, 0, warp, 0, 0).(warpOn := true, warpLeft := 1);
    var d2 := InitShare(1, 0, 0, 0, warp - 1, warp - 1, 0);
    var ths := [idle, Thread(Runnable, false, false, 0, 0, d1), Thread(Runnable, false, false, 0, 0, d2)];
    s := State(1, ths, [1, 2], IDLE, true, None, warp);
    assert Competes(2, s.threads[2]) && Data(s, 2).avt < s.svt;
  }

  // ---------------------------------------------------------------------
  // What schedule() leaves alone
  // ---------------------------------------------------------------------

  /** Status, blocking requests and runtime books are the same. */
  ghost predicate SameLife(s: State, f: State) {
    && f.curr == s.curr
    && SameLives(s.threads, f.threads)
  }

  lemma {:induction false} PrioritizeLife(s: State, n: nat, prio: seq<nat>, f: State)
    requires n <= |s.threads| == |prio| && f == PrioritizeAll(s, n, prio)
    ensures SameLife(s, f)
  {
    if n > 0 {
      var before := PrioritizeAll(s, n - 1, prio);
      assert SameLife(s, before) by {
        PrioritizeLife(s, n - 1, prio, before);
      }
      assert f == PrioritizeOne(before, n - 1, prio[n - 1]);
    }
  }

  lemma ChargedLife(s: State, p: State, now: nat, r: State)
    requires SameLife(s, p) && Sane(p) && r == Charged(p, now)
    ensures SameLife(s, r)
  {
    var d := Charge(Data(p, p.curr), p.mcu, now);
    assert r.threads == if p.curr == IDLE then p.threads else Update(p, p.curr, d).threads;
  }

  lemma OnlyChoice(s: State, r: State)
    requires Inv(s) && Sane(r) && SameMembers(s, r) && r.curr == s.curr && |r.threads| == |s.threads|
    requires CurrentOnly(s.threads, s.curr)
    ensures Chosen(r) == s.curr
  {
    var next := Chosen(r);
    assert ThreadOk(s.mcu, s.curr, s.curr, s.threads[s.curr], s.curr in s.runqueue);
    assert ThreadOk(s.mcu, s.curr, next, s.threads[next], next in s.runqueue);
    assert s.curr in r.runqueue;
  }

  lemma StayLife(s: State, r: State, c: Readings, f: State)
    requires SameLife(s, r) && Sane(r) && f == Dispatch(r, r.curr, c)
    ensures SameLife(s, f) && !f.resched
  {
  }

  /** The test of sched_clear_reschedule_if_current_only succeeds only when schedule() would pick
      the current thread again and switch nothing. */
  lemma SkipRefinesSchedule(s: State, c: Readings, f: State)
    requires Inv(s) && |c.prio| == |s.threads| && CurrentOnly(s.threads, s.curr) && f == Schedule(s, c)
    ensures SameLife(s, f) && !f.resched
  {
    var p := PrioritizeAll(s, |s.threads|, c.prio);
    var r := Charged(p, c.charge);
    assert Inv(r) && SameMembers(s, r) by {
      SelectionState(s, c, r);
    }
    PrioritizeLife(s, |s.threads|, c.prio, p);
    ChargedLife(s, p, c.charge, r);
    OnlyChoice(s, r);
    StayLife(s, r, c, f);
  }

  lemma DispatchBooked(r: State, next: nat, c: Readings, start: nat, clock: nat, f: State)
    requires Sane(r) && next < |r.threads| && f == Dispatch(r, next, c) && Booked(r.threads, r.curr, start, clock)
    requires clock <= c.switch_ <= TICKS_MAX
    ensures Booked(f.threads, f.curr, start, c.switch_)
  {
    var ths := if next == IDLE then r.threads
        else r.threads[next := r.threads[next].(data := Data(r, next).(start := c.pick))];
    SameTotal(r.threads, ths);
    if next != r.curr {
      SwitchConserves(ths, r.curr, next, c.switch_, start);
    }
  }

  ghost predicate Sound(s: State, start: nat, clock: nat) {
    Inv(s) && Booked(s.threads, s.curr, start, clock)
  }

  lemma ScheduleSound(s: State, c: Readings, clock: nat, start: nat, f: State)
    requires Sound(s, start, clock) && |c.prio| == |s.threads| && clock <= c.switch_ <= TICKS_MAX && f == Schedule(s, c)
    ensures Sound(f, start, c.switch_) && Scheduled(f, c)
  {
    var p := PrioritizeAll(s, |s.threads|, c.prio);
    var r := Charged(p, c.charge);
    PrioritizeLife(s, |s.threads|, c.prio, p);
    ChargedLife(s, p, c.charge, r);
    LivesBooked(s.threads, r.threads, s.curr, start, clock);
    DispatchBooked(r, Chosen(r), c, start, clock, f);
    ScheduleKeeps(s, c, f);
  }

  lemma SleepSound(s: State, t: nat, markNow: nat, clock: nat, start: nat, f: State)
    requires Sound(s, start, clock) && t < |s.threads| && t != IDLE && clock <= markNow
    requires f == SleepThread(s, t, markNow)
    ensures Sound(f, start, markNow)
  {
    SleepKeeps(s, t, markNow, f);
    assert ThreadOk(s.mcu, s.curr, t, s.threads[t], t in s.runqueue);
    SameTotal(s.threads, f.threads);
  }

  lemma WakeSound(s: State, t: nat, now: nat, markNow: nat, clock: nat, start: nat, f: State)
    requires Sound(s, start, clock) && t < |s.threads| && t != IDLE && clock <= markNow
    requires f == WakeThread(s, t, now, markNow)
    ensures Sound(f, start, markNow)
  {
    if s.threads[t].status == Blocked || s.threads[t].beBlocking {
      WakeKeeps(s, t, now, markNow, f);
      assert ThreadOk(s.mcu, s.curr, t, s.threads[t], t in s.runqueue);
      SameTotal(s.threads, f.threads);
    }
  }

  lemma RequestSound(s: State, t: nat, clock: nat, start: nat, f: State)
    requires Sound(s, start, clock) && t < |s.threads| && t != IDLE && f == RequestPriority(s, t)
    ensures Sound(f, start, clock)
  {
    PendingKeeps(s, t, true, f);
    SameTotal(s.threads, f.threads);
  }

  lemma CreateSound(s: State, d: Share, markNow: nat, clock: nat, start: nat, f: State)
    requires Sound(s, start, clock) && ShareOk(s.mcu, d) && clock <= markNow && f == CreateThread(s, d, markNow)
    ensures Sound(f, start, markNow)
  {
    CreateKeeps(s, d, markNow, f);
    assert f.threads[..|f.threads| - 1] == s.threads;
  }

  lemma FlagSound(s: State, f: State, clock: nat, start: nat)
    requires Sound(s, start, clock) && f == s.(resched := f.resched, timer := f.timer)
    ensures Sound(f, start, clock)
  {
    forall x | 0 <= x < |s.threads| ensures ThreadOk(s.mcu, s.curr, x, f.threads[x], x in f.runqueue) {
      assert ThreadOk(s.mcu, s.curr, x, s.threads[x], x in s.runqueue);
    }
  }
}
