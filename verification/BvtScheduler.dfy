/**
 The BVT scheduler as the object core/sched_bvt.c and core/schedule.c update in
 place, each operation proved equal to the function that specifies it.
 */
module BvtScheduler {
  import opened Options
  import opened Division
  import opened Lists
  import opened Threads
  import opened BvtModel
  import opened BvtInvariant

  /** The search of runqueue_add: the first thread with a larger EVT than thread t. */
  method FindPlace(ths: seq<Thread<Share>>, q: seq<nat>, t: nat) returns (i: nat)
    requires t < |ths| && forall x :: x in q ==> x < |ths|
    ensures i == InsertPos(Evts(ths), q, t)
  {
    ghost var keys := Evts(ths);
    assert forall i :: 0 <= i < |q| ==> q[i] in q;
    i := 0;
    while i < |q| && ths[q[i]].data.evt <= ths[t].data.evt
      invariant i <= |q|
      invariant forall j :: 0 <= j < i ==> Key(keys, q[j]) <= Key(keys, t)
    {
      i := i + 1;
    }
  }

  /** The loop over priority requests has dealt with the first n threads. */
  ghost predicate Requested(s0: State, s: State, n: nat, prio: seq<nat>) {
    n <= |s0.threads| == |s.threads| == |prio| && Inv(s) && s == PrioritizeAll(s0, n, prio)
  }

  lemma RequestedNext(s0: State, s: State, r: State, t: nat, prio: seq<nat>)
    requires Requested(s0, s, t, prio) && t < |s0.threads| && r == PrioritizeOne(s, t, prio[t])
    ensures Requested(s0, r, t + 1, prio)
  {
    PrioritizeOneKeeps(s, t, prio[t], r);
  }

  lemma WarpStarts(s: State, t: nat, now: nat, e: Share)
    requires t < |s.threads| && !Data(s, t).warpOn && CanWarp(Data(s, t), s.mcu, now)
    requires e == StartWarp(Data(s, t), s.mcu, now)
    ensures Prioritize(s, t, now) == Update(s, t, e)
  {
  }

  class Scheduler {
    const mcu: nat
    var threads: seq<Thread<Share>>
    var runqueue: seq<nat>
    var curr: nat
    var resched: bool
    var timer: Option<nat>
    var svt: int
    ghost var clock: nat
    ghost var start: nat

    ghost function St(): State
      reads this
    {
      State(mcu, threads, runqueue, curr, resched, timer, svt)
    }

    ghost predicate Valid()
      reads this
    {
      Sound(St(), start, clock)
    }

    /** run_idle_thread: only the idle thread exists, and it runs. */
    constructor (mcu: nat, idle: Share, runNow: nat)
      requires mcu > 0 && runNow > 0 && ShareOk(mcu, idle)
      ensures Valid() && clock == start == runNow && curr == IDLE && |threads| == 1 && this.mcu == mcu
    {
      this.mcu := mcu;
      threads := [Thread(Running, false, false, runNow, 0, idle)];
      runqueue, curr, resched, timer, svt := [], IDLE, false, None, 0;
      clock, start := runNow, runNow;
      new;
      assert TotalRuntime(threads) == TotalRuntime(threads[..0]) + threads[0].runtime;
    }

    // -------------------------------------------------------------------
    // Runqueue and virtual time
    // -------------------------------------------------------------------

    /** runqueue_add. */
    method AddToRunqueue(t: nat)
      requires t < |threads| && forall x :: x in runqueue ==> x < |threads|
      modifies `runqueue
      ensures St() == Enqueue(old(St()), t)
    {
      var i := FindPlace(threads, runqueue, t);
      runqueue := InsertAt(runqueue, i, t);
    }

    /** Store new data; a queued thread is removed and added again. */
    method StoreShare(t: nat, d: Share)
      requires t < |threads| && forall x :: x in runqueue ==> x < |threads|
      modifies `threads, `runqueue
      ensures St() == Update(old(St()), t, d)
    {
      threads := threads[t := threads[t].(data := d)];
      if t in runqueue {
        runqueue := Without(runqueue, t);
        AddToRunqueue(t);
      }
    }

    /** update_vt of the current thread. */
    method UpdateVirtualTime(now: nat)
      requires Sane(St())
      modifies `threads, `runqueue
      ensures St() == Update(old(St()), curr, Charge(old(Data(St(), curr)), mcu, now))
    {
      var d := ChargeShare(threads[curr].data, now);
      StoreShare(curr, d);
    }

    method ChargeShare(before: Share, now: nat) returns (d: Share)
      requires mcu > 0
      ensures d == Charge(before, mcu, now)
    {
      d := before;
      var charged: nat := 0;
      if now > d.start {
        var v := Times(now - d.start, d.ratio) + d.residual;
        charged := Quot(v, mcu);
        d := d.(residual := Rem(v, mcu), avt := d.avt + charged, served := d.served + (now - d.start));
      }
      if d.warpOn && charged != 0 {
        if charged >= d.warpLeft {
          d := d.(warpOn := false, warpLeft := 0, lastUnwarp := now);
        } else {
          d := d.(warpLeft := d.warpLeft - charged);
        }
      }
      d := d.(evt := if d.warpOn then d.avt - d.warpValue else d.avt);
    }

    /** update_svt. */
    method AlignSvt()
      requires Sane(St())
      modifies `svt
      ensures svt == if runqueue == [] then old(svt)
              else (assert runqueue[0] in runqueue; threads[runqueue[0]].data.avt)
    {
      if runqueue != [] {
        assert runqueue[0] in runqueue;
        svt := threads[runqueue[0]].data.avt;
      }
    }

    /** bvt_start_warp. */
    method Boost(t: nat, now: nat)
      requires Sane(St()) && t < |threads|
      modifies `threads, `runqueue
      ensures St() == Prioritize(old(St()), t, now)
    {
      var d := threads[t].data;
      if !d.warpOn && CanWarp(d, mcu, now) {
        var limit := if d.warpLimit != 0 then d.warpLimit else WARP_LIMIT_DEFAULT;
        var e := d.(warpOn := true, warpLeft := limit, evt := d.avt - d.warpValue);
        WarpStarts(St(), t, now, e);
        StoreShare(t, e);
      }
    }

    // -------------------------------------------------------------------
    // The operations of core/schedule.c
    // -------------------------------------------------------------------

    method ConsumeRequests(prio: seq<nat>)
      requires Inv(St()) && |prio| == |threads|
      modifies `threads, `runqueue
      ensures Requested(old(St()), St(), |old(threads)|, prio)
    {
      ghost var s0 := St();
      var t: nat, n: nat := 0, |threads|;
      while t < n
        invariant t <= n && Requested(s0, St(), t, prio)
      {
        ghost var s := St();
        ConsumeRequest(t, prio[t]);
        RequestedNext(s0, s, St(), t, prio);
        t := t + 1;
      }
    }

    method ConsumeRequest(t: nat, now: nat)
      requires Sane(St()) && t < |threads|
      modifies `threads, `runqueue
      ensures St() == PrioritizeOne(old(St()), t, now)
    {
      if threads[t].pending {
        threads := threads[t := threads[t].(pending := false)];
        if (threads[t].status == Running || threads[t].status == Runnable) && !threads[t].beBlocking {
          Boost(t, now);
        }
      }
    }

    /** The accounting of sched_bvt_pick_next. */
    method ChargeCurrent(now: nat)
      requires Sane(St())
      modifies `threads, `runqueue, `svt
      ensures St() == Charged(old(St()), now)
    {
      if curr != IDLE {
        UpdateVirtualTime(now);
      }
      AlignSvt();
    }

    /** The selection of sched_bvt_pick_next and the context switch. */
    method SelectAndSwitch(c: Readings)
      requires Inv(St())
      modifies `threads, `curr, `resched, `timer
      ensures St() == Dispatch(old(St()), Chosen(old(St())), c)
    {
      timer := None;
      var next := IDLE;
      if runqueue != [] {
        assert runqueue[0] in runqueue;
        next := runqueue[0];
        var first := threads[next].data;
        if |runqueue| > 1 {
          assert runqueue[1] in runqueue;
          var units := Quot(Distance(first, threads[runqueue[1]].data), first.ratio) + CSA;
          timer := Some(c.timer + Times(units, mcu));
        }
        assert next != IDLE by {
          assert ThreadOk(mcu, curr, next, threads[next], next in runqueue);
        }
        threads := threads[next := threads[next].(data := first.(start := c.pick))];
      }
      resched := false;
      if next != curr {
        threads := Switch(threads, curr, next, c.switch_);
        curr := next;
      }
    }

    /** schedule(). */
    method Schedule(c: Readings)
      requires Valid() && |c.prio| == |threads| && clock <= c.switch_ <= TICKS_MAX
      modifies this
      ensures Valid() && clock == c.switch_ && start == old(start)
      ensures Scheduled(St(), c) && Inv(old(St())) && St() == BvtModel.Schedule(old(St()), c)
    {
      ghost var s, before := St(), clock;
      clock := c.switch_;
      PickAndSwitch(c);
      ScheduleSound(s, c, before, start, St());
    }

    method PickAndSwitch(c: Readings)
      requires Inv(St()) && |c.prio| == |threads|
      modifies `threads, `runqueue, `curr, `resched, `timer, `svt
      ensures St() == BvtModel.Schedule(old(St()), c)
    {
      ghost var s := St();
      ConsumeRequests(c.prio);
      ghost var p := St();
      ChargeCurrent(c.charge);
      ChargedKeeps(p, c.charge, St());
      SelectAndSwitch(c);
    }

    /** sleep_thread. */
    method SleepThread(t: nat, markNow: nat)
      requires Valid() && t < |threads| && t != IDLE && clock <= markNow
      modifies this
      ensures Valid() && clock == markNow && start == old(start)
      ensures St() == BvtModel.SleepThread(old(St()), t, markNow)
    {
      ghost var s, before := St(), clock;
      clock := markNow;
      runqueue := Without(runqueue, t);
      if threads[t].status == Running {
        resched := true;
        threads := threads[t := threads[t].(beBlocking := true)];
      } else {
        threads := threads[t := threads[t].(status := Blocked, stateSince := markNow)];
      }
      SleepSound(s, t, markNow, before, start, St());
    }

    /** wake_thread. */
    method WakeThread(t: nat, now: nat, markNow: nat)
      requires Valid() && t < |threads| && t != IDLE && clock <= markNow
      modifies this
      ensures Valid() && clock == markNow && start == old(start)
      ensures St() == BvtModel.WakeThread(old(St()), t, now, markNow)
    {
      ghost var s, before := St(), clock;
      clock := markNow;
      WakeUp(t, now, markNow);
      WakeSound(s, t, now, markNow, before, start, St());
    }

    method WakeUp(t: nat, now: nat, markNow: nat)
      requires Inv(St()) && t < |threads|
      modifies `threads, `runqueue, `resched
      ensures St() == BvtModel.WakeThread(old(St()), t, now, markNow)
    {
      if threads[t].status == Blocked || threads[t].beBlocking {
        StartShare(t, now);
        if threads[t].status == Blocked {
          threads := threads[t := threads[t].(status := Runnable, stateSince := markNow)];
          resched := true;
        }
        threads := threads[t := threads[t].(beBlocking := false)];
      }
    }

    /** sched_bvt_wake. */
    method StartShare(t: nat, now: nat)
      requires Sane(St()) && t < |threads|
      modifies `threads, `runqueue
      ensures St() == WakeHook(old(St()), t, now)
    {
      var d := WakeShare(threads[t].data, now);
      threads := threads[t := threads[t].(data := d)];
      AddToRunqueue(t);
    }

    method WakeShare(before: Share, now: nat) returns (d: Share)
      ensures d == WokenShare(before, mcu, svt, now)
    {
      var threshold := svt - CSA;
      d := before.(avt := if before.avt > threshold then before.avt else svt);
      if !d.warpOn && CanWarp(d, mcu, now) {
        var limit := if d.warpLimit != 0 then d.warpLimit else WARP_LIMIT_DEFAULT;
        d := d.(warpOn := true, warpLeft := limit, evt := d.avt - d.warpValue);
      }
      d := d.(evt := if d.warpOn then d.avt - d.warpValue else d.avt);
    }

    /** request_thread_priority. */
    method RequestPriority(t: nat)
      requires Valid() && t < |threads| && t != IDLE
      modifies this
      ensures Valid() && clock == old(clock) && start == old(start)
      ensures St() == BvtModel.RequestPriority(old(St()), t)
    {
      ghost var s := St();
      threads := threads[t := threads[t].(pending := true)];
      resched := true;
      RequestSound(s, t, clock, start, St());
    }

    /** sched_tick_handler. */
    method TickHandler()
      requires Valid()
      modifies `resched, `timer
      ensures Valid() && St() == BvtModel.TickHandler(old(St()))
    {
      ghost var s := St();
      timer := None;
      if curr != IDLE || runqueue != [] {
        resched := true;
      }
      FlagSound(s, St(), clock, start);
    }

    /** init_thread_data for a new thread of this CPU. */
    method CreateThread(d: Share, markNow: nat)
      requires Valid() && ShareOk(mcu, d) && clock <= markNow
      modifies this
      ensures Valid() && clock == markNow && start == old(start)
      ensures St() == BvtModel.CreateThread(old(St()), d, markNow)
    {
      ghost var s, before := St(), clock;
      clock := markNow;
      threads := threads + [Thread(Blocked, false, false, markNow, 0, d)];
      CreateSound(s, d, markNow, before, start, St());
    }

    /** sched_clear_reschedule_if_current_only. */
    method ClearRescheduleIfCurrentOnly() returns (cleared: bool)
      requires Valid()
      modifies `resched
      ensures Valid() && cleared == (old(resched) && CurrentOnly(threads, curr))
      ensures resched == (old(resched) && !cleared)
      ensures cleared ==> forall c: Readings :: |c.prio| == |threads| ==>
              SameLife(old(St()), BvtModel.Schedule(old(St()), c))
    {
      ghost var s := St();
      cleared := false;
      if resched {
        var only := CurrentIsOnlyRunnable(threads, curr);
        if only {
          resched := false;
          cleared := true;
          forall c: Readings | |c.prio| == |threads| ensures SameLife(s, BvtModel.Schedule(s, c)) {
            SkipRefinesSchedule(s, c, BvtModel.Schedule(s, c));
          }
        }
      }
      FlagSound(s, St(), clock, start);
    }
  }
}
