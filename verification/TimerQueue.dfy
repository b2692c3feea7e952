/**
 The timer list and comparator of one CPU as core/timer.c and arch/arm64/timer.c
 update them in place.
 */
module TimerQueue {
  import opened Options
  import opened Division
  import opened Periods
  import opened Lists
  import opened TimerModel

  /** -EINVAL of the source. */
  datatype Status = Ok | Invalid

  /** The search of local_add_timer. */
  method FindPlace(ts: seq<Timer>, q: seq<nat>, t: nat) returns (i: nat)
    requires t < |ts| && forall x :: x in q ==> x < |ts|
    ensures i == PlaceOf(Timeouts(ts), q, t)
  {
    ghost var keys := Timeouts(ts);
    assert forall i :: 0 <= i < |q| ==> q[i] in q;
    i := 0;
    while i < |q| && ts[q[i]].timeout < ts[t].timeout
      invariant i <= |q|
      invariant forall j :: 0 <= j < i ==> Key(keys, q[j]) < Key(keys, t)
    {
      i := i + 1;
    }
  }

  /** advance_periodic_timer: the first of the timer's coming timeouts that lies after now. */
  method AdvancePeriodic(x: Timer, now: nat) returns (next: nat)
    requires x.period > 0
    ensures next == Advanced(x, now)
    ensures now < next && (x.timeout <= now ==> next <= now + x.period)
  {
    ghost var m := AdvancedIsNext(x, now);
    JumpIsStepping(x.timeout + x.period, now, x.period);
    next := x.timeout + x.period;
    if next <= now {
      var missed := Quot(now - next, x.period) + 1;
      next := next + Times(missed, x.period);
      if next <= now {
        next := now + x.period;
      }
    }
  }

  function Largest(a: nat, b: nat): nat { if a < b then b else a }

  /** The queue after add_timer: a periodic timer has at least the minimal period. */
  function Added(q: Queue, t: nat, minPeriod: nat): Queue
    requires t < |q.timers|
  {
    var x := q.timers[t];
    var y := if x.periodic then x.(period := Largest(x.period, minPeriod)) else x;
    Insert(Store(q, t, y), t)
  }

  /** Unless the new timer is the head, the comparator is still early enough. */
  lemma AddedValid(q: Queue, t: nat, minPeriod: nat, pending: bool, c: Comparator)
    requires Valid(q) && Covered(q, pending, c) && t < |q.timers| && t !in q.list && q.timers[t].timeout > 0
    ensures Valid(Added(q, t, minPeriod)) && forall x: nat :: x in Added(q, t, minPeriod).list <==>
            x in q.list || x == t
    ensures PlaceOf(Timeouts(q.timers), q.list, t) != 0 ==> Covered(Added(q, t, minPeriod), pending, c)
    ensures Timeouts(Added(q, t, minPeriod).timers) == Timeouts(q.timers)
  {
    var x := q.timers[t];
    var y := if x.periodic then x.(period := Largest(x.period, minPeriod)) else x;
    var a := Store(q, t, y);
    StoreValid(q, t, y);
    assert Timeouts(a.timers) == Timeouts(q.timers);
    InsertValid(a, t);
    if q.list != [] {
      assert q.list[0] in q.list;
    }
  }

  class CpuTimers {
    const minPeriod: nat
    var timers: seq<Timer>
    var list: seq<nat>
    var pending: bool
    var comparator: Comparator

    ghost function Q(): Queue
      reads this
    {
      Queue(timers, list)
    }

    /** Between operations: the list is in order and the hardware will ask for the head in time. */
    ghost predicate Ready()
      reads this
    {
      Valid(Q()) && Covered(Q(), pending, comparator)
    }

    constructor (minPeriod: nat, timers: seq<Timer>)
      requires minPeriod > 0 && forall t :: 0 <= t < |timers| ==> TimerOk(timers[t])
      ensures Ready() && list == [] && this.timers == timers && this.minPeriod == minPeriod
    {
      this.minPeriod := minPeriod;
      this.timers := timers;
      list, pending, comparator := [], false, Off;
    }

    /** arch_set_timer_count for the first timer, if there is one. */
    method UpdateArchitectureTimer(now: nat)
      requires Valid(Q())
      modifies `comparator
      ensures Covered(Q(), false, comparator) && (list == [] ==> comparator == old(comparator))
    {
      if list != [] {
        assert list[0] in list;
        var timeout := timers[list[0]].timeout;
        var delta := if timeout > now then timeout - now else 1;
        if delta > MAX_DELTA {
          delta := MAX_DELTA;
        }
        comparator := Armed(now + delta, now);
        ProgramCovers(Q(), now);
      }
    }

    /** local_add_timer: says whether the timer is the new head. */
    method LocalAdd(t: nat) returns (head: bool)
      requires t < |timers| && forall x :: x in list ==> x < |timers|
      modifies `list
      ensures Q() == Insert(old(Q()), t)
      ensures head <==> PlaceOf(Timeouts(timers), old(list), t) == 0
    {
      var i := FindPlace(timers, list, t);
      list := InsertAt(list, i, t);
      head := i == 0;
    }

    /** add_timer. */
    method AddTimer(t: nat, now: nat) returns (status: Status)
      requires Ready() && t < |timers| && t !in list
      modifies `timers, `list, `comparator
      ensures Ready()
      ensures status == Invalid <==> !old(timers)[t].hasFunc || old(timers)[t].timeout == 0
      ensures Q() == if status == Ok then Added(old(Q()), t, minPeriod) else old(Q())
      ensures status == Invalid ==> comparator == old(comparator)
    {
      if !timers[t].hasFunc || timers[t].timeout == 0 {
        return Invalid;
      }
      status := Ok;
      AddedValid(Q(), t, minPeriod, pending, comparator);
      var head := StartTimer(t);
      if head {
        UpdateArchitectureTimer(now);
      }
    }

    method StartTimer(t: nat) returns (head: bool)
      requires t < |timers| && forall x :: x in list ==> x < |timers|
      modifies `timers, `list
      ensures Q() == Added(old(Q()), t, minPeriod) && head == (PlaceOf(Timeouts(old(timers)), old(list), t) == 0)
    {
      if timers[t].periodic {
        timers := timers[t := timers[t].(period := Largest(timers[t].period, minPeriod))];
      }
      assert Timeouts(timers) == Timeouts(old(timers));
      head := LocalAdd(t);
    }

    /** del_timer. */
    method DelTimer(t: nat)
      requires Ready()
      modifies `list
      ensures Ready() && list == Without(old(list), t)
    {
      ghost var q0 := Q();
      RemoveValid(q0, t);
      if t in list {
        ghost var i := IndexOf(list, t);
        WithoutPlace(list, i);
        list := Without(list, t);
        if list != [] {
          assert q0.list[0] in q0.list && list[0] in list;
          FirstIsLeast(Timeouts(timers), q0.list, list[0]);
          LaterHeadCovered(q0, Q(), pending, comparator);
        }
      } else {
        WithoutAbsent(list, t);
      }
    }

    /** update_timer of a timer that is not started. */
    method UpdateTimer(t: nat, timeout: nat, period: nat)
      requires Ready() && t < |timers| && t !in list
      modifies `timers
      ensures Ready() && timers == old(timers)[t := Timer(period > 0, timeout, period, old(timers)[t].hasFunc)]
    {
      ghost var q0 := Q();
      var x := Timer(period > 0, timeout, period, timers[t].hasFunc);
      StoreValid(q0, t, x);
      timers := timers[t := x];
      assert list != [] ==> list[0] in list;
    }

    /** timer_irq_handler: the comparator has fired. */
    method TimerInterrupt(now: nat)
      requires Ready() && comparator.Armed? && comparator.at <= now
      modifies `comparator, `pending
      ensures Ready() && pending && comparator == Off
    {
      comparator := Off;
      pending := true;
    }

    /** Service one expired timer: take it off the list, run it, and requeue or stop it. */
    method Service(t: nat, now: nat, sample: nat) returns (at: nat)
      requires Valid(Q()) && HeadExpired(Q(), now) && t == list[0]
      modifies `timers, `list
      ensures at == Reading(old(Q()), now, sample) && Q() == ServeHead(old(Q()), at) && Valid(Q())
    {
      ghost var q0 := Q();
      at := if timers[t].periodic then sample else now;
      ServeHeadValid(q0, at);
      assert t in list && Without(list, t) == list[1..] by {
        WithoutPlace(list, 0);
        assert list[..0] + list[1..] == list[1..];
      }
      list := Without(list, t);
      if timers[t].periodic {
        var next := AdvancePeriodic(timers[t], at);
        Restart(t, next);
        assert Q() == ServeHead(q0, at);
      } else {
        timers := timers[t := timers[t].(timeout := 0)];
      }
    }

    /** Queue a timer again for its next timeout. */
    method Restart(t: nat, next: nat)
      requires t < |timers| && forall x :: x in list ==> x < |timers|
      modifies `timers, `list
      ensures Q() == Insert(Store(old(Q()), t, old(timers)[t].(timeout := next)), t)
    {
      timers := timers[t := timers[t].(timeout := next)];
      var _ := LocalAdd(t);
    }

    /** timer_softirq; reading k of the clock by a periodic timer is samples[k]. */
    method TimerSoftirq(first: nat, samples: seq<nat>, armNow: nat)
      requires Ready() && |samples| == MAX_SERVICED
      modifies this
      ensures Ready() && !pending
      ensures Valid(old(Q())) && Q() == Serve(old(Q()), 0, first, samples).queue
    {
      pending := false;
      ghost var q0, served := Q(), 0;
      var now, tries := first, MAX_SERVICED + 1;
      var pos := First(list);
      while pos.Some?
        invariant !pending && Valid(Q()) && AtNode(Q(), pos, now) && served < tries + served == MAX_SERVICED + 1
        invariant Serve(Q(), served, now, samples) == Serve(q0, 0, first, samples)
        decreases tries
      {
        var t := pos.value;
        var n := Next(list, t);
        tries := tries - 1;
        assert t < |timers|;
        if timers[t].timeout <= now && tries != 0 {
          HeadIsExpired(Q(), t, now);
          AtNodeNext(Q(), now, Reading(Q(), now, samples[served]));
          now := Service(t, now, samples[MAX_SERVICED - tries]);
          served := served + 1;
          pos := n;
        } else {
          if tries != 0 && HeadExpired(Q(), now) {
            assert false;
          }
          break;
        }
      }
      UpdateArchitectureTimer(armNow);
    }
  }
}
