/**
 The per-CPU timer list of core/timer.c: ordered insertion, the bounded servicing
 of expired timers, and the one-shot comparator of arch/arm64/timer.c.
 */
module TimerModel {
  import opened Options
  import opened Division
  import opened Periods
  import opened Lists

  /** Timers serviced in one softirq: MAX_TIMER_ACTIONS - 1. */
  const MAX_SERVICED: nat := 31
  const MAX_DELTA: nat := 0xFFFF_FFFF

  /** struct hv_timer; timeout 0 means stopped. */
  datatype Timer = Timer(periodic: bool, timeout: nat, period: nat, hasFunc: bool)

  /** The timers of a CPU and the list of those that are started. */
  datatype Queue = Queue(timers: seq<Timer>, list: seq<nat>)

  function Timeouts(ts: seq<Timer>): (r: seq<int>)
    ensures |r| == |ts| && forall t :: 0 <= t < |ts| ==> r[t] == ts[t].timeout
  {
    seq(|ts|, t requires 0 <= t < |ts| => ts[t].timeout)
  }

  ghost predicate TimerOk(x: Timer) {
    x.periodic ==> x.period > 0
  }

  /** Started timers are listed once, in timeout order, and periodic ones have a period. */
  ghost predicate Valid(q: Queue) {
    && NoDup(q.list) && Sorted(Timeouts(q.timers), q.list)
    && (forall t :: t in q.list ==> t < |q.timers| && q.timers[t].timeout > 0)
    && (forall t :: 0 <= t < |q.timers| ==> TimerOk(q.timers[t]))
  }

  // ---------------------------------------------------------------------
  // Insertion
  // ---------------------------------------------------------------------

  /** Where local_add_timer puts timer t: behind the timers with a smaller timeout. */
  function PlaceOf(keys: seq<int>, q: seq<nat>, t: nat): (i: nat)
    ensures i <= |q|
    ensures forall j :: 0 <= j < i ==> Key(keys, q[j]) < Key(keys, t)
    ensures i < |q| ==> Key(keys, t) <= Key(keys, q[i])
  {
    if q == [] || Key(keys, t) <= Key(keys, q[0]) then 0 else 1 + PlaceOf(keys, q[1..], t)
  }

  function Insert(q: Queue, t: nat): Queue {
    q.(list := InsertAt(q.list, PlaceOf(Timeouts(q.timers), q.list, t), t))
  }

  function Store(q: Queue, t: nat, x: Timer): (r: Queue)
    requires t < |q.timers|
    ensures |r.timers| == |q.timers| && r.timers[t] == x && r.list == q.list
    ensures forall u :: 0 <= u < |q.timers| && u != t ==> r.timers[u] == q.timers[u]
  {
    q.(timers := q.timers[t := x])
  }

  lemma StoreValid(q: Queue, t: nat, x: Timer)
    requires Valid(q) && t < |q.timers| && t !in q.list && TimerOk(x)
    ensures Valid(Store(q, t, x))
  {
    SortedSame(Timeouts(q.timers), Timeouts(Store(q, t, x).timers), q.list);
  }

  lemma InsertValid(q: Queue, t: nat)
    requires Valid(q) && t < |q.timers| && t !in q.list && q.timers[t].timeout > 0
    ensures Valid(Insert(q, t)) && forall x: nat :: x in Insert(q, t).list <==> x in q.list || x == t
  {
    var keys := Timeouts(q.timers);
    var i := PlaceOf(keys, q.list, t);
    assert Fits(keys, q.list, i, t);
    InsertSorted(keys, q.list, i, t);
    InsertNoDup(q.list, i, t);
  }

  lemma RemoveValid(q: Queue, t: nat)
    requires Valid(q)
    ensures Valid(q.(list := Without(q.list, t)))
  {
    WithoutNoDup(q.list, t);
    WithoutSorted(Timeouts(q.timers), q.list, t);
  }

  // ---------------------------------------------------------------------
  // Servicing
  // ---------------------------------------------------------------------

  /** The timeout after advance_periodic_timer. */
  function Advanced(x: Timer, now: nat): nat
    requires x.period > 0
  {
    Step(x.timeout + x.period, now, x.period)
  }

  /** A periodic timer that has expired moves by whole periods to its first future timeout. */
  lemma AdvancedIsNext(x: Timer, now: nat) returns (m: nat)
    requires x.period > 0
    ensures m > 0 && Advanced(x, now) == x.timeout + Times(m, x.period)
    ensures now < Advanced(x, now)
    ensures x.timeout <= now ==> Advanced(x, now) <= now + x.period
  {
    var next := x.timeout + x.period;
    JumpIsStepping(next, now, x.period);
    if next <= now {
      var k := Quot(now - next, x.period) + 1;
      assert Times(k, x.period) == x.period + Times(k - 1, x.period);
      QuotRem(now - next, x.period);
      m := k + 1;
    } else {
      m := 1;
      assert Times(1, x.period) == x.period + Times(0, x.period);
    }
  }

  /** A serviced timer: a periodic one moves on, a one-shot one stops. */
  function Serviced(x: Timer, now: nat): Timer
    requires TimerOk(x)
  {
    if x.periodic then x.(timeout := Advanced(x, now)) else x.(timeout := 0)
  }

  /** Service the first timer, which has expired; `now` is read again if it is periodic. */
  function ServeHead(q: Queue, now: nat): Queue
    requires Valid(q) && q.list != []
  {
    assert q.list[0] in q.list;
    var t := q.list[0];
    var x := q.timers[t];
    var r := Store(q.(list := q.list[1..]), t, Serviced(x, now));
    if x.periodic then Insert(r, t) else r
  }

  lemma ServeHeadValid(q: Queue, now: nat)
    requires Valid(q) && q.list != []
    ensures Valid(ServeHead(q, now)) && |ServeHead(q, now).timers| == |q.timers|
  {
    var t := q.list[0];
    assert t in q.list;
    WithoutPlace(q.list, 0);
    assert q.list[..0] + q.list[1..] == q.list[1..];
    var a := q.(list := q.list[1..]);
    RemoveValid(q, t);
    StoreValid(a, t, Serviced(q.timers[t], now));
    if q.timers[t].periodic {
      var m := AdvancedIsNext(q.timers[t], now);
      InsertValid(Store(a, t, Serviced(q.timers[t], now)), t);
    }
  }

  /** Has the first timer expired at `now`? */
  predicate HeadExpired(q: Queue, now: nat) {
    q.list != [] && q.list[0] < |q.timers| && q.timers[q.list[0]].timeout <= now
  }

  /** The clock reading that later comparisons use. */
  function Reading(q: Queue, now: nat, sample: nat): nat {
    if q.list != [] && q.list[0] < |q.timers| && q.timers[q.list[0]].periodic then sample else now
  }

  datatype Outcome = Outcome(queue: Queue, served: nat, now: nat)

  /** Reference definition of the softirq: service the head while it has expired, at most MAX_SERVICED
      times; service k reads the clock as samples[k]. */
  ghost function Serve(q: Queue, served: nat, now: nat, samples: seq<nat>): Outcome
    requires Valid(q) && |samples| == MAX_SERVICED
    decreases MAX_SERVICED - served
  {
    if served >= MAX_SERVICED || !HeadExpired(q, now) then Outcome(q, served, now)
    else
      ServeHeadValid(q, Reading(q, now, samples[served]));
      Serve(ServeHead(q, Reading(q, now, samples[served])), served + 1, Reading(q, now, samples[served]), samples)
  }

  /** When any listed timer has expired, the first has. */
  lemma HeadIsExpired(q: Queue, t: nat, now: nat)
    requires Valid(q) && t in q.list
    ensures q.timers[t].timeout <= now ==> HeadExpired(q, now)
  {
    var keys, head := Timeouts(q.timers), q.list[0];
    FirstIsLeast(keys, q.list, t);
    assert head in q.list && Key(keys, head) == q.timers[head].timeout && Key(keys, t) == q.timers[t].timeout;
  }

  /** The softirq ends with every listed timer in the future, or with its quota used up. */
  lemma {:induction false} ServeEnds(q: Queue, served: nat, now: nat, samples: seq<nat>)
    requires Valid(q) && |samples| == MAX_SERVICED && served <= MAX_SERVICED
    ensures var o := Serve(q, served, now, samples);
            && Valid(o.queue) && |o.queue.timers| == |q.timers| && o.served <= MAX_SERVICED
            && (o.served == MAX_SERVICED || forall t :: t in o.queue.list ==> o.now < o.queue.timers[t].timeout)
    decreases MAX_SERVICED - served
  {
    if served < MAX_SERVICED && HeadExpired(q, now) {
      var at := Reading(q, now, samples[served]);
      ServeHeadValid(q, at);
      ServeEnds(ServeHead(q, at), served + 1, at, samples);
    } else {
      forall t | t in q.list && served < MAX_SERVICED ensures now < q.timers[t].timeout {
        HeadIsExpired(q, t, now);
      }
    }
  }

  /** What the softirq may do to one timer: leave it, stop it, or move it on by whole periods. */
  ghost predicate Moved(x: Timer, y: Timer) {
    || y == x
    || (!x.periodic && x.timeout > 0 && y == x.(timeout := 0))
    || (x.periodic && exists m: nat :: m > 0 && y == x.(timeout := x.timeout + Times(m, x.period)))
  }

  lemma MovedTwice(x: Timer, y: Timer, z: Timer)
    requires Moved(x, y) && Moved(y, z)
    ensures Moved(x, z)
  {
    if x.periodic && y != x && z != y {
      var m: nat :| m > 0 && y == x.(timeout := x.timeout + Times(m, x.period));
      var n: nat :| n > 0 && z == y.(timeout := y.timeout + Times(n, y.period));
      TimesAdd(m, n, x.period);
      assert z == x.(timeout := x.timeout + Times(m + n, x.period));
    }
  }

  /** A one-shot timer left the list exactly when it was stopped; a periodic one never leaves it. */
  ghost predicate Fate(q: Queue, r: Queue, t: nat)
    requires t < |q.timers| && t < |r.timers|
  {
    && Moved(q.timers[t], r.timers[t])
    && (t in r.list <==> t in q.list && (q.timers[t].periodic || r.timers[t].timeout > 0))
    && (t !in q.list ==> r.timers[t] == q.timers[t])
  }

  lemma ServeHeadFate(q: Queue, now: nat, t: nat)
    requires Valid(q) && q.list != [] && t < |q.timers|
    ensures |ServeHead(q, now).timers| == |q.timers| && Fate(q, ServeHead(q, now), t)
  {
    var h := q.list[0];
    assert h in q.list;
    assert forall x: nat :: x in q.list <==> x == h || x in q.list[1..];
    if q.timers[h].periodic {
      var m := AdvancedIsNext(q.timers[h], now);
    }
  }

  /** Every timer after the softirq: untouched, stopped and off the list, or moved on and still listed. */
  lemma {:induction false} ServeFate(q: Queue, served: nat, now: nat, samples: seq<nat>, t: nat)
    requires Valid(q) && |samples| == MAX_SERVICED && served <= MAX_SERVICED && t < |q.timers|
    ensures var o := Serve(q, served, now, samples);
            |o.queue.timers| == |q.timers| && Fate(q, o.queue, t)
    decreases MAX_SERVICED - served
  {
    if served < MAX_SERVICED && HeadExpired(q, now) {
      var at := Reading(q, now, samples[served]);
      var r := ServeHead(q, at);
      ServeHeadValid(q, at);
      ServeHeadFate(q, at, t);
      ServeFate(r, served + 1, at, samples, t);
      MovedTwice(q.timers[t], r.timers[t], Serve(r, served + 1, at, samples).queue.timers[t]);
    }
  }

  /** The samples still to come are no earlier than `now`, and in order. */
  ghost predicate Monotone(now: nat, served: nat, samples: seq<nat>) {
    && (forall i :: served <= i < |samples| ==> now <= samples[i])
    && (forall i, j :: served <= i < j < |samples| ==> samples[i] <= samples[j])
  }

  /** The softirq touches no timer before its time. */
  lemma {:induction false} ServesExpired(q: Queue, served: nat, now: nat, samples: seq<nat>, t: nat)
    requires Valid(q) && |samples| == MAX_SERVICED && served <= MAX_SERVICED && t < |q.timers|
    requires Monotone(now, served, samples)
    ensures var o := Serve(q, served, now, samples);
            && |o.queue.timers| == |q.timers| && now <= o.now
            && (o.queue.timers[t] != q.timers[t] ==> q.timers[t].timeout <= o.now)
    decreases MAX_SERVICED - served
  {
    if served < MAX_SERVICED && HeadExpired(q, now) {
      var at := Reading(q, now, samples[served]);
      ServeHeadValid(q, at);
      ServesExpired(ServeHead(q, at), served + 1, at, samples, t);
    }
  }

  /** A periodic timer is requeued in the first period after the clock reading made for it. */
  lemma RequeuedInTime(q: Queue, now: nat, sample: nat)
    requires Valid(q) && HeadExpired(q, now) && now <= sample && q.timers[q.list[0]].periodic
    ensures var t := q.list[0];
            var r := ServeHead(q, sample);
            |r.timers| == |q.timers| && t in r.list && sample < r.timers[t].timeout <= sample + r.timers[t].period
  {
    var m := AdvancedIsNext(q.timers[q.list[0]], sample);
  }

  /** The loop that saved the next node before servicing the head goes on at the new head, if that
      has expired. */
  ghost predicate AtNode(q: Queue, pos: Option<nat>, now: nat) {
    && (pos.Some? ==> pos.value in q.list)
    && (HeadExpired(q, now) ==> pos == Some(q.list[0]))
  }

  lemma AtNodeNext(q: Queue, now: nat, at: nat)
    requires Valid(q) && HeadExpired(q, now)
    ensures AtNode(ServeHead(q, at), Next(q.list, q.list[0]), at)
  {
    var t := q.list[0];
    var r := ServeHead(q, at);
    assert IndexOf(q.list, t) == 0;
    if q.timers[t].periodic {
      var m := AdvancedIsNext(q.timers[t], at);
    }
    if |q.list| > 1 {
      assert q.list[1] in q.list[1..];
    }
  }

  // ---------------------------------------------------------------------
  // The comparator
  // ---------------------------------------------------------------------

  /** The one-shot comparator: armed for `at`, by a write that read the clock as `since`. */
  datatype Comparator = Off | Armed(at: nat, since: nat)

  /** arch_set_timer_count. */
  function Program(timeout: nat, now: nat): Comparator {
    var delta := if timeout > now then timeout - now else 1;
    Armed(now + (if delta > MAX_DELTA then MAX_DELTA else delta), now)
  }

  /** Outside the softirq: while timers are listed, the softirq is pending or the comparator fires no
      later than the first timeout, or one tick after it was programmed. */
  ghost predicate Covered(q: Queue, pending: bool, c: Comparator) {
    q.list != [] && q.list[0] < |q.timers| && !pending ==>
      c.Armed? && (c.at <= q.timers[q.list[0]].timeout || c.at == c.since + 1)
  }

  lemma ProgramCovers(q: Queue, now: nat)
    requires q.list != [] && q.list[0] < |q.timers|
    ensures Covered(q, false, Program(q.timers[q.list[0]].timeout, now))
  {
  }

  /** Deleting a timer or adding one behind the head keeps the comparator early enough. */
  lemma LaterHeadCovered(q: Queue, r: Queue, pending: bool, c: Comparator)
    requires Covered(q, pending, c) && r.list != [] && r.list[0] < |r.timers|
    requires q.list != [] && q.list[0] < |q.timers| && q.timers[q.list[0]].timeout <= r.timers[r.list[0]].timeout
    ensures Covered(r, pending, c)
  {
  }

  /** No timer is overdue while nothing is pending: once the hardware has raised what is due and the
      clock has moved since the comparator was written, every listed timeout is in the future. */
  lemma NeverLate(q: Queue, pending: bool, c: Comparator, now: nat, t: nat)
    requires Valid(q) && Covered(q, pending, c) && !pending && t in q.list
    requires c.Armed? ==> now < c.at && c.since < now
    ensures now < q.timers[t].timeout
  {
    HeadIsExpired(q, t, now);
  }
}
