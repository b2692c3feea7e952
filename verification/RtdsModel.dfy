/**
 The partitioned EDF budget scheduler of one physical CPU (core/sched_rtds.c)
 and the parts of core/schedule.c that drive it, as functions on the state that
 scheduler_lock protects.

 Times are cpu_ticks() readings and are parameters.  `charged` is history: the
 ticks charged to each thread in each period, named by the period's deadline.
 */
module RtdsModel {
  import opened Options
  import opened Periods
  import opened Lists
  import opened Threads

  datatype Queue = NoQueue | Ready | Depleted

  /** struct sched_rtds_data; the period is the same for every thread. */
  datatype Server = Server(budget: nat, remaining: nat, deadline: nat, lastStart: nat, queue: Queue)

  datatype State = State(
    period: nat,
    threads: seq<Thread<Server>>,
    ready: seq<nat>,
    depleted: seq<nat>,
    curr: nat,
    resched: bool,
    timer: Option<nat>,
    charged: map<(nat, nat), nat>)

  function Data(s: State, t: nat): Server
    requires t < |s.threads|
  {
    s.threads[t].data
  }

  function SetData(s: State, t: nat, d: Server): (r: State)
    requires t < |s.threads|
    ensures |r.threads| == |s.threads| && r.threads[t] == s.threads[t].(data := d)
    ensures forall x :: 0 <= x < |s.threads| && x != t ==> r.threads[x] == s.threads[x]
  {
    s.(threads := s.threads[t := s.threads[t].(data := d)])
  }

  function Deadlines(ths: seq<Thread<Server>>): (r: seq<int>)
    ensures |r| == |ths| && forall t :: 0 <= t < |ths| ==> r[t] == ths[t].data.deadline
  {
    seq(|ths|, t requires 0 <= t < |ths| => ths[t].data.deadline)
  }

  /** Nothing but scheduler data changed. */
  ghost predicate Frame(s: State, r: State) {
    && r.period == s.period && r.curr == s.curr && r.resched == s.resched && |r.threads| == |s.threads|
    && forall t :: 0 <= t < |s.threads| ==>
         r.threads[t] == s.threads[t].(data := r.threads[t].data)
             && r.threads[t].data.budget == s.threads[t].data.budget
  }

  /** Nothing but the scheduler data of thread t changed. */
  ghost predicate Only(s: State, r: State, t: nat) {
    Frame(s, r) && forall x :: 0 <= x < |s.threads| && x != t ==> r.threads[x] == s.threads[x]
  }

  /** The list holds threads of this CPU. */
  predicate Known(s: State, q: seq<nat>) {
    forall t :: t in q ==> t < |s.threads|
  }

  predicate QueuesKnown(s: State) {
    Known(s, s.ready) && Known(s, s.depleted)
  }

  // ---------------------------------------------------------------------
  // Queues
  // ---------------------------------------------------------------------

  /** rtds_is_active. */
  predicate Active(s: State, t: nat)
    requires t < |s.threads|
  {
    t != IDLE && ((t == s.curr && !s.threads[t].beBlocking) || s.threads[t].status == Runnable)
  }

  function QueueRemove(s: State, t: nat): (r: State)
    requires t < |s.threads|
    ensures Only(s, r, t) && (QueuesKnown(s) ==> QueuesKnown(r)) && Data(r, t) == Data(s, t).(queue := NoQueue)
  {
    SetData(s.(ready := Without(s.ready, t), depleted := Without(s.depleted, t)), t, Data(s, t).(queue := NoQueue))
  }

  function ReadyInsert(s: State, t: nat): (r: State)
    requires t < |s.threads|
    ensures Only(s, r, t) && (QueuesKnown(s) ==> QueuesKnown(r)) && Data(r, t) == Data(s, t).(queue := Ready)
  {
    var r := QueueRemove(s, t);
    var i := InsertPos(Deadlines(r.threads), r.ready, t);
    SetData(r.(ready := InsertAt(r.ready, i, t)), t, Data(r, t).(queue := Ready))
  }

  function DepletedInsert(s: State, t: nat): (r: State)
    requires t < |s.threads|
    ensures Only(s, r, t) && (QueuesKnown(s) ==> QueuesKnown(r)) && Data(r, t) == Data(s, t).(queue := Depleted)
  {
    if Data(s, t).queue == Depleted then s
    else
      var r := QueueRemove(s, t);
      SetData(r.(depleted := r.depleted + [t]), t, Data(r, t).(queue := Depleted))
  }

  // ---------------------------------------------------------------------
  // Budget
  // ---------------------------------------------------------------------

  function Charged(charged: map<(nat, nat), nat>, t: nat, deadline: nat): nat {
    if (t, deadline) in charged then charged[(t, deadline)] else 0
  }

  /** rtds_account_runtime on a running server: the time since the last charge, up to what is left. */
  function Charge(d: Server, now: nat): Server {
    if d.lastStart == 0 || now <= d.lastStart then d
    else if now - d.lastStart >= d.remaining then d.(lastStart := now, remaining := 0)
    else d.(lastStart := now, remaining := d.remaining - (now - d.lastStart))
  }

  function Account(s: State, t: nat, now: nat): (r: State)
    requires t < |s.threads|
    ensures Only(s, r, t) && (QueuesKnown(s) ==> QueuesKnown(r))
    ensures Data(r, t) == if t == IDLE || s.threads[t].status != Running then Data(s, t) else Charge(Data(s, t), now)
  {
    if t == IDLE || s.threads[t].status != Running then s
    else
      var d, e := Data(s, t), Charge(Data(s, t), now);
      var charged := s.charged[(t, d.deadline) := Charged(s.charged, t, d.deadline) + (d.remaining - e.remaining)];
      SetData(s.(charged := charged), t, e)
  }

  /** rtds_advance_period on the server alone. */
  function Replenish(d: Server, period: nat, now: nat): Server
    requires period > 0
  {
    if now < d.deadline then d else d.(deadline := Jump(d.deadline, now, period), remaining := d.budget)
  }

  function Advance(s: State, t: nat, now: nat): (r: State)
    requires t < |s.threads| && s.period > 0
    ensures Only(s, r, t) && (QueuesKnown(s) ==> QueuesKnown(r))
  {
    SetData(s, t, Replenish(Data(s, t), s.period, now))
  }

  /** rtds_refresh_thread. */
  function RefreshThread(s: State, t: nat, now: nat): (r: State)
    requires t < |s.threads| && s.period > 0
    ensures Only(s, r, t) && (QueuesKnown(s) ==> QueuesKnown(r))
    ensures r.charged == s.charged && Data(r, t) == Replenish(Data(s, t), s.period, now).(queue := Data(r, t).queue)
  {
    var a := Advance(s, t, now);
    if !Active(a, t) then a
    else if Data(a, t).remaining > 0 then ReadyInsert(a, t)
    else if !a.threads[t].beBlocking then DepletedInsert(a, t)
    else a
  }

  /** One ready server in rtds_refresh_queues. */
  function RefreshReady(s: State, t: nat, now: nat): (r: State)
    requires t < |s.threads| && s.period > 0
    ensures Only(s, r, t) && (QueuesKnown(s) ==> QueuesKnown(r))
  {
    if now < Data(s, t).deadline then s else RefreshThread(QueueRemove(Advance(s, t, now), t), t, now)
  }

  /** Refresh the servers of a snapshot of the ready queue, in order. */
  function RefreshReadyAll(s: State, q: seq<nat>, now: nat): (r: State)
    requires s.period > 0 && Known(s, q)
    ensures Frame(s, r) && (QueuesKnown(s) ==> QueuesKnown(r))
    decreases |q|
  {
    if q == [] then s
    else
      assert q[0] in q && forall x :: x in q[1..] ==> x in q;
      RefreshReadyAll(RefreshReady(s, q[0], now), q[1..], now)
  }

  /** Refresh the servers of a snapshot of the depleted queue, in order. */
  function RefreshDepletedAll(s: State, q: seq<nat>, now: nat): (r: State)
    requires s.period > 0 && Known(s, q)
    ensures Frame(s, r) && (QueuesKnown(s) ==> QueuesKnown(r))
    decreases |q|
  {
    if q == [] then s
    else
      assert q[0] in q && forall x :: x in q[1..] ==> x in q;
      RefreshDepletedAll(RefreshThread(s, q[0], now), q[1..], now)
  }

  // ---------------------------------------------------------------------
  // Selection and timer
  // ---------------------------------------------------------------------

  /** rtds_pick_depleted_slack: the first server with the earliest deadline. */
  function Earliest(keys: seq<int>, q: seq<nat>): (best: Option<nat>)
    ensures q == [] <==> best == None
    ensures best.Some? ==> best.value in q && forall x :: x in q ==> Key(keys, best.value) <= Key(keys, x)
  {
    if q == [] then None
    else
      var best := Earliest(keys, q[..|q| - 1]);
      var last := q[|q| - 1];
      assert forall x :: x in q ==> x in q[..|q| - 1] || x == last;
      if best.None? || Key(keys, last) < Key(keys, best.value) then Some(last) else best
  }

  /** The thread sched_rtds_pick_next selects once the queues are refreshed. */
  function Chosen(s: State): (next: nat)
    ensures next == IDLE || next in s.ready || next in s.depleted
  {
    if s.ready != [] then s.ready[0]
    else match Earliest(Deadlines(s.threads), s.depleted)
      case Some(t) => t
      case None => IDLE
  }

  /** rtds_next_depleted_deadline: 0 when the queue is empty. */
  function NextDepleted(keys: seq<int>, q: seq<nat>): int {
    if q == [] then 0
    else
      var next := NextDepleted(keys, q[..|q| - 1]);
      var last := Key(keys, q[|q| - 1]);
      if next == 0 || last < next then last else next
  }

  function Min(a: int, b: int): int { if a < b then a else b }

  function Max(a: int, b: int): int { if a < b then b else a }

  /** When a running server has to be stopped. */
  function RunLimit(d: Server, now: nat): int {
    if d.remaining > 0 then
      Max(Min((if d.lastStart != 0 then d.lastStart else now) + d.remaining, d.deadline), now)
    else Max(d.deadline, now)
  }

  /** The timeout rtds_program_local_timer computes; 0 leaves the timer off. */
  function Timeout(s: State, running: Option<nat>, now: nat): int
    requires running.Some? ==> running.value < |s.threads|
  {
    var timeout := if running.Some? && running.value != IDLE then RunLimit(Data(s, running.value), now) else 0;
    var replenish := NextDepleted(Deadlines(s.threads), s.depleted);
    if replenish != 0 && (timeout == 0 || replenish < timeout) then replenish else timeout
  }

  function ProgramTimer(s: State, running: Option<nat>, now: nat): State
    requires running.Some? ==> running.value < |s.threads|
  {
    var timeout := Timeout(s, running, now);
    s.(timer := if timeout > 0 then Some(timeout) else None)
  }

  // ---------------------------------------------------------------------
  // Scheduler hooks
  // ---------------------------------------------------------------------

  /** rtds_refresh_queues. */
  function RefreshQueues(s: State, now: nat): (r: State)
    requires s.period > 0 && QueuesKnown(s)
    ensures Frame(s, r) && QueuesKnown(r)
  {
    var r := RefreshReadyAll(s, s.ready, now);
    RefreshDepletedAll(r, r.depleted, now)
  }

  /** Charge the current thread and put it back where its budget and deadline say. */
  function RefreshCurrent(s: State, now: nat): (r: State)
    requires s.period > 0 && s.curr < |s.threads|
    ensures Only(s, r, s.curr) && (QueuesKnown(s) ==> QueuesKnown(r))
  {
    if s.curr == IDLE then s else RefreshThread(Account(s, s.curr, now), s.curr, now)
  }

  /** The queues as sched_rtds_pick_next sees them when it selects. */
  function Refreshed(s: State, now: nat): (r: State)
    requires s.period > 0 && s.curr < |s.threads| && QueuesKnown(s)
    ensures Frame(s, r) && QueuesKnown(r)
  {
    RefreshQueues(RefreshCurrent(s, now), now)
  }

  /** The selected server leaves its queue and starts to be charged. */
  function Take(s: State, next: nat, now: nat): (r: State)
    requires next < |s.threads|
    ensures Frame(s, r)
  {
    if next == IDLE then s
    else
      var r := QueueRemove(s, next);
      SetData(r, next, Data(r, next).(lastStart := now))
  }

  /** sched_rtds_prioritize. */
  function Prioritize(s: State, t: nat, now: nat): (r: State)
    requires t < |s.threads| && s.period > 0
    ensures Only(s, r, t) && (QueuesKnown(s) ==> QueuesKnown(r))
  {
    var a := Advance(s, t, now);
    if t != a.curr && Data(a, t).remaining > 0 then ReadyInsert(a, t) else a
  }

  /** sched_rtds_sleep; `local` says that the caller runs on this CPU. */
  function SleepHook(s: State, t: nat, now: nat, timerNow: nat, local: bool): (r: State)
    requires t < |s.threads| && s.curr < |s.threads|
    ensures Only(s, r, t)
    ensures Data(r, t) == Data(if t == s.curr then Account(s, t, now) else s, t).(queue := NoQueue, lastStart := 0)
  {
    var a := if t == s.curr then Account(s, t, now) else s;
    var b := QueueRemove(a, t);
    var c := SetData(b, t, Data(b, t).(lastStart := 0));
    if local then ProgramTimer(c, if t == s.curr then None else Some(s.curr), timerNow) else c
  }

  function Woken(d: Server): Server {
    d.(lastStart := 0, queue := if d.remaining > 0 then Ready else Depleted)
  }

  /** sched_rtds_wake. */
  function WakeHook(s: State, t: nat, now: nat, timerNow: nat, local: bool): (r: State)
    requires t < |s.threads| && s.curr < |s.threads| && s.period > 0
    ensures Only(s, r, t) && Data(r, t) == Woken(Replenish(Data(s, t), s.period, now))
  {
    var a := Advance(s, t, now);
    var b := SetData(a, t, Data(a, t).(lastStart := 0));
    var c := if Data(b, t).remaining > 0 then ReadyInsert(b, t) else DepletedInsert(b, t);
    if local then ProgramTimer(c, Some(s.curr), timerNow) else c
  }

  // ---------------------------------------------------------------------
  // The operations of core/schedule.c
  // ---------------------------------------------------------------------

  function SetThread(s: State, t: nat, th: Thread<Server>): (r: State)
    requires t < |s.threads|
    ensures |r.threads| == |s.threads| && r.threads[t] == th
    ensures forall x :: 0 <= x < |s.threads| && x != t ==> r.threads[x] == s.threads[x]
  {
    s.(threads := s.threads[t := th])
  }

  /** sleep_thread. */
  function SleepThread(s: State, t: nat, now: nat, timerNow: nat, markNow: nat, local: bool): State
    requires t < |s.threads| && s.curr < |s.threads|
  {
    var r := SleepHook(s, t, now, timerNow, local);
    var th := r.threads[t];
    if th.status == Running then SetThread(r, t, th.(beBlocking := true)).(resched := true)
    else SetThread(r, t, th.(status := Blocked, stateSince := markNow))
  }

  /** wake_thread. */
  function WakeThread(s: State, t: nat, now: nat, timerNow: nat, markNow: nat, local: bool): State
    requires t < |s.threads| && s.curr < |s.threads| && s.period > 0
  {
    if s.threads[t].status != Blocked && !s.threads[t].beBlocking then s
    else
      var r := WakeHook(s, t, now, timerNow, local);
      var th := r.threads[t];
      if th.status == Blocked then
        SetThread(r, t, th.(status := Runnable, stateSince := markNow, beBlocking := false)).(resched := true)
      else SetThread(r, t, th.(beBlocking := false))
  }

  /** request_thread_priority. */
  function RequestPriority(s: State, t: nat): State
    requires t < |s.threads|
  {
    SetThread(s, t, s.threads[t].(pending := true)).(resched := true)
  }

  /** rtds_timer_handler; the one-shot timer that ran it is no longer armed. */
  function TimerHandler(s: State, now: nat): State
    requires s.period > 0 && s.curr < |s.threads| && QueuesKnown(s)
  {
    Refreshed(s, now).(timer := None, resched := true)
  }

  /** init_thread_data for a new thread. */
  function CreateThread(s: State, budget: nat, now: nat, markNow: nat): State {
    var server := Server(budget, budget, Boundary(now, s.period), 0, NoQueue);
    s.(threads := s.threads + [Thread(Blocked, false, false, markNow, 0, server)])
  }

  /** One thread of the loop with which schedule() consumes priority requests. */
  function PrioritizeOne(s: State, t: nat, now: nat): (r: State)
    requires t < |s.threads| && s.period > 0
    ensures r.period == s.period && r.curr == s.curr && |r.threads| == |s.threads|
    ensures (QueuesKnown(s) ==> QueuesKnown(r))
  {
    if !s.threads[t].pending then s
    else
      var r := SetThread(s, t, s.threads[t].(pending := false));
      if OnCpu(r.threads[t]) && !r.threads[t].beBlocking then Prioritize(r, t, now) else r
  }

  /** The first n threads of the loop; thread t reads the clock as prio[t]. */
  function PrioritizeAll(s: State, n: nat, prio: seq<nat>): (r: State)
    requires n <= |s.threads| == |prio| && s.period > 0
    ensures r.period == s.period && r.curr == s.curr && |r.threads| == |s.threads|
    ensures (QueuesKnown(s) ==> QueuesKnown(r))
  {
    if n == 0 then s else PrioritizeOne(PrioritizeAll(s, n - 1, prio), n - 1, prio[n - 1])
  }

  /** The clock readings of one schedule() call. */
  datatype Readings = Readings(prio: seq<nat>, pick: nat, timer: nat, switch_: nat)

  /** The rest of schedule() once the refreshed queues `s` have been looked at. */
  function Dispatch(s: State, next: nat, c: Readings): State
    requires next < |s.threads| && s.curr < |s.threads|
  {
    var r := ProgramTimer(Take(s, next, c.pick), Some(next), c.timer).(resched := false);
    if next == r.curr then r else r.(threads := Switch(r.threads, r.curr, next, c.switch_), curr := next)
  }

  /** schedule(). */
  function Schedule(s: State, c: Readings): State
    requires s.period > 0 && |c.prio| == |s.threads| && s.curr < |s.threads| && QueuesKnown(s)
  {
    var r := Refreshed(PrioritizeAll(s, |s.threads|, c.prio), c.pick);
    Dispatch(r, Chosen(r), c)
  }
}
