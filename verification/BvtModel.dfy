/**
 The borrowed-virtual-time scheduler of one physical CPU (core/sched_bvt.c) and
 the parts of core/schedule.c that drive it, as functions on the state that
 scheduler_lock protects.

 AVT and EVT count in units of mcu ticks.  `served` is history: the ticks a
 thread has been charged for.  The virtual times do not wrap.
 */
module BvtModel {
  import opened Options
  import opened Division
  import opened Lists
  import opened Threads

  const CSA: nat := 5
  const WEIGHT_MIN: nat := 1
  const WEIGHT_MAX: nat := 128
  const RATIO_MIN: nat := 8
  const RATIO_MAX: nat := 1024
  const WARP_LIMIT_DEFAULT: nat := 1

  /** struct sched_bvt_data. */
  datatype Share = Share(
    weight: nat,
    ratio: nat,
    warpOn: bool,
    warpValue: int,
    warpLimit: nat,
    unwarpPeriod: nat,
    warpLeft: nat,
    lastUnwarp: nat,
    avt: int,
    evt: int,
    residual: nat,
    start: nat,
    served: nat)

  datatype State = State(
    mcu: nat,
    threads: seq<Thread<Share>>,
    runqueue: seq<nat>,
    curr: nat,
    resched: bool,
    timer: Option<nat>,
    svt: int)

  // ---------------------------------------------------------------------
  // One thread
  // ---------------------------------------------------------------------

  /** sched_bvt_init_data; avt, evt and start keep what the memory held. */
  function InitShare(weight: nat, warpValue: int, warpLimit: nat, unwarpPeriod: nat, avt: int, evt: int,
                     start: nat): (d: Share)
    ensures RATIO_MIN <= d.ratio <= RATIO_MAX
    ensures d.ratio * d.weight <= RATIO_MAX < (d.ratio + 1) * d.weight
  {
    var w := if weight < WEIGHT_MIN then WEIGHT_MIN else if weight > WEIGHT_MAX then WEIGHT_MAX else weight;
    Share(w, RATIO_MAX / w, false, warpValue, warpLimit, unwarpPeriod, 0, 0, avt, evt, 0, start, 0)
  }

  /** update_evt. */
  function Evt(d: Share): int {
    if d.warpOn then d.avt - d.warpValue else d.avt
  }

  /** The real-time charge of update_vt: whole units go to the AVT, the rest is carried over. */
  function ChargeTime(d: Share, mcu: nat, now: nat): Share
    requires mcu > 0
  {
    if now <= d.start then d
    else
      var v := Times(now - d.start, d.ratio) + d.residual;
      d.(avt := d.avt + Quot(v, mcu), residual := Rem(v, mcu), served := d.served + (now - d.start))
  }

  /** bvt_update_warp_after_charge. */
  function PayWarp(d: Share, charged: nat, now: nat): Share {
    if !d.warpOn || charged == 0 then d
    else if charged >= d.warpLeft then d.(warpOn := false, warpLeft := 0, lastUnwarp := now)
    else d.(warpLeft := d.warpLeft - charged)
  }

  /** update_vt on the thread's data. */
  function Charge(d: Share, mcu: nat, now: nat): Share
    requires mcu > 0
  {
    var e := ChargeTime(d, mcu, now);
    var f := PayWarp(e, if e.avt > d.avt then e.avt - d.avt else 0, now);
    f.(evt := Evt(f))
  }

  /** bvt_can_warp. */
  predicate CanWarp(d: Share, mcu: nat, now: nat) {
    && d.warpValue > 0
    && (d.unwarpPeriod != 0 && d.lastUnwarp != 0 ==> Elapsed(now, d.lastUnwarp) >= Times(d.unwarpPeriod, mcu))
  }

  /** bvt_start_warp on the thread's data. */
  function StartWarp(d: Share, mcu: nat, now: nat): Share {
    if d.warpOn || !CanWarp(d, mcu, now) then d
    else
      var e := d.(warpOn := true, warpLeft := if d.warpLimit != 0 then d.warpLimit else WARP_LIMIT_DEFAULT);
      e.(evt := Evt(e))
  }

  // ---------------------------------------------------------------------
  // Runqueue
  // ---------------------------------------------------------------------

  function Data(s: State, t: nat): Share
    requires t < |s.threads|
  {
    s.threads[t].data
  }

  function SetThread(s: State, t: nat, th: Thread<Share>): (r: State)
    requires t < |s.threads|
    ensures |r.threads| == |s.threads| && r.threads[t] == th
    ensures forall x :: 0 <= x < |s.threads| && x != t ==> r.threads[x] == s.threads[x]
  {
    s.(threads := s.threads[t := th])
  }

  function Evts(ths: seq<Thread<Share>>): (r: seq<int>)
    ensures |r| == |ths| && forall t :: 0 <= t < |ths| ==> r[t] == ths[t].data.evt
  {
    seq(|ths|, t requires 0 <= t < |ths| => ths[t].data.evt)
  }

  /** Queued threads exist, and virtual time runs for every thread. */
  predicate Sane(s: State) {
    && s.mcu > 0 && s.curr < |s.threads|
    && (forall t :: t in s.runqueue ==> t < |s.threads|)
    && (forall t :: 0 <= t < |s.threads| ==> s.threads[t].data.ratio > 0)
  }

  /** runqueue_add of a thread that is not queued. */
  function Enqueue(s: State, t: nat): State {
    s.(runqueue := InsertAt(s.runqueue, InsertPos(Evts(s.threads), s.runqueue, t), t))
  }

  /** Give thread t new data; a queued thread moves to where its EVT now belongs. */
  function Update(s: State, t: nat, d: Share): (r: State)
    requires t < |s.threads|
    ensures |r.threads| == |s.threads| && r.curr == s.curr && r.mcu == s.mcu
    ensures r.threads[t] == s.threads[t].(data := d) && forall x :: 0 <= x < |s.threads| && x != t ==>
              r.threads[x] == s.threads[x]
    ensures Sane(s) && d.ratio > 0 ==> Sane(r)
  {
    var r := SetThread(s, t, s.threads[t].(data := d));
    if t in s.runqueue then Enqueue(r.(runqueue := Without(s.runqueue, t)), t) else r
  }

  // ---------------------------------------------------------------------
  // Scheduler hooks
  // ---------------------------------------------------------------------

  /** sched_bvt_prioritize. */
  function Prioritize(s: State, t: nat, now: nat): (r: State)
    requires t < |s.threads|
    ensures |r.threads| == |s.threads| && r.curr == s.curr && r.mcu == s.mcu && (Sane(s) ==> Sane(r))
  {
    var d := StartWarp(Data(s, t), s.mcu, now);
    if d == Data(s, t) then s else Update(s, t, d)
  }

  /** sched_bvt_sleep. */
  function SleepHook(s: State, t: nat): State {
    s.(runqueue := Without(s.runqueue, t))
  }

  /** The AVT of a waking thread: never further behind the scheduler virtual time than CSA. */
  function WakeAvt(avt: int, svt: int): int {
    if avt > svt - CSA then avt else svt
  }

  /** The data of a thread that sched_bvt_wake puts back in the queue. */
  function WokenShare(d: Share, mcu: nat, svt: int, now: nat): Share {
    var e := StartWarp(d.(avt := WakeAvt(d.avt, svt)), mcu, now);
    e.(evt := Evt(e))
  }

  /** sched_bvt_wake. */
  function WakeHook(s: State, t: nat, now: nat): State
    requires t < |s.threads|
  {
    Enqueue(SetThread(s, t, s.threads[t].(data := WokenShare(Data(s, t), s.mcu, s.svt, now))), t)
  }

  // ---------------------------------------------------------------------
  // The operations of core/schedule.c
  // ---------------------------------------------------------------------

  function SleepThread(s: State, t: nat, markNow: nat): State
    requires t < |s.threads|
  {
    var r := SleepHook(s, t);
    var th := r.threads[t];
    if th.status == Running then SetThread(r, t, th.(beBlocking := true)).(resched := true)
    else SetThread(r, t, th.(status := Blocked, stateSince := markNow))
  }

  function WakeThread(s: State, t: nat, now: nat, markNow: nat): State
    requires t < |s.threads|
  {
    if s.threads[t].status != Blocked && !s.threads[t].beBlocking then s
    else
      var r := WakeHook(s, t, now);
      var th := r.threads[t];
      if th.status == Blocked then
        SetThread(r, t, th.(status := Runnable, stateSince := markNow, beBlocking := false)).(resched := true)
      else SetThread(r, t, th.(beBlocking := false))
  }

  function RequestPriority(s: State, t: nat): State
    requires t < |s.threads|
  {
    SetThread(s, t, s.threads[t].(pending := true)).(resched := true)
  }

  /** sched_tick_handler; the one-shot timer that ran it is no longer armed. */
  function TickHandler(s: State): State {
    s.(timer := None, resched := s.resched || s.curr != IDLE || s.runqueue != [])
  }

  function CreateThread(s: State, d: Share, markNow: nat): State {
    s.(threads := s.threads + [Thread(Blocked, false, false, markNow, 0, d)])
  }

  function PrioritizeOne(s: State, t: nat, now: nat): (r: State)
    requires t < |s.threads|
    ensures |r.threads| == |s.threads| && r.curr == s.curr && r.mcu == s.mcu && (Sane(s) ==> Sane(r))
  {
    if !s.threads[t].pending then s
    else
      var r := SetThread(s, t, s.threads[t].(pending := false));
      if OnCpu(r.threads[t]) && !r.threads[t].beBlocking then Prioritize(r, t, now) else r
  }

  /** The first n threads of the loop with which schedule() consumes priority requests. */
  function PrioritizeAll(s: State, n: nat, prio: seq<nat>): (r: State)
    requires n <= |s.threads| == |prio|
    ensures |r.threads| == |s.threads| && r.curr == s.curr && r.mcu == s.mcu && (Sane(s) ==> Sane(r))
  {
    if n == 0 then s else PrioritizeOne(PrioritizeAll(s, n - 1, prio), n - 1, prio[n - 1])
  }

  /** The clock readings of one schedule() call. */
  datatype Readings = Readings(prio: seq<nat>, pick: nat, charge: nat, timer: nat, switch_: nat)

  /** Charge the current thread and align the SVT with the first thread in the queue. */
  function Charged(s: State, now: nat): (r: State)
    requires Sane(s)
    ensures Sane(r) && |r.threads| == |s.threads| && r.curr == s.curr && r.mcu == s.mcu
  {
    var r := if s.curr == IDLE then s else Update(s, s.curr, Charge(Data(s, s.curr), s.mcu, now));
    if r.runqueue == [] then r else assert r.runqueue[0] in r.runqueue; r.(svt := Data(r, r.runqueue[0]).avt)
  }

  function Chosen(s: State): (next: nat)
    requires Sane(s)
    ensures next < |s.threads| && (next == IDLE || next in s.runqueue)
  {
    if s.runqueue == [] then IDLE else assert s.runqueue[0] in s.runqueue; s.runqueue[0]
  }

  /** The EVT difference in 64-bit unsigned arithmetic. */
  function Distance(first: Share, second: Share): nat {
    (second.evt - first.evt) % (TICKS_MAX + 1)
  }

  /** run_countdown, in mcu units: how far the first thread's EVT is behind the second's, and CSA on top. */
  function Countdown(s: State): Option<nat>
    requires Sane(s)
  {
    if |s.runqueue| < 2 then None
    else
      assert s.runqueue[0] in s.runqueue && s.runqueue[1] in s.runqueue;
      var first, second := Data(s, s.runqueue[0]), Data(s, s.runqueue[1]);
      Some(Quot(Distance(first, second), first.ratio) + CSA)
  }

  function Timeout(s: State, now: nat): Option<nat>
    requires Sane(s)
  {
    match Countdown(s)
    case None => None
    case Some(units) => Some(now + Times(units, s.mcu))
  }

  /** The rest of schedule(), once the current thread has been charged. */
  function Dispatch(s: State, next: nat, c: Readings): State
    requires Sane(s) && next < |s.threads|
  {
    var ths := if next == IDLE then s.threads
        else s.threads[next := s.threads[next].(data := Data(s, next).(start := c.pick))];
    var r := s.(threads := ths, timer := Timeout(s, c.timer), resched := false);
    if next == r.curr then r else r.(threads := Switch(r.threads, r.curr, next, c.switch_), curr := next)
  }

  /** schedule(). */
  function Schedule(s: State, c: Readings): State
    requires Sane(s) && |c.prio| == |s.threads|
  {
    var r := Charged(PrioritizeAll(s, |s.threads|, c.prio), c.charge);
    Dispatch(r, Chosen(r), c)
  }
}
