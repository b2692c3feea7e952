/**
 Thread objects of one physical CPU and the scheduler-independent half of
 core/schedule.c: status changes, context switches, runtime accounting and the
 test for "the current thread is the only runnable one".

 Threads are numbered in the order they joined the thread list; thread 0 is the
 idle thread of the CPU.  D is the scheduler's private data.
 */
module Threads {

  datatype Status = Running | Runnable | Blocked

  datatype Thread<D> = Thread(status: Status, beBlocking: bool, pending: bool, stateSince: nat, runtime: nat, data: D)

  const IDLE: nat := 0
  const TICKS_MAX: nat := 0xFFFF_FFFF_FFFF_FFFF

  predicate OnCpu<D>(th: Thread<D>) {
    th.status == Running || th.status == Runnable
  }

  /** A thread that competes for the CPU. */
  predicate Competes<D>(t: nat, th: Thread<D>) {
    t != IDLE && !th.beBlocking && OnCpu(th)
  }

  // ---------------------------------------------------------------------
  // Context switches and runtime
  // ---------------------------------------------------------------------

  /** sched_add_runtime: saturates. */
  function AddRuntime(runtime: nat, ticks: nat): nat {
    if runtime <= TICKS_MAX && ticks > TICKS_MAX - runtime then TICKS_MAX else runtime + ticks
  }

  /** now - since in 64-bit unsigned arithmetic. */
  function Elapsed(now: nat, since: nat): nat {
    (now - since) % (TICKS_MAX + 1)
  }

  function SwitchOut<D>(th: Thread<D>, now: nat): Thread<D> {
    th.(runtime := if th.stateSince != 0 then AddRuntime(th.runtime, Elapsed(now, th.stateSince)) else th.runtime,
        stateSince := now,
        status := if th.beBlocking then Blocked else Runnable,
        beBlocking := false)
  }

  function SwitchIn<D>(th: Thread<D>, now: nat): Thread<D> {
    th.(stateSince := now, status := Running)
  }

  /** The context switch of schedule(), when it picked another thread. */
  function Switch<D>(ths: seq<Thread<D>>, prev: nat, next: nat, now: nat): (r: seq<Thread<D>>)
    requires prev < |ths| && next < |ths| && prev != next
    ensures |r| == |ths|
    ensures r[prev] == SwitchOut(ths[prev], now) && r[next] == SwitchIn(ths[next], now)
    ensures forall t :: 0 <= t < |ths| && t != prev && t != next ==> r[t] == ths[t]
  {
    ths[prev := SwitchOut(ths[prev], now)][next := SwitchIn(ths[next], now)]
  }

  /** runtime_ticks as sched_get_latency reports it at `now`. */
  function LiveRuntime<D>(th: Thread<D>, now: nat): nat {
    if th.status == Running && th.stateSince != 0 then AddRuntime(th.runtime, Elapsed(now, th.stateSince))
    else th.runtime
  }

  function TotalRuntime<D>(ths: seq<Thread<D>>): nat {
    if ths == [] then 0 else TotalRuntime(ths[..|ths| - 1]) + ths[|ths| - 1].runtime
  }

  function TotalLive<D>(ths: seq<Thread<D>>, now: nat): nat {
    if ths == [] then 0 else TotalLive(ths[..|ths| - 1], now) + LiveRuntime(ths[|ths| - 1], now)
  }

  ghost predicate OnlyRunning<D>(ths: seq<Thread<D>>, curr: nat) {
    curr < |ths| && forall t :: 0 <= t < |ths| ==> (ths[t].status == Running <==> t == curr)
  }

  /** All time since `start` up to the last switch has been booked to some thread. */
  ghost predicate Conserved<D>(ths: seq<Thread<D>>, curr: nat, start: nat) {
    && curr < |ths| && 0 < start <= ths[curr].stateSince
    && TotalRuntime(ths) == ths[curr].stateSince - start
  }

  /** CPU time is booked exactly, up to the switch to the current thread. */
  ghost predicate Booked<D>(ths: seq<Thread<D>>, curr: nat, start: nat, clock: nat) {
    Conserved(ths, curr, start) && ths[curr].stateSince <= clock
  }

  /** Status, blocking requests and runtime books are the same. */
  ghost predicate SameLives<D(!new)>(a: seq<Thread<D>>, b: seq<Thread<D>>) {
    && |b| == |a|
    && forall t :: 0 <= t < |a| ==> b[t] == a[t].(pending := b[t].pending, data := b[t].data)
  }

  lemma {:induction false} TotalUpdate<D>(ths: seq<Thread<D>>, t: nat, th: Thread<D>)
    requires t < |ths|
    ensures TotalRuntime(ths[t := th]) + ths[t].runtime == TotalRuntime(ths) + th.runtime
  {
    var n := |ths| - 1;
    if t == n {
      assert ths[t := th][..n] == ths[..n];
    } else {
      assert ths[t := th][..n] == ths[..n][t := th];
      TotalUpdate(ths[..n], t, th);
    }
  }

  lemma {:induction false} TotalBounds<D>(ths: seq<Thread<D>>, t: nat)
    requires t < |ths|
    ensures ths[t].runtime <= TotalRuntime(ths)
  {
    if t < |ths| - 1 {
      TotalBounds(ths[..|ths| - 1], t);
    }
  }

  /** A context switch books the outgoing interval exactly; the saturation branch is never taken. */
  lemma SwitchConserves<D>(ths: seq<Thread<D>>, prev: nat, next: nat, now: nat, start: nat)
    requires Conserved(ths, prev, start) && next < |ths| && prev != next
    requires ths[prev].stateSince <= now <= TICKS_MAX
    ensures Conserved(Switch(ths, prev, next, now), next, start)
  {
    var out := SwitchOut(ths[prev], now);
    TotalBounds(ths, prev);
    TotalUpdate(ths, prev, out);
    var mid := ths[prev := out];
    TotalUpdate(mid, next, SwitchIn(mid[next], now));
  }

  lemma {:induction false} LiveIsTotal<D>(ths: seq<Thread<D>>, now: nat)
    requires forall t :: 0 <= t < |ths| ==> ths[t].status != Running
    ensures TotalLive(ths, now) == TotalRuntime(ths)
  {
    if ths != [] {
      LiveIsTotal(ths[..|ths| - 1], now);
    }
  }

  lemma {:induction false} LiveSplit<D>(ths: seq<Thread<D>>, curr: nat, now: nat)
    requires OnlyRunning(ths, curr)
    ensures TotalLive(ths, now) + ths[curr].runtime == TotalRuntime(ths) + LiveRuntime(ths[curr], now)
  {
    var n := |ths| - 1;
    if curr == n {
      LiveIsTotal(ths[..n], now);
    } else {
      LiveSplit(ths[..n], curr, now);
    }
  }

  /** The reported runtimes of all threads add up to the time since the CPU started scheduling. */
  lemma TimeIsConserved<D>(ths: seq<Thread<D>>, curr: nat, start: nat, now: nat)
    requires OnlyRunning(ths, curr) && Conserved(ths, curr, start) && ths[curr].stateSince <= now <= TICKS_MAX
    ensures TotalLive(ths, now) == now - start
  {
    LiveSplit(ths, curr, now);
    TotalBounds(ths, curr);
  }

  /** Changes that touch neither runtimes nor the current thread's interval keep the books. */
  lemma {:induction false} SameTotal<D>(ths: seq<Thread<D>>, ths': seq<Thread<D>>)
    requires |ths'| == |ths| && forall t :: 0 <= t < |ths| ==> ths'[t].runtime == ths[t].runtime
    ensures TotalRuntime(ths') == TotalRuntime(ths)
  {
    if ths != [] {
      SameTotal(ths[..|ths| - 1], ths'[..|ths| - 1]);
    }
  }

  lemma LivesBooked<D(!new)>(a: seq<Thread<D>>, b: seq<Thread<D>>, curr: nat, start: nat, clock: nat)
    requires SameLives(a, b) && Booked(a, curr, start, clock)
    ensures Booked(b, curr, start, clock)
  {
    SameTotal(a, b);
  }

  // ---------------------------------------------------------------------
  // sched_current_is_only_runnable_locked
  // ---------------------------------------------------------------------

  ghost predicate CurrentOnly<D>(ths: seq<Thread<D>>, curr: nat) {
    curr < |ths| && forall t :: 0 <= t < |ths| ==> (Competes(t, ths[t]) <==> t == curr)
  }

  method CurrentIsOnlyRunnable<D>(ths: seq<Thread<D>>, curr: nat) returns (only: bool)
    requires curr < |ths|
    ensures only <==> CurrentOnly(ths, curr)
  {
    if !Competes(curr, ths[curr]) {
      return false;
    }
    var runnable := 0;
    for t: nat := 0 to |ths|
      invariant runnable == if t > curr then 1 else 0
      invariant forall x :: 0 <= x < t ==> (Competes(x, ths[x]) <==> x == curr)
    {
      if Competes(t, ths[t]) {
        runnable := runnable + 1;
        if runnable > 1 || t != curr {
          return false;
        }
      }
    }
    only := runnable == 1;
  }
}
