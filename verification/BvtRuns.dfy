/**
 Runs of the BVT scheduler: any sequence of the operations of core/schedule.c
 keeps the invariant and the books of CPU time.
 */
module BvtRuns {
  import opened Lists
  import opened Threads
  import opened BvtModel
  import opened BvtInvariant

  datatype Step =
    | ScheduleStep(c: Readings)
    | SleepStep(t: nat, markNow: nat)
    | WakeStep(t: nat, now: nat, markNow: nat)
    | RequestStep(t: nat)
    | TickStep
    | CreateStep(d: Share, markNow: nat)

  /** The clock does not run backwards, and nobody puts the idle thread to sleep or asks priority for it. */
  ghost predicate CanStep(s: State, clock: nat, e: Step) {
    && Sane(s)
    && match e
       case ScheduleStep(c) => |c.prio| == |s.threads| && clock <= c.switch_ <= TICKS_MAX
       case SleepStep(t, markNow) => t < |s.threads| && t != IDLE && clock <= markNow
       case WakeStep(t, _, markNow) => t < |s.threads| && t != IDLE && clock <= markNow
       case RequestStep(t) => t < |s.threads| && t != IDLE
       case TickStep => true
       case CreateStep(d, markNow) => ShareOk(s.mcu, d) && clock <= markNow
  }

  ghost function After(s: State, clock: nat, e: Step): State
    requires CanStep(s, clock, e)
  {
    match e
    case ScheduleStep(c) => Schedule(s, c)
    case SleepStep(t, markNow) => SleepThread(s, t, markNow)
    case WakeStep(t, now, markNow) => WakeThread(s, t, now, markNow)
    case RequestStep(t) => RequestPriority(s, t)
    case TickStep => TickHandler(s)
    case CreateStep(d, markNow) => CreateThread(s, d, markNow)
  }

  function ClockAfter(clock: nat, e: Step): nat {
    match e
    case ScheduleStep(c) => c.switch_
    case SleepStep(_, markNow) => markNow
    case WakeStep(_, _, markNow) => markNow
    case CreateStep(_, markNow) => markNow
    case _ => clock
  }

  lemma StepSound(s: State, clock: nat, e: Step, start: nat, f: State)
    requires Sound(s, start, clock) && CanStep(s, clock, e) && f == After(s, clock, e)
    ensures Sound(f, start, ClockAfter(clock, e))
    ensures e.ScheduleStep? ==> Scheduled(f, e.c)
  {
    match e
    case ScheduleStep(c) => ScheduleSound(s, c, clock, start, f);
    case SleepStep(t, markNow) => SleepSound(s, t, markNow, clock, start, f);
    case WakeStep(t, now, markNow) => WakeSound(s, t, now, markNow, clock, start, f);
    case RequestStep(t) => RequestSound(s, t, clock, start, f);
    case TickStep => FlagSound(s, f, clock, start);
    case CreateStep(d, markNow) => CreateSound(s, d, markNow, clock, start, f);
  }

  ghost predicate Run(states: seq<State>, clocks: seq<nat>, steps: seq<Step>) {
    && |states| == |clocks| == |steps| + 1
    && forall k :: 0 <= k < |steps| ==>
         && CanStep(states[k], clocks[k], steps[k])
         && states[k + 1] == After(states[k], clocks[k], steps[k]) && clocks[k + 1] == ClockAfter(clocks[k], steps[k])
  }

  /** In every state of every run the invariant holds and the threads' CPU times add up to the time elapsed. */
  lemma {:induction false} RunSound(states: seq<State>, clocks: seq<nat>, steps: seq<Step>, start: nat, k: nat,
                                    now: nat)
    requires Run(states, clocks, steps) && Sound(states[0], start, clocks[0]) && k < |states|
    requires clocks[k] <= now <= TICKS_MAX
    ensures Sound(states[k], start, clocks[k]) && TotalLive(states[k].threads, now) == now - start
    decreases k
  {
    RunKeeps(states, clocks, steps, start, k);
    var s := states[k];
    assert forall t :: 0 <= t < |s.threads| ==> ThreadOk(s.mcu, s.curr, t, s.threads[t], t in s.runqueue);
    TimeIsConserved(s.threads, s.curr, start, now);
  }

  lemma {:induction false} RunKeeps(states: seq<State>, clocks: seq<nat>, steps: seq<Step>, start: nat, k: nat)
    requires Run(states, clocks, steps) && Sound(states[0], start, clocks[0]) && k < |states|
    ensures Sound(states[k], start, clocks[k])
  {
    if k > 0 {
      RunKeeps(states, clocks, steps, start, k - 1);
      StepSound(states[k - 1], clocks[k - 1], steps[k - 1], start, states[k]);
    }
  }
}
