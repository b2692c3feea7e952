/**
 Runs in which schedule() is called exactly when the timer goes off: they lose nothing, so they give every thread
 that competes through a period its whole budget whenever the budgets fit in the period, with or without slack.
 */
module RtdsTimely {
  import opened Options
  import opened Periods
  import opened Threads
  import opened RtdsModel
  import opened RtdsInvariant
  import opened RtdsSteps
  import opened RtdsRuns
  import opened RtdsGuarantee
  import RtdsEvents

  /** A schedule() all of whose readings are the same. */
  function At(now: nat, n: nat): (c: Readings)
    ensures |c.prio| == n && c.pick == c.timer == c.switch_ == now
    ensures forall i :: 0 <= i < n ==> c.prio[i] == now
  {
    Readings(seq(n, _ => now), now, now, now)
  }

  /** The state right after such a call, in the period that ends at `end`. */
  ghost predicate Called(s: State, now: nat, t: nat, end: nat, start: nat) {
    && Sound(s, start, now) && 0 < now < end <= now + s.period && OnGrid(end, s.period) && end <= TICKS_MAX
    && EdfChoice(s) && TimerArmed(s, Some(s.curr), now, s.timer) && AllDue(s, end)
    && t < |s.threads| && Competes(t, s.threads[t])
    && Data(s, s.curr).lastStart == now && !s.threads[s.curr].pending
  }

  /** Then the timer goes off later in the period, at its end, or before the running thread overruns its budget. */
  lemma TimerSoon(s: State, now: nat, t: nat, end: nat, start: nat)
    requires Called(s, now, t, end, start)
    ensures s.curr != IDLE && s.timer.Some? && now < s.timer.value <= end
    ensures HasBudget(s, t) ==> s.timer.value <= now + Data(s, s.curr).remaining
  {
    var d := Data(s, s.curr);
    assert Competes(s.curr, s.threads[s.curr]);
    assert Wakeup(s, Some(s.curr), now, RunLimit(d, now));
    assert Wakeup(s, Some(s.curr), now, s.timer.value);
    forall x: nat | x in s.depleted && x < |s.threads| ensures Data(s, x).deadline == end {
      assert ThreadOk(s.period, now, s.curr, x, s.threads[x]);
    }
  }

  /** A thread that was not served has budget left. */
  lemma UnservedHasBudget(s: State, now: nat, t: nat, end: nat, start: nat)
    requires Called(s, now, t, end, start) && !Served(s, t, end)
    ensures HasBudget(s, t)
  {
    assert BookOk(s.charged, t, s.threads[t].data);
  }

  /** So a schedule() at its expiry loses nothing. */
  lemma ExpiryLosesNothing(s: State, now: nat, t: nat, end: nat, start: nat, at: nat)
    requires Called(s, now, t, end, start) && s.timer == Some(at)
    ensures Loss(s, now, ScheduleStep(At(at, |s.threads|)), t, end) == 0
  {
    TimerSoon(s, now, t, end, start);
    if !Served(s, t, end) {
      UnservedHasBudget(s, now, t, end, start);
    }
  }

  /**
   In general, while t is short, a schedule() that comes `late` ticks after the expiry of the timer that the last one
   armed loses at most those ticks, and those by which the timer's own reading came after the end of the budget.
   */
  lemma LateCall(s: State, c: Readings, clock: nat, t: nat, end: nat, next: Readings, late: nat)
    requires Scheduled(s, c) && AllDue(s, end) && t < |s.threads| && Competes(t, s.threads[t]) && !Served(s, t, end)
    requires Data(s, s.curr).lastStart == c.pick > 0 && !Refills(s, next)
    ensures s.timer.Some? && HasBudget(s, s.curr)
    ensures next.pick <= s.timer.value + late ==>
              LostBy(s, clock, ScheduleStep(next)) <= late + Overrun(Data(s, s.curr), c.timer)
  {
    assert BookOk(s.charged, t, s.threads[t].data);
    assert HasBudget(s, t);
    assert Competes(s.curr, s.threads[s.curr]);
    assert Wakeup(s, Some(s.curr), c.timer, RunLimit(Data(s, s.curr), c.timer));
  }

  /** What a call at `now` leaves. */
  lemma CallLeaves(s: State, clock: nat, t: nat, end: nat, start: nat, now: nat, c: Readings, f: State)
    requires Sound(s, start, clock) && QueuesKnown(s) && t < |s.threads| && Competes(t, s.threads[t])
    requires 0 < now < end <= now + s.period && end <= TICKS_MAX && OnGrid(end, s.period)
    requires Ordered(c, |s.threads|, clock) && c.pick == c.timer == c.switch_ == now && f == Schedule(s, c)
    ensures |f.threads| == |s.threads| && f.period == s.period && Called(f, now, t, end, start)
  {
    ScheduleSound(s, c, clock, start, f);
    RtdsEvents.ScheduleCompetes(s, c, clock, t, f);
    ScheduleShape(s, c, clock, PrioritizeAll(s, |s.threads|, c.prio), f);
    ScheduleAllDue(s, c, clock, end, f);
    RunnerStarts(s, c, clock, f, t);
  }

  lemma RunnerStarts(s: State, c: Readings, clock: nat, f: State, t: nat)
    requires Inv(s, clock) && Ordered(c, |s.threads|, clock) && QueuesKnown(s) && f == Schedule(s, c)
    requires EdfChoice(f) && t < |f.threads| && Competes(t, f.threads[t])
    ensures f.curr < |f.threads| && Data(f, f.curr).lastStart == c.pick && !f.threads[f.curr].pending
  {
    assert f.curr != IDLE;
    Dispatched(s, c, clock, f, f.curr);
    ScheduleConsumes(s, c, clock, f.curr);
  }

  ghost predicate SameBudgets(s: State, f: State) {
    && |f.threads| == |s.threads| && f.period == s.period
    && forall x: nat :: x < |s.threads| ==> Data(f, x).budget == Data(s, x).budget
  }

  lemma CallBudgets(s: State, c: Readings, clock: nat, f: State)
    requires Inv(s, clock) && Ordered(c, |s.threads|, clock) && QueuesKnown(s) && f == Schedule(s, c)
    ensures SameBudgets(s, f)
  {
    var p := PrioritizeAll(s, |s.threads|, c.prio);
    ScheduleShape(s, c, clock, p, f);
    forall x: nat | x < |s.threads| ensures Data(f, x).budget == Data(s, x).budget {
      ScheduleBudgets(s, c, clock, x, p, f);
    }
  }

  lemma {:induction false} BudgetsSum(a: seq<Thread<Server>>, b: seq<Thread<Server>>, n: nat)
    requires n <= |a| == |b| && forall x: nat :: x < |a| ==> a[x].data.budget == b[x].data.budget
    ensures Budgets(a, n) == Budgets(b, n)
  {
    if n > 1 {
      BudgetsSum(a, b, n - 1);
    }
  }

  /** A schedule() at the expiry of the timer, in the period, that loses nothing. */
  ghost predicate Expires(s: State, clock: nat, e: Step, t: nat, end: nat) {
    Continues(s, clock, t, end) && e.ScheduleStep? && s.timer == Some(e.c.pick) && Loss(s, clock, e, t, end) == 0
  }

  ghost predicate AllExpire(states: seq<State>, clocks: seq<nat>, steps: seq<Step>, t: nat, end: nat, from: nat)
    requires |states| == |clocks| == |steps| + 1
  {
    forall k :: from <= k < |steps| ==> Expires(states[k], clocks[k], steps[k], t, end)
  }

  /** A run of such calls to the end of the period. */
  ghost predicate Driven(states: seq<State>, clocks: seq<nat>, steps: seq<Step>, t: nat, end: nat) {
    && Run(states, clocks, steps) && |steps| >= 1 && Ends(steps[|steps| - 1], end)
    && AllExpire(states, clocks, steps, t, end, 0) && SameBudgets(states[0], states[|steps|])
  }

  lemma CallRuns(s: State, clock: nat, c: Readings, now: nat)
    requires Inv(s, clock) && clock <= now <= TICKS_MAX && c == At(now, |s.threads|)
    ensures CanStep(s, clock, ScheduleStep(c)) && QueuesKnown(s) && Ordered(c, |s.threads|, clock)
  {
    CoreKnown(s, clock);
  }

  lemma {:induction false} Drive(s: State, now: nat, t: nat, end: nat, start: nat)
    returns (states: seq<State>, clocks: seq<nat>, steps: seq<Step>)
    requires Called(s, now, t, end, start)
    ensures Driven(states, clocks, steps, t, end) && states[0] == s && clocks[0] == now
    decreases end - now
  {
    var at, e, f := NextCall(s, now, t, end, start);
    if at == end {
      DrivenOne(s, now, e, f, t, end);
      states, clocks, steps := [s, f], [now, at], [e];
    } else {
      states, clocks, steps := Drive(f, at, t, end, start);
      DrivenMore(s, now, e, f, t, end, states, clocks, steps);
      states, clocks, steps := [s] + states, [now] + clocks, [e] + steps;
    }
  }

  lemma DrivenOne(s: State, clock: nat, e: Step, f: State, t: nat, end: nat)
    requires CanStep(s, clock, e) && f == After(s, clock, e) && SameBudgets(s, f) && Expires(s, clock, e, t, end)
    requires Ends(e, end)
    ensures Driven([s, f], [clock, ClockAfter(clock, e)], [e], t, end)
  {
  }

  /** The call at the expiry of the timer. */
  lemma NextCall(s: State, now: nat, t: nat, end: nat, start: nat) returns (at: nat, e: Step, f: State)
    requires Called(s, now, t, end, start)
    ensures now < at <= end && e.ScheduleStep? && e.c.pick == at && Expires(s, now, e, t, end)
    ensures CanStep(s, now, e) && f == After(s, now, e) && at == ClockAfter(now, e) && SameBudgets(s, f)
    ensures at < end ==> Called(f, at, t, end, start)
  {
    TimerSoon(s, now, t, end, start);
    at := s.timer.value;
    var c := At(at, |s.threads|);
    CallRuns(s, now, c, at);
    ExpiryLosesNothing(s, now, t, end, start, at);
    e, f := ScheduleStep(c), Schedule(s, c);
    CallBudgets(s, c, now, f);
    if at < end {
      CallLeaves(s, now, t, end, start, at, c, f);
    }
  }

  lemma DrivenMore(s: State, clock: nat, e: Step, f: State, t: nat, end: nat, states: seq<State>, clocks: seq<nat>,
                   steps: seq<Step>)
    requires Driven(states, clocks, steps, t, end) && states[0] == f && clocks[0] == ClockAfter(clock, e)
    requires CanStep(s, clock, e) && f == After(s, clock, e) && SameBudgets(s, f) && Expires(s, clock, e, t, end)
    ensures Driven([s] + states, [clock] + clocks, [e] + steps, t, end)
  {
    RunMore(s, clock, e, states, clocks, steps);
    ExpireMore(s, clock, e, t, end, states, clocks, steps);
    ExpireFirst([s] + states, [clock] + clocks, [e] + steps, t, end);
    BudgetsOn(s, f, states[|steps|]);
  }

  lemma ExpireMore(s: State, clock: nat, e: Step, t: nat, end: nat, states: seq<State>, clocks: seq<nat>,
                   steps: seq<Step>)
    requires |states| == |clocks| == |steps| + 1 && AllExpire(states, clocks, steps, t, end, 0)
    ensures AllExpire([s] + states, [clock] + clocks, [e] + steps, t, end, 1)
  {
    var states', clocks', steps' := [s] + states, [clock] + clocks, [e] + steps;
    forall k | 1 <= k < |steps'| ensures Expires(states'[k], clocks'[k], steps'[k], t, end) {
      assert Expires(states[k - 1], clocks[k - 1], steps[k - 1], t, end);
    }
  }

  lemma ExpireFirst(states: seq<State>, clocks: seq<nat>, steps: seq<Step>, t: nat, end: nat)
    requires |states| == |clocks| == |steps| + 1 && |steps| > 0 && AllExpire(states, clocks, steps, t, end, 1)
    requires Expires(states[0], clocks[0], steps[0], t, end)
    ensures AllExpire(states, clocks, steps, t, end, 0)
  {
  }

  lemma BudgetsOn(s: State, f: State, g: State)
    requires SameBudgets(s, f) && SameBudgets(f, g)
    ensures SameBudgets(s, g)
  {
  }

  lemma RunMore(s: State, clock: nat, e: Step, states: seq<State>, clocks: seq<nat>, steps: seq<Step>)
    requires Run(states, clocks, steps) && CanStep(s, clock, e)
    requires states[0] == After(s, clock, e) && clocks[0] == ClockAfter(clock, e)
    ensures Run([s] + states, [clock] + clocks, [e] + steps)
  {
    var states', clocks', steps' := [s] + states, [clock] + clocks, [e] + steps;
    forall i | 0 <= i < |steps'|
      ensures CanStep(states'[i], clocks'[i], steps'[i])
      ensures states'[i + 1] == After(states'[i], clocks'[i], steps'[i])
      ensures clocks'[i + 1] == ClockAfter(clocks'[i], steps'[i])
    {
      if i > 0 {
        assert CanStep(states[i - 1], clocks[i - 1], steps[i - 1]);
      }
    }
  }

  lemma {:induction false} NothingLost(states: seq<State>, clocks: seq<nat>, steps: seq<Step>, t: nat, end: nat, k: nat)
    requires Through(states, clocks, steps, t, end) && 1 <= k <= |steps|
    requires steps[0].c.pick + states[0].period == end && AllExpire(states, clocks, steps, t, end, 1)
    ensures Lost(states, clocks, steps, t, end, k) == 0
  {
    if k > 1 {
      NothingLost(states, clocks, steps, t, end, k - 1);
      assert Expires(states[k - 1], clocks[k - 1], steps[k - 1], t, end);
    }
  }

  lemma OpenDriven(s: State, clock: nat, e: Step, f: State, t: nat, end: nat, states: seq<State>, clocks: seq<nat>,
                   steps: seq<Step>)
    requires Driven(states, clocks, steps, t, end) && states[0] == f && clocks[0] == ClockAfter(clock, e)
    requires CanStep(s, clock, e) && f == After(s, clock, e) && Begins(s, e, end)
    ensures Through([s] + states, [clock] + clocks, [e] + steps, t, end)
    ensures AllExpire([s] + states, [clock] + clocks, [e] + steps, t, end, 1)
  {
    RunMore(s, clock, e, states, clocks, steps);
    ExpireMore(s, clock, e, t, end, states, clocks, steps);
    var states', clocks', steps' := [s] + states, [clock] + clocks, [e] + steps;
    forall k | 1 <= k < |steps'| ensures Continues(states'[k], clocks'[k], t, end) {
      assert Expires(states'[k], clocks'[k], steps'[k], t, end);
    }
  }

  /** The call at the beginning of the period. */
  lemma FirstCall(s: State, clock: nat, t: nat, end: nat, start: nat) returns (begin: nat, e: Step, f: State)
    requires Sound(s, start, clock) && t < |s.threads| && Competes(t, s.threads[t])
    requires OnGrid(end, s.period) && s.period < end <= TICKS_MAX && clock + s.period <= end
    ensures CanStep(s, clock, e) && f == After(s, clock, e) && begin == ClockAfter(clock, e)
    ensures Begins(s, e, end) && e.c.pick + s.period == end && SameBudgets(s, f) && Called(f, begin, t, end, start)
  {
    begin := end - s.period;
    var c := At(begin, |s.threads|);
    CallRuns(s, clock, c, begin);
    e, f := ScheduleStep(c), Schedule(s, c);
    CallLeaves(s, clock, t, end, start, begin, c, f);
    CallBudgets(s, c, clock, f);
  }

  /**
   From any sound state in which t competes, schedule() called at the beginning of a period and then at each expiry of
   the timer goes through the period and loses nothing; if the budgets fit in the period, t is served.
   */
  lemma TimerDriven(s: State, clock: nat, t: nat, end: nat, start: nat)
    returns (states: seq<State>, clocks: seq<nat>, steps: seq<Step>)
    requires Sound(s, start, clock) && t < |s.threads| && Competes(t, s.threads[t])
    requires OnGrid(end, s.period) && s.period < end <= TICKS_MAX && clock + s.period <= end
    ensures Through(states, clocks, steps, t, end) && states[0] == s && clocks[0] == clock
    ensures AllExpire(states, clocks, steps, t, end, 1)
    ensures Lost(states, clocks, steps, t, end, |steps|) == 0
    ensures Fits(s, 0) ==> Served(states[|steps|], t, end)
  {
    var begin, e, f := FirstCall(s, clock, t, end, start);
    var later, times, calls := Drive(f, begin, t, end, start);
    states, clocks, steps := [s] + later, [clock] + times, [e] + calls;
    OpenDriven(s, clock, e, f, t, end, later, times, calls);
    NothingLost(states, clocks, steps, t, end, |steps|);
    BudgetsOn(s, f, later[|calls|]);
    if Fits(s, 0) {
      FitsOn(s, later[|calls|]);
      FullBudget(states, clocks, steps, start, t, end, |steps|, later[|calls|], 0);
    }
  }

  lemma FitsOn(s: State, f: State)
    requires Fits(s, 0) && SameBudgets(s, f)
    ensures Fits(f, 0)
  {
    forall x: nat | x < |s.threads| ensures s.threads[x].data.budget == f.threads[x].data.budget {
      assert Data(f, x).budget == Data(s, x).budget;
    }
    BudgetsSum(s.threads, f.threads, |s.threads|);
  }
}
