/**
 Scheduler events over the RTDS scheduler: every operation of core/schedule.c has on a waiting
 thread the effect that the event protocol relies on, so no interleaving of the protocol with the
 scheduler loses a wakeup.
 */
module RtdsEvents {
  import opened Periods
  import opened Lists
  import opened Threads
  import opened RtdsModel
  import opened RtdsInvariant
  import opened RtdsSteps
  import opened RtdsRuns
  import EventProtocol

  function LifeOf(s: State, t: nat): EventProtocol.Life
    requires t < |s.threads|
  {
    EventProtocol.Life(s.curr == t, s.threads[t].status == Blocked, s.threads[t].beBlocking)
  }

  /** What a scheduler step is to thread t. */
  function KindOf(e: Step, t: nat): EventProtocol.Kind {
    match e
    case ScheduleStep(_) => EventProtocol.Scheduling
    case SleepStep(x, _, _, _, _) => if x == t then EventProtocol.SleepingIt else EventProtocol.Elsewhere
    case WakeStep(x, _, _, _, _) => if x == t then EventProtocol.WakingIt else EventProtocol.Elsewhere
    case _ => EventProtocol.Elsewhere
  }

  lemma AwakeIsCompeting(s: State, clock: nat, t: nat)
    requires Inv(s, clock) && t < |s.threads| && t != IDLE
    ensures EventProtocol.LifeOk(LifeOf(s, t)) && (EventProtocol.Awake(LifeOf(s, t)) <==> Competes(t, s.threads[t]))
  {
    assert ThreadOk(s.period, clock, s.curr, t, s.threads[t]);
  }

  lemma ScheduleCompetes(s: State, c: Readings, clock: nat, t: nat, f: State)
    requires Inv(s, clock) && Ordered(c, |s.threads|, clock) && QueuesKnown(s) && t < |s.threads| && t != IDLE
    requires f == Schedule(s, c)
    ensures t < |f.threads| && (Competes(t, f.threads[t]) <==> Competes(t, s.threads[t]))
    ensures !f.threads[t].beBlocking
  {
    var r := Refreshed(PrioritizeAll(s, |s.threads|, c.prio), c.pick);
    SelectionState(s, c, clock, r);
    SelectionLife(s, c, r);
    CompetesIsActive(s, clock, t);
    DispatchThread(r, c.pick, Chosen(r), c, t);
    NoneBlocking(r, c.pick, Chosen(r), c, t, f);
  }

  /** The waiter is no closer to sleep than before. */
  ghost predicate Undisturbed(s: State, f: State, t: nat) {
    && t < |s.threads| && t < |f.threads|
    && (Competes(t, s.threads[t]) ==> Competes(t, f.threads[t]))
    && (!s.threads[t].beBlocking ==> !f.threads[t].beBlocking)
  }

  lemma SleepOther(s: State, clock: nat, x: nat, now: nat, timerNow: nat, markNow: nat, local: bool, t: nat, f: State)
    requires Inv(s, clock) && x < |s.threads| && t < |s.threads| && x != t && clock <= now <= markNow
    requires f == SleepThread(s, x, now, timerNow, markNow, local)
    ensures Undisturbed(s, f, t) && f.curr == s.curr
  {
    CoreLater(s, clock, markNow);
    var d := Data(if x == s.curr then Account(s, x, now) else s, x).(queue := NoQueue, lastStart := 0);
    SleepThreads(s, x, now, timerNow, markNow, local, f, d);
  }

  lemma WakeAny(s: State, clock: nat, x: nat, now: nat, timerNow: nat, markNow: nat, local: bool, t: nat, f: State)
    requires Inv(s, clock) && x < |s.threads| && t < |s.threads| && t != IDLE && clock <= now <= markNow
    requires f == WakeThread(s, x, now, timerNow, markNow, local)
    ensures Undisturbed(s, f, t) && f.curr == s.curr && (x == t ==> Competes(t, f.threads[t]))
  {
    assert ThreadOk(s.period, clock, s.curr, t, s.threads[t]);
    if s.threads[x].status == Blocked || s.threads[x].beBlocking {
      CoreLater(s, clock, markNow);
      WakeThreads(s, x, now, timerNow, markNow, local, f, Replenish(Data(s, x), s.period, now));
    }
  }

  lemma RequestOther(s: State, x: nat, t: nat, f: State)
    requires x < |s.threads| && t < |s.threads| && f == RequestPriority(s, x)
    ensures Undisturbed(s, f, t) && f.curr == s.curr
  {
  }

  lemma TickOther(s: State, now: nat, t: nat, f: State)
    requires s.period > 0 && s.curr < |s.threads| && QueuesKnown(s) && t < |s.threads| && f == TimerHandler(s, now)
    ensures Undisturbed(s, f, t) && f.curr == s.curr
  {
    var r := Refreshed(s, now);
    assert r.threads[t] == s.threads[t].(data := r.threads[t].data);
  }

  lemma CreateOther(s: State, budget: nat, now: nat, markNow: nat, t: nat, f: State)
    requires t < |s.threads| && f == CreateThread(s, budget, now, markNow)
    ensures Undisturbed(s, f, t) && f.curr == s.curr
  {
  }

  /** No operation of others makes a competing waiter block, and waking it makes it compete. */
  lemma OtherSteps(s: State, clock: nat, e: Step, t: nat, start: nat, f: State)
    requires Sound(s, start, clock) && CanStep(s, clock, e) && t < |s.threads| && t != IDLE && f == After(s, clock, e)
    requires e.SleepStep? ==> e.t != t
    ensures Undisturbed(s, f, t)
    ensures e.ScheduleStep? || f.curr == s.curr
    ensures e.WakeStep? && e.t == t ==> Competes(t, f.threads[t])
  {
    match e
    case ScheduleStep(c) => ScheduleCompetes(s, c, clock, t, f);
    case SleepStep(x, now, timerNow, markNow, local) => SleepOther(s, clock, x, now, timerNow, markNow, local, t, f);
    case WakeStep(x, now, timerNow, markNow, local) => WakeAny(s, clock, x, now, timerNow, markNow, local, t, f);
    case RequestStep(x) => RequestOther(s, x, t, f);
    case TickStep(now) => TickOther(s, now, t, f);
    case CreateStep(budget, now, markNow) => CreateOther(s, budget, now, markNow, t, f);
  }

  /** sleep_thread of the waiting thread, by itself or by others. */
  lemma SleepIt(s: State, clock: nat, t: nat, now: nat, timerNow: nat, markNow: nat, local: bool, f: State)
    requires Inv(s, clock) && t < |s.threads| && t != IDLE && clock <= now <= markNow
    requires f == SleepThread(s, t, now, timerNow, markNow, local)
    ensures t < |f.threads| && EventProtocol.Effect(EventProtocol.SleepingIt, LifeOf(s, t), LifeOf(f, t))
  {
    CoreLater(s, clock, markNow);
    assert ThreadOk(s.period, clock, s.curr, t, s.threads[t]);
    var d := Data(if t == s.curr then Account(s, t, now) else s, t).(queue := NoQueue, lastStart := 0);
    SleepThreads(s, t, now, timerNow, markNow, local, f, d);
  }

  /** Every scheduler step has an effect that its kind allows. */
  lemma StepEffect(s: State, clock: nat, e: Step, t: nat, start: nat, f: State)
    requires Sound(s, start, clock) && CanStep(s, clock, e) && t < |s.threads| && t != IDLE && f == After(s, clock, e)
    ensures t < |f.threads| && EventProtocol.LifeOk(LifeOf(f, t))
    ensures EventProtocol.Effect(KindOf(e, t), LifeOf(s, t), LifeOf(f, t))
  {
    StepSound(s, clock, e, start, f);
    if e.SleepStep? && e.t == t {
      SleepIt(s, clock, t, e.now, e.timerNow, e.markNow, e.local, f);
    } else {
      OtherSteps(s, clock, e, t, start, f);
      if e.ScheduleStep? {
        ScheduleCompetes(s, e.c, clock, t, f);
      }
    }
    AwakeIsCompeting(s, clock, t);
    AwakeIsCompeting(f, ClockAfter(clock, e), t);
  }

  // ---------------------------------------------------------------------
  // Every interleaving
  // ---------------------------------------------------------------------

  datatype World = World(cpu: State, clock: nat, event: EventProtocol.World)

  /** An action of the protocol, with the scheduler step that it makes if it makes one. */
  ghost predicate Moves(w: World, v: World, t: nat, a: EventProtocol.Action, e: Step) {
    && EventProtocol.Guard(w.event, a) && v.event == EventProtocol.Do(w.event, a)
    && match EventProtocol.OperationOf(w.event, a)
       case NoOperation => v.cpu == w.cpu && v.clock == w.clock
       case Operation(kind, next) =>
         && CanStep(w.cpu, w.clock, e) && KindOf(e, t) == kind
         && v.cpu == After(w.cpu, w.clock, e) && v.clock == ClockAfter(w.clock, e)
         && t < |v.cpu.threads| && next == LifeOf(v.cpu, t)
  }

  ghost predicate Couples(w: World, t: nat, start: nat) {
    && Sound(w.cpu, start, w.clock) && t < |w.cpu.threads| && t != IDLE
    && w.event.life == LifeOf(w.cpu, t) && EventProtocol.Inv(w.event)
  }

  lemma MoveKeeps(w: World, v: World, t: nat, a: EventProtocol.Action, e: Step, start: nat)
    requires Couples(w, t, start) && Moves(w, v, t, a, e)
    ensures Couples(v, t, start)
  {
    if EventProtocol.OperationOf(w.event, a).Operation? {
      StepSound(w.cpu, w.clock, e, start, v.cpu);
      StepEffect(w.cpu, w.clock, e, t, start, v.cpu);
    }
    EventProtocol.ActionKeeps(w.event, a, v.event);
  }

  ghost predicate Run(worlds: seq<World>, actions: seq<EventProtocol.Action>, steps: seq<Step>, t: nat) {
    && |worlds| == |actions| + 1 && |steps| == |actions|
    && forall k :: 0 <= k < |actions| ==> Moves(worlds[k], worlds[k + 1], t, actions[k], steps[k])
  }

  /** In every state of every interleaving with the scheduler: a signalled waiter competes for the CPU unless
      somebody else put it to sleep, and wait_event has not returned more often than signals and resets allow. */
  lemma {:induction false} NoRunLosesWakeup(worlds: seq<World>, actions: seq<EventProtocol.Action>, steps: seq<Step>,
                                            t: nat, start: nat, k: nat)
    requires Run(worlds, actions, steps, t) && Couples(worlds[0], t, start) && k < |worlds|
    ensures var w := worlds[k];
            && Couples(w, t, start) && w.event.finished <= w.event.signals + w.event.resets
            && (w.event.set_ && w.event.waiting && w.event.holder != EventProtocol.Signaler && !w.event.paused ==>
                  Competes(t, w.cpu.threads[t]))
  {
    if k > 0 {
      NoRunLosesWakeup(worlds, actions, steps, t, start, k - 1);
      MoveKeeps(worlds[k - 1], worlds[k], t, actions[k - 1], steps[k - 1], start);
    }
    AwakeIsCompeting(worlds[k].cpu, worlds[k].clock, t);
  }

  /** After a complete signal the CPU does not idle until the waiter has run. */
  lemma SignalKeepsCpuBusy(w: World, t: nat, c: Readings, start: nat, f: State)
    requires Couples(w, t, start) && w.event.set_ && w.event.waiting && w.event.holder != EventProtocol.Signaler
    requires !w.event.paused
    requires CanStep(w.cpu, w.clock, ScheduleStep(c)) && f == Schedule(w.cpu, c)
    ensures f.curr < |f.threads| && Competes(f.curr, f.threads[f.curr])
  {
    AwakeIsCompeting(w.cpu, w.clock, t);
    ScheduleSound(w.cpu, c, w.clock, start, f);
    ScheduleCompetes(w.cpu, c, w.clock, t, f);
  }
}
