/**
 Scheduler events over the BVT scheduler: every operation of core/schedule.c has on a waiting
 thread the effect that the event protocol relies on, so no interleaving of the protocol with the
 scheduler loses a wakeup.
 */
module BvtEvents {
  import opened Lists
  import opened Threads
  import opened BvtModel
  import opened BvtInvariant
  import opened BvtRuns
  import EventProtocol

  function LifeOf(s: State, t: nat): EventProtocol.Life
    requires t < |s.threads|
  {
    EventProtocol.Life(s.curr == t, s.threads[t].status == Blocked, s.threads[t].beBlocking)
  }

  /** What a scheduler step is to thread t. */
  function KindOf(e: Step, t: nat): EventProtocol.Kind {
    match e
    case ScheduleStep(_) => EventProtocol.Scheduling
    case SleepStep(x, _) => if x == t then EventProtocol.SleepingIt else EventProtocol.Elsewhere
    case WakeStep(x, _, _) => if x == t then EventProtocol.WakingIt else EventProtocol.Elsewhere
    case _ => EventProtocol.Elsewhere
  }

  lemma AwakeIsCompeting(s: State, t: nat)
    requires Inv(s) && t < |s.threads| && t != IDLE
    ensures EventProtocol.LifeOk(LifeOf(s, t)) && (EventProtocol.Awake(LifeOf(s, t)) <==> Competes(t, s.threads[t]))
  {
    assert ThreadOk(s.mcu, s.curr, t, s.threads[t], t in s.runqueue);
  }

  /** schedule() neither adds nor drops a competitor, and leaves nobody about to block. */
  lemma ScheduleCompetes(s: State, c: Readings, t: nat, f: State)
    requires Inv(s) && |c.prio| == |s.threads| && t < |s.threads| && f == Schedule(s, c)
    ensures t < |f.threads| && (Competes(t, f.threads[t]) <==> Competes(t, s.threads[t])) && !f.threads[t].beBlocking
  {
    var r := Charged(PrioritizeAll(s, |s.threads|, c.prio), c.charge);
    SelectionState(s, c, r);
    DispatchThreads(r, Chosen(r), c, f);
    assert ThreadOk(s.mcu, s.curr, t, s.threads[t], t in s.runqueue);
    NobodyBlocking(r, Chosen(r), c, t, f);
  }

  lemma NobodyBlocking(r: State, next: nat, c: Readings, t: nat, f: State)
    requires Inv(r) && next == Chosen(r) && next < |r.threads| && t < |r.threads| && f == Dispatch(r, next, c)
    ensures t < |f.threads| && !f.threads[t].beBlocking
  {
    assert ThreadOk(r.mcu, r.curr, t, r.threads[t], t in r.runqueue);
    assert next in r.runqueue || next == IDLE;
    assert ThreadOk(r.mcu, r.curr, next, r.threads[next], next in r.runqueue);
  }

  /** sleep_thread of the waiting thread, by itself or by others. */
  lemma SleepIt(s: State, t: nat, markNow: nat, f: State)
    requires Inv(s) && t < |s.threads| && t != IDLE && f == SleepThread(s, t, markNow)
    ensures t < |f.threads| && EventProtocol.Effect(EventProtocol.SleepingIt, LifeOf(s, t), LifeOf(f, t))
  {
    assert ThreadOk(s.mcu, s.curr, t, s.threads[t], t in s.runqueue);
  }

  lemma WakeAny(s: State, x: nat, now: nat, markNow: nat, t: nat, f: State)
    requires Inv(s) && x < |s.threads| && x != IDLE && t < |s.threads| && t != IDLE
    requires f == WakeThread(s, x, now, markNow)
    ensures t < |f.threads| && f.curr == s.curr && (x == t ==> Competes(t, f.threads[t]))
    ensures x != t ==> f.threads[t] == s.threads[t]
  {
    assert ThreadOk(s.mcu, s.curr, x, s.threads[x], x in s.runqueue);
    if s.threads[x].status == Blocked || s.threads[x].beBlocking {
      var r := WakeHook(s, x, now);
      WakeQueue(s, x, now, r);
      WakeKeeps(s, x, now, markNow, f);
    }
  }

  /** Every scheduler step has an effect that its kind allows. */
  lemma StepEffect(s: State, clock: nat, e: Step, t: nat, start: nat, f: State)
    requires Sound(s, start, clock) && CanStep(s, clock, e) && t < |s.threads| && t != IDLE && f == After(s, clock, e)
    ensures t < |f.threads| && EventProtocol.LifeOk(LifeOf(f, t))
    ensures EventProtocol.Effect(KindOf(e, t), LifeOf(s, t), LifeOf(f, t))
  {
    StepSound(s, clock, e, start, f);
    match e {
      case ScheduleStep(c) => ScheduleCompetes(s, c, t, f);
      case SleepStep(x, markNow) =>
        if x == t {
          SleepIt(s, t, markNow, f);
        }
      case WakeStep(x, now, markNow) => WakeAny(s, x, now, markNow, t, f);
      case _ =>
    }
    AwakeIsCompeting(s, t);
    AwakeIsCompeting(f, t);
  }

  // ---------------------------------------------------------------------
  // Every interleaving
  // ---------------------------------------------------------------------

  datatype World = World(cpu: State, clock: nat, event: EventProtocol.World)

  /** An action of the protocol, with the scheduler step that it makes if it makes one. */
  ghost predicate Moves(w: World, v: World, t: nat, a: EventProtocol.Action, e: Step) {
    && EventProtocol.Guard(w.event, a) && v.event == EventProtocol.Do(w.event, a)
    && match EventProtocol.OperationOf(w.event, a)
       case NoOperation => v.cpu == w.cpu && v.clock == w.clock
       case Operation(kind, next) =>
         && CanStep(w.cpu, w.clock, e) && KindOf(e, t) == kind
         && v.cpu == After(w.cpu, w.clock, e) && v.clock == ClockAfter(w.clock, e)
         && t < |v.cpu.threads| && next == LifeOf(v.cpu, t)
  }

  ghost predicate Couples(w: World, t: nat, start: nat) {
    && Sound(w.cpu, start, w.clock) && t < |w.cpu.threads| && t != IDLE
    && w.event.life == LifeOf(w.cpu, t) && EventProtocol.Inv(w.event)
  }

  lemma MoveKeeps(w: World, v: World, t: nat, a: EventProtocol.Action, e: Step, start: nat)
    requires Couples(w, t, start) && Moves(w, v, t, a, e)
    ensures Couples(v, t, start)
  {
    if EventProtocol.OperationOf(w.event, a).Operation? {
      StepSound(w.cpu, w.clock, e, start, v.cpu);
      StepEffect(w.cpu, w.clock, e, t, start, v.cpu);
    }
    EventProtocol.ActionKeeps(w.event, a, v.event);
  }

  ghost predicate Run(worlds: seq<World>, actions: seq<EventProtocol.Action>, steps: seq<Step>, t: nat) {
    && |worlds| == |actions| + 1 && |steps| == |actions|
    && forall k :: 0 <= k < |actions| ==> Moves(worlds[k], worlds[k + 1], t, actions[k], steps[k])
  }

  /** In every state of every interleaving with the scheduler: a signalled waiter competes for the CPU unless
      somebody else put it to sleep, and wait_event has not returned more often than signals and resets allow. */
  lemma {:induction false} NoRunLosesWakeup(worlds: seq<World>, actions: seq<EventProtocol.Action>, steps: seq<Step>,
                                            t: nat, start: nat, k: nat)
    requires Run(worlds, actions, steps, t) && Couples(worlds[0], t, start) && k < |worlds|
    ensures var w := worlds[k];
            && Couples(w, t, start) && w.event.finished <= w.event.signals + w.event.resets
            && (w.event.set_ && w.event.waiting && w.event.holder != EventProtocol.Signaler && !w.event.paused ==>
                  Competes(t, w.cpu.threads[t]))
  {
    if k > 0 {
      NoRunLosesWakeup(worlds, actions, steps, t, start, k - 1);
      MoveKeeps(worlds[k - 1], worlds[k], t, actions[k - 1], steps[k - 1], start);
    }
    AwakeIsCompeting(worlds[k].cpu, t);
  }

  /** After a complete signal the CPU does not idle until the waiter has run. */
  lemma SignalKeepsCpuBusy(w: World, t: nat, c: Readings, start: nat, f: State)
    requires Couples(w, t, start) && w.event.set_ && w.event.waiting && w.event.holder != EventProtocol.Signaler
    requires !w.event.paused
    requires CanStep(w.cpu, w.clock, ScheduleStep(c)) && f == Schedule(w.cpu, c)
    ensures f.curr < |f.threads| && Competes(f.curr, f.threads[f.curr])
  {
    AwakeIsCompeting(w.cpu, t);
    ScheduleSound(w.cpu, c, w.clock, start, f);
    ScheduleCompetes(w.cpu, c, t, f);
    assert ThreadOk(f.mcu, f.curr, f.curr, f.threads[f.curr], f.curr in f.runqueue);
  }
}
