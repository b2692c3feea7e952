/**
 Scheduler events (core/event.c) between one waiting thread, any number of
 signallers, and a scheduler of which only its effect on the waiting thread
 matters.  A step is one section under a lock; every gap between two sections may
 be filled with steps of others.
 */
module EventProtocol {

  /** What the protocol sees of the waiting thread: whether it is the current thread of its CPU, blocked, or
      about to block when it is next switched out. */
  datatype Life = Life(current: bool, blocked: bool, blocking: bool)

  predicate LifeOk(l: Life) {
    (l.current ==> !l.blocked) && (l.blocking ==> l.current)
  }

  /** The thread competes for the CPU. */
  predicate Awake(l: Life) {
    !l.blocked && !l.blocking
  }

  /** What a scheduler operation is to the waiting thread: schedule(), sleep_thread or wake_thread of it, or
      an operation on others. */
  datatype Kind = Scheduling | SleepingIt | WakingIt | Elsewhere

  predicate Effect(k: Kind, l: Life, n: Life) {
    match k
    case Scheduling => Awake(n) == Awake(l) && !n.blocking
    case SleepingIt => n == if l.current then l.(blocking := true) else l.(blocked := true)
    case WakingIt => Awake(n) && n.current == l.current
    case Elsewhere => n.current == l.current && (Awake(l) ==> Awake(n)) && (!l.blocking ==> !n.blocking)
  }

  /** Who holds event.lock. */
  datatype Holder = Free | Waiter | Signaler

  /**
   Where the waiting thread is in wait_event: outside; with the lock, about to
   test `set`; with the lock, after sleep_thread; without it, about to call
   schedule; after schedule, about to take the lock again.
   */
  datatype Place = Outside | Testing | Sleeping | Leaving | Returning

  /**
   `waiting` says that event.waiting_thread is the thread.  `paused` says that somebody else
   has put it to sleep and nobody has woken it since.  The counters count calls of
   signal_event and reset_event, and returns of wait_event.
   */
  datatype World = World(
    life: Life,
    paused: bool,
    set_: bool,
    waiting: bool,
    holder: Holder,
    place: Place,
    signals: nat,
    resets: nat,
    finished: nat)

  /** `next` is the waiting thread's life after the scheduler operation that the action makes, if it makes one. */
  datatype Action =
    | BeginWait
    | Test(next: Life)
    | Unlock
    | Reschedule(next: Life)
    | Relock
    | BeginSignal
    | EndSignal(next: Life)
    | Reset
    | Pause(next: Life)
    | Other(kind: Kind, next: Life)

  datatype Operation = NoOperation | Operation(kind: Kind, next: Life)

  function OperationOf(w: World, a: Action): Operation {
    match a
    case Test(next) => if !w.set_ && w.waiting then Operation(SleepingIt, next) else NoOperation
    case Reschedule(next) => Operation(Scheduling, next)
    case EndSignal(next) => if w.waiting then Operation(WakingIt, next) else NoOperation
    case Pause(next) => Operation(SleepingIt, next)
    case Other(kind, next) => Operation(kind, next)
    case _ => NoOperation
  }

  /** When an action may happen.  The waiting thread acts only while it is current; others may do anything to
      it at any time, but switch it out only outside wait_event. */
  predicate Guard(w: World, a: Action) {
    match a
    case BeginWait => w.place == Outside && w.holder == Free && w.life.current
    case Test(_) => w.place == Testing && w.life.current
    case Unlock => w.place == Sleeping && w.life.current
    case Reschedule(_) => w.place == Leaving && w.life.current
    case Relock => w.place == Returning && w.holder == Free && w.life.current
    case BeginSignal => w.holder == Free
    case EndSignal(_) => w.holder == Signaler
    case Reset => w.holder == Free
    case Pause(_) => true
    case Other(kind, _) => kind != SleepingIt && (kind == Scheduling && w.life.current ==> w.place == Outside)
  }

  function Do(w: World, a: Action): World {
    match a
    case BeginWait => w.(waiting := true, holder := Waiter, place := Testing)
    case Test(next) =>
      if !w.set_ && w.waiting then w.(life := next, place := Sleeping)
      else w.(set_ := false, waiting := false, holder := Free, place := Outside, finished := w.finished + 1)
    case Unlock => w.(holder := Free, place := Leaving)
    case Reschedule(next) => w.(life := next, place := Returning)
    case Relock => w.(holder := Waiter, place := Testing)
    case BeginSignal => w.(set_ := true, holder := Signaler, signals := w.signals + 1)
    case EndSignal(next) => (if w.waiting then w.(life := next, paused := false) else w).(holder := Free)
    case Reset => w.(set_ := false, waiting := false, resets := w.resets + 1)
    case Pause(next) => w.(life := next, paused := true)
    case Other(kind, next) => w.(life := next, paused := w.paused && kind != WakingIt)
  }

  /** The operation had one of the effects that its kind allows. */
  predicate Allowed(w: World, o: Operation) {
    o.Operation? ==> LifeOk(o.next) && Effect(o.kind, w.life, o.next)
  }

  /** Once a signal is complete, a registered waiter is awake, unless somebody else has put it to sleep. */
  predicate NoLostWakeup(w: World) {
    w.set_ && w.waiting && w.holder != Signaler ==> Awake(w.life) || w.paused
  }

  /** Every return of wait_event is paid for by a signal, or by a reset during the wait. */
  predicate Paid(w: World) {
    w.finished + (if w.set_ then 1 else 0) + (if w.place != Outside && !w.waiting then 1 else 0) <= w.signals + w.resets
  }

  predicate Inv(w: World) {
    && LifeOk(w.life)
    && (w.waiting ==> w.place != Outside)
    && (w.holder == Waiter <==> w.place == Testing || w.place == Sleeping)
    && (w.place == Testing || w.place == Sleeping || w.place == Leaving ==> w.life.current)
    && (w.place == Outside || w.place == Testing ==> Awake(w.life) || w.paused)
    && (w.place == Sleeping ==> !w.set_ && w.waiting)
    && (w.place == Returning ==> !w.life.blocking || w.paused)
    && Paid(w) && NoLostWakeup(w)
  }

  lemma ActionKeeps(w: World, a: Action, v: World)
    requires Inv(w) && Guard(w, a) && Allowed(w, OperationOf(w, a)) && v == Do(w, a)
    ensures Inv(v)
  {
  }

  /** wait_event returns only with the event set, or after a reset; and it leaves the event reset. */
  lemma ReturnConsumes(w: World, a: Action, v: World)
    requires Inv(w) && Guard(w, a) && v == Do(w, a) && v.finished > w.finished
    ensures (w.set_ || !w.waiting) && !v.set_ && w.holder == Waiter
  {
  }

  ghost predicate Run(worlds: seq<World>, actions: seq<Action>) {
    && |worlds| == |actions| + 1
    && forall k :: 0 <= k < |actions| ==>
         && Guard(worlds[k], actions[k]) && Allowed(worlds[k], OperationOf(worlds[k], actions[k]))
         && worlds[k + 1] == Do(worlds[k], actions[k])
  }

  /** In every state of every interleaving no wakeup is lost. */
  lemma {:induction false} RunKeeps(worlds: seq<World>, actions: seq<Action>, k: nat)
    requires Run(worlds, actions) && Inv(worlds[0]) && k < |worlds|
    ensures Inv(worlds[k])
  {
    if k > 0 {
      RunKeeps(worlds, actions, k - 1);
      ActionKeeps(worlds[k - 1], actions[k - 1], worlds[k]);
    }
  }
}
