/**
 The coroutine mutex of source/sync/mutex.cpp at the grain of its single accesses to the two
 spin locks, the owner field, the wait queue and the scheduler's tasks.  A schedule is a sequence
 of fibers, each taking its next step; fibers have nonzero ids and do not nest the lock.
 */
module CoMutexModule {
  type Fiber = x: nat | x > 0 witness 1

  datatype Woken = Nobody | Waiter(fiber: Fiber)

  /** Where a fiber stands in `lock` and `unlock`. */
  datatype Pc =
    | Outside
    | Entering          // compares the owner field with its own id
    | First             // tries m_mutex
    | WantGuard
    | Second            // has m_gaurd, tries m_mutex again
    | Enqueue           // has m_gaurd, appends itself to the wait queue
    | Leave             // has m_gaurd, releases it
    | Yielding          // still running, yields
    | Parked            // on hold until the scheduler takes it from its tasks
    | GotGuarded        // has both, releases m_gaurd
    | Got               // has m_mutex, sets the owner field
    | Critical          // returned from `lock`
    | Unlocking         // called `unlock`, wants m_gaurd
    | Clear             // has both, clears the owner field and takes a waiter off the queue
    | Release(w: Woken) // has both, releases m_mutex
    | Drop(w: Woken)    // has m_gaurd, releases it
    | Wake(w: Woken)    // reschedules the waiter it took

  /** `tasks` holds the fibers handed to the scheduler, which leaves a fiber that is still running where it is. */
  datatype State = State(mutex: bool, guard: bool, owner: nat, queue: seq<Fiber>, tasks: set<Fiber>, pc: map<Fiber, Pc>)

  function At(s: State, f: Fiber): Pc {
    if f in s.pc then s.pc[f] else Outside
  }

  function Goto(s: State, f: Fiber, pc: Pc): State {
    s.(pc := s.pc[f := pc])
  }

  const FRESH := State(false, false, 0, [], {}, map[])

  predicate Enabled(s: State, f: Fiber) {
    (At(s, f).Parked? ==> f in s.tasks) && (At(s, f).WantGuard? || At(s, f).Unlocking? ==> !s.guard)
  }

  function Next(s: State, f: Fiber): State
    requires Enabled(s, f)
  {
    match At(s, f)
    case Outside => Goto(s, f, Entering)
    case Entering => Goto(s, f, if s.owner == f then Critical else First)
    case First => if s.mutex then Goto(s, f, WantGuard) else Goto(s.(mutex := true), f, Got)
    case WantGuard => Goto(s.(guard := true), f, Second)
    case Second => if s.mutex then Goto(s, f, Enqueue) else Goto(s.(mutex := true), f, GotGuarded)
    case Enqueue => Goto(s.(queue := s.queue + [f]), f, Leave)
    case Leave => Goto(s.(guard := false), f, Yielding)
    case Yielding => Goto(s, f, Parked)
    case Parked => Goto(s.(tasks := s.tasks - {f}), f, First)
    case GotGuarded => Goto(s.(guard := false), f, Got)
    case Got => Goto(s.(owner := f), f, Critical)
    case Critical => Goto(s, f, Unlocking)
    case Unlocking => Goto(s.(guard := true), f, Clear)
    case Clear =>
      if s.queue == [] then Goto(s.(owner := 0), f, Release(Nobody))
      else Goto(s.(owner := 0, queue := s.queue[1..]), f, Release(Waiter(s.queue[0])))
    case Release(w) => Goto(s.(mutex := false), f, Drop(w))
    case Drop(w) => Goto(s.(guard := false), f, Wake(w))
    case Wake(w) => Goto(if w.Waiter? then s.(tasks := s.tasks + {w.fiber}) else s, f, Outside)
  }

  predicate Legal(s: State, run: seq<Fiber>)
    decreases |run|
  {
    run == [] || (Enabled(s, run[0]) && Legal(Next(s, run[0]), run[1..]))
  }

  function After(s: State, run: seq<Fiber>): State
    requires Legal(s, run)
    decreases |run|
  {
    if run == [] then s else After(Next(s, run[0]), run[1..])
  }

  // ----- The invariant -----

  predicate HasMutex(pc: Pc) {
    pc.GotGuarded? || pc.Got? || pc.Critical? || pc.Unlocking? || pc.Clear? || pc.Release?
  }

  predicate HasGuard(pc: Pc) {
    pc.Second? || pc.Enqueue? || pc.Leave? || pc.GotGuarded? || pc.Clear? || pc.Release? || pc.Drop?
  }

  /** On the way to the mutex, or about to send a waiter there. */
  predicate Contends(pc: Pc) {
    pc.First? || pc.WantGuard? || pc.Second? || Waker(pc)
  }

  /** Has taken a waiter off the queue and not rescheduled it yet. */
  predicate Waker(pc: Pc) {
    (pc.Release? || pc.Drop? || pc.Wake?) && pc.w.Waiter?
  }

  predicate Wakes(pc: Pc, f: Fiber) {
    Waker(pc) && pc.w == Waiter(f)
  }

  /** The spin locks are held by the fibers whose code says so, one at a time: o and g (0 for none). */
  ghost predicate Locks(s: State, o: nat, g: nat) {
    && s.mutex == (o > 0) && s.guard == (g > 0)
    && forall f: Fiber :: LocksAt(s, o, g, f)
  }

  predicate LocksAt(s: State, o: nat, g: nat, f: Fiber) {
    (HasMutex(At(s, f)) <==> f == o) && (HasGuard(At(s, f)) <==> f == g)
  }

  /** The owner field names the fiber between setting and clearing it. */
  ghost predicate Owner(s: State) {
    forall f: Fiber :: OwnerAt(s, f)
  }

  predicate OwnerAt(s: State, f: Fiber) {
    s.owner == f <==> At(s, f).Critical? || At(s, f).Unlocking? || At(s, f).Clear?
  }

  predicate Distinct(q: seq<Fiber>) {
    forall i, j :: 0 <= i < j < |q| ==> q[i] != q[j]
  }

  predicate Waits(pc: Pc) {
    pc.Leave? || pc.Yielding? || pc.Parked?
  }

  /** Exactly the waiting fibers are queued, or about to be woken by one fiber, or handed to the scheduler; never two of these. */
  ghost predicate Waiting(s: State) {
    && Distinct(s.queue)
    && (forall f: Fiber :: FoundAt(s, f))
    && (forall f: Fiber, h: Fiber :: WakesAt(s, h, f))
    && (forall h: Fiber, k: Fiber :: OneWaker(s, h, k))
  }

  ghost predicate FoundAt(s: State, f: Fiber) {
    && (f in s.queue ==> Waits(At(s, f)) && f !in s.tasks)
    && (f in s.tasks ==> At(s, f).Yielding? || At(s, f).Parked?)
    && (Waits(At(s, f)) ==> f in s.queue || f in s.tasks || exists h: Fiber :: Wakes(At(s, h), f))
  }

  predicate WakesAt(s: State, h: Fiber, f: Fiber) {
    Wakes(At(s, h), f) ==> (At(s, f).Yielding? || At(s, f).Parked?) && f !in s.queue && f !in s.tasks
  }

  predicate OneWaker(s: State, h: Fiber, k: Fiber) {
    Waker(At(s, h)) && Waker(At(s, k)) && At(s, h).w == At(s, k).w ==> h == k
  }

  /** Under m_gaurd: a fiber enqueues only while the mutex is taken, and an unlocker that found no waiter leaves none. */
  ghost predicate Guarded(s: State) {
    forall f: Fiber :: GuardedAt(s, f)
  }

  predicate GuardedAt(s: State, f: Fiber) {
    && (At(s, f).Enqueue? || At(s, f).Leave? ==> s.mutex)
    && (At(s, f) == Release(Nobody) ==> s.queue == [])
  }

  /** Waiters are only left behind while the mutex is held, or some fiber contends for it or is about to. */
  ghost predicate Attended(s: State) {
    s.queue == [] || s.mutex || s.tasks != {} || exists f: Fiber :: Contends(At(s, f))
  }

  ghost predicate Inv(s: State) {
    (exists o: nat, g: nat :: Locks(s, o, g)) && Owner(s) && Waiting(s) && Guarded(s) && Attended(s)
  }

  // ----- Every step keeps it -----

  /** Who holds the two spin locks after a step of f. */
  function Holder(o: nat, f: Fiber, before: Pc, after: Pc): nat {
    if HasMutex(after) then f else if HasMutex(before) then 0 else o
  }

  function GuardHolder(g: nat, f: Fiber, before: Pc, after: Pc): nat {
    if HasGuard(after) then f else if HasGuard(before) then 0 else g
  }

  /** A step moves only the fiber itself. */
  lemma Moves(s: State, f: Fiber, x: Fiber)
    requires Enabled(s, f)
    ensures x != f ==> At(Next(s, f), x) == At(s, x)
  {
  }

  lemma LocksStep(s: State, f: Fiber, o: nat, g: nat)
    requires Locks(s, o, g) && Owner(s) && Enabled(s, f)
    ensures Locks(Next(s, f), Holder(o, f, At(s, f), At(Next(s, f), f)), GuardHolder(g, f, At(s, f), At(Next(s, f), f)))
  {
    var s' := Next(s, f);
    var o', g' := Holder(o, f, At(s, f), At(s', f)), GuardHolder(g, f, At(s, f), At(s', f));
    assert LocksAt(s, o, g, f) && OwnerAt(s, f);
    forall x: Fiber ensures LocksAt(s', o', g', x) {
      assert LocksAt(s, o, g, x);
      Moves(s, f, x);
    }
  }

  lemma OwnerStep(s: State, f: Fiber, o: nat, g: nat)
    requires Locks(s, o, g) && Owner(s) && Enabled(s, f)
    ensures Owner(Next(s, f))
  {
    var s' := Next(s, f);
    assert LocksAt(s, o, g, f) && OwnerAt(s, f);
    forall x: Fiber ensures OwnerAt(s', x) {
      assert LocksAt(s, o, g, x) && OwnerAt(s, x);
      Moves(s, f, x);
    }
  }

  lemma GuardedStep(s: State, f: Fiber, o: nat, g: nat)
    requires Locks(s, o, g) && Guarded(s) && Enabled(s, f)
    ensures Guarded(Next(s, f))
  {
    var s' := Next(s, f);
    assert LocksAt(s, o, g, f) && GuardedAt(s, f);
    forall x: Fiber ensures GuardedAt(s', x) {
      assert LocksAt(s, o, g, x) && GuardedAt(s, x);
      Moves(s, f, x);
    }
  }

  lemma AttendedStep(s: State, f: Fiber, o: nat, g: nat)
    requires Locks(s, o, g) && Guarded(s) && Attended(s) && Enabled(s, f)
    ensures Attended(Next(s, f))
  {
    var s' := Next(s, f);
    assert LocksAt(s, o, g, f) && GuardedAt(s, f);
    if s'.queue != [] && !s'.mutex && s'.tasks == {} && !Contends(At(s', f)) {
      var x: Fiber :| Contends(At(s, x));
      Moves(s, f, x);
    }
  }

  /** What a step does to the queue and the tasks, and when the fiber itself waits or is about to wake another. */
  lemma Effects(s: State, f: Fiber)
    requires Enabled(s, f)
    ensures
      var s', pc := Next(s, f), At(s, f);
      && s'.queue == (if pc.Enqueue? then s.queue + [f] else if pc.Clear? && s.queue != [] then s.queue[1..] else s.queue)
      && s'.tasks == (if pc.Wake? && Waker(pc) then s.tasks + {pc.w.fiber} else if pc.Parked? then s.tasks - {f} else s.tasks)
      && (Waits(At(s', f)) <==> pc.Enqueue? || pc.Leave? || pc.Yielding?)
      && (At(s', f).Yielding? || At(s', f).Parked? <==> pc.Leave? || pc.Yielding?)
      && (Waker(At(s', f)) <==> (pc.Clear? && s.queue != []) || (Waker(pc) && !pc.Wake?))
      && (Waker(At(s', f)) ==> At(s', f).w == if pc.Clear? then Waiter(s.queue[0]) else pc.w)
  {
  }

  lemma FoundStep(s: State, f: Fiber, x: Fiber)
    requires Waiting(s) && Enabled(s, f)
    ensures FoundAt(Next(s, f), x)
  {
    hide Next;
    var s' := Next(s, f);
    Effects(s, f);
    Moves(s, f, x);
    assert FoundAt(s, x) && FoundAt(s, f) && WakesAt(s, f, x);
    if s.queue != [] {
      assert x in s.queue ==> x == s.queue[0] || x in s.queue[1..];
      assert FoundAt(s, s.queue[0]);
    }
    if Waits(At(s', x)) && x !in s'.queue && x !in s'.tasks {
      if x in s.queue {
        assert Wakes(At(s', f), x);
      } else {
        var h: Fiber :| Wakes(At(s, h), x);
        Moves(s, f, h);
        assert Wakes(At(s', h), x);
      }
    }
  }

  lemma WakesStep(s: State, f: Fiber, h: Fiber, x: Fiber, o: nat, g: nat)
    requires Locks(s, o, g) && Waiting(s) && Enabled(s, f)
    ensures WakesAt(Next(s, f), h, x)
  {
    hide Next;
    Effects(s, f);
    Moves(s, f, h);
    Moves(s, f, x);
    assert FoundAt(s, x) && WakesAt(s, h, x) && WakesAt(s, f, x) && OneWaker(s, f, h);
    assert LocksAt(s, o, g, f) && LocksAt(s, o, g, x);
  }

  lemma OneWakerStep(s: State, f: Fiber, h: Fiber, k: Fiber)
    requires Waiting(s) && Enabled(s, f)
    ensures OneWaker(Next(s, f), h, k)
  {
    hide Next;
    Effects(s, f);
    Moves(s, f, h);
    Moves(s, f, k);
    assert OneWaker(s, h, k) && OneWaker(s, f, k) && OneWaker(s, h, f);
    if At(s, f).Clear? && s.queue != [] {
      assert WakesAt(s, h, s.queue[0]) && WakesAt(s, k, s.queue[0]);
    }
  }

  lemma WaitingStep(s: State, f: Fiber, o: nat, g: nat)
    requires Locks(s, o, g) && Waiting(s) && Enabled(s, f)
    ensures Waiting(Next(s, f))
  {
    hide Next;
    var s' := Next(s, f);
    Effects(s, f);
    assert FoundAt(s, f);
    forall x: Fiber ensures FoundAt(s', x) {
      FoundStep(s, f, x);
    }
    forall x: Fiber, h: Fiber ensures WakesAt(s', h, x) {
      WakesStep(s, f, h, x, o, g);
    }
    forall h: Fiber, k: Fiber ensures OneWaker(s', h, k) {
      OneWakerStep(s, f, h, k);
    }
  }

  lemma InvNext(s: State, f: Fiber)
    requires Inv(s) && Enabled(s, f)
    ensures Inv(Next(s, f))
  {
    hide Next, Locks, Owner, Waiting, Guarded, Attended;
    var o: nat, g: nat :| Locks(s, o, g);
    LocksStep(s, f, o, g);
    OwnerStep(s, f, o, g);
    WaitingStep(s, f, o, g);
    GuardedStep(s, f, o, g);
    AttendedStep(s, f, o, g);
  }

  lemma {:induction false} InvRun(s: State, run: seq<Fiber>)
    requires Inv(s) && Legal(s, run)
    ensures Inv(After(s, run))
    decreases |run|
  {
    hide Next, Inv;
    if run != [] {
      InvNext(s, run[0]);
      InvRun(Next(s, run[0]), run[1..]);
    }
  }

  lemma InvFresh()
    ensures Inv(FRESH)
  {
    assert Locks(FRESH, 0, 0);
  }

  // ----- What every schedule guarantees -----

  /** At most one fiber is between `lock` and `unlock`, and the owner field names it. */
  lemma MutualExclusion(run: seq<Fiber>, f: Fiber, x: Fiber)
    requires Legal(FRESH, run)
    ensures
      var s := After(FRESH, run);
      && (At(s, f).Critical? && At(s, x).Critical? ==> f == x)
      && (At(s, f).Critical? ==> s.owner == f)
      && (s.owner == f ==> HasMutex(At(s, f)))
  {
    InvFresh();
    InvRun(FRESH, run);
    var s := After(FRESH, run);
    var o: nat, g: nat :| Locks(s, o, g);
    assert LocksAt(s, o, g, f) && LocksAt(s, o, g, x) && OwnerAt(s, f);
  }

  /**
   Every waiting fiber, also one that has not yielded yet, is queued, being woken or in the scheduler's
   tasks, and never are queued fibers left with a free mutex that nobody wants.
   */
  lemma NoLostWakeUp(run: seq<Fiber>, f: Fiber)
    requires Legal(FRESH, run) && Waits(At(After(FRESH, run), f))
    ensures
      var s := After(FRESH, run);
      && (f in s.queue || f in s.tasks || exists h: Fiber :: Wakes(At(s, h), f))
      && (s.mutex || s.tasks != {} || exists h: Fiber :: Contends(At(s, h)))
  {
    InvFresh();
    InvRun(FRESH, run);
    var s := After(FRESH, run);
    assert FoundAt(s, f);
    if f !in s.queue && f !in s.tasks {
      var h: Fiber :| Wakes(At(s, h), f);
      assert Contends(At(s, h));
    }
  }

  /** While anyone is inside `lock` or `unlock`, someone other than an outsider can take a step. */
  lemma NeverStuck(run: seq<Fiber>, f: Fiber)
    requires Legal(FRESH, run) && !At(After(FRESH, run), f).Outside?
    ensures exists h: Fiber :: !At(After(FRESH, run), h).Outside? && Enabled(After(FRESH, run), h)
  {
    InvFresh();
    InvRun(FRESH, run);
    var s := After(FRESH, run);
    var o: nat, g: nat :| Locks(s, o, g);
    if s.guard {
      assert LocksAt(s, o, g, g) && Enabled(s, g);
    } else if s.mutex {
      assert LocksAt(s, o, g, o) && Enabled(s, o);
    } else if s.tasks != {} {
      var h :| h in s.tasks;
      assert FoundAt(s, h) && Enabled(s, h);
    } else if At(s, f).Parked? {
      NoLostWakeUp(run, f);
      var h: Fiber :| Contends(At(s, h));
      assert Enabled(s, h);
    } else {
      assert Enabled(s, f);
    }
  }

  // ----- The order of waking -----

  /** The fibers that went to wait, in that order. */
  function Queued(s: State, run: seq<Fiber>): seq<Fiber>
    requires Legal(s, run)
    decreases |run|
  {
    if run == [] then []
    else (if At(s, run[0]).Enqueue? then [run[0]] else []) + Queued(Next(s, run[0]), run[1..])
  }

  /** The fibers that unlocking picked to be woken, in that order. */
  function Picked(s: State, run: seq<Fiber>): seq<Fiber>
    requires Legal(s, run)
    decreases |run|
  {
    if run == [] then []
    else PickedBy(s, run[0]) + Picked(Next(s, run[0]), run[1..])
  }

  function PickedBy(s: State, f: Fiber): seq<Fiber>
    requires Enabled(s, f)
  {
    var pc := At(Next(s, f), f);
    if At(s, f).Clear? && Waker(pc) then [pc.w.fiber] else []
  }

  lemma OrderStep(s: State, f: Fiber)
    requires Enabled(s, f)
    ensures s.queue + (if At(s, f).Enqueue? then [f] else []) == PickedBy(s, f) + Next(s, f).queue
  {
  }

  lemma {:induction false} OrderRun(s: State, run: seq<Fiber>)
    requires Legal(s, run)
    ensures s.queue + Queued(s, run) == Picked(s, run) + After(s, run).queue
    decreases |run|
  {
    hide Next, PickedBy;
    if run != [] {
      var f, t, rest := run[0], Next(s, run[0]), run[1..];
      OrderStep(s, f);
      OrderRun(t, rest);
      Reassociate(s.queue, if At(s, f).Enqueue? then [f] else [], Queued(t, rest));
      Reassociate(PickedBy(s, f), t.queue, Queued(t, rest));
      Reassociate(PickedBy(s, f), Picked(t, rest), After(t, rest).queue);
    }
  }

  lemma Reassociate(a: seq<Fiber>, b: seq<Fiber>, c: seq<Fiber>)
    ensures a + (b + c) == (a + b) + c
  {
  }

  /** Waiters are woken first come, first served: those picked so far are the first that went to wait. */
  lemma WokenInOrder(run: seq<Fiber>)
    requires Legal(FRESH, run)
    ensures Picked(FRESH, run) <= Queued(FRESH, run)
    ensures Queued(FRESH, run) == Picked(FRESH, run) + After(FRESH, run).queue
  {
    OrderRun(FRESH, run);
    assert FRESH.queue + Queued(FRESH, run) == Queued(FRESH, run);
  }
}
