/**
 The bounded channel of star/sync/channel.h with its two condition variables
 (source/sync/co_condvar.cpp), as a step system.  The queue and both wait queues are
 touched only under the channel's mutex, so what a fiber does from acquiring the mutex
 to releasing it is one step; steps of different fibers interleave in any order.
 */
module ChannelModule {
  import opened Options

  type Fiber = nat

  datatype Blocked<T> = Blocked(fiber: Fiber, item: T)

  datatype Channel<T> = Channel(
    capacity: nat,
    queue: seq<T>,
    pushWait: seq<Blocked<T>>,   // parked in m_pushCv, with the item each wants to push
    popWait: seq<Fiber>,         // parked in m_popCv
    pushWoken: seq<Blocked<T>>,  // notified, still to take the mutex again
    popWoken: seq<Fiber>,
    pushed: seq<T>,              // all items accepted so far, in order
    popped: seq<T>)              // all items handed out so far, in order

  /** Calls, and resumptions of the j-th notified producer or consumer. */
  datatype Step<T> =
    | PushCall(fiber: Fiber, item: T)
    | PopCall(fiber: Fiber)
    | PushResume(j: nat)
    | PopResume(j: nat)

  function Open<T>(capacity: nat): Channel<T> {
    Channel(capacity, [], [], [], [], [], [], [])
  }

  predicate Among<T>(ws: seq<Blocked<T>>, f: Fiber) {
    exists i :: 0 <= i < |ws| && ws[i].fiber == f
  }

  /** The fiber is inside a call of `push` or `pop`. */
  predicate Busy<T>(c: Channel<T>, f: Fiber) {
    Among(c.pushWait, f) || Among(c.pushWoken, f) || f in c.popWait || f in c.popWoken
  }

  predicate Enabled<T>(c: Channel<T>, step: Step<T>) {
    match step
    case PushCall(f, x) => !Busy(c, f)
    case PopCall(f) => !Busy(c, f)
    case PushResume(j) => j < |c.pushWoken|
    case PopResume(j) => j < |c.popWoken|
  }

  function NotifyPop<T>(c: Channel<T>): Channel<T> {
    if c.popWait == [] then c
    else c.(popWait := c.popWait[1..], popWoken := c.popWoken + [c.popWait[0]])
  }

  function NotifyPush<T>(c: Channel<T>): Channel<T> {
    if c.pushWait == [] then c
    else c.(pushWait := c.pushWait[1..], pushWoken := c.pushWoken + [c.pushWait[0]])
  }

  /** `push` from the test of the wait loop on: park again, or enqueue and notify. */
  function TryPush<T>(c: Channel<T>, f: Fiber, x: T): Channel<T> {
    if |c.queue| >= c.capacity then c.(pushWait := c.pushWait + [Blocked(f, x)])
    else NotifyPop(c.(queue := c.queue + [x], pushed := c.pushed + [x]))
  }

  function TryPop<T>(c: Channel<T>, f: Fiber): Channel<T> {
    if c.queue == [] then c.(popWait := c.popWait + [f])
    else NotifyPush(c.(queue := c.queue[1..], popped := c.popped + [c.queue[0]]))
  }

  function Without<S>(s: seq<S>, j: nat): seq<S>
    requires j < |s|
  {
    s[..j] + s[j + 1..]
  }

  function Next<T>(c: Channel<T>, step: Step<T>): Channel<T>
    requires Enabled(c, step)
  {
    match step
    case PushCall(f, x) => TryPush(c, f, x)
    case PopCall(f) => TryPop(c, f)
    case PushResume(j) => TryPush(c.(pushWoken := Without(c.pushWoken, j)), c.pushWoken[j].fiber, c.pushWoken[j].item)
    case PopResume(j) => TryPop(c.(popWoken := Without(c.popWoken, j)), c.popWoken[j])
  }

  predicate Legal<T>(c: Channel<T>, steps: seq<Step<T>>)
    decreases |steps|
  {
    steps == [] || (Enabled(c, steps[0]) && Legal(Next(c, steps[0]), steps[1..]))
  }

  function After<T>(c: Channel<T>, steps: seq<Step<T>>): Channel<T>
    requires Legal(c, steps)
    decreases |steps|
  {
    if steps == [] then c else After(Next(c, steps[0]), steps[1..])
  }

  // ----- The invariant -----

  ghost predicate Inv<T>(c: Channel<T>) {
    && |c.queue| <= c.capacity
    && c.pushed == c.popped + c.queue
    && (c.popWait != [] ==> |c.popWoken| >= |c.queue|)
    && (c.pushWait != [] ==> |c.pushWoken| >= c.capacity - |c.queue|)
  }

  lemma InvNext<T>(c: Channel<T>, step: Step<T>)
    requires Inv(c) && Enabled(c, step)
    ensures Inv(Next(c, step)) && Next(c, step).capacity == c.capacity
  {
  }

  lemma {:induction false} InvRun<T>(c: Channel<T>, steps: seq<Step<T>>)
    requires Inv(c) && Legal(c, steps)
    ensures Inv(After(c, steps)) && After(c, steps).capacity == c.capacity
    decreases |steps|
  {
    if steps != [] {
      InvNext(c, steps[0]);
      InvRun(Next(c, steps[0]), steps[1..]);
    }
  }

  // ----- What every interleaving guarantees -----

  /** At most `capacity` items are queued, and items leave in the order in which they came. */
  lemma FirstInFirstOut<T>(capacity: nat, steps: seq<Step<T>>)
    requires Legal(Open(capacity), steps)
    ensures
      var c := After(Open(capacity), steps);
      |c.queue| <= capacity && c.popped <= c.pushed && c.pushed[|c.popped|..] == c.queue
  {
    InvRun(Open(capacity), steps);
  }

  /** While a fiber is parked, at least one notified fiber is on its way for each item (or free slot) it could use. */
  lemma NoStrandedWaiter<T>(capacity: nat, steps: seq<Step<T>>)
    requires Legal(Open(capacity), steps)
    ensures
      var c := After(Open(capacity), steps);
      && (c.popWait != [] ==> |c.popWoken| >= |c.queue|)
      && (c.pushWait != [] ==> |c.pushWoken| >= capacity - |c.queue|)
  {
    InvRun(Open(capacity), steps);
  }

  /**
   At rest (no fiber on its way) a parked consumer means an empty queue and a parked producer
   a full one, so both kinds are parked together only on a channel without any slot.
   */
  lemma QuietMeansBlocked<T>(capacity: nat, steps: seq<Step<T>>)
    requires Legal(Open(capacity), steps)
    requires
      var c := After(Open(capacity), steps);
      c.popWoken == [] && c.pushWoken == []
    ensures
      var c := After(Open(capacity), steps);
      && (c.popWait != [] ==> c.queue == [])
      && (c.pushWait != [] ==> |c.queue| == capacity)
      && (c.popWait != [] && c.pushWait != [] ==> capacity == 0)
  {
    InvRun(Open(capacity), steps);
  }

  /** Twice the parked fibers and three times the woken ones. */
  ghost function Load<T>(c: Channel<T>): nat {
    2 * (|c.pushWait| + |c.popWait|) + 3 * (|c.pushWoken| + |c.popWoken|)
  }

  lemma ResumeLowers<T>(c: Channel<T>, step: Step<T>)
    requires Enabled(c, step) && (step.PushResume? || step.PopResume?)
    ensures Load(Next(c, step)) < Load(c)
  {
  }

  /** Woken fibers do not wake each other for ever: without new calls the channel comes to rest. */
  lemma {:induction false} ResumesRunOut<T>(c: Channel<T>, steps: seq<Step<T>>)
    requires Legal(c, steps)
    requires forall i :: 0 <= i < |steps| ==> steps[i].PushResume? || steps[i].PopResume?
    ensures |steps| <= Load(c)
    decreases |steps|
  {
    if steps != [] {
      ResumeLowers(c, steps[0]);
      ResumesRunOut(Next(c, steps[0]), steps[1..]);
    }
  }

  /** Notifications go to the fibers in the order in which they parked. */
  lemma OldestFirst<T>(c: Channel<T>, step: Step<T>)
    requires Enabled(c, step)
    ensures
      var d := Next(c, step);
      && (d.popWait == c.popWait || (exists f :: d.popWait == c.popWait + [f])
          || (c.popWait != [] && d.popWait == c.popWait[1..] && c.popWait[0] in d.popWoken))
      && (d.pushWait == c.pushWait || (exists w :: d.pushWait == c.pushWait + [w])
          || (c.pushWait != [] && d.pushWait == c.pushWait[1..] && c.pushWait[0] in d.pushWoken))
  {
  }

  // ----- Every caller's own item -----

  /** The item of the last call of `push` by the fiber. */
  function LastPush<T>(steps: seq<Step<T>>, f: Fiber): Option<T> {
    if steps == [] then None
    else
      var last := steps[|steps| - 1];
      if last.PushCall? && last.fiber == f then Some(last.item) else LastPush(steps[..|steps| - 1], f)
  }

  /** The items of all calls of `push`. */
  ghost function Offered<T>(steps: seq<Step<T>>): multiset<T> {
    if steps == [] then multiset{}
    else
      var last := steps[|steps| - 1];
      Offered(steps[..|steps| - 1]) + if last.PushCall? then multiset{last.item} else multiset{}
  }

  function PopCalls<T>(steps: seq<Step<T>>): nat {
    if steps == [] then 0 else PopCalls(steps[..|steps| - 1]) + if steps[|steps| - 1].PopCall? then 1 else 0
  }

  ghost function Items<T>(ws: seq<Blocked<T>>): multiset<T> {
    if ws == [] then multiset{} else Items(ws[..|ws| - 1]) + multiset{ws[|ws| - 1].item}
  }

  /** All items that producers have brought. */
  ghost function Brought<T>(c: Channel<T>): multiset<T> {
    multiset(c.pushed) + Items(c.pushWait) + Items(c.pushWoken)
  }

  /** Every waiting or notified producer still has the item it called `push` with. */
  ghost predicate OwnItems<T>(done: seq<Step<T>>, ws: seq<Blocked<T>>) {
    forall i :: 0 <= i < |ws| ==> LastPush(done, ws[i].fiber) == Some(ws[i].item)
  }

  /** Items offered are accepted, or still with a producer; and every call of `pop` got one, or is still inside. */
  ghost predicate Conserved<T>(done: seq<Step<T>>, c: Channel<T>) {
    && OwnItems(done, c.pushWait) && OwnItems(done, c.pushWoken)
    && Offered(done) == Brought(c)
    && PopCalls(done) == |c.popped| + |c.popWait| + |c.popWoken|
  }

  lemma ItemsSnoc<T>(ws: seq<Blocked<T>>, w: Blocked<T>)
    ensures Items(ws + [w]) == Items(ws) + multiset{w.item}
  {
    assert (ws + [w])[..|ws|] == ws;
  }

  lemma {:induction false} ItemsConcat<T>(a: seq<Blocked<T>>, b: seq<Blocked<T>>)
    ensures Items(a + b) == Items(a) + Items(b)
    decreases |b|
  {
    hide Items;
    if b == [] {
      assert a + b == a;
      NoItems<T>();
    } else {
      var init, w := b[..|b| - 1], b[|b| - 1];
      ItemsConcat(a, init);
      ItemsSnoc(a + init, w);
      ItemsSnoc(init, w);
      assert b == init + [w] && a + b == (a + init) + [w];
    }
  }

  lemma NoItems<T>()
    ensures Items<T>([]) == multiset{}
  {
  }

  /** Taking one producer out takes out its item. */
  lemma ItemsWithout<T>(ws: seq<Blocked<T>>, j: nat)
    requires j < |ws|
    ensures Items(ws) == Items(Without(ws, j)) + multiset{ws[j].item}
  {
    hide Items;
    var a, w, b := ws[..j], ws[j], ws[j + 1..];
    ItemsConcat(a, b);
    ItemsConcat(a + [w], b);
    ItemsSnoc(a, w);
    assert ws == (a + [w]) + b;
  }

  lemma NotifyPushItems<T>(c: Channel<T>)
    ensures Brought(NotifyPush(c)) == Brought(c)
  {
    hide Items;
    if c.pushWait != [] {
      ItemsWithout(c.pushWait, 0);
      assert Without(c.pushWait, 0) == c.pushWait[1..];
      ItemsSnoc(c.pushWoken, c.pushWait[0]);
    }
  }

  /** A producer that tries carries its item into the queue or back to the parked ones. */
  lemma TryPushItems<T>(c: Channel<T>, f: Fiber, x: T)
    ensures
      var d := TryPush(c, f, x);
      Brought(d) == Brought(c) + multiset{x}
  {
    hide Items;
    ItemsSnoc(c.pushWait, Blocked(f, x));
  }

  lemma OneMore<T>(done: seq<Step<T>>, step: Step<T>, f: Fiber)
    ensures
      var now := done + [step];
      && Offered(now) == Offered(done) + (if step.PushCall? then multiset{step.item} else multiset{})
      && PopCalls(now) == PopCalls(done) + (if step.PopCall? then 1 else 0)
      && LastPush(now, f) == if step.PushCall? && step.fiber == f then Some(step.item) else LastPush(done, f)
  {
    assert (done + [step])[..|done|] == done;
  }

  /** Producers that are not the caller keep their items. */
  lemma OwnKept<T>(done: seq<Step<T>>, step: Step<T>, ws: seq<Blocked<T>>)
    requires OwnItems(done, ws) && (step.PushCall? ==> !Among(ws, step.fiber))
    ensures OwnItems(done + [step], ws)
  {
    forall i | 0 <= i < |ws| ensures LastPush(done + [step], ws[i].fiber) == Some(ws[i].item) {
      OneMore(done, step, ws[i].fiber);
    }
  }

  lemma OwnNext<T>(done: seq<Step<T>>, c: Channel<T>, step: Step<T>)
    requires Conserved(done, c) && Enabled(c, step)
    ensures OwnItems(done + [step], Next(c, step).pushWait) && OwnItems(done + [step], Next(c, step).pushWoken)
  {
    hide Offered, Items, PopCalls;
    OwnKept(done, step, c.pushWait);
    OwnKept(done, step, c.pushWoken);
    if step.PushCall? { OneMore(done, step, step.fiber); }
  }

  lemma PushBrings<T>(c: Channel<T>, step: Step<T>)
    requires Enabled(c, step) && (step.PushCall? || step.PushResume?)
    ensures Brought(Next(c, step)) == Brought(c) + if step.PushCall? then multiset{step.item} else multiset{}
  {
    hide Items, TryPush;
    match step
    case PushCall(f, x) => TryPushItems(c, f, x);
    case PushResume(j) =>
      ItemsWithout(c.pushWoken, j);
      TryPushItems(c.(pushWoken := Without(c.pushWoken, j)), c.pushWoken[j].fiber, c.pushWoken[j].item);
  }

  lemma PopBrings<T>(c: Channel<T>, f: Fiber)
    ensures Brought(TryPop(c, f)) == Brought(c)
  {
    hide Items;
    if c.queue != [] { NotifyPushItems(c.(queue := c.queue[1..], popped := c.popped + [c.queue[0]])); }
  }

  lemma CountsNext<T>(c: Channel<T>, step: Step<T>)
    requires Enabled(c, step)
    ensures
      var d := Next(c, step);
      |d.popped| + |d.popWait| + |d.popWoken| == |c.popped| + |c.popWait| + |c.popWoken| + if step.PopCall? then 1 else 0
  {
  }

  lemma ConservedNext<T>(done: seq<Step<T>>, c: Channel<T>, step: Step<T>)
    requires Conserved(done, c) && Enabled(c, step)
    ensures Conserved(done + [step], Next(c, step))
  {
    hide OwnItems, Items, TryPush, TryPop, Offered, PopCalls;
    OneMore(done, step, 0);
    OwnNext(done, c, step);
    CountsNext(c, step);
    match step
    case PushCall(_, _) => PushBrings(c, step);
    case PopCall(f) => PopBrings(c, f);
    case PushResume(_) => PushBrings(c, step);
    case PopResume(j) => PopBrings(c.(popWoken := Without(c.popWoken, j)), c.popWoken[j]);
  }

  lemma {:induction false} ConservedRun<T>(done: seq<Step<T>>, c: Channel<T>, steps: seq<Step<T>>)
    requires Conserved(done, c) && Legal(c, steps)
    ensures Conserved(done + steps, After(c, steps))
    decreases |steps|
  {
    hide Conserved, Next;
    if steps == [] {
      assert done + steps == done;
    } else {
      ConservedNext(done, c, steps[0]);
      ConservedRun(done + [steps[0]], Next(c, steps[0]), steps[1..]);
      assert done + [steps[0]] + steps[1..] == done + steps;
    }
  }

  /**
   In every interleaving each producer inside `push` has the item of its own last call, the items of all
   calls are those accepted and those of producers still inside, so none is lost, doubled or exchanged,
   and as many calls of `pop` were made as items were handed out and consumers are still inside.
   */
  lemma NothingLost<T>(capacity: nat, steps: seq<Step<T>>)
    requires Legal(Open(capacity), steps)
    ensures Conserved(steps, After(Open(capacity), steps))
  {
    ConservedRun([], Open(capacity), steps);
    assert [] + steps == steps;
  }
}
