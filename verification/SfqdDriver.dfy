/** How message.c and proxy2.c drive SFQ(D): requests that find a free slot are
    dispatched at once, the others are locked until a completion frees them. */
module SfqdDriver {
  import opened Basics
  import opened FairQueue
  import opened Sfqd

  /** Requests are named by the id of the item they were given. current holds
      the item of each request being served, locked the requests held back. */
  datatype Sys = Sys(s: Sfq, sorted: bool, current: map<nat, Item>, locked: set<nat>)

  datatype Event = Receive(app: nat, length: nat, weight: nat) | Complete(req: nat)

  predicate Enabled(y: Sys, e: Event) {
    match e
    case Receive(app, _, weight) => app < |y.s.last| && weight > 0
    case Complete(req) => req in y.current
  }

  function Hand(y: Sys, req: nat): map<nat, Item> {
    if Next(y.s).Some? then y.current[req := Next(y.s).value] else y.current
  }

  function Received(maxDepth: nat, y: Sys, app: nat, length: nat, weight: nat): Sys
    requires app < |y.s.last| && weight > 0
  {
    var room := y.s.depth < maxDepth;
    var req, s := y.s.nextId, Enqueued(y.s, app, length, weight, room);
    if room then Sys(Dequeued(s), true, Hand(y.(s := s), req), y.locked)
    else Sys(s, false, y.current, y.locked + {req})
  }

  function Completed(y: Sys, req: nat): Sys {
    var out := y.(current := y.current - {req});
    var next := Next(y.s);
    if next == None then out.(s := Dequeued(y.s), sorted := true)
    else Sys(Dequeued(y.s), true, out.current[next.value.id := next.value], y.locked - {next.value.id})
  }

  function Step(maxDepth: nat, y: Sys, e: Event): Sys
    requires Enabled(y, e)
  {
    match e
    case Receive(app, length, weight) => Received(maxDepth, y, app, length, weight)
    case Complete(req) => Completed(y, req)
  }

  function Idle(apps: nat): Sys { Sys(Start(apps), false, map[], {}) }

  ghost function Ids(w: seq<Item>): set<nat> { set x | x in w :: x.id }

  /** What the proxy relies on without checking it. */
  ghost predicate Admitted(maxDepth: nat, y: Sys) {
    && Okay(y.s)
    && |y.current| == y.s.depth <= maxDepth
    && (y.s.depth < maxDepth ==> y.s.waiting == [])
    && y.locked == Ids(y.s.waiting)
    && (forall n :: n in y.current ==> y.current[n].id == n && n < y.s.nextId && n !in y.locked)
    && (!y.sorted && y.s.waiting == [] ==> y.current == map[])
  }

  lemma ReceiveKeeps(maxDepth: nat, y: Sys, app: nat, length: nat, weight: nat)
    requires Admitted(maxDepth, y) && app < |y.s.last| && weight > 0
    ensures Admitted(maxDepth, Received(maxDepth, y, app, length, weight))
    ensures y.s.depth < maxDepth ==>
      Next(Enqueued(y.s, app, length, weight, true)) == Some(NewItem(y.s, app, length, weight))
  {
    var room := y.s.depth < maxDepth;
    var x, s := NewItem(y.s, app, length, weight), Enqueued(y.s, app, length, weight, room);
    EnqueueKeeps(y.s, app, length, weight, room);
    PlacedInOrder(y.s.waiting, x);
    if room {
      DequeueKeeps(s);
    } else {
      IdsPlaced(y.s.waiting, x);
    }
  }

  lemma {:induction false} IdsPlaced(w: seq<Item>, x: Item)
    ensures Ids(Placed(w, x)) == Ids(w) + {x.id}
  {
    if w != [] && x.start >= w[0].start {
      IdsPlaced(w[1..], x);
      assert w == [w[0]] + w[1..];
      IdsCons(w[0], w[1..]);
      IdsCons(w[0], Placed(w[1..], x));
    } else {
      IdsCons(x, w);
    }
  }

  lemma IdsCons(x: Item, w: seq<Item>)
    ensures Ids([x] + w) == Ids(w) + {x.id}
  {
    assert forall y :: y in [x] + w <==> y == x || y in w;
    assert x in [x] + w;
    forall y | y in w ensures y.id in Ids([x] + w) {
      assert y in [x] + w;
    }
  }

  lemma CompleteKeeps(maxDepth: nat, y: Sys, req: nat)
    requires Admitted(maxDepth, y) && req in y.current
    ensures Admitted(maxDepth, Completed(y, req))
    ensures Next(y.s).Some? ==> Next(y.s).value.id in y.locked
    ensures y.sorted || y.s.waiting != []
  {
    hide Backlog, InOrder;
    DequeueKeeps(y.s);
    assert |y.current - {req}| == |y.current| - 1;
    if y.s.waiting != [] {
      hide Ids;
      assert y.s.waiting[0] in y.s.waiting;
    }
  }

  ghost predicate AllEnabled(maxDepth: nat, y: Sys, es: seq<Event>)
    decreases |es|
  {
    es == [] || (Enabled(y, es[0]) && AllEnabled(maxDepth, Step(maxDepth, y, es[0]), es[1..]))
  }

  function RunAll(maxDepth: nat, y: Sys, es: seq<Event>): Sys
    requires AllEnabled(maxDepth, y, es)
    decreases |es|
  {
    if es == [] then y else RunAll(maxDepth, Step(maxDepth, y, es[0]), es[1..])
  }

  /** The assertion on a completion: the request that the dispatched item belongs to is locked. */
  predicate LockedAsAsserted(y: Sys, e: Event) {
    e.Complete? && Next(y.s).Some? ==> Next(y.s).value.id in y.locked
  }

  /** The sort is not called on an empty list. */
  predicate SortsSomething(y: Sys, e: Event) {
    e.Complete? ==> y.sorted || y.s.waiting != []
  }

  lemma StepKeeps(maxDepth: nat, y: Sys, e: Event)
    requires Admitted(maxDepth, y) && Enabled(y, e)
    ensures Admitted(maxDepth, Step(maxDepth, y, e)) && LockedAsAsserted(y, e) && SortsSomething(y, e)
  {
    hide Admitted, Received, Completed;
    match e {
      case Receive(app, length, weight) => ReceiveKeeps(maxDepth, y, app, length, weight);
      case Complete(req) => CompleteKeeps(maxDepth, y, req);
    }
  }

  /** The invariant from any state that has it, over any run, and what it gives at every step. */
  lemma {:induction false} AdmissionFrom(maxDepth: nat, y: Sys, es: seq<Event>, i: nat)
    requires Admitted(maxDepth, y) && AllEnabled(maxDepth, y, es) && i < |es|
    ensures AllEnabled(maxDepth, y, es[..i])
    ensures var z := RunAll(maxDepth, y, es[..i]);
      && Enabled(z, es[i]) && Admitted(maxDepth, z) && LockedAsAsserted(z, es[i]) && SortsSomething(z, es[i])
      && Admitted(maxDepth, Step(maxDepth, z, es[i]))
    decreases i
  {
    hide Admitted, Step, Enabled, LockedAsAsserted, SortsSomething;
    StepKeeps(maxDepth, y, es[0]);
    if i > 0 {
      AdmissionFrom(maxDepth, Step(maxDepth, y, es[0]), es[1..], i - 1);
      assert es[..i][1..] == es[1..][..i - 1];
    }
  }

  lemma IdleAdmitted(maxDepth: nat, apps: nat)
    ensures Admitted(maxDepth, Idle(apps))
  {
    StartOkay(apps);
  }

  /** Every state of every run of the proxy is as the driver relies on, at each
      step the locked assertions hold, and the sort never meets an empty list. */
  lemma AdmissionHolds(maxDepth: nat, apps: nat, es: seq<Event>, i: nat)
    requires AllEnabled(maxDepth, Idle(apps), es) && i < |es|
    ensures AllEnabled(maxDepth, Idle(apps), es[..i])
    ensures var z := RunAll(maxDepth, Idle(apps), es[..i]);
      && Enabled(z, es[i]) && Admitted(maxDepth, z) && LockedAsAsserted(z, es[i]) && SortsSomething(z, es[i])
      && Admitted(maxDepth, Step(maxDepth, z, es[i]))
  {
    IdleAdmitted(maxDepth, apps);
    AdmissionFrom(maxDepth, Idle(apps), es, i);
  }

  /** A request told to go is the very one dispatched. */
  lemma DispatchedIsItself(maxDepth: nat, y: Sys, app: nat, length: nat, weight: nat)
    requires Admitted(maxDepth, y) && app < |y.s.last| && weight > 0 && y.s.depth < maxDepth
    ensures var z := Received(maxDepth, y, app, length, weight);
      z.current == y.current[y.s.nextId := NewItem(y.s, app, length, weight)] && z.s.waiting == [] && z.locked == y.locked
  {
    ReceiveKeeps(maxDepth, y, app, length, weight);
  }

  // ---------- the proxy ----------

  class Proxy {
    const sched: Scheduler
    var current: map<nat, Item>
    var locked: set<nat>

    ghost function State(): Sys
      reads this, sched, sched.lastFinishTags
    {
      Sys(sched.State(), sched.sorted, current, locked)
    }

    ghost predicate Valid()
      reads this, sched, sched.lastFinishTags, sched.list, sched.heap, sched.Parts()
    {
      && !sched.useHeap && sched.list != null && sched.Valid() && Admitted(sched.maxDepth, State())
      && this !in sched.Parts()
    }

    constructor (maxDepth: nat, apps: nat)
      ensures Valid() && State() == Idle(apps) && sched.maxDepth == maxDepth
    {
      hide Admitted, Scheduler.Valid;
      IdleAdmitted(maxDepth, apps);
      sched := new Scheduler(false, maxDepth, apps);
      current, locked := map[], {};
    }

    /** A request arrives (message.c): false when it cannot even be queued. */
    method ReceiveRequest(app: nat, length: nat, weight: nat) returns (queued: bool)
      requires Valid() && app < sched.lastFinishTags.Length && weight > 0
      modifies this, sched, sched.lastFinishTags, sched.Parts()
      ensures queued && Valid() && State() == Received(sched.maxDepth, old(State()), app, length, weight)
    {
      hide Admitted, Scheduler.Parts, Scheduler.Valid, Enqueued;
      ReceiveKeeps(sched.maxDepth, State(), app, length, weight);
      var req := sched.itemId;
      var r := sched.Enqueue(app, length, weight);
      if r == None {
        return false;
      }
      if r.value {
        var item := sched.Dequeue();
        if item.Some? {
          current := current[req := item.value];
        }
      } else {
        locked := locked + {req};
      }
      queued := true;
    }

    /** A request is served (message.c for writes, proxy2.c for reads). */
    method CompleteRequest(req: nat)
      requires Valid() && req in current
      modifies this, sched, sched.lastFinishTags, sched.Parts()
      ensures Valid() && State() == Completed(old(State()), req)
    {
      hide Admitted, Scheduler.Parts, Scheduler.Valid;
      CompleteKeeps(sched.maxDepth, State(), req);
      current := current - {req};
      var next := sched.Dequeue();
      if next.Some? {
        assert next.value.id in locked;
        locked := locked - {next.value.id};
        current := current[next.value.id := next.value];
      }
    }
  }
}
