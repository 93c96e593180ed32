/** In which of its modes scheduler_SFQD_Full.c keeps its books right (the small
    requests counted, the slots in use those of the requests out), and in which it
    leaves no request waiting that fits. */
module SfqdBooks {
  import opened Basics
  import opened LinkedList
  import opened SfqdFull
  import MergeSort

  /** A request that is alone goes at once if it fits, else it waits. */
  lemma ReceiveAlone(c: Conf, y: Sys, op: Op)
    requires op.Receive? && Enabled(y, op) && y.s.queue == [] && Okay(multiset(y.s.queue), y.s.nextId)
    ensures var x := NewItem(c, y.s, op.app, op.socket, op.length, op.weight);
            var s := Enqueued(c, y.s, op.app, op.socket, op.length, op.weight);
      && s.queue == [x]
      && Step(c, y, op) == if Fits(c, s.small, s.current)(x)
                           then Sys(s.(queue := [], vt := x.start, current := s.current + Tentative(c, s.small, x)),
                                    y.out + [x])
                           else Sys(s, y.out)
  {
    var x := NewItem(c, y.s, op.app, op.socket, op.length, op.weight);
    var s := Enqueued(c, y.s, op.app, op.socket, op.length, op.weight);
    EnqueuedItems(c, y.s, op.app, op.socket, op.length, op.weight);
    assert s.queue[0] in multiset(s.queue);
    assert s.queue == [x];
  }

  lemma RunTwo(c: Conf, y: Sys, a: Op, b: Op)
    requires Enabled(y, a) && Enabled(Step(c, y, a), b)
    ensures AllEnabled(c, y, [a, b]) && Run(c, y, [a, b]) == Step(c, Step(c, y, a), b)
  {
    hide Enabled, Step;
    var y1 := Step(c, y, a);
    var y2 := Step(c, y1, b);
    assert [a, b][1..] == [b] && [b][1..] == [];
    assert AllEnabled(c, y2, []) && AllEnabled(c, y1, [b]);
    assert Run(c, y1, [b]) == Run(c, y2, []) == y2;
  }

  /** With a factor of one the completion of a large request is taken for a small one's. */
  lemma SmallCountDrifts(c: Conf, apps: nat)
    requires c.factor == 1 && c.depth > 0 && apps > 0
    ensures var ops := [Receive(0, 0, c.threshold + 1, 1), Finish(0)];
      && AllEnabled(c, Idle(apps), ops)
      && var y := Run(c, Idle(apps), ops); y.s.small == -1 && y.s.queue == y.out == []
  {
    var op := Receive(0, 0, c.threshold + 1, 1);
    ReceiveAlone(c, Idle(apps), op);
    RunTwo(c, Idle(apps), op, Finish(0));
  }

  lemma NothingRuns(c: Conf, ops: seq<Op>)
    requires AllEnabled(c, Idle(0), ops)
    ensures ops == []
  {
  }

  /** The count of small requests is right over all runs exactly if a large one
      does not weigh one slot, or nothing can ever be dispatched. */
  lemma SmallCountExact(c: Conf, apps: nat)
    ensures (forall ops :: AllEnabled(c, Idle(apps), ops) ==> SmallRight(c, Run(c, Idle(apps), ops)))
            <==> c.factor != 1 || c.depth == 0 || apps == 0
  {
    if c.factor != 1 || c.depth == 0 || apps == 0 {
      forall ops | AllEnabled(c, Idle(apps), ops) ensures SmallRight(c, Run(c, Idle(apps), ops)) {
        if apps == 0 {
          NothingRuns(c, ops);
        }
        RunAccounts(c, Idle(apps), ops);
      }
    } else {
      SmallCountDrifts(c, apps);
      var ops := [Receive(0, 0, c.threshold + 1, 1), Finish(0)];
      assert AllEnabled(c, Idle(apps), ops) && !SmallRight(c, Run(c, Idle(apps), ops));
    }
  }

  /** A small request is out, or waits for want of any slot; then comes a large one. */
  function OneSmall(c: Conf, apps: nat): Sys
    requires apps > 0
  {
    Step(c, Idle(apps), Receive(0, 0, 0, 1))
  }

  lemma OneSmallIs(c: Conf, apps: nat)
    requires apps > 0
    ensures var y, x := OneSmall(c, apps), NewItem(c, Idle(apps).s, 0, 0, 0, 1);
      && y.s.small == 1 && |y.s.last| == apps && y.s.nextId == 1 && x.depth == 1 && x.id == 0 && x.length == 0
      && (c.depth > 0 ==> y.s.queue == [] && y.out == [x] && y.s.current == 1)
      && (c.depth == 0 ==> y.s.queue == [x] && y.out == [] && y.s.current == 0)
  {
    ReceiveAlone(c, Idle(apps), Receive(0, 0, 0, 1));
  }

  /** With no slot at all the small one waits and a large one of no weight goes. */
  lemma LargePasses(c: Conf, s: Full, app: nat, socket: int, length: nat, weight: nat)
    requires !c.hard && c.blocking && c.factor == 0 == c.depth && length > c.threshold
    requires Okay(multiset(s.queue), s.nextId) && |s.queue| == 1 && s.queue[0].depth == 1
    requires s.small > 0 && s.current == 0 && app < |s.last| && weight > 0
    ensures var s', x := Enqueued(c, s, app, socket, length, weight), NewItem(c, s, app, socket, length, weight);
      Goes(c, s', x) && Chosen(c, s', NewWork) == Some(x)
  {
    var s', x := Enqueued(c, s, app, socket, length, weight), NewItem(c, s, app, socket, length, weight);
    EnqueuedItems(c, s, app, socket, length, weight);
    LookaheadExact(c, s, app, socket, length, weight);
  }

  /** What becomes of the large one: dispatched, it takes its weight. */
  lemma LargeBeside(c: Conf, apps: nat)
    requires !c.hard && c.blocking && apps > 0 && c.factor != 1 && (c.factor == 0 || c.factor < c.depth)
    ensures var y := OneSmall(c, apps);
            var y' := Step(c, y, Receive(0, 0, c.threshold + 1, 1));
      Enabled(y, Receive(0, 0, c.threshold + 1, 1))
      && y'.s.current == y.s.current + c.factor && |y'.out| == |y.out| + 1
  {
    OneSmallIs(c, apps);
    hide OneSmall, Goes, Chosen, MergeSort.Sort;
    if c.depth > 0 {
      ReceiveAlone(c, OneSmall(c, apps), Receive(0, 0, c.threshold + 1, 1));
    } else {
      LargePasses(c, OneSmall(c, apps).s, 0, 0, c.threshold + 1, 1);
    }
  }

  /** In the soft mode a large request dispatched while small ones are about
      takes its weight and gives back one slot. */
  lemma SlotsDrift(c: Conf, apps: nat)
    requires !c.hard && c.blocking && apps > 0 && c.factor != 1 && (c.factor == 0 || c.factor < c.depth)
    ensures var ops := [Receive(0, 0, 0, 1), Receive(0, 0, c.threshold + 1, 1)];
      AllEnabled(c, Idle(apps), ops) && !SlotsRight(c, Run(c, Idle(apps), ops))
  {
    LargeBeside(c, apps);
    OneSmallIs(c, apps);
    hide Step;
    RunTwo(c, Idle(apps), Receive(0, 0, 0, 1), Receive(0, 0, c.threshold + 1, 1));
    SoftWeight(c, Step(c, OneSmall(c, apps), Receive(0, 0, c.threshold + 1, 1)).out);
  }

  lemma {:induction false} SoftWeight(c: Conf, xs: seq<Item>)
    requires !c.hard
    ensures Total(Weight(c), xs) == |xs|
  {
    if xs != [] {
      SoftWeight(c, xs[1..]);
    }
  }

  /** The soft mode while no large request is dispatched beside a small one: the
      slots are those out, a small request waits only if all are taken, and with
      nothing out nothing waits. */
  ghost predicate Balanced(c: Conf, y: Sys) {
    && Accounted(c, y) && y.s.current == |y.out|
    && (c.factor != 1 ==>
          && (forall z :: z in y.s.queue && z.length <= c.threshold ==> y.s.current >= c.depth)
          && (c.depth > 0 && y.out == [] ==> y.s.queue == []))
  }

  lemma {:induction false} SomeSmall(c: Conf, xs: seq<Item>)
    ensures Total(Small(c), xs) > 0 <==> exists z :: z in xs && z.length <= c.threshold
  {
    if xs != [] {
      SomeSmall(c, xs[1..]);
      assert xs == [xs[0]] + xs[1..];
      assert Small(c)(xs[0]) > 0 <==> xs[0].length <= c.threshold;
    }
  }

  /** Large requests beside small ones are never dispatched, or weigh the same. */
  predicate NeverBeside(c: Conf) {
    !c.hard && c.blocking && c.factor > 0 && (c.factor == 1 || c.factor >= c.depth)
  }

  /** A dequeue with nothing but the requests of out on the books. */
  ghost predicate Settled(c: Conf, s: Full, e: Event, out: seq<Item>) {
    && Okay(multiset(s.queue), s.nextId) && Sized(c, s.queue)
    && s.current - Reduce(c, e) == |out|
    && (c.factor != 1 ==> SmallAfter(s, e) == Total(Small(c), s.queue) + Total(Small(c), out))
    && (c.factor == c.depth > 1 && out == [] ==>
          SmallAfter(s, e) == 0 || forall z :: z in s.queue ==> z.length <= c.threshold)
  }

  lemma ChosenTakesOne(c: Conf, s: Full, e: Event, out: seq<Item>)
    requires NeverBeside(c) && Settled(c, s, e, out) && Chosen(c, s, e).Some?
    ensures var x := Chosen(c, s, e).value;
      x in s.queue && FitsAfter(c, s, e)(x) && Tentative(c, SmallAfter(s, e), x) == 1
  {
    FirstMatchIs(FitsAfter(c, s, e), s.queue);
    var x := Chosen(c, s, e).value;
  }

  lemma NoneChosen(c: Conf, s: Full, e: Event, out: seq<Item>)
    requires NeverBeside(c) && Settled(c, s, e, out) && Chosen(c, s, e).None? && c.factor != 1
    ensures forall z :: z in s.queue && z.length <= c.threshold ==> |out| >= c.depth
    ensures c.depth > 0 && out == [] ==> s.queue == []
  {
    FirstMatchIs(FitsAfter(c, s, e), s.queue);
    assert forall z :: z in s.queue ==> !FitsAfter(c, s, e)(z);
    assert forall i :: 0 <= i < |s.queue| ==> s.queue[i] in s.queue;
    SomeSmall(c, s.queue);
    if c.depth > 0 && out == [] {
      assert SmallAfter(s, e) == 0;
      assert forall z :: FitsAfter(c, s, e)(z);
    }
  }

  lemma DequeueBalances(c: Conf, s: Full, e: Event, out: seq<Item>)
    requires NeverBeside(c) && Settled(c, s, e, out)
    requires Accounted(c, Sys(Dequeued(c, s, e), out + AsSeq(Chosen(c, s, e))))
    requires c.factor != 1 && Chosen(c, s, e).Some? ==>
               forall z :: z in s.queue && z != Chosen(c, s, e).value && z.length <= c.threshold ==> |out| + 1 >= c.depth
    ensures Balanced(c, Sys(Dequeued(c, s, e), out + AsSeq(Chosen(c, s, e))))
  {
    hide Accounted, Okay, FirstMatch, WithoutFirst, Total;
    if Chosen(c, s, e).Some? {
      ChosenTakesOne(c, s, e, out);
      var i := RemovedById(s, FitsAfter(c, s, e));
      Leaves(c, s, i);
    } else if c.factor != 1 {
      NoneChosen(c, s, e, out);
    }
  }

  lemma EnqueuedMembers(c: Conf, s: Full, app: nat, socket: int, length: nat, weight: nat)
    requires Okay(multiset(s.queue), s.nextId) && app < |s.last| && weight > 0
    ensures var s', x := Enqueued(c, s, app, socket, length, weight), NewItem(c, s, app, socket, length, weight);
      (forall z :: z in s'.queue <==> z in s.queue || z == x) && x !in s.queue
  {
    var s', x := Enqueued(c, s, app, socket, length, weight), NewItem(c, s, app, socket, length, weight);
    EnqueuedItems(c, s, app, socket, length, weight);
    assert forall z :: z in s'.queue <==> z in multiset(s'.queue);
    assert forall z :: z in s.queue <==> z in multiset(s.queue);
  }

  /** The small requests after an enqueue. */
  lemma EnqueuedSmall(c: Conf, y: Sys, op: Op)
    requires Balanced(c, y) && c.factor != 1 && op.Receive? && Enabled(y, op)
    ensures var s := Enqueued(c, y.s, op.app, op.socket, op.length, op.weight);
            var x := NewItem(c, y.s, op.app, op.socket, op.length, op.weight);
      && s.small == Total(Small(c), s.queue) + Total(Small(c), y.out)
      && (y.out == [] && c.depth > 0 ==> s.small == Small(c)(x))
      && (x.length <= c.threshold ==> s.small > 0)
  {
    EnqueueAccounts(c, y.s, op.app, op.socket, op.length, op.weight);
    if y.out == [] && c.depth > 0 {
    }
  }

  /** What an enqueue finds, and leaves to a dequeue. */
  lemma EnqueueSettles(c: Conf, y: Sys, op: Op)
    requires NeverBeside(c) && Balanced(c, y) && op.Receive? && Enabled(y, op)
    ensures var s := Enqueued(c, y.s, op.app, op.socket, op.length, op.weight);
            var x := NewItem(c, y.s, op.app, op.socket, op.length, op.weight);
      && Settled(c, s, NewWork, y.out) && (forall z :: z in s.queue <==> z in y.s.queue || z == x) && x !in y.s.queue
      && (c.factor != 1 && x.length <= c.threshold ==> s.small > 0)
  {
    EnqueuedMembers(c, y.s, op.app, op.socket, op.length, op.weight);
    EnqueueAccounts(c, y.s, op.app, op.socket, op.length, op.weight);
    if c.factor != 1 {
      EnqueuedSmall(c, y, op);
    }
    hide MergeSort.Sort, Okay, Total, NewItem, Sized;
  }

  /** A request told to wait. */
  lemma WaitBalances(c: Conf, y: Sys, op: Op)
    requires NeverBeside(c) && Balanced(c, y) && op.Receive? && Enabled(y, op)
    requires var s := Enqueued(c, y.s, op.app, op.socket, op.length, op.weight);
      Accounted(c, Sys(s, y.out)) && !Goes(c, s, NewItem(c, y.s, op.app, op.socket, op.length, op.weight))
    ensures Balanced(c, Sys(Enqueued(c, y.s, op.app, op.socket, op.length, op.weight), y.out))
  {
    var s := Enqueued(c, y.s, op.app, op.socket, op.length, op.weight);
    var x := NewItem(c, y.s, op.app, op.socket, op.length, op.weight);
    EnqueueSettles(c, y, op);
    GoesIsChosen(c, s, x);
    hide Total, FirstMatch, Enqueued, NewItem, Goes;
    if c.factor != 1 {
      if Chosen(c, s, NewWork).None? {
        NoneChosen(c, s, NewWork, y.out);
      } else {
        ChosenTakesOne(c, s, NewWork, y.out);
        assert Chosen(c, s, NewWork).value in y.s.queue;
      }
    }
  }

  lemma ReceiveBalances(c: Conf, y: Sys, op: Op)
    requires NeverBeside(c) && Balanced(c, y) && op.Receive? && Enabled(y, op)
    ensures Balanced(c, Step(c, y, op))
  {
    var s := Enqueued(c, y.s, op.app, op.socket, op.length, op.weight);
    var x := NewItem(c, y.s, op.app, op.socket, op.length, op.weight);
    StepAccounts(c, y, op);
    if Goes(c, s, x) {
      EnqueueSettles(c, y, op);
      GoesIsChosen(c, s, x);
      hide Accounted, Settled, Total, FirstMatch, Enqueued, NewItem, Goes, Dequeued;
      DequeueBalances(c, s, NewWork, y.out);
    } else {
      WaitBalances(c, y, op);
    }
  }

  lemma FinishBalances(c: Conf, y: Sys, k: nat)
    requires NeverBeside(c) && Balanced(c, y) && Enabled(y, Finish(k))
    ensures Balanced(c, Step(c, y, Finish(k)))
  {
    var e, out := Complete(Some(y.out[k])), y.out[..k] + y.out[k + 1..];
    StepAccounts(c, y, Finish(k));
    FinishAccounts(c, y, k);
    SomeSmall(c, y.s.queue);
    assert Settled(c, y.s, e, out);
    DequeueBalances(c, y.s, e, out);
  }

  lemma {:induction false} RunBalances(c: Conf, y: Sys, ops: seq<Op>)
    requires NeverBeside(c) && Balanced(c, y) && AllEnabled(c, y, ops)
    ensures Balanced(c, Run(c, y, ops))
    decreases |ops|
  {
    hide Balanced, NeverBeside, Step;
    if ops != [] {
      match ops[0] {
        case Receive(_, _, _, _) => ReceiveBalances(c, y, ops[0]);
        case Finish(k) => FinishBalances(c, y, k);
      }
      RunBalances(c, Step(c, y, ops[0]), ops[1..]);
    }
  }

  /** The slots in use are those of the requests out over all runs, exactly if
      weights are taken always or never, or a large request weighs one slot, or
      at least all of them. */
  lemma SlotsExact(c: Conf, apps: nat)
    ensures (forall ops :: AllEnabled(c, Idle(apps), ops) ==> SlotsRight(c, Run(c, Idle(apps), ops)))
            <==> apps == 0 || c.hard || !c.blocking || c.factor == 1 || (c.factor > 0 && c.factor >= c.depth)
  {
    if apps == 0 || c.hard || !c.blocking || NeverBeside(c) {
      forall ops | AllEnabled(c, Idle(apps), ops) ensures SlotsRight(c, Run(c, Idle(apps), ops)) {
        SlotsAlwaysRight(c, apps, ops);
      }
    } else {
      SlotsDrift(c, apps);
      var ops := [Receive(0, 0, 0, 1), Receive(0, 0, c.threshold + 1, 1)];
      assert AllEnabled(c, Idle(apps), ops) && !SlotsRight(c, Run(c, Idle(apps), ops));
    }
  }

  lemma SlotsAlwaysRight(c: Conf, apps: nat, ops: seq<Op>)
    requires (apps == 0 || c.hard || !c.blocking || NeverBeside(c)) && AllEnabled(c, Idle(apps), ops)
    ensures SlotsRight(c, Run(c, Idle(apps), ops))
  {
    if apps == 0 {
      NothingRuns(c, ops);
    } else if c.hard || !c.blocking {
      RunAccounts(c, Idle(apps), ops);
    } else {
      RunBalances(c, Idle(apps), ops);
      SoftWeight(c, Run(c, Idle(apps), ops).out);
    }
  }

  // ---------- requests that wait although they fit ----------

  ghost predicate NoneFits(c: Conf, y: Sys) {
    forall z :: z in y.s.queue ==> !Fits(c, y.s.small, y.s.current)(z)
  }

  /** A request counts for what it gives back, and none that would give back more
      than those queued is ever out. */
  predicate Steady(c: Conf) {
    || c.factor == 1
    || if c.hard then c.factor == 0 || c.factor > c.depth else !c.blocking
  }

  lemma SteadyWeight(c: Conf, small: int, x: Item)
    requires Steady(c) && x.depth == if x.length <= c.threshold then 1 else c.factor
    ensures Tentative(c, small, x) == Weight(c)(x)
  {
  }

  /** What a dequeue leaves, if it does not free more than it takes. */
  lemma DequeueLeavesNone(c: Conf, s: Full, e: Event, was: Sys)
    requires Steady(c) && Okay(multiset(s.queue), s.nextId) && Sized(c, s.queue) && NoneFits(c, was)
    requires Chosen(c, s, e).Some? ==>
      && s.current - Reduce(c, e) + Weight(c)(Chosen(c, s, e).value) >= was.s.current
      && forall z :: z in s.queue && z != Chosen(c, s, e).value ==> z in was.s.queue
    ensures NoneFits(c, Sys(Dequeued(c, s, e), []))
  {
    FirstMatchIs(FitsAfter(c, s, e), s.queue);
    assert Chosen(c, s, e).None? ==> forall z :: z in s.queue ==> !FitsAfter(c, s, e)(z);
    hide FirstMatch, WithoutFirst, Okay, Tentative;
    if Chosen(c, s, e).Some? {
      var i := RemovedById(s, FitsAfter(c, s, e));
      Leaves(c, s, i);
      SteadyWeight(c, SmallAfter(s, e), s.queue[i]);
      forall z | z in s.queue && z != s.queue[i]
        ensures !Fits(c, SmallAfter(s, e), Dequeued(c, s, e).current)(z)
      {
        SteadyWeight(c, SmallAfter(s, e), z);
        SteadyWeight(c, was.s.small, z);
      }
    }
  }

  /** A new request that is not the first that fits leaves none that does. */
  lemma WaitLeavesNone(c: Conf, y: Sys, s: Full, x: Item)
    requires Steady(c) && Sized(c, y.s.queue) && NoneFits(c, y) && s.current == y.s.current
    requires forall z :: z in s.queue ==> z in y.s.queue || z == x
    requires Chosen(c, s, NewWork) != Some(x)
    ensures NoneFits(c, Sys(s, y.out))
  {
    forall z | z in y.s.queue ensures !Fits(c, s.small, s.current)(z) {
      SteadyWeight(c, s.small, z);
      SteadyWeight(c, y.s.small, z);
    }
    FirstMatchIs(Fits(c, s.small, s.current), s.queue);
    hide FirstMatch, Tentative;
    assert forall i :: 0 <= i < |s.queue| ==> s.queue[i] in s.queue;
    assert forall z :: z in s.queue && Fits(c, s.small, s.current)(z) ==> z == x;
  }

  lemma ReceiveLeavesNone(c: Conf, y: Sys, op: Op)
    requires Steady(c) && Accounted(c, y) && NoneFits(c, y) && op.Receive? && Enabled(y, op)
    ensures NoneFits(c, Step(c, y, op))
  {
    var s := Enqueued(c, y.s, op.app, op.socket, op.length, op.weight);
    var x := NewItem(c, y.s, op.app, op.socket, op.length, op.weight);
    EnqueuedMembers(c, y.s, op.app, op.socket, op.length, op.weight);
    EnqueueAccounts(c, y.s, op.app, op.socket, op.length, op.weight);
    GoesIsChosen(c, s, x);
    hide MergeSort.Sort, NewItem, Goes, Okay, Total, Tentative, FirstMatch, WithoutFirst;
    if Goes(c, s, x) {
      DequeueLeavesNone(c, s, NewWork, y);
    } else {
      WaitLeavesNone(c, y, s, x);
    }
  }

  lemma FinishLeavesNone(c: Conf, y: Sys, k: nat)
    requires Steady(c) && Accounted(c, y) && NoneFits(c, y) && Enabled(y, Finish(k))
    ensures NoneFits(c, Step(c, y, Finish(k)))
  {
    var w, e := y.out[k], Complete(Some(y.out[k]));
    FinishAccounts(c, y, k);
    assert w in y.out;
    if Chosen(c, y.s, e).Some? {
      FirstMatchIs(FitsAfter(c, y.s, e), y.s.queue);
      var v := Chosen(c, y.s, e).value;
      SteadyWeight(c, y.s.small, v);
      assert Weight(c)(v) >= Weight(c)(w);
    }
    DequeueLeavesNone(c, y.s, e, y);
  }

  lemma {:induction false} RunLeavesNone(c: Conf, y: Sys, ops: seq<Op>)
    requires Steady(c) && Accounted(c, y) && NoneFits(c, y) && AllEnabled(c, y, ops)
    ensures NoneFits(c, Run(c, y, ops))
    decreases |ops|
  {
    hide Accounted, NoneFits, Steady, Step;
    if ops != [] {
      StepAccounts(c, y, ops[0]);
      match ops[0] {
        case Receive(_, _, _, _) => ReceiveLeavesNone(c, y, ops[0]);
        case Finish(k) => FinishLeavesNone(c, y, k);
      }
      RunLeavesNone(c, Step(c, y, ops[0]), ops[1..]);
    }
  }

  // ---------- runs that leave one waiting ----------

  function LargeOne(c: Conf): Op { Receive(0, 0, c.threshold + 1, 1) }

  const SMALL_ONE: Op := Receive(0, 0, 0, 1)

  function Times(n: nat, op: Op): (ops: seq<Op>)
    ensures |ops| == n
  {
    if n == 0 then [] else [op] + Times(n - 1, op)
  }

  lemma {:induction false} RunConcat(c: Conf, y: Sys, a: seq<Op>, b: seq<Op>)
    requires AllEnabled(c, y, a) && AllEnabled(c, Run(c, y, a), b)
    ensures AllEnabled(c, y, a + b) && Run(c, y, a + b) == Run(c, Run(c, y, a), b)
    decreases |a|
  {
    hide Enabled, Step;
    if a == [] {
      assert a + b == b;
    } else {
      RunConcat(c, Step(c, y, a[0]), a[1..], b);
      assert (a + b)[0] == a[0] && (a + b)[1..] == a[1..] + b;
    }
  }

  lemma RunSnoc(c: Conf, y: Sys, a: seq<Op>, op: Op)
    requires AllEnabled(c, y, a) && Enabled(Run(c, y, a), op)
    ensures AllEnabled(c, y, a + [op]) && Run(c, y, a + [op]) == Step(c, Run(c, y, a), op)
  {
    hide Enabled, Step;
    var r := Run(c, y, a);
    assert [op][1..] == [] && AllEnabled(c, Step(c, r, op), []);
    assert AllEnabled(c, r, [op]) && Run(c, r, [op]) == Step(c, r, op);
    RunConcat(c, y, a, [op]);
  }

  /** A state of the server with empty queue. */
  ghost predicate Serving(c: Conf, y: Sys, current: int, out: nat) {
    Accounted(c, y) && y.s.queue == [] && |y.s.last| > 0 && y.s.current == current && |y.out| == out
  }

  lemma IdleServing(c: Conf, apps: nat)
    requires apps > 0
    ensures Serving(c, Idle(apps), 0, 0) && Idle(apps).s.small == 0
  {
  }

  /** A small request in the hard mode, or a large one in the soft mode with no
      small one about, takes one slot if there is one. */
  lemma TakesOne(c: Conf, y: Sys, length: nat)
    requires Serving(c, y, y.s.current, |y.out|) && y.s.current < c.depth
    requires if length <= c.threshold then c.hard else !c.hard && y.s.small <= 0
    ensures Enabled(y, Receive(0, 0, length, 1))
    ensures var r := Step(c, y, Receive(0, 0, length, 1));
      && Serving(c, r, y.s.current + 1, |y.out| + 1) && y.out <= r.out
      && (length > c.threshold ==> r.s.small == y.s.small)
  {
    StepAccounts(c, y, Receive(0, 0, length, 1));
    ReceiveAlone(c, y, Receive(0, 0, length, 1));
  }

  lemma {:induction false} FillUp(c: Conf, y: Sys, length: nat, n: nat)
    requires Serving(c, y, y.s.current, |y.out|) && y.s.current + n <= c.depth
    requires if length <= c.threshold then c.hard else !c.hard && y.s.small <= 0
    ensures var ops := Times(n, Receive(0, 0, length, 1));
      && AllEnabled(c, y, ops)
      && var r := Run(c, y, ops);
         && Serving(c, r, y.s.current + n, |y.out| + n) && y.out <= r.out
         && (length > c.threshold ==> r.s.small == y.s.small)
    decreases n
  {
    hide Step, Enabled, Accounted;
    if n > 0 {
      var op := Receive(0, 0, length, 1);
      TakesOne(c, y, length);
      FillUp(c, Step(c, y, op), length, n - 1);
      assert Times(n, op)[1..] == Times(n - 1, op);
    }
  }

  /** A request that does not fit waits. */
  lemma WaitsToo(c: Conf, y: Sys, op: Op)
    requires Accounted(c, y) && op.Receive? && Enabled(y, op)
    requires var s := Enqueued(c, y.s, op.app, op.socket, op.length, op.weight);
      !Fits(c, s.small, s.current)(NewItem(c, y.s, op.app, op.socket, op.length, op.weight))
    ensures var y', x := Step(c, y, op), NewItem(c, y.s, op.app, op.socket, op.length, op.weight);
      && Accounted(c, y') && y' == Sys(Enqueued(c, y.s, op.app, op.socket, op.length, op.weight), y.out)
      && |y'.s.queue| == |y.s.queue| + 1 && forall z :: z in y'.s.queue <==> z in y.s.queue || z == x
  {
    StepAccounts(c, y, op);
    EnqueuedMembers(c, y.s, op.app, op.socket, op.length, op.weight);
    EnqueuedItems(c, y.s, op.app, op.socket, op.length, op.weight);
  }

  /** A completion that frees two slots lets one request go, and another waits. */
  lemma OneTooFew(c: Conf, y: Sys, k: nat)
    requires Accounted(c, y) && k < |y.out| && |y.s.queue| == 2
    requires var e := Complete(Some(y.out[k]));
      && y.s.current - Reduce(c, e) + 2 <= c.depth
      && forall z :: z in y.s.queue ==> Tentative(c, SmallAfter(y.s, e), z) == 1
    ensures !NoneFits(c, Step(c, y, Finish(k)))
  {
    var s, e := y.s, Complete(Some(y.out[k]));
    assert s.queue[0] in s.queue && s.queue[1] in s.queue;
    FirstMatchIs(FitsAfter(c, s, e), s.queue);
    assert FitsAfter(c, s, e)(s.queue[0]);
    var i := RemovedById(s, FitsAfter(c, s, e));
    var q := s.queue[..i] + s.queue[i + 1..];
    hide FirstMatch, WithoutFirst, Tentative;
    assert Dequeued(c, s, e).queue == q && q[0] in q && q[0] in s.queue;
    assert Step(c, y, Finish(k)).s == Dequeued(c, s, e);
  }

  /** A large request, small ones that fill the server, two more that wait, and
      the large one completes. */
  function HardRun(c: Conf): seq<Op>
    requires c.factor <= c.depth
  {
    [LargeOne(c)] + Times(c.depth - c.factor, SMALL_ONE) + [SMALL_ONE, SMALL_ONE, Finish(0)]
  }

  /** In the hard mode a completion frees all slots of a large request and
      dispatches one small one. */
  lemma HardLeavesOne(c: Conf, apps: nat)
    requires c.hard && 2 <= c.factor <= c.depth && apps > 0
    ensures AllEnabled(c, Idle(apps), HardRun(c)) && !NoneFits(c, Run(c, Idle(apps), HardRun(c)))
  {
    hide Step, Run, AllEnabled, Serving, Times;
    var y0, n, a, b := Idle(apps), c.depth - c.factor, [LargeOne(c)], Times(c.depth - c.factor, SMALL_ONE);
    LargeGoes(c, apps);
    var y1 := Run(c, y0, a);
    FillUp(c, y1, 0, n);
    RunConcat(c, y0, a, b);
    TwoSmallWait(c, Run(c, y0, a + b), n + 1);
    ThreeMore(c, y0, a + b, SMALL_ONE, SMALL_ONE, Finish(0));
  }

  lemma LargeGoes(c: Conf, apps: nat)
    requires c.hard && c.factor <= c.depth && apps > 0
    ensures AllEnabled(c, Idle(apps), [LargeOne(c)])
    ensures var y := Run(c, Idle(apps), [LargeOne(c)]);
      && Serving(c, y, c.factor, 1) && y.s.current == c.factor && |y.out| == 1 && y.out[0].depth == c.factor
  {
    var y0 := Idle(apps);
    ReceiveAlone(c, y0, LargeOne(c));
    StepAccounts(c, y0, LargeOne(c));
    RunSnoc(c, y0, [], LargeOne(c));
    assert [] + [LargeOne(c)] == [LargeOne(c)];
  }

  lemma ThreeMore(c: Conf, y: Sys, a: seq<Op>, op0: Op, op1: Op, op2: Op)
    requires AllEnabled(c, y, a) && Enabled(Run(c, y, a), op0) && Enabled(Step(c, Run(c, y, a), op0), op1)
    requires Enabled(Step(c, Step(c, Run(c, y, a), op0), op1), op2)
    ensures AllEnabled(c, y, a + [op0, op1, op2])
    ensures Run(c, y, a + [op0, op1, op2]) == Step(c, Step(c, Step(c, Run(c, y, a), op0), op1), op2)
  {
    hide Enabled, Step, Run, AllEnabled;
    RunSnoc(c, y, a, op0);
    RunSnoc(c, y, a + [op0], op1);
    RunSnoc(c, y, a + [op0] + [op1], op2);
    assert a + [op0] + [op1] + [op2] == a + [op0, op1, op2];
  }

  lemma TwoSmallWait(c: Conf, y: Sys, n: nat)
    requires c.hard && c.factor >= 2 && Serving(c, y, c.depth, n) && y.out != [] && y.out[0].depth == c.factor
    ensures Enabled(y, SMALL_ONE) && Enabled(Step(c, y, SMALL_ONE), SMALL_ONE)
    ensures var y' := Step(c, Step(c, y, SMALL_ONE), SMALL_ONE);
      Enabled(y', Finish(0)) && !NoneFits(c, Step(c, y', Finish(0)))
  {
    hide Okay, Total, MergeSort.Sort, NoneFits;
    WaitsToo(c, y, SMALL_ONE);
    WaitsToo(c, Step(c, y, SMALL_ONE), SMALL_ONE);
    OneTooFew(c, Step(c, Step(c, y, SMALL_ONE), SMALL_ONE), 0);
  }

  /** Large requests of one slot each take all; one more waits, and then a small
      one for which it weighs nothing. */
  function ZeroRun(c: Conf): seq<Op> { Times(c.depth, LargeOne(c)) + [LargeOne(c), SMALL_ONE] }

  /** A waiting large request of no weight fits as soon as a small one comes. */
  lemma ZeroLeavesOne(c: Conf, apps: nat)
    requires !c.hard && c.blocking && c.factor == 0 && apps > 0
    ensures AllEnabled(c, Idle(apps), ZeroRun(c)) && !NoneFits(c, Run(c, Idle(apps), ZeroRun(c)))
  {
    var y0, a := Idle(apps), Times(c.depth, LargeOne(c));
    hide Step, Run, AllEnabled, Serving, Times;
    IdleServing(c, apps);
    FillUp(c, y0, c.threshold + 1, c.depth);
    LargeThenSmallWait(c, Run(c, y0, a));
    RunSnoc(c, y0, a, LargeOne(c));
    RunSnoc(c, y0, a + [LargeOne(c)], SMALL_ONE);
    assert a + [LargeOne(c)] + [SMALL_ONE] == ZeroRun(c);
  }

  lemma LargeThenSmallWait(c: Conf, y: Sys)
    requires !c.hard && c.blocking && c.factor == 0 && Serving(c, y, c.depth, c.depth) && y.s.small == 0
    ensures Enabled(y, LargeOne(c)) && Enabled(Step(c, y, LargeOne(c)), SMALL_ONE)
    ensures !NoneFits(c, Step(c, Step(c, y, LargeOne(c)), SMALL_ONE))
  {
    WaitsToo(c, y, LargeOne(c));
    var y1 := Step(c, y, LargeOne(c));
    WaitsToo(c, y1, SMALL_ONE);
    assert NewItem(c, y.s, 0, 0, c.threshold + 1, 1) in Step(c, y1, SMALL_ONE).s.queue;
  }

  /** So many large requests, of one slot each as yet, that beside a small one no
      other fits. */
  function Room(c: Conf): nat { if c.factor <= c.depth then c.depth - c.factor else 0 }

  /** Those, a small one, two large ones that wait, and the small one completes. */
  function SoftRun(c: Conf): seq<Op> {
    Times(Room(c), LargeOne(c)) + [SMALL_ONE] + [LargeOne(c), LargeOne(c), Finish(Room(c))]
  }

  /** When the last small request completes the waiting large ones weigh less,
      and only one of them goes. */
  lemma SoftLeavesOne(c: Conf, apps: nat)
    requires !c.hard && c.blocking && c.factor > 1 && c.depth > 1 && apps > 0
    ensures AllEnabled(c, Idle(apps), SoftRun(c)) && !NoneFits(c, Run(c, Idle(apps), SoftRun(c)))
  {
    var y0, a := Idle(apps), Times(Room(c), LargeOne(c));
    hide Step, Run, AllEnabled, Serving, Times;
    IdleServing(c, apps);
    FillUp(c, y0, c.threshold + 1, Room(c));
    var y := Run(c, y0, a);
    SmallGoes(c, y, Room(c));
    RunSnoc(c, y0, a, SMALL_ONE);
    TwoLargeWait(c, Step(c, y, SMALL_ONE), Room(c));
    ThreeMore(c, y0, a + [SMALL_ONE], LargeOne(c), LargeOne(c), Finish(Room(c)));
  }

  lemma SmallGoes(c: Conf, y: Sys, k: nat)
    requires Serving(c, y, k, k) && y.s.small == 0 && k < c.depth
    ensures Enabled(y, SMALL_ONE)
    ensures var y' := Step(c, y, SMALL_ONE);
      Serving(c, y', k + 1, k + 1) && y'.s.small == 1 && |y'.out| > k && y'.out[k].depth == 1
  {
    ReceiveAlone(c, y, SMALL_ONE);
    StepAccounts(c, y, SMALL_ONE);
  }

  lemma TwoLargeWait(c: Conf, y: Sys, k: nat)
    requires !c.hard && c.blocking && c.factor > 1 && Serving(c, y, k + 1, k + 1) && y.s.small == 1
    requires |y.out| > k && y.out[k].depth == 1 && k + 2 <= c.depth < c.factor + k + 1
    ensures Enabled(y, LargeOne(c)) && Enabled(Step(c, y, LargeOne(c)), LargeOne(c))
    ensures var y' := Step(c, Step(c, y, LargeOne(c)), LargeOne(c));
      Enabled(y', Finish(k)) && !NoneFits(c, Step(c, y', Finish(k)))
  {
    hide Okay, Total, MergeSort.Sort, NoneFits;
    WaitsToo(c, y, LargeOne(c));
    WaitsToo(c, Step(c, y, LargeOne(c)), LargeOne(c));
    OneTooFew(c, Step(c, Step(c, y, LargeOne(c)), LargeOne(c)), k);
  }

  /** What never leaves a request waiting that fits. */
  predicate NeverIdle(c: Conf) {
    || c.factor == 1
    || if c.hard then c.factor == 0 || c.factor > c.depth else !c.blocking || (c.factor > 1 && c.depth <= 1)
  }

  lemma NoneEverFits(c: Conf, apps: nat, ops: seq<Op>)
    requires (apps == 0 || NeverIdle(c)) && AllEnabled(c, Idle(apps), ops)
    ensures NoneFits(c, Run(c, Idle(apps), ops))
  {
    if apps == 0 {
      NothingRuns(c, ops);
    } else if Steady(c) {
      RunLeavesNone(c, Idle(apps), ops);
    } else {
      RunBalances(c, Idle(apps), ops);
      assert forall z :: z in Run(c, Idle(apps), ops).s.queue ==> z.depth >= 1;
    }
  }

  /** No request that fits is left waiting after any step of any run, exactly if
      a large one weighs one slot; or in the hard mode nothing or more than all
      slots; or in the soft mode its weight is never taken, or there is one slot
      at most and it weighs more. */
  lemma NoneFitsExact(c: Conf, apps: nat)
    ensures (forall ops :: AllEnabled(c, Idle(apps), ops) ==> NoneFits(c, Run(c, Idle(apps), ops))) <==>
            || apps == 0 || c.factor == 1
            || if c.hard then c.factor == 0 || c.factor > c.depth else !c.blocking || (c.factor > 1 && c.depth <= 1)
  {
    hide AllEnabled, Run, NoneFits;
    if apps == 0 || NeverIdle(c) {
      forall ops | AllEnabled(c, Idle(apps), ops) ensures NoneFits(c, Run(c, Idle(apps), ops)) {
        NoneEverFits(c, apps, ops);
      }
    } else if c.hard {
      HardLeavesOne(c, apps);
    } else if c.factor == 0 {
      ZeroLeavesOne(c, apps);
    } else {
      SoftLeavesOne(c, apps);
    }
  }

  // ---------- tags against sockets ----------

  /** Two requests wait; the later one, whose start tag is larger, came on the
      lower socket and goes first. */
  lemma LaterTagFirst(c: Conf, apps: nat) returns (early: Item, late: Item)
    requires c.cmp == BySocket() && c.depth == 1 && apps > 0
    ensures early.start < late.start && late.socket < early.socket
    ensures var ops := [Receive(0, 0, 0, 1), Receive(0, 2, 0, 1), Receive(0, 1, 0, 1), Finish(0)];
      && AllEnabled(c, Idle(apps), ops)
      && Run(c, Idle(apps), ops).out == [late] && Run(c, Idle(apps), ops).s.queue == [early]
  {
    hide Step, Run, AllEnabled, FitsAfter, Busy;
    var y0, op1, op2 := Idle(apps), Receive(0, 2, 0, 1), Receive(0, 1, 0, 1);
    var y1 := OneOut(c, apps);
    early, late := TwoBehind(c, y1);
    ThreeMore(c, y0, [SMALL_ONE], op1, op2, Finish(0));
    RunSnoc(c, y0, [SMALL_ONE], op1);
    RunSnoc(c, y0, [SMALL_ONE] + [op1], op2);
    LowestGoes(c, Step(c, Step(c, y1, op1), op2), apps, [SMALL_ONE] + [op1] + [op2], early, late);
    FourOps([SMALL_ONE], op1, op2, Finish(0));
  }

  lemma FourOps(a: seq<Op>, op1: Op, op2: Op, op3: Op)
    requires |a| == 1
    ensures a + [op1, op2, op3] == [a[0], op1, op2, op3]
  {
  }

  /** One slot, and a request out on it. */
  ghost predicate Busy(c: Conf, y: Sys) {
    && c.depth == 1 && Accounted(c, y) && y.s.current == |y.out| == 1 && y.out[0].depth == 1
    && |y.s.last| > 0 && y.s.vt <= y.s.last[0]
  }

  lemma OneOut(c: Conf, apps: nat) returns (y: Sys)
    requires c.depth == 1 && apps > 0
    ensures AllEnabled(c, Idle(apps), [SMALL_ONE]) && y == Run(c, Idle(apps), [SMALL_ONE])
    ensures Busy(c, y) && y.s.queue == []
  {
    var y0 := Idle(apps);
    ReceiveAlone(c, y0, SMALL_ONE);
    StepAccounts(c, y0, SMALL_ONE);
    RunSnoc(c, y0, [], SMALL_ONE);
    assert [] + [SMALL_ONE] == [SMALL_ONE];
    y := Step(c, y0, SMALL_ONE);
  }

  /** Behind it a small request waits, and starts where the last one ends. */
  lemma SmallWaits(c: Conf, y: Sys, socket: int) returns (x: Item)
    requires Busy(c, y)
    ensures Enabled(y, Receive(0, socket, 0, 1))
    ensures var y' := Step(c, y, Receive(0, socket, 0, 1));
      && Busy(c, y') && y'.out == y.out && |y'.s.queue| == |y.s.queue| + 1
      && (forall z :: z in y'.s.queue <==> z in y.s.queue || z == x)
      && x.start == y.s.last[0] < y'.s.last[0] && x.socket == socket && x.depth == 1
  {
    x := NewItem(c, y.s, 0, socket, 0, 1);
    hide NewItem, Enqueued, Accounted;
    WaitsToo(c, y, Receive(0, socket, 0, 1));
  }

  /** Behind one request out, two of the same application wait. */
  lemma TwoBehind(c: Conf, y: Sys) returns (early: Item, late: Item)
    requires Busy(c, y) && y.s.queue == []
    ensures early.start < late.start && late.socket < early.socket
    ensures Enabled(y, Receive(0, 2, 0, 1)) && Enabled(Step(c, y, Receive(0, 2, 0, 1)), Receive(0, 1, 0, 1))
    ensures var y' := Step(c, Step(c, y, Receive(0, 2, 0, 1)), Receive(0, 1, 0, 1));
      && Accounted(c, y') && y'.out == y.out && |y'.out| == 1 && |y'.s.queue| == 2
      && (forall z :: z in y'.s.queue <==> z == early || z == late)
      && FitsAfter(c, y'.s, Complete(Some(y'.out[0])))(late)
  {
    hide Step, Accounted;
    early := SmallWaits(c, y, 2);
    late := SmallWaits(c, Step(c, y, Receive(0, 2, 0, 1)), 1);
  }

  lemma LowestGoes(c: Conf, y: Sys, apps: nat, ops: seq<Op>, early: Item, late: Item)
    requires c.cmp == BySocket() && AllEnabled(c, Idle(apps), ops) && y == Run(c, Idle(apps), ops) && Accounted(c, y)
    requires |y.out| == 1 && |y.s.queue| == 2 && forall z :: z in y.s.queue <==> z == early || z == late
    requires late.socket < early.socket && FitsAfter(c, y.s, Complete(Some(y.out[0])))(late)
    ensures Step(c, y, Finish(0)).out == [late] && Step(c, y, Finish(0)).s.queue == [early]
  {
    hide Run, AllEnabled, FitsAfter, FirstMatch, WithoutFirst, Chosen, Step, Accounted;
    LowestSocketGoes(c, apps, ops, 0, late);
    AccountedOkay(c, y);
    OneLeft(c, y, early, late);
  }

  lemma OneLeft(c: Conf, y: Sys, early: Item, late: Item)
    requires Okay(multiset(y.s.queue), y.s.nextId) && |y.out| == 1 && |y.s.queue| == 2
    requires early != late && forall z :: z in y.s.queue <==> z == early || z == late
    requires Chosen(c, y.s, Complete(Some(y.out[0]))) == Some(late)
    ensures Step(c, y, Finish(0)).out == [late] && Step(c, y, Finish(0)).s.queue == [early]
  {
    hide FirstMatch, WithoutFirst, Okay, FitsAfter, Tentative;
    OtherStays(y.s, FitsAfter(c, y.s, Complete(Some(y.out[0]))), early, late);
    assert y.out[..0] + y.out[0 + 1..] + [late] == [late];
  }

  lemma OtherStays(s: Full, p: Item -> bool, early: Item, late: Item)
    requires Okay(multiset(s.queue), s.nextId) && |s.queue| == 2 && FirstMatch(p, s.queue) == Some(late)
    requires early != late && forall z :: z in s.queue <==> z == early || z == late
    ensures WithoutFirst(HasId(late.id), s.queue) == [early]
  {
    hide FirstMatch, WithoutFirst, Okay;
    var i := RemovedById(s, p);
    OkayWithout(s, i);
    assert s.queue[1 - i] in [s.queue[1 - i]] && s.queue[1 - i] in s.queue;
  }

}
