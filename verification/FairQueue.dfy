/** Start-time fair queuing as scheduler_SFQD.c computes it, on values: tags,
    virtual time, and the order of dispatch. The waiting items are kept here
    in the order in which they will leave; module Sfqd shows that both queues
    of the program leave in that order. */
module FairQueue {
  import opened Basics
  import opened Division

  const REDUCER: nat := 1024

  datatype Item = Item(id: nat, app: nat, start: int, finish: int)

  /** last holds each application's last finish tag, depth how many requests are out. */
  datatype Sfq = Sfq(waiting: seq<Item>, vt: int, last: seq<int>, depth: int, nextId: nat)

  function FinishTag(length: nat, weight: nat, start: int): int
    requires weight > 0
  {
    if weight * REDUCER > length then start + 1 else start + length / weight / REDUCER
  }

  /** A request's tags lie at least one apart, and as far apart as its length
      in units of weight kilobytes. */
  lemma TagCost(length: nat, weight: nat, start: int)
    requires weight > 0
    ensures weight * REDUCER > 0
    ensures FinishTag(length, weight, start) - start == Max(1, length / (weight * REDUCER))
  {
    UnitsOf(length, weight, REDUCER);
  }

  /** x goes behind every item whose start tag is not larger. */
  function Placed(w: seq<Item>, x: Item): seq<Item> {
    if w == [] || x.start < w[0].start then [x] + w else [w[0]] + Placed(w[1..], x)
  }

  function NewItem(s: Sfq, app: nat, length: nat, weight: nat): Item
    requires app < |s.last| && weight > 0
  {
    var start := Max(s.vt, s.last[app]);
    Item(s.nextId, app, start, FinishTag(length, weight, start))
  }

  /** The state after a request arrives; room says whether a slot was free. */
  function Enqueued(s: Sfq, app: nat, length: nat, weight: nat, room: bool): Sfq
    requires app < |s.last| && weight > 0
  {
    var x := NewItem(s, app, length, weight);
    Sfq(Placed(s.waiting, x), s.vt, s.last[app := x.finish], s.depth + if room then 1 else 0, s.nextId + 1)
  }

  function Dequeued(s: Sfq): Sfq {
    if s.waiting == [] then s.(depth := s.depth - 1)
    else s.(waiting := s.waiting[1..], vt := s.waiting[0].start)
  }

  function Next(s: Sfq): Option<Item> { if s.waiting == [] then None else Some(s.waiting[0]) }

  function Start(apps: nat): Sfq { Sfq([], 0, seq(apps, i => 0), 0, 0) }

  /** A request starts at the later of virtual time and its application's last
      finish tag; its own, which TagCost prices, becomes the last. */
  lemma StartsAtLater(s: Sfq, app: nat, length: nat, weight: nat, room: bool)
    requires app < |s.last| && weight > 0
    ensures var x, s' := NewItem(s, app, length, weight), Enqueued(s, app, length, weight, room);
      && x.start >= s.vt && x.start >= s.last[app] && (x.start == s.vt || x.start == s.last[app])
      && x.finish == FinishTag(length, weight, x.start)
      && s'.last[app] == x.finish && (forall f :: 0 <= f < |s.last| && f != app ==> s'.last[f] == s.last[f])
  {
  }

  // ---------- the order of dispatch ----------

  /** sfqd_packet_cmp */
  predicate Before(a: Item, b: Item) {
    a.start < b.start || (a.start == b.start && a.id < b.id)
  }

  ghost predicate InOrder(w: seq<Item>) {
    forall i, j :: 0 <= i < j < |w| ==> Before(w[i], w[j])
  }

  lemma {:induction false} PlacedInOrder(w: seq<Item>, x: Item)
    requires InOrder(w) && forall y :: y in w ==> y.id < x.id
    ensures InOrder(Placed(w, x)) && multiset(Placed(w, x)) == multiset(w) + multiset{x}
  {
    if w != [] {
      assert w == [w[0]] + w[1..];
      if x.start >= w[0].start {
        PlacedInOrder(w[1..], x);
        var p := Placed(w[1..], x);
        forall i | 0 <= i < |p| ensures Before(w[0], p[i]) {
          assert p[i] in multiset(p);
          assert p[i] == x || p[i] in w[1..];
        }
        assert InOrder([w[0]] + p);
      }
    }
  }

  ghost predicate DistinctIds(w: seq<Item>) {
    forall i, j :: 0 <= i < j < |w| ==> w[i].id != w[j].id
  }

  lemma {:induction false} PlacedDistinct(w: seq<Item>, x: Item)
    requires DistinctIds(w) && forall y :: y in w ==> y.id < x.id
    ensures DistinctIds(Placed(w, x)) && forall y :: y in Placed(w, x) <==> y == x || y in w
  {
    if w != [] && x.start >= w[0].start {
      PlacedDistinct(w[1..], x);
      assert w == [w[0]] + w[1..];
      forall y | y in w[1..] ensures y.id != w[0].id {
        var i :| 0 <= i < |w[1..]| && w[1..][i] == y;
        assert w[i + 1] == y;
      }
      assert forall i :: 0 <= i < |Placed(w[1..], x)| ==> Placed(w[1..], x)[i] in Placed(w[1..], x);
    } else {
      assert forall i :: 0 <= i < |w| ==> w[i] in w;
    }
  }

  // ---------- one application's items ----------

  function OfApp(f: nat, w: seq<Item>): seq<Item> {
    if w == [] then [] else (if w[0].app == f then [w[0]] else []) + OfApp(f, w[1..])
  }

  /** Each item's start tag is the finish tag of the one before it, and tags grow. */
  ghost predicate Backlog(q: seq<Item>, last: int) {
    if q == [] then true
    else q[0].start < q[0].finish && (if |q| == 1 then q[0].finish == last else q[0].finish == q[1].start)
         && Backlog(q[1..], last)
  }

  lemma {:induction false} BacklogEnds(q: seq<Item>, last: int)
    requires Backlog(q, last) && q != []
    ensures forall y :: y in q ==> y.start < last
  {
    if |q| > 1 {
      BacklogEnds(q[1..], last);
      assert q == [q[0]] + q[1..];
    }
  }

  lemma {:induction false} BacklogSnoc(q: seq<Item>, last: int, x: Item)
    requires Backlog(q, last) && x.start < x.finish && (q == [] || x.start == last)
    ensures Backlog(q + [x], x.finish)
  {
    if q != [] {
      BacklogSnoc(q[1..], last, x);
      assert (q + [x])[1..] == q[1..] + [x];
    }
  }

  lemma {:induction false} OfAppMembers(f: nat, w: seq<Item>, y: Item)
    ensures y in OfApp(f, w) <==> y in w && y.app == f
  {
    if w != [] {
      OfAppMembers(f, w[1..], y);
      assert w == [w[0]] + w[1..];
    }
  }

  lemma OfAppCons(f: nat, y: Item, s: seq<Item>)
    ensures OfApp(f, [y] + s) == (if y.app == f then [y] else []) + OfApp(f, s)
  {
    assert ([y] + s)[1..] == s;
  }

  lemma {:induction false} OfAppNone(f: nat, w: seq<Item>)
    requires forall y :: y in w ==> y.app != f
    ensures OfApp(f, w) == []
  {
    if w != [] {
      OfAppNone(f, w[1..]);
    }
  }

  /** Placing x puts it behind all other items of its application. */
  lemma {:induction false} OfAppPlaced(f: nat, w: seq<Item>, x: Item)
    requires InOrder(w) && forall y :: y in w && y.app == x.app ==> y.start <= x.start
    ensures OfApp(f, Placed(w, x)) == OfApp(f, w) + if x.app == f then [x] else []
  {
    hide OfApp;
    if w == [] || x.start < w[0].start {
      OfAppCons(f, x, w);
      if f == x.app {
        forall y | y in w ensures y.app != f {
          var i :| 0 <= i < |w| && w[i] == y;
          assert i > 0 ==> Before(w[0], w[i]);
        }
        OfAppNone(f, w);
      }
    } else {
      assert w == [w[0]] + w[1..];
      OfAppCons(f, w[0], w[1..]);
      OfAppPlaced(f, w[1..], x);
      OfAppCons(f, w[0], Placed(w[1..], x));
    }
  }

  // ---------- what every state of a run satisfies ----------

  ghost predicate Okay(s: Sfq) {
    && InOrder(s.waiting) && DistinctIds(s.waiting)
    && (forall y :: y in s.waiting ==> y.id < s.nextId && y.app < |s.last| && s.vt <= y.start)
    && forall f :: 0 <= f < |s.last| ==> Backlog(OfApp(f, s.waiting), s.last[f])
  }

  lemma EnqueueKeeps(s: Sfq, app: nat, length: nat, weight: nat, room: bool)
    requires Okay(s) && app < |s.last| && weight > 0
    ensures var s', x := Enqueued(s, app, length, weight, room), NewItem(s, app, length, weight);
      && Okay(s')
      && forall f :: 0 <= f < |s.last| ==>
           OfApp(f, s'.waiting) == OfApp(f, s.waiting) + if f == app then [x] else []
  {
    var s', x := Enqueued(s, app, length, weight, room), NewItem(s, app, length, weight);
    TagCost(length, weight, x.start);
    PlacedInOrder(s.waiting, x);
    PlacedDistinct(s.waiting, x);
    forall y | y in s.waiting && y.app == app ensures y.start <= x.start {
      OfAppMembers(app, s.waiting, y);
      BacklogEnds(OfApp(app, s.waiting), s.last[app]);
    }
    forall f | 0 <= f < |s.last|
      ensures OfApp(f, s'.waiting) == OfApp(f, s.waiting) + if f == app then [x] else []
      ensures Backlog(OfApp(f, s'.waiting), s'.last[f])
    {
      var q := OfApp(f, s.waiting);
      OfAppPlaced(f, s.waiting, x);
      assert q + [] == q;
      if f == app {
        if q != [] {
          OfAppMembers(f, s.waiting, q[0]);
          BacklogEnds(q, s.last[f]);
        }
        BacklogSnoc(q, s.last[f], x);
      }
    }
  }

  lemma DequeueKeeps(s: Sfq)
    requires Okay(s)
    ensures Okay(Dequeued(s)) && s.vt <= Dequeued(s).vt
    ensures s.waiting != [] ==> forall f :: 0 <= f < |s.last| ==>
              OfApp(f, s.waiting) ==
                (if f == s.waiting[0].app then [s.waiting[0]] else []) + OfApp(f, Dequeued(s).waiting)
  {
    if s.waiting != [] {
      assert s.waiting == [s.waiting[0]] + s.waiting[1..];
      forall y | y in s.waiting[1..] ensures s.waiting[0].start <= y.start {
        var i :| 0 <= i < |s.waiting[1..]| && s.waiting[1..][i] == y;
        assert s.waiting[i + 1] == y;
      }
      forall f | 0 <= f < |s.last|
        ensures OfApp(f, s.waiting) ==
                  (if f == s.waiting[0].app then [s.waiting[0]] else []) + OfApp(f, s.waiting[1..])
        ensures Backlog(OfApp(f, s.waiting[1..]), s.last[f])
      {
        var q, q' := OfApp(f, s.waiting), OfApp(f, s.waiting[1..]);
        assert f == s.waiting[0].app ==> q[1..] == q';
        assert f != s.waiting[0].app ==> q == q';
      }
    }
  }

  // ---------- fairness ----------

  datatype Op = Enqueue(app: nat, length: nat, weight: nat, room: bool) | Dequeue

  predicate Possible(s: Sfq, op: Op) { op.Enqueue? ==> op.app < |s.last| && op.weight > 0 }

  function Do(s: Sfq, op: Op): Sfq
    requires Possible(s, op)
  {
    if op.Enqueue? then Enqueued(s, op.app, op.length, op.weight, op.room) else Dequeued(s)
  }

  /** What app f is charged for when op happens: finish minus start tag of an item dispatched. */
  function Charge(f: nat, s: Sfq, op: Op): int {
    if op.Dequeue? && s.waiting != [] && s.waiting[0].app == f
    then s.waiting[0].finish - s.waiting[0].start else 0
  }

  ghost predicate AllPossible(s: Sfq, ops: seq<Op>)
    decreases |ops|
  {
    ops == [] || (Possible(s, ops[0]) && AllPossible(Do(s, ops[0]), ops[1..]))
  }

  function Run(s: Sfq, ops: seq<Op>): Sfq
    requires AllPossible(s, ops)
    decreases |ops|
  {
    if ops == [] then s else Run(Do(s, ops[0]), ops[1..])
  }

  /** The tag cost of what app f has dispatched over a run. */
  function Work(f: nat, s: Sfq, ops: seq<Op>): int
    requires AllPossible(s, ops)
    decreases |ops|
  {
    if ops == [] then 0 else Charge(f, s, ops[0]) + Work(f, Do(s, ops[0]), ops[1..])
  }

  ghost predicate AlwaysWaiting(f: nat, s: Sfq, ops: seq<Op>)
    requires AllPossible(s, ops)
    decreases |ops|
  {
    OfApp(f, s.waiting) != [] && (ops == [] || AlwaysWaiting(f, Do(s, ops[0]), ops[1..]))
  }

  /** No request of f in the run costs more than most. */
  ghost predicate CostAtMost(f: nat, ops: seq<Op>, most: int) {
    forall op :: op in ops && op.Enqueue? && op.app == f && op.weight > 0 ==>
      FinishTag(op.length, op.weight, 0) <= most
  }

  /** The tag app f stands at: the start tag of its first item, or where its next one would start. */
  function Level(f: nat, s: Sfq): int
    requires f < |s.last|
  {
    if OfApp(f, s.waiting) == [] then s.last[f] else OfApp(f, s.waiting)[0].start
  }

  /** f is never more than one of its own requests ahead of virtual time. */
  ghost predicate Near(f: nat, s: Sfq, most: int)
    requires f < |s.last|
  {
    && Level(f, s) <= s.vt + most
    && forall y :: y in OfApp(f, s.waiting) ==> y.finish - y.start <= most
  }

  lemma EnqueueNear(f: nat, s: Sfq, op: Op, most: int)
    requires Okay(s) && Possible(s, op) && op.Enqueue? && f < |s.last| && Near(f, s, most) && most >= 0
    requires CostAtMost(f, [op], most)
    ensures Okay(Do(s, op)) && Near(f, Do(s, op), most)
    ensures OfApp(f, s.waiting) != [] ==> Level(f, Do(s, op)) == Level(f, s)
  {
    hide Okay, OfApp, FinishTag, Placed;
    EnqueueKeeps(s, op.app, op.length, op.weight, op.room);
    assert op in [op];
    TagCost(op.length, op.weight, 0);
    TagCost(op.length, op.weight, NewItem(s, op.app, op.length, op.weight).start);
  }

  lemma DequeueNear(f: nat, s: Sfq, most: int)
    requires Okay(s) && f < |s.last| && Near(f, s, most) && most >= 0
    ensures Okay(Dequeued(s)) && Near(f, Dequeued(s), most)
    ensures OfApp(f, s.waiting) != [] ==> Level(f, Dequeued(s)) == Level(f, s) + Charge(f, s, Dequeue)
  {
    hide OfApp, InOrder;
    DequeueKeeps(s);
    if s.waiting != [] {
      var q, q' := OfApp(f, s.waiting), OfApp(f, s.waiting[1..]);
      assert q == (if f == s.waiting[0].app then [s.waiting[0]] else []) + q';
      assert f == s.waiting[0].app ==> q[0] == s.waiting[0] && q[1..] == q';
      assert f != s.waiting[0].app ==> q == q';
      assert Backlog(q, s.last[f]);
    }
  }

  lemma StepNear(f: nat, s: Sfq, op: Op, most: int)
    requires Okay(s) && Possible(s, op) && f < |s.last| && Near(f, s, most) && CostAtMost(f, [op], most) && most >= 0
    ensures Okay(Do(s, op)) && |Do(s, op).last| == |s.last| && Near(f, Do(s, op), most)
    ensures OfApp(f, s.waiting) != [] ==> Level(f, Do(s, op)) == Level(f, s) + Charge(f, s, op)
  {
    hide Okay, OfApp, Near, CostAtMost, Level;
    if op.Enqueue? {
      EnqueueNear(f, s, op, most);
    } else {
      DequeueNear(f, s, most);
    }
  }

  lemma {:induction false} RunNear(f: nat, s: Sfq, ops: seq<Op>, most: int)
    requires Okay(s) && AllPossible(s, ops) && f < |s.last| && Near(f, s, most) && CostAtMost(f, ops, most) && most >= 0
    ensures var s' := Run(s, ops); Okay(s') && |s'.last| == |s.last| && Near(f, s', most)
    decreases |ops|
  {
    if ops != [] {
      StepNear(f, s, ops[0], most);
      RunNear(f, Do(s, ops[0]), ops[1..], most);
    }
  }

  /** While f is backlogged its level advances by exactly what it is charged. */
  lemma {:induction false} WorkIsLevel(f: nat, s: Sfq, ops: seq<Op>, most: int)
    requires Okay(s) && AllPossible(s, ops) && f < |s.last| && Near(f, s, most) && CostAtMost(f, ops, most) && most >= 0
    requires AlwaysWaiting(f, s, ops)
    ensures var s' := Run(s, ops); Okay(s') && |s'.last| == |s.last| && Near(f, s', most)
    ensures var s' := Run(s, ops); OfApp(f, s'.waiting) != [] && Work(f, s, ops) == Level(f, s') - Level(f, s)
    decreases |ops|
  {
    if ops != [] {
      StepNear(f, s, ops[0], most);
      WorkIsLevel(f, Do(s, ops[0]), ops[1..], most);
    }
  }

  lemma BackloggedAhead(f: nat, s: Sfq)
    requires Okay(s) && f < |s.last| && OfApp(f, s.waiting) != []
    ensures s.vt <= Level(f, s)
  {
    OfAppMembers(f, s.waiting, OfApp(f, s.waiting)[0]);
  }

  lemma StartOkay(apps: nat)
    ensures Okay(Start(apps))
  {
  }

  lemma StartIsFine(apps: nat, f: nat, most: int)
    requires f < apps && most >= 0
    ensures Okay(Start(apps)) && Near(f, Start(apps), most)
  {
  }

  /** Start-time fairness: over any stretch of any run in which f and g always
      have requests waiting, the work done for them differs by at most one
      largest request of f and one of g. */
  lemma Fairness(apps: nat, before: seq<Op>, window: seq<Op>, f: nat, g: nat, mostF: int, mostG: int)
    requires f < apps && g < apps && mostF >= 0 && mostG >= 0
    requires AllPossible(Start(apps), before) && AllPossible(Run(Start(apps), before), window)
    requires CostAtMost(f, before, mostF) && CostAtMost(f, window, mostF)
    requires CostAtMost(g, before, mostG) && CostAtMost(g, window, mostG)
    requires AlwaysWaiting(f, Run(Start(apps), before), window)
    requires AlwaysWaiting(g, Run(Start(apps), before), window)
    ensures var s := Run(Start(apps), before);
            -(mostF + mostG) <= Work(f, s, window) - Work(g, s, window) <= mostF + mostG
  {
    var s := Run(Start(apps), before);
    StartIsFine(apps, f, mostF);
    StartIsFine(apps, g, mostG);
    RunNear(f, Start(apps), before, mostF);
    RunNear(g, Start(apps), before, mostG);
    WorkIsLevel(f, s, window, mostF);
    WorkIsLevel(g, s, window, mostG);
    BackloggedAhead(f, s);
    BackloggedAhead(g, s);
    BackloggedAhead(f, Run(s, window));
    BackloggedAhead(g, Run(s, window));
  }

  /** Virtual time never decreases, and what leaves is the least of what waits. */
  lemma {:induction false} TimeNeverDecreases(s: Sfq, ops: seq<Op>)
    requires Okay(s) && AllPossible(s, ops)
    ensures Okay(Run(s, ops)) && s.vt <= Run(s, ops).vt
    decreases |ops|
  {
    if ops != [] {
      if ops[0].Enqueue? {
        EnqueueKeeps(s, ops[0].app, ops[0].length, ops[0].weight, ops[0].room);
      } else {
        DequeueKeeps(s);
      }
      TimeNeverDecreases(Do(s, ops[0]), ops[1..]);
    }
  }

  // ---------- nothing lost, nothing served twice ----------

  /** The item an operation dispatches, and the one it takes in. */
  function SentBy(s: Sfq, op: Op): seq<Item> {
    if op.Dequeue? && s.waiting != [] then [s.waiting[0]] else []
  }

  function TakenBy(s: Sfq, op: Op): seq<Item>
    requires Possible(s, op)
  {
    if op.Enqueue? then [NewItem(s, op.app, op.length, op.weight)] else []
  }

  function Sent(s: Sfq, ops: seq<Op>): seq<Item>
    requires AllPossible(s, ops)
    decreases |ops|
  {
    if ops == [] then [] else SentBy(s, ops[0]) + Sent(Do(s, ops[0]), ops[1..])
  }

  function TakenIn(s: Sfq, ops: seq<Op>): seq<Item>
    requires AllPossible(s, ops)
    decreases |ops|
  {
    if ops == [] then [] else TakenBy(s, ops[0]) + TakenIn(Do(s, ops[0]), ops[1..])
  }

  lemma ServedStep(s: Sfq, op: Op)
    requires Okay(s) && Possible(s, op)
    ensures Okay(Do(s, op)) && s.vt <= Do(s, op).vt
    ensures multiset(Do(s, op).waiting) + multiset(SentBy(s, op)) == multiset(s.waiting) + multiset(TakenBy(s, op))
    ensures |SentBy(s, op)| <= 1 && forall y :: y in SentBy(s, op) ==> s.vt <= y.start == Do(s, op).vt
  {
    if op.Enqueue? {
      EnqueueKeeps(s, op.app, op.length, op.weight, op.room);
      PlacedInOrder(s.waiting, NewItem(s, op.app, op.length, op.weight));
    } else {
      DequeueKeeps(s);
      assert s.waiting != [] ==> s.waiting == [s.waiting[0]] + s.waiting[1..];
    }
  }

  /** Over any run every item leaves once or still waits, and the items leave
      in the order of their start tags. */
  lemma {:induction false} ServedOnce(s: Sfq, ops: seq<Op>)
    requires Okay(s) && AllPossible(s, ops)
    ensures multiset(Run(s, ops).waiting) + multiset(Sent(s, ops)) == multiset(s.waiting) + multiset(TakenIn(s, ops))
    ensures forall i :: 0 <= i < |Sent(s, ops)| ==> s.vt <= Sent(s, ops)[i].start
    ensures forall i, j :: 0 <= i < j < |Sent(s, ops)| ==> Sent(s, ops)[i].start <= Sent(s, ops)[j].start
    decreases |ops|
  {
    hide Okay, Do, SentBy, TakenBy;
    if ops != [] {
      ServedStep(s, ops[0]);
      ServedOnce(Do(s, ops[0]), ops[1..]);
      var out, all := SentBy(s, ops[0]), Sent(s, ops);
      Balance(multiset(s.waiting), multiset(out), multiset(Do(s, ops[0]).waiting), multiset(TakenBy(s, ops[0])),
              multiset(Sent(Do(s, ops[0]), ops[1..])), multiset(Run(s, ops).waiting),
              multiset(TakenIn(Do(s, ops[0]), ops[1..])));
      forall i | 0 <= i < |all| ensures s.vt <= all[i].start && (i == 0 && out != [] ==> all[i] in out) {
        assert i < |out| ==> all[i] in out;
      }
    }
  }
}
