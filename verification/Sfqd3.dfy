/** SFQ with a queue and a depth for each application (scheduler_SFQD3.c): an
    application that is ahead of its share rests until the others catch up.
    Each heap is kept as its items in dispatch order. */
module Sfqd3 {
  import opened Basics
  import opened Division
  import opened FairQueue

  const INT_MAX: int := 0x7FFF_FFFF
  const REST: int := 10240

  /** What is configured: a depth and a weight for each application. */
  datatype Conf = Conf(depths: seq<nat>, weights: seq<nat>)

  datatype State = State(
    queues: seq<seq<Item>>, current: seq<int>, vts: seq<int>, last: seq<int>,
    diffs: seq<int>, thr: seq<nat>, total: nat, nextId: nat)

  function Apps(c: Conf): nat { |c.depths| }

  ghost predicate Configured(c: Conf) {
    |c.weights| == |c.depths| > 0 && forall a :: 0 <= a < |c.weights| ==> c.weights[a] > 0
  }

  /** Each per-application array has one entry for each application. */
  ghost predicate Shaped(c: Conf, s: State) {
    |s.queues| == |s.current| == |s.vts| == |s.last| == |s.diffs| == |s.thr| == |c.depths| == |c.weights|
  }

  // ---------- throttling ----------

  lemma {:induction false} SumPositive(ws: seq<nat>)
    requires ws != [] && forall a :: 0 <= a < |ws| ==> ws[a] > 0
    ensures Sum(ws) > 0
  {
    if |ws| > 1 {
      SumPositive(ws[..|ws| - 1]);
    }
  }

  /** sfqd3_calculate_diff; the quotient is that of the C code, its operands are not negative. */
  function Diff(thr: nat, total: nat, weight: nat, weights: int): int
    requires weights > 0
  {
    thr - total * weight / weights
  }

  function Diffs(thr: seq<nat>, total: nat, ws: seq<nat>, weights: int): (ds: seq<int>)
    requires |thr| == |ws| && weights > 0
    ensures |ds| == |ws|
  {
    seq(|ws|, a requires 0 <= a < |ws| => Diff(thr[a], total, ws[a], weights))
  }

  lemma ShareStep(w: int, total: nat, a: int, b: int, ws: int, t: int, wn: nat, n: nat, q: int, r: int)
    requires w > 0 && 0 <= w * (a - b) + total * ws <= n * (w - 1)
    requires total * wn == w * q + r && 0 <= r < w
    ensures 0 <= w * ((a + (t - q)) - (b + t)) + total * (ws + wn) <= (n + 1) * (w - 1)
  {
    assert w * ((a + (t - q)) - (b + t)) == w * (a - b) - w * q;
    assert total * (ws + wn) == total * ws + total * wn;
    assert (n + 1) * (w - 1) == n * (w - 1) + (w - 1);
  }

  /** The shares lose less than one unit per application to truncation. */
  lemma {:induction false} SharesSum(thr: seq<nat>, total: nat, ws: seq<nat>, weights: int)
    requires |thr| == |ws| && weights > 0
    ensures 0 <= weights * (Sum(Diffs(thr, total, ws, weights)) - Sum(thr)) + total * Sum(ws) <= |ws| * (weights - 1)
  {
    if ws != [] {
      var n, ds := |ws| - 1, Diffs(thr, total, ws, weights);
      SharesSum(thr[..n], total, ws[..n], weights);
      assert ds[..n] == Diffs(thr[..n], total, ws[..n], weights);
      assert Sum(ds) == Sum(ds[..n]) + (thr[n] - total * ws[n] / weights);
      hide Diffs, Diff;
      ShareStep(weights, total, Sum(ds[..n]), Sum(thr[..n]), Sum(ws[..n]), thr[n], ws[n], n,
                total * ws[n] / weights, total * ws[n] % weights);
    }
  }

  lemma MulMono(w: int, x: int, y: int)
    requires w > 0
    ensures x <= y ==> w * x <= w * y
  {
  }

  lemma ProductBound(w: int, x: int, n: nat)
    requires w > 0 && 0 <= w * x <= n * (w - 1)
    ensures 0 <= x && (n > 0 ==> x <= n - 1)
  {
    assert n * (w - 1) == w * n - n;
    assert w * -1 == -w;
    MulMono(w, x, -1);
    MulMono(w, n, x);
  }

  /** Throughputs that add up to the total leave diffs that add up to at least
      0 and less than the number of applications: not everyone is throttled. */
  lemma DiffsSum(thr: seq<nat>, total: nat, ws: seq<nat>)
    requires |thr| == |ws| > 0 && Sum(thr) == total && forall a :: 0 <= a < |ws| ==> ws[a] > 0
    ensures Sum(ws) > 0 && 0 <= Sum(Diffs(thr, total, ws, Sum(ws))) <= |ws| - 1
    ensures exists a :: 0 <= a < |ws| && Diffs(thr, total, ws, Sum(ws))[a] <= 0
  {
    hide Diffs, Sum;
    SumPositive(ws);
    var ds, w := Diffs(thr, total, ws, Sum(ws)), Sum(ws);
    SharesSum(thr, total, ws, w);
    assert w * (Sum(ds) - total) + total * w == w * Sum(ds) by {
      assert w * (Sum(ds) - total) == w * Sum(ds) - w * total;
    }
    ProductBound(w, Sum(ds), |ws|);
    if forall a :: 0 <= a < |ds| ==> ds[a] >= 1 {
      SumAtLeast(ds);
    }
  }

  lemma {:induction false} SumAtLeast(ds: seq<int>)
    requires forall a :: 0 <= a < |ds| ==> ds[a] >= 1
    ensures Sum(ds) >= |ds|
  {
    if ds != [] {
      SumAtLeast(ds[..|ds| - 1]);
    }
  }

  // ---------- requests ----------

  function Stamped(s: State, app: nat, length: nat, weight: nat): Item
    requires app < |s.vts| && app < |s.last| && weight > 0
  {
    var start := Max(s.vts[app], s.last[app]);
    Item(s.nextId, app, start, start + length / weight)
  }

  /** A request starts at the later of its application's virtual time and last
      finish tag, and ends as much later as its length in units of weight. */
  lemma StartsAtLater(s: State, app: nat, length: nat, weight: nat)
    requires app < |s.vts| && app < |s.last| && app < |s.queues| && weight > 0
    ensures var x, s' := Stamped(s, app, length, weight), QueuedUp(s, app, length, weight);
      && x.start >= s.vts[app] && x.start >= s.last[app] && (x.start == s.vts[app] || x.start == s.last[app])
      && weight * (x.finish - x.start) <= length < weight * (x.finish - x.start) + weight
      && x.app == app && s'.last == s.last[app := x.finish] && s'.vts == s.vts
  {
    QuotientBounds(length, weight);
  }

  /** The answer of sfqd3_enqueue, before the item is put in the queue. */
  predicate Goes(c: Conf, s: State, app: nat)
    requires app < |c.depths| && app < |s.queues| && app < |s.current| && app < |s.diffs|
  {
    s.diffs[app] <= REST && s.current[app] < c.depths[app] && s.queues[app] == []
  }

  function QueuedUp(s: State, app: nat, length: nat, weight: nat): State
    requires app < |s.vts| && app < |s.last| && app < |s.queues| && weight > 0
  {
    var x := Stamped(s, app, length, weight);
    s.(queues := s.queues[app := Placed(s.queues[app], x)], last := s.last[app := x.finish], nextId := s.nextId + 1)
  }

  /** An application from which a completion may dispatch. */
  predicate Open(c: Conf, s: State, a: nat)
    requires a < |c.depths| && a < |s.queues| && a < |s.current| && a < |s.diffs|
  {
    s.diffs[a] <= REST && s.current[a] < c.depths[a] && s.queues[a] != []
  }

  function HeadTag(s: State, a: Option<nat>): int
    requires a.Some? ==> a.value < |s.queues| && s.queues[a.value] != []
  {
    if a.Some? then s.queues[a.value][0].start else INT_MAX
  }

  /** Where the scan over the first n applications stands. */
  function Pick(c: Conf, s: State, n: nat): (r: Option<nat>)
    requires n <= |c.depths| && n <= |s.queues| && n <= |s.current| && n <= |s.diffs|
    ensures r.Some? ==> r.value < n && Open(c, s, r.value)
  {
    if n == 0 then None
    else
      var r := Pick(c, s, n - 1);
      if Open(c, s, n - 1) && s.queues[n - 1][0].start < HeadTag(s, r) then Some(n - 1) else r
  }

  function Popped(s: State, a: nat): State
    requires a < |s.queues| && a < |s.current| && a < |s.vts| && s.queues[a] != []
  {
    s.(queues := s.queues[a := s.queues[a][1..]], current := s.current[a := s.current[a] + 1],
       vts := s.vts[a := s.queues[a][0].start])
  }

  /** The scan of sfqd3_get_next_request and what it takes. */
  function Scanned(c: Conf, s: State): State
    requires |s.queues| == |s.current| == |s.vts| == |s.diffs| == |c.depths|
  {
    var r := Pick(c, s, |c.depths|);
    if r.Some? then Popped(s, r.value) else s
  }

  function Next(c: Conf, s: State): Option<Item>
    requires |s.queues| == |s.current| == |s.vts| == |s.diffs| == |c.depths|
  {
    var r := Pick(c, s, |c.depths|);
    if r.Some? then Some(s.queues[r.value][0]) else None
  }

  /** The DIFF_CHANGE dequeues for a, until one returns nothing. */
  function Drained(c: Conf, s: State, a: nat): (r: State)
    requires a < |c.depths| && a < |s.queues| && a < |s.current| && a < |s.vts|
    ensures |r.queues| == |s.queues| && |r.current| == |s.current| && |r.vts| == |s.vts|
    ensures r.last == s.last && r.diffs == s.diffs && r.thr == s.thr && r.total == s.total && r.nextId == s.nextId
    decreases |s.queues[a]|
  {
    if s.queues[a] != [] && s.current[a] < c.depths[a] then Drained(c, Popped(s, a), a) else s
  }

  /** Bring the diff of application i up to date, and let it go if it stops resting. */
  function RecountOne(c: Conf, s: State, i: nat): (r: State)
    requires Configured(c) && Shaped(c, s) && i < Apps(c)
    ensures Shaped(c, r)
  {
    SumPositive(c.weights);
    var d := Diff(s.thr[i], s.total, c.weights[i], Sum(c.weights));
    var s1 := s.(diffs := s.diffs[i := d]);
    if s.diffs[i] > REST && d <= REST then Drained(c, s1, i) else s1
  }

  /** The loop over applications i, i + 1, ... that brings the diffs up to date. */
  function Recounted(c: Conf, s: State, i: nat): (r: State)
    requires Configured(c) && Shaped(c, s) && i <= Apps(c)
    ensures Shaped(c, r)
    decreases Apps(c) - i
  {
    if i == Apps(c) then s else Recounted(c, RecountOne(c, s, i), i + 1)
  }

  function Credited(s: State, app: nat, amount: nat): State
    requires app < |s.thr|
  {
    s.(total := s.total + amount, thr := s.thr[app := s.thr[app] + amount])
  }

  // ---------- what every state satisfies ----------

  /** An application with queued requests has its depth full or is resting. */
  ghost predicate Held(c: Conf, s: State)
    requires Shaped(c, s)
  {
    forall a :: 0 <= a < Apps(c) && s.queues[a] != [] ==> s.current[a] >= c.depths[a] || s.diffs[a] > REST
  }

  ghost predicate QueueOkay(q: seq<Item>, a: nat, nextId: nat) {
    InOrder(q) && forall x :: x in q ==> x.app == a && x.id < nextId && x.start < INT_MAX
  }

  ghost predicate QueuesOkay(s: State) {
    forall a :: 0 <= a < |s.queues| ==> QueueOkay(s.queues[a], a, s.nextId)
  }

  ghost predicate DiffsOkay(c: Conf, s: State)
    requires Configured(c) && Shaped(c, s)
  {
    Sum(s.thr) == s.total && Sum(c.weights) > 0 && s.diffs == Diffs(s.thr, s.total, c.weights, Sum(c.weights))
  }

  ghost predicate Good(c: Conf, s: State) {
    Configured(c) && Shaped(c, s) && QueuesOkay(s) && Held(c, s) && DiffsOkay(c, s)
  }

  lemma {:induction false} PickIsLeast(c: Conf, s: State, n: nat)
    requires Shaped(c, s) && QueuesOkay(s) && n <= Apps(c)
    ensures Pick(c, s, n).None? ==> forall b :: 0 <= b < n ==> !Open(c, s, b)
    ensures Pick(c, s, n).Some? ==> var a := Pick(c, s, n).value;
      && (forall b :: 0 <= b < n && Open(c, s, b) ==> s.queues[a][0].start <= s.queues[b][0].start)
      && forall b :: 0 <= b < a && Open(c, s, b) ==> s.queues[a][0].start < s.queues[b][0].start
  {
    hide QueuesOkay;
    if n > 0 {
      PickIsLeast(c, s, n - 1);
      HeadTagFits(s, n - 1);
    }
  }

  lemma HeadTagFits(s: State, a: nat)
    requires QueuesOkay(s) && a < |s.queues|
    ensures s.queues[a] != [] ==> s.queues[a][0].start < INT_MAX
    ensures forall x :: x in s.queues[a] ==> s.queues[a][0].start <= x.start
  {
    assert QueueOkay(s.queues[a], a, s.nextId);
    HeadFirst(s.queues[a], a, s.nextId);
  }

  /** What the scan returns has the smallest start tag of all requests of all
      open applications; it returns nothing only if none is open. */
  lemma NextIsLeast(c: Conf, s: State)
    requires Shaped(c, s) && QueuesOkay(s)
    ensures Next(c, s).None? <==> forall b :: 0 <= b < Apps(c) ==> !Open(c, s, b)
    ensures forall b, x :: 0 <= b < Apps(c) && Open(c, s, b) && x in s.queues[b] ==>
              Next(c, s).Some? && Next(c, s).value.start <= x.start
  {
    hide QueuesOkay, Open;
    PickIsLeast(c, s, Apps(c));
    forall b, x | 0 <= b < Apps(c) && Open(c, s, b) && x in s.queues[b]
      ensures Next(c, s).Some? && Next(c, s).value.start <= x.start
    {
      HeadTagFits(s, b);
    }
  }

  lemma HeadFirst(q: seq<Item>, a: nat, nextId: nat)
    requires QueueOkay(q, a, nextId)
    ensures q != [] ==> q[0].start < INT_MAX && QueueOkay(q[1..], a, nextId)
    ensures forall x :: x in q ==> q[0].start <= x.start
  {
    if q != [] {
      assert q[0] in q;
      assert forall x :: x in q[1..] ==> x in q;
      forall x | x in q ensures q[0].start <= x.start {
        var i :| 0 <= i < |q| && q[i] == x;
        assert i > 0 ==> Before(q[0], q[i]);
      }
    }
  }

  /** When only one application is open the scan takes from it. */
  lemma OnlyOpen(c: Conf, s: State, a: nat)
    requires Shaped(c, s) && QueuesOkay(s) && a < Apps(c)
    requires forall b :: 0 <= b < Apps(c) && b != a ==> !Open(c, s, b)
    ensures Pick(c, s, Apps(c)) == if Open(c, s, a) then Some(a) else None
  {
    PickIsLeast(c, s, Apps(c));
  }

  lemma PoppedOkay(s: State, a: nat)
    requires QueuesOkay(s) && a < |s.queues| == |s.current| == |s.vts| && s.queues[a] != []
    ensures QueuesOkay(Popped(s, a))
  {
    HeadFirst(s.queues[a], a, s.nextId);
  }

  lemma QueuedUpOkay(s: State, app: nat, length: nat, weight: nat)
    requires QueuesOkay(s) && app < |s.vts| && app < |s.last| && app < |s.queues| && weight > 0
    requires Stamped(s, app, length, weight).start < INT_MAX
    ensures QueuesOkay(QueuedUp(s, app, length, weight))
    ensures QueuedUp(s, app, length, weight).queues[app] != []
  {
    var x := Stamped(s, app, length, weight);
    assert QueueOkay(s.queues[app], app, s.nextId);
    PlacedInOrder(s.queues[app], x);
    forall y | y in Placed(s.queues[app], x) ensures y == x || y in s.queues[app] {
      assert y in multiset(Placed(s.queues[app], x));
    }
  }

  /** A request told to go is the one the scan over all applications then
      returns; and enqueuing, with that dequeue, keeps every application held. */
  lemma ReceiveKeeps(c: Conf, s: State, app: nat, length: nat, weight: nat)
    requires Good(c, s) && app < Apps(c) && weight > 0 && Stamped(s, app, length, weight).start < INT_MAX
    ensures var s1 := QueuedUp(s, app, length, weight);
      if Goes(c, s, app) then
        && Next(c, s1) == Some(Stamped(s, app, length, weight)) && Good(c, Scanned(c, s1))
        && Scanned(c, s1).queues == s.queues
      else Good(c, s1)
  {
    var s1 := QueuedUp(s, app, length, weight);
    QueuedUpOkay(s, app, length, weight);
    if Goes(c, s, app) {
      OnlyOpen(c, s1, app);
      PoppedOkay(s1, app);
    }
  }

  /** A completion dispatches from the application that completed, if from any. */
  lemma CompleteKeeps(c: Conf, s: State, app: nat)
    requires Good(c, s) && app < Apps(c)
    ensures var s1 := s.(current := s.current[app := s.current[app] - 1]);
      && Good(c, Scanned(c, s1)) && (Next(c, s1).Some? ==> Next(c, s1).value.app == app)
  {
    var s1 := s.(current := s.current[app := s.current[app] - 1]);
    OnlyOpen(c, s1, app);
    if Open(c, s1, app) {
      PoppedOkay(s1, app);
      assert QueueOkay(s.queues[app], app, s.nextId) && s.queues[app][0] in s.queues[app];
    }
  }

  lemma {:induction false} DrainedFull(c: Conf, s: State, a: nat)
    requires Shaped(c, s) && QueuesOkay(s) && a < Apps(c)
    ensures var r := Drained(c, s, a);
      && Shaped(c, r) && QueuesOkay(r) && (r.queues[a] == [] || r.current[a] >= c.depths[a])
      && forall b :: 0 <= b < Apps(c) && b != a ==> r.queues[b] == s.queues[b] && r.current[b] == s.current[b]
    decreases |s.queues[a]|
  {
    if s.queues[a] != [] && s.current[a] < c.depths[a] {
      PoppedOkay(s, a);
      DrainedFull(c, Popped(s, a), a);
    }
  }

  /** Bringing the diffs up to date drains whoever stops resting. */
  lemma {:induction false} RecountKeeps(c: Conf, s: State, i: nat)
    requires Configured(c) && Shaped(c, s) && QueuesOkay(s) && Held(c, s) && i <= Apps(c) && Sum(c.weights) > 0
    requires s.diffs[..i] == Diffs(s.thr, s.total, c.weights, Sum(c.weights))[..i]
    ensures var r := Recounted(c, s, i);
      && Shaped(c, r) && QueuesOkay(r) && Held(c, r) && r.thr == s.thr && r.total == s.total
      && r.diffs == Diffs(s.thr, s.total, c.weights, Sum(c.weights))
    decreases Apps(c) - i
  {
    if i < Apps(c) {
      var d := Diff(s.thr[i], s.total, c.weights[i], Sum(c.weights));
      var s1 := s.(diffs := s.diffs[i := d]);
      DrainedFull(c, s1, i);
      var s2 := RecountOne(c, s, i);
      assert s2.diffs[..i + 1] == Diffs(s.thr, s.total, c.weights, Sum(c.weights))[..i + 1];
      hide Drained, Diffs, Diff, RecountOne, QueuesOkay, Sum;
      RecountKeeps(c, s2, i + 1);
    }
  }

  lemma CountKeeps(c: Conf, s: State, app: nat, amount: nat)
    requires Good(c, s) && app < Apps(c)
    ensures Good(c, Recounted(c, Credited(s, app, amount), 0))
  {
    SumUpdate(s.thr, app, s.thr[app] + amount);
    RecountKeeps(c, Credited(s, app, amount), 0);
  }

  // ---------- the requests out ----------

  /** What left the front of q for r to remain. */
  function Taken(q: seq<Item>, r: seq<Item>): seq<Item> { if |r| <= |q| then q[..|q| - |r|] else [] }

  /** Each application's requests out, with those that left its queue. */
  function Sent(out: seq<seq<Item>>, before: seq<seq<Item>>, after: seq<seq<Item>>): seq<seq<Item>>
    requires |out| == |before| == |after|
  {
    seq(|out|, a requires 0 <= a < |out| => out[a] + Taken(before[a], after[a]))
  }

  /** The start tag of the last of some items, or t. */
  function LastStart(t: int, items: seq<Item>): int { if items == [] then t else items[|items| - 1].start }

  /** From s to r requests only leave the fronts of the queues, are counted as
      they go, and go only below the depth of their application; its virtual time
      is the start tag of the one that left last. */
  ghost predicate Moves(c: Conf, s: State, r: State) {
    && Shaped(c, s) && Shaped(c, r) && r.nextId == s.nextId
    && forall a :: 0 <= a < Apps(c) ==>
         && Moved(s.queues[a], r.queues[a], s.current[a], r.current[a], c.depths[a])
         && r.vts[a] == LastStart(s.vts[a], Taken(s.queues[a], r.queues[a]))
  }

  ghost predicate Moved(q: seq<Item>, r: seq<Item>, current: int, current': int, depth: nat) {
    q == Taken(q, r) + r && current' == current + |Taken(q, r)| && (|Taken(q, r)| > 0 ==> current' <= depth)
  }

  lemma TakenFront(u: seq<Item>, s: seq<Item>)
    ensures Taken(u + s, s) == u
  {
  }

  lemma Reassoc(a: seq<Item>, b: seq<Item>, s: seq<Item>)
    ensures a + (b + s) == (a + b) + s
  {
  }

  lemma MovedTwice(q: seq<Item>, r: seq<Item>, s: seq<Item>, i: int, j: int, k: int, depth: nat)
    requires Moved(q, r, i, j, depth) && Moved(r, s, j, k, depth)
    ensures Moved(q, s, i, k, depth)
    ensures forall t :: LastStart(t, Taken(q, s)) == LastStart(LastStart(t, Taken(q, r)), Taken(r, s))
  {
    var u, v := Taken(q, r), Taken(r, s);
    hide Taken;
    Reassoc(u, v, s);
    TakenFront(u + v, s);
  }

  lemma MovesTwice(c: Conf, s: State, r: State, u: State)
    requires Moves(c, s, r) && Moves(c, r, u)
    ensures Moves(c, s, u)
  {
    hide Moved, LastStart, Taken;
    forall a | 0 <= a < Apps(c)
      ensures Moved(s.queues[a], u.queues[a], s.current[a], u.current[a], c.depths[a])
      ensures u.vts[a] == LastStart(s.vts[a], Taken(s.queues[a], u.queues[a]))
    {
      MovedTwice(s.queues[a], r.queues[a], u.queues[a], s.current[a], r.current[a], u.current[a], c.depths[a]);
    }
  }

  lemma StaysPut(c: Conf, s: State, r: State)
    requires Shaped(c, s) && Shaped(c, r) && r.queues == s.queues && r.current == s.current && r.nextId == s.nextId
    requires r.vts == s.vts
    ensures Moves(c, s, r)
  {
  }

  lemma PoppedMoves(c: Conf, s: State, a: nat)
    requires Shaped(c, s) && a < Apps(c) && s.queues[a] != [] && s.current[a] < c.depths[a]
    ensures Moves(c, s, Popped(s, a))
  {
    assert s.queues[a] == [s.queues[a][0]] + s.queues[a][1..];
  }

  lemma ScannedMoves(c: Conf, s: State)
    requires Shaped(c, s)
    ensures Moves(c, s, Scanned(c, s))
  {
    hide Moves;
    var r := Pick(c, s, |c.depths|);
    if r.Some? {
      PoppedMoves(c, s, r.value);
    } else {
      StaysPut(c, s, s);
    }
  }

  lemma {:induction false} DrainedMoves(c: Conf, s: State, a: nat)
    requires Shaped(c, s) && a < Apps(c)
    ensures Moves(c, s, Drained(c, s, a))
    decreases |s.queues[a]|
  {
    hide Moves;
    if s.queues[a] != [] && s.current[a] < c.depths[a] {
      PoppedMoves(c, s, a);
      DrainedMoves(c, Popped(s, a), a);
      MovesTwice(c, s, Popped(s, a), Drained(c, s, a));
    } else {
      StaysPut(c, s, s);
    }
  }

  lemma {:induction false} RecountedMoves(c: Conf, s: State, i: nat)
    requires Configured(c) && Shaped(c, s) && i <= Apps(c)
    ensures Moves(c, s, Recounted(c, s, i))
    decreases Apps(c) - i
  {
    hide Moves, Drained;
    if i == Apps(c) {
      StaysPut(c, s, s);
    } else {
      SumPositive(c.weights);
      var s1 := s.(diffs := s.diffs[i := Diff(s.thr[i], s.total, c.weights[i], Sum(c.weights))]);
      StaysPut(c, s, s1);
      DrainedMoves(c, s1, i);
      MovesTwice(c, s, s1, Drained(c, s1, i));
      var s2 := RecountOne(c, s, i);
      RecountedMoves(c, s2, i + 1);
      MovesTwice(c, s, s2, Recounted(c, s, i));
    }
  }

  // ---------- runs ----------

  /** The scheduler and, for each application, its requests that are out. */
  datatype Sys = Sys(s: State, out: seq<seq<Item>>)

  /** Finish is the completion of the k-th request out of an application. */
  datatype Event =
    | Receive(app: nat, length: nat, weight: nat)
    | Count(app: nat, amount: nat)
    | Finish(app: nat, k: nat)

  predicate Enabled(c: Conf, y: Sys, e: Event)
    requires |y.s.vts| == |y.s.last| == |y.out| == |c.depths|
  {
    && e.app < Apps(c)
    && (e.Receive? ==> e.weight > 0 && Stamped(y.s, e.app, e.length, e.weight).start < INT_MAX)
    && (e.Finish? ==> e.k < |y.out[e.app]|)
  }

  /** What the scheduler has before it dispatches. */
  function Begun(c: Conf, s: State, e: Event): State
    requires Configured(c) && Shaped(c, s) && e.app < Apps(c) && (e.Receive? ==> e.weight > 0)
  {
    match e
    case Receive(app, length, weight) => QueuedUp(s, app, length, weight)
    case Count(app, amount) => Credited(s, app, amount)
    case Finish(app, _) => s.(current := s.current[app := s.current[app] - 1])
  }

  /** message.c and proxy2.c: enqueue and perhaps dequeue; credit throughput; complete and dequeue. */
  function After(c: Conf, s: State, e: Event): (r: State)
    requires Configured(c) && Shaped(c, s) && e.app < Apps(c) && (e.Receive? ==> e.weight > 0)
    ensures Shaped(c, r)
  {
    var s1 := Begun(c, s, e);
    match e
    case Receive(app, _, _) => if Goes(c, s, app) then Scanned(c, s1) else s1
    case Count(_, _) => Recounted(c, s1, 0)
    case Finish(_, _) => Scanned(c, s1)
  }

  function Kept(out: seq<seq<Item>>, e: Event): seq<seq<Item>>
    requires e.Finish? ==> e.app < |out| && e.k < |out[e.app]|
  {
    if e.Finish? then out[e.app := out[e.app][..e.k] + out[e.app][e.k + 1..]] else out
  }

  function Step(c: Conf, y: Sys, e: Event): (r: Sys)
    requires Configured(c) && Shaped(c, y.s) && |y.out| == Apps(c) && Enabled(c, y, e)
    ensures Shaped(c, r.s) && |r.out| == Apps(c)
  {
    Sys(After(c, y.s, e), Sent(Kept(y.out, e), Begun(c, y.s, e).queues, After(c, y.s, e).queues))
  }

  function Fresh(c: Conf): State {
    var zeros := seq(|c.depths|, i => 0);
    State(seq(|c.depths|, i => []), zeros, zeros, zeros, zeros, zeros, 0, 0)
  }

  function Start(c: Conf): Sys { Sys(Fresh(c), seq(|c.depths|, i => [])) }

  lemma FreshGood(c: Conf)
    requires Configured(c)
    ensures Good(c, Fresh(c))
  {
    SumPositive(c.weights);
    SumZeros(Fresh(c).thr);
    assert forall w :: 0 * w / Sum(c.weights) == 0;
  }

  lemma StepKeeps(c: Conf, s: State, e: Event)
    requires Good(c, s) && e.app < Apps(c)
    requires e.Receive? ==> e.weight > 0 && Stamped(s, e.app, e.length, e.weight).start < INT_MAX
    ensures Good(c, After(c, s, e))
  {
    hide Good;
    match e {
      case Receive(app, length, weight) => ReceiveKeeps(c, s, app, length, weight);
      case Count(app, amount) => CountKeeps(c, s, app, amount);
      case Finish(app, _) => CompleteKeeps(c, s, app);
    }
  }

  /** The depth in use of each application is the number of its requests out, and
      no more than its depth. */
  ghost predicate Booked(c: Conf, y: Sys) {
    && Shaped(c, y.s) && |y.out| == Apps(c)
    && forall a :: 0 <= a < Apps(c) ==>
         && y.s.current[a] == |y.out[a]| <= c.depths[a]
         && forall x :: x in y.out[a] ==> x.app == a && x.id < y.s.nextId
  }

  lemma AfterMoves(c: Conf, s: State, e: Event)
    requires Configured(c) && Shaped(c, s) && e.app < Apps(c) && (e.Receive? ==> e.weight > 0)
    ensures Moves(c, Begun(c, s, e), After(c, s, e))
  {
    hide Moves;
    var s1 := Begun(c, s, e);
    ScannedMoves(c, s1);
    RecountedMoves(c, s1, 0);
    StaysPut(c, s1, s1);
  }

  /** Requests that move keep the books. */
  lemma SentBooked(c: Conf, s: State, r: State, out: seq<seq<Item>>)
    requires Moves(c, s, r) && Booked(c, Sys(s, out)) && QueuesOkay(s)
    ensures Booked(c, Sys(r, Sent(out, s.queues, r.queues)))
  {
    var out' := Sent(out, s.queues, r.queues);
    forall a | 0 <= a < Apps(c)
      ensures r.current[a] == |out'[a]| <= c.depths[a]
      ensures forall x: Item :: x in out'[a] ==> x.app == a && x.id < r.nextId
    {
      assert QueueOkay(s.queues[a], a, s.nextId);
      assert Moved(s.queues[a], r.queues[a], s.current[a], r.current[a], c.depths[a]);
      assert forall x :: x in Taken(s.queues[a], r.queues[a]) ==> x in s.queues[a];
    }
  }

  /** Before anything is dispatched the books are right, the finished request off them. */
  lemma BegunBooked(c: Conf, y: Sys, e: Event)
    requires Configured(c) && Booked(c, y) && QueuesOkay(y.s) && Enabled(c, y, e)
    ensures Booked(c, Sys(Begun(c, y.s, e), Kept(y.out, e))) && QueuesOkay(Begun(c, y.s, e))
  {
    if e.Receive? {
      QueuedUpOkay(y.s, e.app, e.length, e.weight);
    }
  }

  /** Every step keeps each application held and the books. */
  lemma StepBooked(c: Conf, y: Sys, e: Event)
    requires Good(c, y.s) && Booked(c, y) && Enabled(c, y, e)
    ensures Good(c, After(c, y.s, e)) && Booked(c, Step(c, y, e))
  {
    StepKeeps(c, y.s, e);
    AfterMoves(c, y.s, e);
    BegunBooked(c, y, e);
    hide Moves, Begun, After;
    SentBooked(c, Begun(c, y.s, e), After(c, y.s, e), Kept(y.out, e));
  }

  ghost predicate AllEnabled(c: Conf, y: Sys, es: seq<Event>)
    requires Configured(c) && Shaped(c, y.s) && |y.out| == Apps(c)
    decreases |es|
  {
    es == [] || (Enabled(c, y, es[0]) && AllEnabled(c, Step(c, y, es[0]), es[1..]))
  }

  function Run(c: Conf, y: Sys, es: seq<Event>): (r: Sys)
    requires Configured(c) && Shaped(c, y.s) && |y.out| == Apps(c) && AllEnabled(c, y, es)
    ensures Shaped(c, r.s) && |r.out| == Apps(c)
    decreases |es|
  {
    if es == [] then y else Run(c, Step(c, y, es[0]), es[1..])
  }

  lemma {:induction false} RunKeeps(c: Conf, y: Sys, es: seq<Event>)
    requires Good(c, y.s) && Booked(c, y) && AllEnabled(c, y, es)
    ensures Good(c, Run(c, y, es).s) && Booked(c, Run(c, y, es))
    decreases |es|
  {
    if es != [] {
      StepBooked(c, y, es[0]);
      hide Step, Enabled, Booked;
      RunKeeps(c, Step(c, y, es[0]), es[1..]);
    }
  }

  /** Over every run: whoever has requests queued has its depth full or rests,
      and at no time does everyone rest. */
  lemma NeverAllResting(c: Conf, es: seq<Event>)
    requires Configured(c) && AllEnabled(c, Start(c), es)
    ensures var s := Run(c, Start(c), es).s;
      Good(c, s) && exists a :: 0 <= a < Apps(c) && s.diffs[a] <= 0
  {
    FreshGood(c);
    RunKeeps(c, Start(c), es);
    var s := Run(c, Start(c), es).s;
    DiffsSum(s.thr, s.total, c.weights);
  }

  /** Over every run: the depth in use of each application is the number of its
      requests out, at most its depth; and whoever has requests queued and does
      not rest has exactly that many out. */
  lemma WithinDepth(c: Conf, es: seq<Event>, a: nat)
    requires Configured(c) && AllEnabled(c, Start(c), es) && a < Apps(c)
    ensures var y := Run(c, Start(c), es);
      && y.s.current[a] == |y.out[a]| <= c.depths[a]
      && (forall x :: x in y.out[a] ==> x.app == a)
      && (y.s.queues[a] != [] && y.s.diffs[a] <= REST ==> |y.out[a]| == c.depths[a])
  {
    FreshGood(c);
    RunKeeps(c, Start(c), es);
  }

  // ---------- whose throughput it is ----------

  /** The throughput counted for application a in a run, and for all. */
  function CreditOf(es: seq<Event>, a: nat): nat {
    if es == [] then 0 else (if es[0].Count? && es[0].app == a then es[0].amount else 0) + CreditOf(es[1..], a)
  }

  function CreditOfAll(es: seq<Event>): nat {
    if es == [] then 0 else (if es[0].Count? then es[0].amount else 0) + CreditOfAll(es[1..])
  }

  lemma StepCredits(c: Conf, s: State, e: Event, a: nat)
    requires Good(c, s) && e.app < Apps(c) && a < Apps(c) && (e.Receive? ==> e.weight > 0)
    ensures var r := After(c, s, e);
      && r.thr[a] == s.thr[a] + (if e.Count? && e.app == a then e.amount else 0)
      && r.total == s.total + if e.Count? then e.amount else 0
  {
    if e.Count? {
      hide Recounted;
      CountMoved(c, s, e.app, e.amount);
    }
  }

  lemma CountMoved(c: Conf, s: State, app: nat, amount: nat)
    requires Good(c, s) && app < Apps(c)
    ensures var r := Recounted(c, Credited(s, app, amount), 0);
      r.thr == Credited(s, app, amount).thr && r.total == Credited(s, app, amount).total
  {
    RecountKeeps(c, Credited(s, app, amount), 0);
  }

  lemma {:induction false} RunCredits(c: Conf, y: Sys, es: seq<Event>, a: nat)
    requires Good(c, y.s) && Booked(c, y) && AllEnabled(c, y, es) && a < Apps(c)
    ensures var r := Run(c, y, es).s;
      r.thr[a] == y.s.thr[a] + CreditOf(es, a) && r.total == y.s.total + CreditOfAll(es)
    decreases |es|
  {
    if es != [] {
      StepBooked(c, y, es[0]);
      StepCredits(c, y.s, es[0], a);
      hide After, Good, Booked, Enabled;
      RunCredits(c, Step(c, y, es[0]), es[1..], a);
    }
  }

  /** diff is what is mine less my share of all, weight in weights, rounded up. */
  ghost predicate CreditLessShare(diff: int, mine: nat, all: nat, weight: nat, weights: int) {
    weights * (mine - diff) <= all * weight < weights * (mine - diff) + weights
  }

  lemma DiffBounds(c: Conf, s: State, a: nat, mine: nat, all: nat)
    requires Good(c, s) && a < Apps(c) && s.thr[a] == mine && s.total == all
    ensures Sum(c.weights) > 0 && CreditLessShare(s.diffs[a], mine, all, c.weights[a], Sum(c.weights))
  {
    hide Sum, QueuesOkay, Held;
    QuotientBounds(all * c.weights[a], Sum(c.weights));
  }

  lemma CreditsFromStart(c: Conf, es: seq<Event>, a: nat)
    requires Configured(c) && AllEnabled(c, Start(c), es) && a < Apps(c)
    ensures var s := Run(c, Start(c), es).s;
      Good(c, s) && s.thr[a] == CreditOf(es, a) && s.total == CreditOfAll(es)
  {
    FreshGood(c);
    RunKeeps(c, Start(c), es);
    RunCredits(c, Start(c), es, a);
  }

  /** Over every run the difference of an application is the throughput counted
      for it less its share, by weight, of the throughput counted for all. */
  lemma DiffIsCreditLessShare(c: Conf, es: seq<Event>, a: nat)
    requires Configured(c) && AllEnabled(c, Start(c), es) && a < Apps(c)
    ensures var s := Run(c, Start(c), es).s;
      && s.thr[a] == CreditOf(es, a) && s.total == CreditOfAll(es) && Sum(c.weights) > 0
      && CreditLessShare(s.diffs[a], CreditOf(es, a), CreditOfAll(es), c.weights[a], Sum(c.weights))
  {
    hide Good, Sum, Run, AllEnabled, CreditOf, CreditOfAll, CreditLessShare;
    CreditsFromStart(c, es, a);
    DiffBounds(c, Run(c, Start(c), es).s, a, CreditOf(es, a), CreditOfAll(es));
  }

  // ---------- nothing lost, nothing served twice ----------

  /** What an event brings in for application a, and what it completes. */
  function CameBy(c: Conf, y: Sys, e: Event, a: nat): seq<Item>
    requires |y.s.vts| == |y.s.last| == |y.out| == |c.depths| && Enabled(c, y, e)
  {
    if e.Receive? && e.app == a then [Stamped(y.s, e.app, e.length, e.weight)] else []
  }

  function DoneBy(c: Conf, y: Sys, e: Event, a: nat): seq<Item>
    requires |y.s.vts| == |y.s.last| == |y.out| == |c.depths| && Enabled(c, y, e)
  {
    if e.Finish? && e.app == a then [y.out[a][e.k]] else []
  }

  function Came(c: Conf, y: Sys, es: seq<Event>, a: nat): seq<Item>
    requires Configured(c) && Shaped(c, y.s) && |y.out| == Apps(c) && AllEnabled(c, y, es)
    decreases |es|
  {
    if es == [] then [] else CameBy(c, y, es[0], a) + Came(c, Step(c, y, es[0]), es[1..], a)
  }

  function Done(c: Conf, y: Sys, es: seq<Event>, a: nat): seq<Item>
    requires Configured(c) && Shaped(c, y.s) && |y.out| == Apps(c) && AllEnabled(c, y, es)
    decreases |es|
  {
    if es == [] then [] else DoneBy(c, y, es[0], a) + Done(c, Step(c, y, es[0]), es[1..], a)
  }

  /** The requests of application a in the scheduler or out. */
  function About(y: Sys, a: nat): multiset<Item>
    requires a < |y.s.queues| && a < |y.out|
  {
    multiset(y.s.queues[a]) + multiset(y.out[a])
  }

  lemma BegunItems(c: Conf, y: Sys, e: Event, a: nat)
    requires Configured(c) && Shaped(c, y.s) && |y.out| == Apps(c) && Enabled(c, y, e) && a < Apps(c)
    requires QueuesOkay(y.s)
    ensures multiset(Begun(c, y.s, e).queues[a]) == multiset(y.s.queues[a]) + multiset(CameBy(c, y, e, a))
    ensures multiset(Kept(y.out, e)[a]) + multiset(DoneBy(c, y, e, a)) == multiset(y.out[a])
  {
    assert QueueOkay(y.s.queues[a], a, y.s.nextId);
    if e.Receive? && e.app == a {
      var x := Stamped(y.s, e.app, e.length, e.weight);
      PlacedInOrder(y.s.queues[a], x);
      assert multiset([x]) == multiset{x};
    }
    if e.Finish? && e.app == a {
      CutOut(y.out[a], e.k);
    }
  }

  lemma CutOut(q: seq<Item>, k: nat)
    requires k < |q|
    ensures multiset(q[..k] + q[k + 1..]) + multiset([q[k]]) == multiset(q)
  {
    assert q == q[..k] + [q[k]] + q[k + 1..];
  }

  lemma SentItems(c: Conf, s: State, r: State, out: seq<seq<Item>>, a: nat)
    requires Moves(c, s, r) && |out| == Apps(c) && a < Apps(c)
    ensures multiset(r.queues[a]) + multiset(Sent(out, s.queues, r.queues)[a])
            == multiset(s.queues[a]) + multiset(out[a])
  {
    assert Moved(s.queues[a], r.queues[a], s.current[a], r.current[a], c.depths[a]);
    hide Moved, Taken;
    assert s.queues[a] == Taken(s.queues[a], r.queues[a]) + r.queues[a];
  }

  lemma StepShape(c: Conf, y: Sys, e: Event)
    requires Good(c, y.s) && Booked(c, y) && Enabled(c, y, e)
    ensures Configured(c) && Shaped(c, y.s) && QueuesOkay(y.s) && |y.out| == Apps(c) && Enabled(c, y, e)
    ensures |Kept(y.out, e)| == Apps(c) && e.app < Apps(c) && (e.Receive? ==> e.weight > 0)
  {
  }

  lemma StepLosesNone(c: Conf, y: Sys, e: Event, a: nat)
    requires Good(c, y.s) && Booked(c, y) && Enabled(c, y, e) && a < Apps(c)
    ensures About(Step(c, y, e), a) + multiset(DoneBy(c, y, e, a)) == About(y, a) + multiset(CameBy(c, y, e, a))
  {
    StepShape(c, y, e);
    hide Good, Booked, Begun, After, Moves, CameBy, DoneBy, Kept, Sent, QueuesOkay, Enabled;
    BegunItems(c, y, e, a);
    AfterMoves(c, y.s, e);
    SentItems(c, Begun(c, y.s, e), After(c, y.s, e), Kept(y.out, e), a);
    AllAccounted(multiset(y.s.queues[a]), multiset(CameBy(c, y, e, a)), multiset(Begun(c, y.s, e).queues[a]),
                 multiset(Kept(y.out, e)[a]), multiset(DoneBy(c, y, e, a)), multiset(y.out[a]),
                 About(Step(c, y, e), a));
  }

  lemma AllAccounted(q: multiset<Item>, came: multiset<Item>, begun: multiset<Item>,
                     kept: multiset<Item>, done: multiset<Item>, out: multiset<Item>, about: multiset<Item>)
    requires begun == q + came && kept + done == out && about == begun + kept
    ensures about + done == q + out + came
  {
  }

  /** Over every run each request of an application waits, is out, or has
      completed, once. */
  lemma {:induction false} NothingLost(c: Conf, y: Sys, es: seq<Event>, a: nat)
    requires Good(c, y.s) && Booked(c, y) && AllEnabled(c, y, es) && a < Apps(c)
    ensures About(Run(c, y, es), a) + multiset(Done(c, y, es, a)) == About(y, a) + multiset(Came(c, y, es, a))
    decreases |es|
  {
    if es != [] {
      var y1 := Step(c, y, es[0]);
      StepBooked(c, y, es[0]);
      StepLosesNone(c, y, es[0], a);
      hide After, Good, Booked, Enabled, Step, About, CameBy, DoneBy;
      NothingLost(c, y1, es[1..], a);
      Balance(About(y, a), multiset(DoneBy(c, y, es[0], a)), About(y1, a), multiset(CameBy(c, y, es[0], a)),
              multiset(Done(c, y1, es[1..], a)), About(Run(c, y, es), a), multiset(Came(c, y1, es[1..], a)));
    }
  }

  // ---------- the scheduler ----------

  datatype Reason = NewIo | CompleteIo(app: nat) | DiffChange(app: nat)

  /** What one dequeue call does, for its reason. */
  function Advanced(c: Conf, s: State, r: Reason): State
    requires Shaped(c, s) && (r.NewIo? || r.app < Apps(c))
  {
    match r
    case NewIo => Scanned(c, s)
    case CompleteIo(app) => Scanned(c, s.(current := s.current[app := s.current[app] - 1]))
    case DiffChange(app) =>
      if s.queues[app] != [] && s.current[app] < c.depths[app] then Popped(s, app) else s
  }

  function Dispatched(c: Conf, s: State, r: Reason): Option<Item>
    requires Shaped(c, s) && (r.NewIo? || r.app < Apps(c))
  {
    match r
    case NewIo => Next(c, s)
    case CompleteIo(app) => Next(c, s.(current := s.current[app := s.current[app] - 1]))
    case DiffChange(app) =>
      if s.queues[app] != [] && s.current[app] < c.depths[app] then Some(s.queues[app][0]) else None
  }

  /** One turn of draining: the first of the queue leaves, or all is drained. */
  lemma DrainTurn(c: Conf, s: State, a: nat)
    requires Shaped(c, s) && a < Apps(c)
    ensures var s', next := Advanced(c, s, DiffChange(a)), Dispatched(c, s, DiffChange(a));
      && |s'.queues| == |s.queues| && |s'.current| == |s.current| && |s'.vts| == |s.vts|
      && Drained(c, s', a) == Drained(c, s, a) && (next == None ==> s' == Drained(c, s, a))
      && s.queues[a] == AsSeq(next) + s'.queues[a]
  {
  }

  class Scheduler {
    const c: Conf
    const currentDepths: array<int>
    const virtualTimes: array<int>
    const lastFinishTags: array<int>
    const diffs: array<int>
    const throughputs: array<nat>
    var heapQueues: seq<seq<Item>>
    var totalThroughput: nat
    var itemId: nat

    ghost function S(): State
      reads this, currentDepths, virtualTimes, lastFinishTags, diffs, throughputs
    {
      State(heapQueues, currentDepths[..], virtualTimes[..], lastFinishTags[..], diffs[..],
            throughputs[..], totalThroughput, itemId)
    }

    ghost predicate Valid()
      reads this, currentDepths, virtualTimes, lastFinishTags, diffs, throughputs
    {
      && Configured(c) && Shaped(c, S())
      && currentDepths != virtualTimes && currentDepths != lastFinishTags && currentDepths != diffs
      && virtualTimes != lastFinishTags && virtualTimes != diffs && lastFinishTags != diffs
    }

    constructor (c: Conf)
      requires Configured(c)
      ensures Valid() && this.c == c && S() == Fresh(c) && Good(c, S())
    {
      this.c := c;
      var n := |c.depths|;
      currentDepths := new int[n](i => 0);
      virtualTimes := new int[n](i => 0);
      lastFinishTags := new int[n](i => 0);
      diffs := new int[n](i => 0);
      throughputs := new nat[n](i => 0);
      heapQueues := seq(n, i => []);
      totalThroughput, itemId := 0, 0;
      new;
      assert S() == Fresh(c);
      FreshGood(c);
    }

    /** sfqd3_enqueue */
    method Enqueue(app: nat, length: nat, weight: nat) returns (dispatched: bool)
      requires Valid() && app < Apps(c) && weight > 0
      modifies this, lastFinishTags
      ensures Valid() && S() == QueuedUp(old(S()), app, length, weight)
      ensures dispatched == Goes(c, old(S()), app)
    {
      var startTag := Max(virtualTimes[app], lastFinishTags[app]);
      var finishTag := startTag + length / weight;
      lastFinishTags[app] := finishTag;
      var item := Item(itemId, app, startTag, finishTag);
      itemId := itemId + 1;
      if diffs[app] > REST || currentDepths[app] >= c.depths[app] || heapQueues[app] != [] {
        heapQueues := heapQueues[app := Placed(heapQueues[app], item)];
        return false;
      }
      heapQueues := heapQueues[app := Placed(heapQueues[app], item)];
      dispatched := true;
    }

    /** The scan over the applications that are open. */
    method Scan() returns (openApp: Option<nat>)
      requires Valid()
      ensures openApp == Pick(c, S(), Apps(c))
    {
      var smallestStartTag := INT_MAX;
      openApp := None;
      var l := 0;
      while l < Apps(c)
        invariant l <= Apps(c) && openApp == Pick(c, S(), l) && smallestStartTag == HeadTag(S(), openApp)
      {
        if diffs[l] <= REST {
          if currentDepths[l] < c.depths[l] && heapQueues[l] != [] {
            var next := heapQueues[l][0];
            if next.start < smallestStartTag {
              smallestStartTag := next.start;
              openApp := Some(l);
            }
          }
        }
        l := l + 1;
      }
    }

    method TakeFrom(a: nat) returns (next: Item)
      requires Valid() && a < Apps(c) && heapQueues[a] != []
      modifies this, currentDepths, virtualTimes
      ensures Valid() && next == old(heapQueues[a][0]) && S() == Popped(old(S()), a)
    {
      currentDepths[a] := currentDepths[a] + 1;
      next := heapQueues[a][0];
      heapQueues := heapQueues[a := heapQueues[a][1..]];
      virtualTimes[a] := next.start;
    }

    /** sfqd3_get_next_request */
    method GetNextRequest(r: Reason) returns (next: Option<Item>)
      requires Valid() && (r.NewIo? || r.app < Apps(c))
      modifies this, currentDepths, virtualTimes
      ensures Valid() && next == Dispatched(c, old(S()), r) && S() == Advanced(c, old(S()), r)
    {
      if r.CompleteIo? {
        currentDepths[r.app] := currentDepths[r.app] - 1;
      }
      if r.DiffChange? {
        if heapQueues[r.app] == [] || currentDepths[r.app] >= c.depths[r.app] {
          return None;
        }
        var item := TakeFrom(r.app);
        return Some(item);
      }
      var openApp := Scan();
      if openApp == None {
        return None;
      }
      var item := TakeFrom(openApp.value);
      next := Some(item);
    }

    /** message.c on received throughput: credit it, bring every diff up to date,
        and let those that stop resting go. */
    method CountThroughput(app: nat, amount: nat)
      requires Valid() && app < Apps(c)
      modifies this, currentDepths, virtualTimes, diffs, throughputs
      ensures Valid() && S() == Recounted(c, Credited(old(S()), app, amount), 0)
    {
      hide RecountOne;
      totalThroughput := totalThroughput + amount;
      throughputs[app] := throughputs[app] + amount;
      var s := 0;
      ghost var goal := Recounted(c, S(), 0);
      assert S() == Credited(old(S()), app, amount);
      while s < Apps(c)
        invariant s <= Apps(c) && Valid() && Recounted(c, S(), s) == goal
      {
        UpdateDiff(s);
        s := s + 1;
      }
    }

    method UpdateDiff(s: nat)
      requires Valid() && s < Apps(c)
      modifies this, currentDepths, virtualTimes, diffs
      ensures Valid() && S() == RecountOne(c, old(S()), s)
    {
      hide Drained;
      SumPositive(c.weights);
      var oldDiff := diffs[s];
      diffs[s] := throughputs[s] - totalThroughput * c.weights[s] / Sum(c.weights);
      if oldDiff > REST && diffs[s] <= REST {
        var released := DrainApp(s);
      }
    }

    /** The inner loop: dequeue for one application until nothing comes. */
    method DrainApp(a: nat) returns (released: seq<Item>)
      requires Valid() && a < Apps(c)
      modifies this, currentDepths, virtualTimes
      ensures Valid() && S() == Drained(c, old(S()), a) && old(heapQueues[a]) == released + heapQueues[a]
    {
      hide Drained, Advanced, Dispatched;
      ghost var goal := Drained(c, S(), a);
      released := [];
      DrainTurn(c, S(), a);
      var newItem := GetNextRequest(DiffChange(a));
      while newItem != None
        invariant Valid() && Drained(c, S(), a) == goal
        invariant newItem == None ==> S() == goal
        invariant old(heapQueues[a]) == released + (AsSeq(newItem) + heapQueues[a])
        decreases |AsSeq(newItem) + heapQueues[a]|
      {
        Reassoc(released, [newItem.value], heapQueues[a]);
        released := released + [newItem.value];
        DrainTurn(c, S(), a);
        newItem := GetNextRequest(DiffChange(a));
      }
    }
  }
}
