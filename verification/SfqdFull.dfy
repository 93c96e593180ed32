/** SFQ(D) for data and metadata requests (scheduler_SFQD_Full.c): requests have
    a weight in slots, the list is sorted behind every append, and both enqueue
    and dequeue scan it for the first request that fits. */
module SfqdFull {
  import opened Basics
  import opened Division
  import opened LinkedList
  import MergeSort

  const REDUCER: nat := 32
  const DEFAULT_META_COST: nat := 10240

  /** depth slots in all; a request over threshold bytes takes factor slots. The
      list is sorted by cmp, whatever that compares. */
  datatype Conf = Conf(depth: nat, factor: nat, threshold: nat, blocking: bool, hard: bool, cmp: (Item, Item) -> int)

  datatype Item = Item(id: nat, app: nat, socket: int, start: int, finish: int, length: nat, depth: nat)

  datatype Full = Full(queue: seq<Item>, current: int, small: int, vt: int, last: seq<int>, nextId: nat)

  datatype Event = NewWork | Complete(item: Option<Item>)

  /** list_sfqd_sort_comp takes the second field of a queue item for its start
      tag; in the queue items of this scheduler that is the request socket. */
  function BySocket(): (Item, Item) -> int { (a: Item, b: Item) => a.socket - b.socket }

  function FinishTag(length: nat, weight: nat, start: int): int
    requires weight > 0
  {
    if weight * REDUCER > length then start + 1 else start + length / weight / REDUCER
  }

  function NewItem(c: Conf, s: Full, app: nat, socket: int, length: nat, weight: nat): Item
    requires app < |s.last| && weight > 0
  {
    var start := Max(s.vt, s.last[app]);
    Item(s.nextId, app, socket, start, FinishTag(length, weight, start), length,
         if length <= c.threshold then 1 else c.factor)
  }

  function Enqueued(c: Conf, s: Full, app: nat, socket: int, length: nat, weight: nat): Full
    requires app < |s.last| && weight > 0
  {
    var x := NewItem(c, s, app, socket, length, weight);
    Full(MergeSort.Sort(c.cmp, s.queue + [x]), s.current, if length <= c.threshold then s.small + 1 else s.small, s.vt,
         s.last[app := x.finish], s.nextId + 1)
  }

  /** The slots that x counts for while small requests are about. */
  function Tentative(c: Conf, small: int, x: Item): nat {
    if (small > 0 && c.blocking) || c.hard then x.depth else 1
  }

  function Fits(c: Conf, small: int, current: int): Item -> bool {
    (x: Item) => Tentative(c, small, x) + current <= c.depth
  }

  /** The loop of sfqdfull_enqueue: is the first item that fits the one with this id? */
  predicate FirstFitIs(c: Conf, small: int, current: int, q: seq<Item>, id: nat) {
    q != [] && if Fits(c, small, current)(q[0]) then q[0].id == id else FirstFitIs(c, small, current, q[1..], id)
  }

  /** The answer of sfqdfull_enqueue about x, once queued. */
  predicate Goes(c: Conf, s: Full, x: Item) {
    Fits(c, s.small, s.current)(x) && FirstFitIs(c, s.small, s.current, s.queue, x.id)
  }

  function LastDepth(e: Event): nat {
    if e.Complete? && e.item.Some? then e.item.value.depth else 0
  }

  function SmallAfter(s: Full, e: Event): int {
    if e.Complete? && LastDepth(e) == 1 then s.small - 1 else s.small
  }

  function Reduce(c: Conf, e: Event): nat {
    if e.NewWork? then 0 else if c.hard then LastDepth(e) else 1
  }

  /** What fits once the finished request is off the books. */
  function FitsAfter(c: Conf, s: Full, e: Event): Item -> bool {
    Fits(c, SmallAfter(s, e), s.current - Reduce(c, e))
  }

  function Chosen(c: Conf, s: Full, e: Event): Option<Item> { FirstMatch(FitsAfter(c, s, e), s.queue) }

  function HasId(id: nat): Item -> bool { (x: Item) => x.id == id }

  function Dequeued(c: Conf, s: Full, e: Event): Full {
    var small, reduce := SmallAfter(s, e), Reduce(c, e);
    match Chosen(c, s, e)
    case None => s.(small := small, current := s.current - reduce)
    case Some(x) =>
      s.(queue := WithoutFirst(HasId(x.id), s.queue), small := small, vt := x.start,
         current := s.current + Tentative(c, small, x) - reduce)
  }

  /** No two items queued have the same id, and all ids are used up. */
  ghost predicate Okay(items: multiset<Item>, nextId: nat) {
    && (forall x :: x in items ==> items[x] == 1 && x.id < nextId)
    && forall x, y :: x in items && y in items && x.id == y.id ==> x == y
  }

  lemma {:induction false} FirstMatchIs<T>(p: T -> bool, s: seq<T>)
    ensures FirstMatch(p, s).None? ==> forall i :: 0 <= i < |s| ==> !p(s[i])
    ensures FirstMatch(p, s).Some? ==>
      exists i :: 0 <= i < |s| && p(s[i]) && FirstMatch(p, s) == Some(s[i]) && forall k :: 0 <= k < i ==> !p(s[k])
  {
    if s != [] && !p(s[0]) {
      FirstMatchIs(p, s[1..]);
      if FirstMatch(p, s).Some? {
        var i :| 0 <= i < |s[1..]| && p(s[1..][i]) && FirstMatch(p, s[1..]) == Some(s[1..][i])
                 && forall k :: 0 <= k < i ==> !p(s[1..][k]);
        assert s[i + 1] == s[1..][i];
        assert forall k :: 0 < k < i + 1 ==> s[k] == s[1..][k - 1];
      } else {
        assert forall i :: 0 < i < |s| ==> s[i] == s[1..][i - 1];
      }
    }
  }

  // ---------- the look-ahead ----------

  /** The queue after an enqueue is a rearrangement of the old one and the new item. */
  lemma EnqueuedItems(c: Conf, s: Full, app: nat, socket: int, length: nat, weight: nat)
    requires app < |s.last| && weight > 0
    ensures var s', x := Enqueued(c, s, app, socket, length, weight), NewItem(c, s, app, socket, length, weight);
      && multiset(s'.queue) == multiset(s.queue) + multiset{x} && |s'.queue| == |s.queue| + 1
      && (Okay(multiset(s.queue), s.nextId) ==> Okay(multiset(s'.queue), s'.nextId))
  {
    MergeSort.SortRearranges(c.cmp, s.queue + [NewItem(c, s, app, socket, length, weight)]);
  }

  lemma {:induction false} FirstFitFound(c: Conf, small: int, current: int, q: seq<Item>, id: nat)
    ensures FirstFitIs(c, small, current, q, id) <==>
            FirstMatch(Fits(c, small, current), q).Some? && FirstMatch(Fits(c, small, current), q).value.id == id
  {
    if q != [] && !Fits(c, small, current)(q[0]) {
      FirstFitFound(c, small, current, q[1..], id);
    }
  }

  /** The scan of an enqueue with its short cut finds what the scan of a dequeue finds. */
  lemma GoesIsChosen(c: Conf, s: Full, x: Item)
    requires Okay(multiset(s.queue), s.nextId) && x in s.queue
    ensures Goes(c, s, x) <==> Chosen(c, s, NewWork) == Some(x)
  {
    FirstFitFound(c, s.small, s.current, s.queue, x.id);
    FirstMatchIs(Fits(c, s.small, s.current), s.queue);
    assert forall i :: 0 <= i < |s.queue| ==> s.queue[i] in multiset(s.queue);
    assert x in multiset(s.queue);
  }

  /** The two first-fit scans agree, in every mode and for every comparator: an
      enqueue says dispatched exactly when the dequeue that follows returns the
      item just enqueued. */
  lemma LookaheadExact(c: Conf, s: Full, app: nat, socket: int, length: nat, weight: nat)
    requires Okay(multiset(s.queue), s.nextId) && app < |s.last| && weight > 0
    ensures var s', x := Enqueued(c, s, app, socket, length, weight), NewItem(c, s, app, socket, length, weight);
            Goes(c, s', x) <==> Chosen(c, s', NewWork) == Some(x)
  {
    var s', x := Enqueued(c, s, app, socket, length, weight), NewItem(c, s, app, socket, length, weight);
    EnqueuedItems(c, s, app, socket, length, weight);
    assert x in multiset(s'.queue);
    GoesIsChosen(c, s', x);
  }

  // ---------- who goes first ----------

  /** x comes before y in line: the smaller by the comparator, else the older. */
  predicate Ahead(cmp: (Item, Item) -> int, x: Item, y: Item) {
    cmp(x, y) < 0 || (cmp(x, y) == 0 && x.id < y.id)
  }

  ghost predicate InLine(cmp: (Item, Item) -> int, q: seq<Item>) {
    forall i, j :: 0 <= i < j < |q| ==> Ahead(cmp, q[i], q[j])
  }

  /** x fits, and it is ahead of every other item queued that does. */
  ghost predicate First(c: Conf, s: Full, e: Event, x: Item) {
    && x in s.queue && FitsAfter(c, s, e)(x)
    && forall y :: y in s.queue && FitsAfter(c, s, e)(y) && y != x ==> Ahead(c.cmp, x, y)
  }

  lemma BySocketIsOrder()
    ensures MergeSort.TotalPreorder(BySocket())
  {
  }

  /** An insertion between what is not greater and what is greater. */
  lemma InsertInLine(cmp: (Item, Item) -> int, q: seq<Item>, x: Item, k: nat)
    requires InLine(cmp, q) && k <= |q|
    requires forall i :: 0 <= i < k ==> Ahead(cmp, q[i], x)
    requires forall i :: k <= i < |q| ==> Ahead(cmp, x, q[i])
    ensures InLine(cmp, q[..k] + [x] + q[k..])
  {
    hide Ahead;
    var r := q[..k] + [x] + q[k..];
    forall i, j | 0 <= i < j < |r| ensures Ahead(cmp, r[i], r[j]) {
      assert i != k ==> r[i] == q[if i < k then i else i - 1];
      assert j != k ==> r[j] == q[if j < k then j else j - 1];
    }
  }

  lemma EnqueueInLine(c: Conf, s: Full, app: nat, socket: int, length: nat, weight: nat)
    requires MergeSort.TotalPreorder(c.cmp) && Okay(multiset(s.queue), s.nextId) && InLine(c.cmp, s.queue)
    requires app < |s.last| && weight > 0
    ensures InLine(c.cmp, Enqueued(c, s, app, socket, length, weight).queue)
  {
    var x := NewItem(c, s, app, socket, length, weight);
    MergeSort.SortSorted(c.cmp, s.queue);
    MergeSort.SortAfterAppend(c.cmp, s.queue, x);
    var k := MergeSort.InsertedAt(c.cmp, s.queue, x);
    assert forall i :: 0 <= i < |s.queue| ==> s.queue[i] in multiset(s.queue);
    assert forall i :: k <= i < |s.queue| ==> c.cmp(x, s.queue[i]) < 0;
    InsertInLine(c.cmp, s.queue, x, k);
  }

  /** A dequeue returns the first in line of those that fit, or none fits. */
  lemma ChosenIsFirst(c: Conf, s: Full, e: Event)
    requires MergeSort.TotalPreorder(c.cmp) && InLine(c.cmp, s.queue)
    ensures forall x :: Chosen(c, s, e) == Some(x) <==> First(c, s, e, x)
    ensures Chosen(c, s, e).None? ==> forall x :: x in s.queue ==> !FitsAfter(c, s, e)(x)
  {
    FirstMatchIs(FitsAfter(c, s, e), s.queue);
    hide FitsAfter, FirstMatch;
    if Chosen(c, s, e).Some? {
      var z, p := Chosen(c, s, e).value, FitsAfter(c, s, e);
      var i :| 0 <= i < |s.queue| && p(s.queue[i]) && z == s.queue[i] && forall k :: 0 <= k < i ==> !p(s.queue[k]);
      forall y | y in s.queue && p(y) && y != z ensures Ahead(c.cmp, z, y) {
        var j :| 0 <= j < |s.queue| && s.queue[j] == y;
        assert i < j;
      }
      assert First(c, s, e, z);
      forall x | First(c, s, e, x) ensures x == z {
        OneFirst(c, s, e, x, z);
      }
    }
  }

  lemma OneFirst(c: Conf, s: Full, e: Event, x: Item, z: Item)
    requires MergeSort.TotalPreorder(c.cmp) && First(c, s, e, x) && First(c, s, e, z)
    ensures x == z
  {
    assert x != z ==> Ahead(c.cmp, x, z) && Ahead(c.cmp, z, x);
  }

  // ---------- the books ----------

  function Total(f: Item -> nat, xs: seq<Item>): nat {
    if xs == [] then 0 else f(xs[0]) + Total(f, xs[1..])
  }

  function Small(c: Conf): Item -> nat { (x: Item) => if x.length <= c.threshold then 1 else 0 }

  /** The slots that a request gives back. */
  function Weight(c: Conf): Item -> nat { (x: Item) => if c.hard then x.depth else 1 }

  lemma {:induction false} TotalConcat(f: Item -> nat, a: seq<Item>, b: seq<Item>)
    ensures Total(f, a + b) == Total(f, a) + Total(f, b)
  {
    if a == [] {
      assert a + b == b;
    } else {
      TotalConcat(f, a[1..], b);
      assert (a + b)[1..] == a[1..] + b;
    }
  }

  lemma TotalAppend(f: Item -> nat, a: seq<Item>, x: Item)
    ensures Total(f, a + [x]) == Total(f, a) + f(x)
  {
    TotalConcat(f, a, [x]);
  }

  lemma CutAt<T>(xs: seq<T>, k: nat)
    requires k < |xs|
    ensures xs == xs[..k] + [xs[k]] + xs[k + 1..]
  {
  }

  lemma TotalWithout(f: Item -> nat, xs: seq<Item>, k: nat)
    requires k < |xs|
    ensures Total(f, xs) == Total(f, xs[..k] + xs[k + 1..]) + f(xs[k])
  {
    hide Total;
    CutAt(xs, k);
    TotalConcat(f, xs[..k] + [xs[k]], xs[k + 1..]);
    TotalAppend(f, xs[..k], xs[k]);
    TotalConcat(f, xs[..k], xs[k + 1..]);
  }

  lemma WithoutItems(xs: seq<Item>, k: nat)
    requires k < |xs|
    ensures multiset(xs) == multiset(xs[..k] + xs[k + 1..]) + multiset{xs[k]}
  {
    CutAt(xs, k);
  }

  lemma SameRest<T>(a: multiset<T>, b: multiset<T>, x: T)
    requires a + multiset{x} == b + multiset{x}
    ensures a == b
  {
    assert a == (a + multiset{x}) - multiset{x};
    assert b == (b + multiset{x}) - multiset{x};
  }

  /** A rearrangement changes no total. */
  lemma {:induction false} TotalSame(f: Item -> nat, p: seq<Item>, q: seq<Item>)
    requires multiset(p) == multiset(q)
    ensures Total(f, p) == Total(f, q)
    decreases |p|
  {
    if p == [] {
      assert |multiset(q)| == |q|;
    } else {
      assert p[0] in multiset(q);
      var j :| 0 <= j < |q| && q[j] == p[0];
      WithoutItems(q, j);
      WithoutItems(p, 0);
      assert p[..0] + p[0 + 1..] == p[1..];
      SameRest(multiset(p[1..]), multiset(q[..j] + q[j + 1..]), p[0]);
      TotalSame(f, p[1..], q[..j] + q[j + 1..]);
      TotalWithout(f, q, j);
    }
  }

  ghost predicate Sized(c: Conf, xs: seq<Item>) {
    forall x :: x in xs ==> x.depth == if x.length <= c.threshold then 1 else c.factor
  }

  lemma SizedSame(c: Conf, p: seq<Item>, q: seq<Item>)
    requires Sized(c, p) && multiset(q) <= multiset(p)
    ensures Sized(c, q)
  {
    assert forall x :: x in q ==> x in multiset(q);
  }

  lemma {:induction false} LoadCounts(c: Conf, xs: seq<Item>)
    requires Sized(c, xs)
    ensures c.factor > 0 ==> |xs| <= Total(Weight(c), xs)
  {
    if xs != [] {
      assert xs[0] in xs;
      assert forall x :: x in xs[1..] ==> x in xs;
      LoadCounts(c, xs[1..]);
    }
  }

  /** The scheduler and the requests it has dispatched and that are not complete. */
  datatype Sys = Sys(s: Full, out: seq<Item>)

  datatype Op = Receive(app: nat, socket: int, length: nat, weight: nat) | Finish(k: nat)

  predicate Enabled(y: Sys, op: Op) {
    match op
    case Receive(app, _, _, weight) => app < |y.s.last| && weight > 0
    case Finish(k) => k < |y.out|
  }

  /** message.c: enqueue, and dequeue at once if told to; on completion dequeue. */
  function Step(c: Conf, y: Sys, op: Op): Sys
    requires Enabled(y, op)
  {
    match op
    case Receive(app, socket, length, weight) =>
      var s := Enqueued(c, y.s, app, socket, length, weight);
      if Goes(c, s, NewItem(c, y.s, app, socket, length, weight))
      then Sys(Dequeued(c, s, NewWork), y.out + AsSeq(Chosen(c, s, NewWork)))
      else Sys(s, y.out)
    case Finish(k) =>
      var e := Complete(Some(y.out[k]));
      Sys(Dequeued(c, y.s, e), y.out[..k] + y.out[k + 1..] + AsSeq(Chosen(c, y.s, e)))
  }

  /** The small requests about are counted. */
  ghost predicate SmallRight(c: Conf, y: Sys) {
    y.s.small == Total(Small(c), y.s.queue) + Total(Small(c), y.out)
  }

  /** The slots in use are those of the requests out. */
  ghost predicate SlotsRight(c: Conf, y: Sys) { y.s.current == Total(Weight(c), y.out) }

  /** What holds in every mode: no more slots are in use than there are, and no
      fewer than the requests out give back. */
  ghost predicate Accounted(c: Conf, y: Sys) {
    && Okay(multiset(y.s.queue), y.s.nextId) && Sized(c, y.s.queue) && Sized(c, y.out)
    && y.s.current <= c.depth
    && (c.hard || !c.blocking ==> SlotsRight(c, y))
    && (c.factor > 0 ==> Total(Weight(c), y.out) <= y.s.current)
    && (c.factor != 1 || c.depth == 0 ==> SmallRight(c, y))
  }

  lemma IdsDiffer(s: Full, i: nat, j: nat)
    requires Okay(multiset(s.queue), s.nextId) && i < |s.queue| && j < |s.queue| && s.queue[i] != s.queue[j]
    ensures s.queue[i].id != s.queue[j].id
  {
    assert s.queue[i] in multiset(s.queue) && s.queue[j] in multiset(s.queue);
  }

  lemma RemovedById(s: Full, p: Item -> bool) returns (i: nat)
    requires Okay(multiset(s.queue), s.nextId) && FirstMatch(p, s.queue).Some?
    ensures i < |s.queue| && s.queue[i] == FirstMatch(p, s.queue).value && p(s.queue[i])
    ensures FirstMatch(HasId(s.queue[i].id), s.queue) == Some(s.queue[i])
    ensures WithoutFirst(HasId(s.queue[i].id), s.queue) == s.queue[..i] + s.queue[i + 1..]
  {
    FirstMatchIs(p, s.queue);
    i :| 0 <= i < |s.queue| && p(s.queue[i]) && FirstMatch(p, s.queue) == Some(s.queue[i])
         && forall k :: 0 <= k < i ==> !p(s.queue[k]);
    hide Okay, FirstMatch, WithoutFirst;
    forall k | 0 <= k < i ensures s.queue[k].id != s.queue[i].id {
      IdsDiffer(s, k, i);
    }
    FirstMatchAt(HasId(s.queue[i].id), s.queue, i);
  }

  lemma OkayWithout(s: Full, i: nat)
    requires Okay(multiset(s.queue), s.nextId) && i < |s.queue|
    ensures Okay(multiset(s.queue[..i] + s.queue[i + 1..]), s.nextId) && s.queue[i] !in s.queue[..i] + s.queue[i + 1..]
  {
    WithoutItems(s.queue, i);
    var m := multiset(s.queue[..i] + s.queue[i + 1..]);
    assert s.queue[i] in multiset(s.queue);
    assert forall y :: y in m ==> y in multiset(s.queue) && m[y] <= multiset(s.queue)[y];
  }

  /** An item that leaves the queue. */
  lemma Leaves(c: Conf, s: Full, i: nat)
    requires Okay(multiset(s.queue), s.nextId) && Sized(c, s.queue) && i < |s.queue|
    ensures var x, q := s.queue[i], s.queue[..i] + s.queue[i + 1..];
      && Okay(multiset(q), s.nextId) && Sized(c, q) && x !in q && (forall y :: y in q ==> y in s.queue)
      && x.depth == (if x.length <= c.threshold then 1 else c.factor)
      && Total(Small(c), s.queue) == Total(Small(c), q) + Small(c)(x)
  {
    var x, q := s.queue[i], s.queue[..i] + s.queue[i + 1..];
    OkayWithout(s, i);
    TotalWithout(Small(c), s.queue, i);
    assert x in s.queue;
    assert forall y :: y in q ==> y in s.queue;
  }

  /** A dequeue of an accounted state, once the finished request is off the books. */
  lemma DequeueAccounts(c: Conf, s: Full, e: Event, out: seq<Item>)
    requires Okay(multiset(s.queue), s.nextId) && Sized(c, s.queue) && Sized(c, out)
    requires s.current - Reduce(c, e) <= c.depth
    requires c.hard || !c.blocking ==> s.current - Reduce(c, e) == Total(Weight(c), out)
    requires c.factor > 0 ==> Total(Weight(c), out) <= s.current - Reduce(c, e)
    requires c.factor != 1 || c.depth == 0 ==>
               SmallAfter(s, e) == Total(Small(c), s.queue) + Total(Small(c), out)
    ensures Accounted(c, Sys(Dequeued(c, s, e), out + AsSeq(Chosen(c, s, e))))
  {
    hide Total, FirstMatch, WithoutFirst, Okay;
    if Chosen(c, s, e).Some? {
      var i := RemovedById(s, FitsAfter(c, s, e));
      Leaves(c, s, i);
      TotalAppend(Weight(c), out, s.queue[i]);
      TotalAppend(Small(c), out, s.queue[i]);
    } else {
      assert out + [] == out;
    }
  }

  lemma EnqueueAccounts(c: Conf, s: Full, app: nat, socket: int, length: nat, weight: nat)
    requires Okay(multiset(s.queue), s.nextId) && Sized(c, s.queue) && app < |s.last| && weight > 0
    ensures var s' := Enqueued(c, s, app, socket, length, weight);
      && Okay(multiset(s'.queue), s'.nextId) && Sized(c, s'.queue)
      && s'.small - s.small == Total(Small(c), s'.queue) - Total(Small(c), s.queue)
  {
    var s', x := Enqueued(c, s, app, socket, length, weight), NewItem(c, s, app, socket, length, weight);
    EnqueuedItems(c, s, app, socket, length, weight);
    TotalAppend(Small(c), s.queue, x);
    TotalSame(Small(c), s.queue + [x], s'.queue);
    SizedSame(c, s.queue + [x], s'.queue);
  }

  /** The request that finishes is off the books. */
  lemma FinishAccounts(c: Conf, y: Sys, k: nat)
    requires Accounted(c, y) && k < |y.out|
    ensures var e, out := Complete(Some(y.out[k])), y.out[..k] + y.out[k + 1..];
      && Sized(c, out) && Reduce(c, e) == Weight(c)(y.out[k])
      && Total(Weight(c), y.out) == Total(Weight(c), out) + Weight(c)(y.out[k])
      && (c.factor != 1 || c.depth == 0 ==>
            SmallAfter(y.s, e) == Total(Small(c), y.s.queue) + Total(Small(c), out))
  {
    LoadCounts(c, y.out);
    hide Total;
    TotalWithout(Weight(c), y.out, k);
    TotalWithout(Small(c), y.out, k);
    assert y.out[k] in y.out;
    assert forall x :: x in y.out[..k] + y.out[k + 1..] ==> x in y.out;
  }

  /** Every step keeps the books, in every mode and for every comparator. */
  lemma StepAccounts(c: Conf, y: Sys, op: Op)
    requires Accounted(c, y) && Enabled(y, op)
    ensures Accounted(c, Step(c, y, op))
  {
    hide Okay, Total, Fits, FirstFitIs, MergeSort.Sort;
    match op {
      case Receive(app, socket, length, weight) =>
        EnqueueAccounts(c, y.s, app, socket, length, weight);
        DequeueAccounts(c, Enqueued(c, y.s, app, socket, length, weight), NewWork, y.out);
      case Finish(k) =>
        FinishAccounts(c, y, k);
        DequeueAccounts(c, y.s, Complete(Some(y.out[k])), y.out[..k] + y.out[k + 1..]);
    }
  }

  ghost predicate AllEnabled(c: Conf, y: Sys, ops: seq<Op>)
    decreases |ops|
  {
    ops == [] || (Enabled(y, ops[0]) && AllEnabled(c, Step(c, y, ops[0]), ops[1..]))
  }

  function Run(c: Conf, y: Sys, ops: seq<Op>): Sys
    requires AllEnabled(c, y, ops)
    decreases |ops|
  {
    if ops == [] then y else Run(c, Step(c, y, ops[0]), ops[1..])
  }

  function Idle(apps: nat): Sys { Sys(Full([], 0, 0, 0, seq(apps, i => 0), 0), []) }

  lemma {:induction false} RunAccounts(c: Conf, y: Sys, ops: seq<Op>)
    requires Accounted(c, y) && AllEnabled(c, y, ops)
    ensures Accounted(c, Run(c, y, ops))
    decreases |ops|
  {
    hide Accounted, Step, Enabled;
    if ops != [] {
      StepAccounts(c, y, ops[0]);
      RunAccounts(c, Step(c, y, ops[0]), ops[1..]);
    }
  }

  /** Over every run, in every mode: never more slots in use than there are. Where
      large requests are always or never weighed, those in use are exactly those
      of the requests out; and if every request weighs something there are never
      more requests out than slots. */
  lemma NeverOverCapacity(c: Conf, apps: nat, ops: seq<Op>)
    requires AllEnabled(c, Idle(apps), ops)
    ensures var y := Run(c, Idle(apps), ops);
      && y.s.current <= c.depth
      && (c.hard || !c.blocking ==> y.s.current == Total(Weight(c), y.out))
      && (c.factor > 0 ==> |y.out| <= y.s.current)
  {
    RunAccounts(c, Idle(apps), ops);
    LoadCounts(c, Run(c, Idle(apps), ops).out);
  }

  /** The line is kept over every run. */
  lemma {:induction false} RunInLine(c: Conf, y: Sys, ops: seq<Op>)
    requires MergeSort.TotalPreorder(c.cmp) && Accounted(c, y) && InLine(c.cmp, y.s.queue) && AllEnabled(c, y, ops)
    ensures InLine(c.cmp, Run(c, y, ops).s.queue)
    decreases |ops|
  {
    hide Accounted, InLine, MergeSort.TotalPreorder, Step, Enabled;
    if ops != [] {
      StepAccounts(c, y, ops[0]);
      StepInLine(c, y, ops[0]);
      RunInLine(c, Step(c, y, ops[0]), ops[1..]);
    }
  }

  lemma StepInLine(c: Conf, y: Sys, op: Op)
    requires MergeSort.TotalPreorder(c.cmp) && Accounted(c, y) && InLine(c.cmp, y.s.queue) && Enabled(y, op)
    ensures InLine(c.cmp, Step(c, y, op).s.queue)
  {
    hide MergeSort.TotalPreorder, InLine, Total, Goes, Okay, MergeSort.Sort;
    match op {
      case Receive(app, socket, length, weight) =>
        EnqueueInLine(c, y.s, app, socket, length, weight);
        EnqueuedItems(c, y.s, app, socket, length, weight);
        DequeueInLine(c, Enqueued(c, y.s, app, socket, length, weight), NewWork);
      case Finish(k) =>
        DequeueInLine(c, y.s, Complete(Some(y.out[k])));
    }
  }

  lemma DequeueInLine(c: Conf, s: Full, e: Event)
    requires Okay(multiset(s.queue), s.nextId) && InLine(c.cmp, s.queue)
    ensures InLine(c.cmp, Dequeued(c, s, e).queue)
  {
    hide Okay, Ahead, FirstMatch, WithoutFirst;
    if Chosen(c, s, e).Some? {
      var i := RemovedById(s, FitsAfter(c, s, e));
      WithoutInLine(c.cmp, s.queue, i);
    }
  }

  lemma WithoutInLine(cmp: (Item, Item) -> int, q: seq<Item>, k: nat)
    requires InLine(cmp, q) && k < |q|
    ensures InLine(cmp, q[..k] + q[k + 1..])
  {
    hide Ahead;
    var r := q[..k] + q[k + 1..];
    forall i, j | 0 <= i < j < |r| ensures Ahead(cmp, r[i], r[j]) {
      assert r[i] == q[if i < k then i else i + 1] && r[j] == q[if j < k then j else j + 1];
    }
  }

  /** After every run a new request goes at once exactly if it fits and is ahead
      of every other that does, and what a completion lets go is exactly the
      request that fits and is ahead of every other that does. */
  lemma ServedInLine(c: Conf, apps: nat, ops: seq<Op>, op: Op)
    requires MergeSort.TotalPreorder(c.cmp) && AllEnabled(c, Idle(apps), ops) && Enabled(Run(c, Idle(apps), ops), op)
    ensures var s := Run(c, Idle(apps), ops).s;
      match op
      case Receive(app, socket, length, weight) =>
        var x := NewItem(c, s, app, socket, length, weight);
        var s' := Enqueued(c, s, app, socket, length, weight);
        Goes(c, s', x) <==> First(c, s', NewWork, x)
      case Finish(k) =>
        var e := Complete(Some(Run(c, Idle(apps), ops).out[k]));
        && (forall x :: Chosen(c, s, e) == Some(x) <==> First(c, s, e, x))
        && (Chosen(c, s, e).None? ==> forall x :: x in s.queue ==> !FitsAfter(c, s, e)(x))
  {
    var y := Run(c, Idle(apps), ops);
    RunAccounts(c, Idle(apps), ops);
    RunInLine(c, Idle(apps), ops);
    hide Accounted, InLine, MergeSort.TotalPreorder, Run, AllEnabled, Goes, Chosen, First, NewItem, Enqueued;
    match op {
      case Receive(app, socket, length, weight) =>
        AccountedOkay(c, y);
        LookaheadExact(c, y.s, app, socket, length, weight);
        EnqueueInLine(c, y.s, app, socket, length, weight);
        ChosenIsFirst(c, Enqueued(c, y.s, app, socket, length, weight), NewWork);
      case Finish(k) =>
        ChosenIsFirst(c, y.s, Complete(Some(y.out[k])));
    }
  }

  /** With the comparator as it reads a queue item, a completion lets go the
      request of the lowest socket that fits, whatever the start tags. */
  lemma LowestSocketGoes(c: Conf, apps: nat, ops: seq<Op>, k: nat, x: Item)
    requires c.cmp == BySocket() && AllEnabled(c, Idle(apps), ops) && k < |Run(c, Idle(apps), ops).out|
    ensures var s, e := Run(c, Idle(apps), ops).s, Complete(Some(Run(c, Idle(apps), ops).out[k]));
      Chosen(c, s, e) == Some(x) <==>
      && x in s.queue && FitsAfter(c, s, e)(x)
      && forall y :: y in s.queue && FitsAfter(c, s, e)(y) && y != x ==>
           x.socket < y.socket || (x.socket == y.socket && x.id < y.id)
  {
    BySocketIsOrder();
    ServedInLine(c, apps, ops, Finish(k));
    hide Run, AllEnabled, Chosen, FitsAfter;
  }

  lemma AccountedOkay(c: Conf, y: Sys)
    requires Accounted(c, y)
    ensures Okay(multiset(y.s.queue), y.s.nextId)
  {
  }

  // ---------- nothing lost, nothing served twice ----------

  /** What a step dispatches, and what it takes in. */
  function SentBy(c: Conf, y: Sys, op: Op): seq<Item>
    requires Enabled(y, op)
  {
    match op
    case Receive(app, socket, length, weight) =>
      var s := Enqueued(c, y.s, app, socket, length, weight);
      if Goes(c, s, NewItem(c, y.s, app, socket, length, weight)) then AsSeq(Chosen(c, s, NewWork)) else []
    case Finish(k) => AsSeq(Chosen(c, y.s, Complete(Some(y.out[k]))))
  }

  function TakenBy(c: Conf, y: Sys, op: Op): seq<Item>
    requires Enabled(y, op)
  {
    match op
    case Receive(app, socket, length, weight) => [NewItem(c, y.s, app, socket, length, weight)]
    case Finish(_) => []
  }

  function Sent(c: Conf, y: Sys, ops: seq<Op>): seq<Item>
    requires AllEnabled(c, y, ops)
    decreases |ops|
  {
    if ops == [] then [] else SentBy(c, y, ops[0]) + Sent(c, Step(c, y, ops[0]), ops[1..])
  }

  function TakenIn(c: Conf, y: Sys, ops: seq<Op>): seq<Item>
    requires AllEnabled(c, y, ops)
    decreases |ops|
  {
    if ops == [] then [] else TakenBy(c, y, ops[0]) + TakenIn(c, Step(c, y, ops[0]), ops[1..])
  }

  /** The start tag of the last of some items, or t. */
  function LastStart(t: int, items: seq<Item>): int { if items == [] then t else items[|items| - 1].start }

  lemma DequeueServes(c: Conf, s: Full, e: Event)
    requires Okay(multiset(s.queue), s.nextId)
    ensures var sent := AsSeq(Chosen(c, s, e));
      && multiset(Dequeued(c, s, e).queue) + multiset(sent) == multiset(s.queue)
      && Dequeued(c, s, e).vt == LastStart(s.vt, sent)
  {
    hide Okay, FirstMatch, WithoutFirst;
    if Chosen(c, s, e).Some? {
      var i := RemovedById(s, FitsAfter(c, s, e));
      WithoutItems(s.queue, i);
      assert multiset([s.queue[i]]) == multiset{s.queue[i]};
    }
  }

  lemma StepServes(c: Conf, y: Sys, op: Op)
    requires Accounted(c, y) && Enabled(y, op)
    ensures multiset(Step(c, y, op).s.queue) + multiset(SentBy(c, y, op))
            == multiset(y.s.queue) + multiset(TakenBy(c, y, op))
    ensures Step(c, y, op).s.vt == LastStart(y.s.vt, SentBy(c, y, op))
  {
    hide Okay, Chosen, Goes, MergeSort.Sort, Total, Dequeued;
    match op {
      case Receive(app, socket, length, weight) =>
        EnqueuedItems(c, y.s, app, socket, length, weight);
        DequeueServes(c, Enqueued(c, y.s, app, socket, length, weight), NewWork);
        var x := NewItem(c, y.s, app, socket, length, weight);
        assert multiset([x]) == multiset{x};
      case Finish(k) =>
        DequeueServes(c, y.s, Complete(Some(y.out[k])));
    }
  }

  lemma LastOf(t: int, a: seq<Item>, b: seq<Item>)
    ensures LastStart(t, a + b) == LastStart(LastStart(t, a), b)
  {
  }

  /** Over every run each request leaves the queue once or still waits, and
      virtual time is the start tag of the one that left last. */
  lemma {:induction false} ServedOnce(c: Conf, y: Sys, ops: seq<Op>)
    requires Accounted(c, y) && AllEnabled(c, y, ops)
    ensures multiset(Run(c, y, ops).s.queue) + multiset(Sent(c, y, ops))
            == multiset(y.s.queue) + multiset(TakenIn(c, y, ops))
    ensures Run(c, y, ops).s.vt == LastStart(y.s.vt, Sent(c, y, ops))
    decreases |ops|
  {
    hide Accounted, Step, SentBy, TakenBy, LastStart;
    if ops == [] {
      LastNone(y.s.vt);
    } else {
      var y1 := Step(c, y, ops[0]);
      StepAccounts(c, y, ops[0]);
      StepServes(c, y, ops[0]);
      ServedOnce(c, y1, ops[1..]);
      LastOf(y.s.vt, SentBy(c, y, ops[0]), Sent(c, y1, ops[1..]));
      Balance(multiset(y.s.queue), multiset(SentBy(c, y, ops[0])), multiset(y1.s.queue),
              multiset(TakenBy(c, y, ops[0])), multiset(Sent(c, y1, ops[1..])), multiset(Run(c, y, ops).s.queue),
              multiset(TakenIn(c, y1, ops[1..])));
    }
  }

  lemma LastNone(t: int)
    ensures LastStart(t, []) == t
  {
  }

  /** A request's tags lie at least one apart, and as far apart as its length in
      units of weight times 32 bytes. */
  lemma TagCost(length: nat, weight: nat, start: int)
    requires weight > 0
    ensures weight * REDUCER > 0
    ensures FinishTag(length, weight, start) - start == Max(1, length / (weight * REDUCER))
  {
    UnitsOf(length, weight, REDUCER);
  }

  /** A request starts at the later of virtual time and its application's last
      finish tag; its own, which TagCost prices, becomes the last; it weighs one
      slot unless it is over the threshold. */
  lemma StartsAtLater(c: Conf, s: Full, app: nat, socket: int, length: nat, weight: nat)
    requires app < |s.last| && weight > 0
    ensures var x, s' := NewItem(c, s, app, socket, length, weight), Enqueued(c, s, app, socket, length, weight);
      && x.start >= s.vt && x.start >= s.last[app] && (x.start == s.vt || x.start == s.last[app])
      && x.finish == FinishTag(length, weight, x.start)
      && s'.last[app] == x.finish && (forall f :: 0 <= f < |s.last| && f != app ==> s'.last[f] == s.last[f])
      && (x.app, x.socket, x.length) == (app, socket, length)
      && (length <= c.threshold ==> x.depth == 1) && (length > c.threshold ==> x.depth == c.factor)
  {
  }

  // ---------- the scheduler ----------

  class Scheduler {
    const c: Conf
    var queue: PintList<Item>
    var currentDepth: int
    var smallIos: int
    var virtualTime: int
    var lastFinishTags: array<int>
    var itemId: nat

    ghost function State(): Full
      reads this, queue, lastFinishTags
    {
      Full(queue.Contents(), currentDepth, smallIos, virtualTime, lastFinishTags[..], itemId)
    }

    ghost predicate Valid()
      reads this, queue, queue.cells, lastFinishTags
    {
      queue.Valid() && Okay(multiset(queue.Contents()), itemId)
    }

    constructor (c: Conf, apps: nat)
      ensures Valid() && State() == Idle(apps).s && this.c == c
      ensures fresh(queue) && fresh(queue.cells) && fresh(lastFinishTags)
    {
      this.c := c;
      queue := new PintList();
      currentDepth, smallIos, virtualTime, itemId := 0, 0, 0, 0;
      lastFinishTags := new int[apps](i => 0);
      new;
      assert lastFinishTags[..] == Idle(apps).s.last;
    }

    /** The loop of sfqdfull_enqueue behind its short-circuit check: is this the
        first item that fits? */
    method LooksAhead(item: Item) returns (dispatched: bool)
      requires queue.Valid()
      ensures dispatched <==> FirstFitIs(c, smallIos, currentDepth, queue.Contents(), item.id)
    {
      ghost var s, p := queue.Contents(), Fits(c, smallIos, currentDepth);
      FirstFitFound(c, smallIos, currentDepth, s, item.id);
      var l := queue.next;
      ghost var i := 0;
      while l != null
        invariant i <= |s| && Chain(l, queue.cells[i..])
        invariant forall k :: 0 <= k < i ==> !p(s[k])
        decreases |s| - i
      {
        var tentativeDepth := Tentative(c, smallIos, l.item);
        if tentativeDepth + currentDepth <= c.depth {
          FirstMatchAt(p, s, i);
          return l.item.id == item.id;
        }
        NextInChain(l, queue.cells, i);
        l := l.next;
        i := i + 1;
      }
      NoMatch(p, s);
      dispatched := false;
    }

    /** The loop of sfqdfull_dequeue. */
    method FindFit(reduceDepth: nat) returns (r: Option<Item>)
      requires queue.Valid()
      ensures r == FirstMatch(Fits(c, smallIos, currentDepth - reduceDepth), queue.Contents())
    {
      ghost var s, p := queue.Contents(), Fits(c, smallIos, currentDepth - reduceDepth);
      var l := queue.next;
      ghost var i := 0;
      while l != null
        invariant i <= |s| && Chain(l, queue.cells[i..])
        invariant forall k :: 0 <= k < i ==> !p(s[k])
        decreases |s| - i
      {
        var tentativeDepth := Tentative(c, smallIos, l.item);
        if tentativeDepth + currentDepth - reduceDepth <= c.depth {
          FirstMatchAt(p, s, i);
          r := Some(l.item);
          return;
        }
        NextInChain(l, queue.cells, i);
        l := l.next;
        i := i + 1;
      }
      NoMatch(p, s);
      r := None;
    }

    /** The item that fits is taken out by its id; it is that item that comes. */
    method TakeFit(reduceDepth: nat) returns (r: Option<Item>)
      requires Valid()
      modifies queue, queue.cells
      ensures Valid() && Elems(queue.cells) <= Elems(old(queue.cells))
      ensures r == FirstMatch(Fits(c, smallIos, currentDepth - reduceDepth), old(queue.Contents()))
      ensures queue.Contents() == if r.None? then old(queue.Contents())
                                  else WithoutFirst(HasId(r.value.id), old(queue.Contents()))
    {
      hide Okay, Fits, FirstMatch, WithoutFirst, PintList.Valid, PintList.Contents;
      ghost var s, p := State(), Fits(c, smallIos, currentDepth - reduceDepth);
      r := FindFit(reduceDepth);
      if r.Some? {
        ghost var i := RemovedById(s, p);
        OkayWithout(s, i);
        r := queue.Rem(HasId(r.value.id));
      }
    }

    /** sfqdfull_add_item_to_queue: append, then sort the whole list. */
    method AddToQueue(item: Item)
      requires queue.Valid()
      modifies this`queue, queue, queue.cells
      ensures queue == old(queue) && queue.Valid() && fresh(Elems(queue.cells) - Elems(old(queue.cells)))
      ensures queue.Contents() == MergeSort.Sort(c.cmp, old(queue.Contents()) + [item])
    {
      hide PintList.Valid, PintList.Contents, MergeSort.Sort;
      queue.AddToTail(item);
      var sorted := queue.Sort(c.cmp);
      assert sorted != null;
      queue := sorted;
    }

    /** sfqdfull_enqueue up to its decision. */
    method Append(app: nat, socket: int, cost: nat, weight: nat) returns (item: Item)
      requires Valid() && app < lastFinishTags.Length && weight > 0
      modifies this, queue, queue.cells, lastFinishTags
      ensures Valid() && lastFinishTags == old(lastFinishTags) && queue == old(queue)
      ensures fresh(Elems(queue.cells) - Elems(old(queue.cells)))
      ensures State() == Enqueued(c, old(State()), app, socket, cost, weight)
      ensures item == NewItem(c, old(State()), app, socket, cost, weight)
    {
      hide FinishTag, Okay, PintList.Valid, PintList.Contents, MergeSort.Sort;
      EnqueuedItems(c, State(), app, socket, cost, weight);
      var startTag := Max(virtualTime, lastFinishTags[app]);
      var finishTag := FinishTag(cost, weight, startTag);
      lastFinishTags[app] := finishTag;
      var itemDepth := 1;
      if cost <= c.threshold {
        smallIos := smallIos + 1;
      } else {
        itemDepth := c.factor;
      }
      item := Item(itemId, app, socket, startTag, finishTag, cost, itemDepth);
      itemId := itemId + 1;
      AddToQueue(item);
    }

    /** sfqdfull_enqueue: told to go exactly when the next dequeue would return this item. */
    method Enqueue(app: nat, socket: int, length: nat, weight: nat, io: bool) returns (dispatched: bool)
      requires Valid() && app < lastFinishTags.Length && weight > 0
      modifies this, queue, queue.cells, lastFinishTags
      ensures Valid() && lastFinishTags == old(lastFinishTags) && queue == old(queue)
      ensures fresh(Elems(queue.cells) - Elems(old(queue.cells)))
      ensures var cost := if io then length else DEFAULT_META_COST;
              var x := NewItem(c, old(State()), app, socket, cost, weight);
              && State() == Enqueued(c, old(State()), app, socket, cost, weight)
              && dispatched == Goes(c, State(), x) && (dispatched <==> Chosen(c, State(), NewWork) == Some(x))
    {
      hide FirstMatch, FirstFitIs, NewItem, Enqueued, Okay, PintList.Valid, PintList.Contents;
      var cost := if io then length else DEFAULT_META_COST;
      LookaheadExact(c, State(), app, socket, cost, weight);
      var item := Append(app, socket, cost, weight);
      dispatched := false;
      if currentDepth + Tentative(c, smallIos, item) <= c.depth {
        dispatched := LooksAhead(item);
      }
    }

    /** sfqdfull_dequeue */
    method Dequeue(e: Event) returns (r: Option<Item>)
      requires Valid()
      modifies this, queue, queue.cells
      ensures Valid() && lastFinishTags == old(lastFinishTags) && queue == old(queue)
      ensures Elems(queue.cells) <= Elems(old(queue.cells))
      ensures r == Chosen(c, old(State()), e) && State() == Dequeued(c, old(State()), e)
    {
      hide FirstMatch, WithoutFirst, Fits, Okay, PintList.Valid, PintList.Contents;
      ghost var s := State();
      var lastIoDepth := LastDepth(e);
      if e.Complete? && lastIoDepth == 1 {
        smallIos := smallIos - 1;
      }
      var reduceDepth := 0;
      if e.Complete? {
        reduceDepth := if c.hard then lastIoDepth else 1;
      }
      assert Fits(c, smallIos, currentDepth - reduceDepth) == FitsAfter(c, s, e);
      r := TakeFit(reduceDepth);
      if r.Some? {
        virtualTime := r.value.start;
        currentDepth := currentDepth + Tentative(c, smallIos, r.value) - reduceDepth;
      } else {
        currentDepth := currentDepth - reduceDepth;
      }
    }
  }
}
