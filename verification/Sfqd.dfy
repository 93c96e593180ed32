/** The scheduler of scheduler_SFQD.c on its real queues, the linked list and
    the binomial heap, and the proxy steps that drive it. */
module Sfqd {
  import opened Basics
  import opened FairQueue
  import opened LinkedList
  import opened BinomialHeap
  import Binomial
  import MergeSort

  /** list_sfqd_sort_comp looks at start tags only. */
  function ByStart(): (Item, Item) -> int { (a: Item, b: Item) => a.start - b.start }

  /** sfqd_packet_cmp */
  function Higher(): (Item, Item) -> bool { (a: Item, b: Item) => Before(a, b) }

  // ---------- the lazily sorted list ----------

  lemma {:induction false} PlacedIsInserted(w: seq<Item>, x: Item)
    ensures Placed(w, x) == MergeSort.Inserted(ByStart(), w, x)
  {
    if w != [] && x.start >= w[0].start {
      PlacedIsInserted(w[1..], x);
    }
  }

  /** Appending to a list and sorting it later is placing the item at once. */
  lemma SortAfterAppend(s: seq<Item>, x: Item)
    ensures MergeSort.Sort(ByStart(), s + [x]) == Placed(MergeSort.Sort(ByStart(), s), x)
  {
    MergeSort.SortAfterAppend(ByStart(), s, x);
    PlacedIsInserted(MergeSort.Sort(ByStart(), s), x);
  }

  lemma OrderIsSorted(w: seq<Item>)
    requires InOrder(w)
    ensures MergeSort.Sorted(ByStart(), w) && MergeSort.Sort(ByStart(), w) == w
  {
    forall i, j | 0 <= i < j < |w| ensures ByStart()(w[i], w[j]) <= 0 {
      assert Before(w[i], w[j]);
    }
    MergeSort.SortSorted(ByStart(), w);
  }

  lemma SortLength(s: seq<Item>)
    ensures MergeSort.Sort(ByStart(), s) == [] <==> s == []
  {
    MergeSort.SortRearranges(ByStart(), s);
  }

  /** list_req_comp */
  function HasId(id: nat): Item -> bool { (y: Item) => y.id == id }

  lemma HeadMatches(s: seq<Item>)
    requires s != []
    ensures FirstMatch(HasId(s[0].id), s) == Some(s[0]) && WithoutFirst(HasId(s[0].id), s) == s[1..]
  {
  }

  // ---------- the heap ----------

  lemma HigherIsOrder()
    ensures Binomial.StrictWeakOrder(Higher())
  {
  }

  /** A value that nothing in the heap beats is the first in dispatch order. */
  lemma UnbeatenIsFirst(w: seq<Item>, v: Item)
    requires InOrder(w) && v in multiset(w) && Binomial.Unbeaten(Higher(), v, multiset(w))
    ensures w[0] == v && multiset(w[1..]) == multiset(w) - multiset{v}
  {
    assert w == [w[0]] + w[1..];
    assert w[0] in multiset(w);
    assert !Higher()(w[0], v);
    var i :| 0 <= i < |w| && w[i] == v;
    assert i > 0 ==> Before(w[0], w[i]);
  }

  lemma OkayIds(s: Sfq)
    requires Okay(s)
    ensures forall y :: y in s.waiting ==> y.id < s.nextId
  {
  }

  // ---------- the scheduler ----------

  class Scheduler {
    const useHeap: bool
    const maxDepth: nat
    var list: PintList?<Item>
    var sorted: bool
    var heap: BinHeap<Item>
    var virtualTime: int
    var lastFinishTags: array<int>
    var currentDepth: int
    var itemId: nat
    ghost var waiting: seq<Item>

    ghost function State(): Sfq
      reads this, lastFinishTags
    {
      Sfq(waiting, virtualTime, lastFinishTags[..], currentDepth, itemId)
    }

    /** The objects of the queue in use. */
    ghost function Parts(): set<object>
      reads this`list, list, this`heap, heap
    {
      if useHeap then {heap} + heap.Footprint() else if list == null then {} else {list} + Elems(list.cells)
    }

    /** The queue in use holds the waiting items. */
    ghost predicate Holds()
      reads this`list, this`heap, this`waiting, list, heap, Parts()
    {
      && InOrder(waiting)
      && if useHeap then HeapHolds() else if list == null then waiting == [] else ListHolds()
    }

    /** A list marked as sorted is in dispatch order. */
    ghost predicate SortedRight()
      reads this`list, this`sorted, this`waiting, list
    {
      !useHeap && list != null && sorted ==> list.Contents() == waiting
    }

    ghost predicate HeapHolds()
      reads this`heap, this`waiting, heap, heap.Footprint()
    {
      heap.Valid() && Binomial.HeapOk(Higher(), heap.h) && Binomial.Bag(heap.h) == multiset(waiting)
    }

    ghost predicate ListHolds()
      requires list != null
      reads this`list, this`waiting, list, list.cells
    {
      list.Valid() && MergeSort.Sort(ByStart(), list.Contents()) == waiting
    }

    ghost predicate Valid()
      reads this, lastFinishTags, list, heap, Parts()
    {
      Okay(State()) && Holds() && SortedRight() && (list == null ==> sorted && !useHeap)
    }

    constructor (useHeap: bool, maxDepth: nat, apps: nat)
      ensures Valid() && State() == Start(apps) && this.useHeap == useHeap && this.maxDepth == maxDepth
      ensures list != null && !sorted && fresh(lastFinishTags) && fresh(Parts())
    {
      hide InOrder, MergeSort.Sort, Binomial.HeapOk, Binomial.Bag, BinHeap.Valid, PintList.Valid, Okay;
      this.useHeap, this.maxDepth := useHeap, maxDepth;
      list := new PintList();
      heap := new BinHeap();
      sorted, virtualTime, currentDepth, itemId := false, 0, 0, 0;
      lastFinishTags := new int[apps](i => 0);
      waiting := [];
      new;
      StartOkay(apps);
      MergeSort.SortSorted(ByStart(), []);
      assert lastFinishTags[..] == Start(apps).last;
    }

    /** The queue's objects are neither the scheduler nor its tag array. */
    lemma PartsApart()
      ensures this !in Parts() && lastFinishTags !in Parts()
    {
    }

    /** add_item_to_queue; false stands for the exit when there is no list. */
    method AddItem(item: Item) returns (ok: bool)
      requires Holds() && forall y :: y in waiting ==> y.id < item.id
      modifies this`waiting, Parts()
      ensures ok == (useHeap || list != null)
      ensures fresh(Parts() - old(Parts())) && (ok ==> Holds() && waiting == Placed(old(waiting), item))
    {
      PlacedInOrder(waiting, item);
      if useHeap {
        AddToHeap(item);
        return true;
      }
      if list == null {
        return false;
      }
      SortAfterAppend(list.Contents(), item);
      list.AddToTail(item);
      waiting := Placed(waiting, item);
      ok := true;
    }

    method AddToHeap(item: Item)
      requires useHeap && HeapHolds() && multiset(Placed(waiting, item)) == multiset(waiting) + multiset{item}
      modifies this`waiting, Parts()
      ensures HeapHolds() && waiting == Placed(old(waiting), item) && fresh(Parts() - old(Parts()))
    {
      hide Placed, Binomial.HeapOk, Binomial.Bag, Binomial.Insert, BinHeap.Valid, BinHeap.Footprint;
      HigherIsOrder();
      heap.FootprintAllocated();
      var node := new HeapNode(item);
      Binomial.InsertCorrect(Higher(), heap.h, EntryOf(node));
      heap.Insert(Higher(), node);
      waiting := Placed(waiting, item);
    }

    /** The part of sfqd_dequeue that finds the next item and takes it out. */
    method RemoveFirst() returns (r: Option<Item>)
      requires Holds() && SortedRight() && (list == null ==> sorted && !useHeap)
      modifies this`waiting, this`list, this`sorted, Parts()
      ensures Holds() && SortedRight() && fresh(Parts() - old(Parts()))
      ensures sorted == (old(sorted) || !useHeap)
      ensures r == if old(waiting) == [] then None else Some(old(waiting)[0])
      ensures waiting == if old(waiting) == [] then [] else old(waiting)[1..]
      ensures list == if !useHeap && !old(sorted) && old(waiting) == [] then null else old(list)
    {
      hide HeapHolds, ListHolds, Parts;
      PartsApart();
      if useHeap {
        r := RemoveFromHeap();
      } else {
        r := RemoveFromList();
      }
    }

    method RemoveFromHeap() returns (r: Option<Item>)
      requires useHeap && HeapHolds() && InOrder(waiting)
      modifies this`waiting, Parts()
      ensures HeapHolds() && Parts() <= old(Parts())
      ensures r == if old(waiting) == [] then None else Some(old(waiting)[0])
      ensures waiting == if old(waiting) == [] then [] else old(waiting)[1..]
    {
      hide Binomial.HeapOk, Binomial.Bag, BinHeap.Valid, BinHeap.Footprint, InOrder;
      HigherIsOrder();
      heap.FootprintAllocated();
      var empty := heap.Empty();
      if empty {
        return None;
      }
      var node := heap.Take(Higher());
      UnbeatenIsFirst(waiting, node.value);
      waiting := waiting[1..];
      r := Some(node.value);
    }

    method RemoveFromList() returns (r: Option<Item>)
      requires !useHeap && InOrder(waiting)
      requires if list == null then waiting == [] && sorted else ListHolds() && SortedRight()
      modifies this`waiting, this`list, this`sorted, Parts()
      ensures (if list == null then waiting == [] else ListHolds() && SortedRight()) && sorted && Parts() <= old(Parts())
      ensures r == if old(waiting) == [] then None else Some(old(waiting)[0])
      ensures waiting == if old(waiting) == [] then [] else old(waiting)[1..]
      ensures list == if !old(sorted) && old(waiting) == [] then null else old(list)
    {
      hide ListHolds, InOrder;
      PartsApart();
      if !sorted {
        SortList();
      }
      if list == null {
        return None;
      }
      r := RemoveHead();
    }

    method SortList()
      requires !useHeap && !sorted && list != null && ListHolds() && InOrder(waiting)
      modifies this`list, this`sorted, list, list.cells
      ensures sorted && list == if waiting == [] then null else old(list)
      ensures list != null ==> ListHolds() && SortedRight() && Elems(list.cells) == old(Elems(list.cells))
    {
      hide MergeSort.Sort, InOrder;
      OrderIsSorted(waiting);
      SortLength(list.Contents());
      list := list.Sort(ByStart());
      sorted := true;
    }

    method RemoveHead() returns (r: Option<Item>)
      requires !useHeap && sorted && list != null && ListHolds() && SortedRight() && InOrder(waiting)
      modifies this`waiting, list, list.cells
      ensures ListHolds() && SortedRight() && Elems(list.cells) <= old(Elems(list.cells))
      ensures r == if old(waiting) == [] then None else Some(old(waiting)[0])
      ensures waiting == if old(waiting) == [] then [] else old(waiting)[1..]
    {
      hide MergeSort.Sort;
      var next := list.Head();
      if next == None {
        return None;
      }
      HeadMatches(waiting);
      OrderIsSorted(waiting[1..]);
      hide InOrder;
      r := list.Rem(HasId(next.value.id));
      waiting := waiting[1..];
    }

    /** The first half of sfqd_enqueue: make the item with its tags. */
    method Stamp(app: nat, length: nat, weight: nat) returns (item: Item)
      requires Valid() && app < lastFinishTags.Length && weight > 0
      modifies this`sorted, this`itemId, lastFinishTags
      ensures Holds() && SortedRight() && !sorted && item == NewItem(old(State()), app, length, weight)
      ensures itemId == old(itemId) + 1 && lastFinishTags[..] == old(lastFinishTags[..])[app := item.finish]
      ensures Parts() == old(Parts())
    {
      hide Okay, Holds, Parts, FinishTag;
      PartsApart();
      sorted := false;
      var startTag := Max(virtualTime, lastFinishTags[app]);
      var finishTag := FinishTag(length, weight, startTag);
      lastFinishTags[app] := finishTag;
      item := Item(itemId, app, startTag, finishTag);
      itemId := itemId + 1;
    }

    /** sfqd_enqueue. None stands for the exit on a queue insertion error; else
        the answer says whether the driver is to dispatch at once. */
    method Enqueue(app: nat, length: nat, weight: nat) returns (r: Option<bool>)
      requires Valid() && app < lastFinishTags.Length && weight > 0
      modifies this, lastFinishTags, Parts()
      ensures r == if useHeap || old(list) != null then Some(old(currentDepth) < maxDepth) else None
      ensures lastFinishTags == old(lastFinishTags) && list == old(list) && fresh(Parts() - old(Parts()))
      ensures r.Some? ==> Valid() && !sorted && State() == Enqueued(old(State()), app, length, weight, r.value)
    {
      hide Okay, Holds, Parts, Placed, FinishTag;
      PartsApart();
      OkayIds(State());
      EnqueueKeeps(State(), app, length, weight, currentDepth < maxDepth);
      var item := Stamp(app, length, weight);
      PartsApart();
      var ok := AddItem(item);
      assert forall o: object :: o in Parts() && old(allocated(o)) ==> o in old(Parts());
      if !ok {
        return None;
      }
      var dispatched := false;
      if currentDepth < maxDepth {
        dispatched := true;
        currentDepth := currentDepth + 1;
      }
      r := Some(dispatched);
    }

    /** sfqd_dequeue */
    method Dequeue() returns (r: Option<Item>)
      requires Valid()
      modifies this, Parts()
      ensures Valid() && lastFinishTags == old(lastFinishTags) && fresh(Parts() - old(Parts()))
      ensures r == Next(old(State())) && State() == Dequeued(old(State()))
      ensures sorted == (old(sorted) || !useHeap)
      ensures list == if !useHeap && !old(sorted) && old(waiting) == [] then null else old(list)
    {
      hide Okay, Holds, SortedRight, Parts;
      PartsApart();
      DequeueKeeps(State());
      var next := RemoveFirst();
      if next.Some? {
        virtualTime := next.value.start;
      } else {
        currentDepth := currentDepth - 1;
      }
      r := next;
    }
  }

  // ---------- both queues dispatch alike ----------

  datatype Call = Arrive(app: nat, length: nat, weight: nat) | Take

  predicate Sensible(apps: nat, c: Call) { c.Arrive? ==> c.app < apps && c.weight > 0 }

  function After(maxDepth: nat, s: Sfq, c: Call): Sfq
    requires Sensible(|s.last|, c)
  {
    if c.Arrive? then Enqueued(s, c.app, c.length, c.weight, s.depth < maxDepth) else Dequeued(s)
  }

  /** What the dequeue calls among cs return, by the order of dispatch alone. */
  function Dispatches(maxDepth: nat, s: Sfq, cs: seq<Call>): seq<Option<Item>>
    requires forall c :: c in cs ==> Sensible(|s.last|, c)
    decreases |cs|
  {
    if cs == [] then []
    else (if cs[0].Take? then [Next(s)] else []) + Dispatches(maxDepth, After(maxDepth, s, cs[0]), cs[1..])
  }

  /** A dequeue before any enqueue, and then an enqueue: the list has been lost to the sort. */
  predicate LosesList(cs: seq<Call>) {
    cs != [] && cs[0].Take? && exists i :: 0 <= i < |cs| && cs[i].Arrive?
  }

  lemma DispatchesStep(maxDepth: nat, s: Sfq, cs: seq<Call>, i: nat, out: seq<Option<Item>>)
    requires i < |cs| && forall c :: c in cs ==> Sensible(|s.last|, c)
    ensures Sensible(|s.last|, cs[i]) && forall c :: c in cs[i + 1..] ==> Sensible(|After(maxDepth, s, cs[i]).last|, c)
    ensures out + Dispatches(maxDepth, s, cs[i..]) ==
              (if cs[i].Take? then out + [Next(s)] else out)
              + Dispatches(maxDepth, After(maxDepth, s, cs[i]), cs[i + 1..])
  {
    assert cs[i..][1..] == cs[i + 1..];
    if cs[i].Arrive? {
      assert [] + Dispatches(maxDepth, After(maxDepth, s, cs[i]), cs[i + 1..])
          == Dispatches(maxDepth, After(maxDepth, s, cs[i]), cs[i + 1..]);
    }
  }

  lemma DispatchesEnd(maxDepth: nat, s: Sfq, cs: seq<Call>, out: seq<Option<Item>>)
    requires cs == []
    ensures out + Dispatches(maxDepth, s, cs) == out
  {
  }

  lemma PlacedNotEmpty(s: Sfq, c: Call, maxDepth: nat)
    requires Sensible(|s.last|, c) && c.Arrive?
    ensures After(maxDepth, s, c).waiting != []
  {
  }

  /** On either queue the scheduler serves a sequence of calls in the order of
      dispatch, with one exception: a list that is dequeued before anything was
      enqueued is gone, and the next enqueue ends the program. */
  method DispatchAll(useHeap: bool, maxDepth: nat, apps: nat, cs: seq<Call>)
      returns (out: seq<Option<Item>>, died: bool)
    requires forall c :: c in cs ==> Sensible(apps, c)
    ensures died <==> !useHeap && LosesList(cs)
    ensures !died ==> out == Dispatches(maxDepth, Start(apps), cs)
  {
    hide Dispatches, Enqueued, Dequeued, Scheduler.Valid, Scheduler.Parts;
    var sched := new Scheduler(useHeap, maxDepth, apps);
    out, died := [], false;
    var i := 0;
    assert cs[i..] == cs;
    while i < |cs|
      invariant i <= |cs| && fresh(sched) && fresh(sched.lastFinishTags) && fresh(sched.Parts())
      invariant sched.useHeap == useHeap && sched.maxDepth == maxDepth
      invariant sched.Valid() && |sched.State().last| == apps
      invariant forall c :: c in cs[i..] ==> Sensible(apps, c)
      invariant out + Dispatches(maxDepth, sched.State(), cs[i..]) == Dispatches(maxDepth, Start(apps), cs)
      invariant sched.list == null <==> !useHeap && i > 0 && cs[0].Take?
      invariant sched.list == null ==> forall k :: 0 <= k < i ==> cs[k].Take?
      invariant useHeap || sched.sorted || i == 0 || sched.waiting != []
      invariant i == 0 ==> sched.waiting == [] && !sched.sorted
    {
      DispatchesStep(maxDepth, sched.State(), cs, i, out);
      ghost var next := After(maxDepth, sched.State(), cs[i]);
      if cs[i].Arrive? {
        PlacedNotEmpty(sched.State(), cs[i], maxDepth);
        var r := sched.Enqueue(cs[i].app, cs[i].length, cs[i].weight);
        if r == None {
          died := true;
          return;
        }
      } else {
        var r := sched.Dequeue();
        out := out + [r];
      }
      assert sched.State() == next;
      assert forall o: object :: o in sched.Parts() && old(allocated(o)) ==> false;
      i := i + 1;
    }
    DispatchesEnd(maxDepth, sched.State(), cs[i..], out);
  }
}
