/** The binomial heap of heap.c on node objects: every operation rewrites
    parent, next, child and degree in place and is proved to leave exactly the
    trees that module Binomial computes. A root list stands in memory as a
    chain of siblings; its trees share no node, so a change to one leaves
    the others as they are. */
module BinomialHeap {
  import opened Basics
  import opened Binomial

  const NOT_IN_HEAP: nat := 0xFFFF_FFFF

  class HeapNode<V> {
    const value: V
    var parent: HeapNode?<V>
    var next: HeapNode?<V>
    var child: HeapNode?<V>
    var degree: nat

    constructor (value: V)
      ensures this.value == value && parent == next == child == null && degree == NOT_IN_HEAP
    {
      this.value := value;
      parent, next, child := null, null, null;
      degree := NOT_IN_HEAP;
    }
  }

  type NodeTree<V> = Tree<HeapNode<V>, V>

  ghost function Nodes<V>(t: NodeTree<V>): set<HeapNode<V>>
    decreases t
  {
    {t.id} + AllNodes(t.kids)
  }

  ghost function AllNodes<V>(s: seq<NodeTree<V>>): set<HeapNode<V>>
    decreases s
  {
    if s == [] then {} else Nodes(s[0]) + AllNodes(s[1..])
  }

  /** The node of t and everything below it look as t says, under this parent. */
  ghost predicate TreeAt<V>(t: NodeTree<V>, parent: HeapNode?<V>)
    reads t.id`parent, t.id`child, t.id`degree
    reads AllNodes(t.kids)`parent, AllNodes(t.kids)`next, AllNodes(t.kids)`child, AllNodes(t.kids)`degree
    decreases t
  {
    && t.id.value == t.val && t.id.parent == parent && t.id.degree == |t.kids|
    && t.id !in AllNodes(t.kids)
    && SiblingsAt(t.id.child, t.kids, t.id)
  }

  /** From h, along next, one finds the trees s, all children of parent. */
  ghost predicate SiblingsAt<V>(h: HeapNode?<V>, s: seq<NodeTree<V>>, parent: HeapNode?<V>)
    reads AllNodes(s)`parent, AllNodes(s)`next, AllNodes(s)`child, AllNodes(s)`degree
    decreases s
  {
    if s == [] then h == null
    else
      && h == s[0].id && TreeAt(s[0], parent)
      && Nodes(s[0]) !! AllNodes(s[1..])
      && SiblingsAt(s[0].id.next, s[1..], parent)
  }

  // ---------- root lists ----------

  ghost function Roots<V>(S: set<NodeTree<V>>): set<HeapNode<V>> { set t | t in S :: t.id }

  ghost function Inner<V>(S: set<NodeTree<V>>): set<HeapNode<V>> {
    set t, n | t in S && n in AllNodes(t.kids) :: n
  }

  /** Every tree of S stands alone; nothing is said of how the roots are chained. */
  ghost predicate Standing<V>(S: set<NodeTree<V>>)
    reads Roots(S)`parent, Roots(S)`child, Roots(S)`degree
    reads Inner(S)`parent, Inner(S)`next, Inner(S)`child, Inner(S)`degree
  {
    forall t :: t in S ==> TreeAt(t, null)
  }

  ghost predicate PairwiseApart<V>(S: set<NodeTree<V>>) {
    forall t, u :: t in S && u in S && t != u ==> Nodes(t) !! Nodes(u)
  }

  ghost predicate Links<V>(s: seq<NodeTree<V>>)
    reads Roots(Elems(s))`next
  {
    forall i :: 0 <= i < |s| - 1 ==> s[i].id.next == s[i + 1].id
  }

  ghost predicate Chain<V>(h: HeapNode?<V>, s: seq<NodeTree<V>>)
    reads Roots(Elems(s))`next
  {
    if s == [] then h == null
    else h == s[0].id && Links(s) && s[|s| - 1].id.next == null
  }

  lemma {:induction false} TreeAllocated<V>(t: NodeTree<V>)
    ensures forall n :: n in Nodes(t) ==> allocated(n)
    decreases t
  {
    TreesAllocated(t.kids);
  }

  lemma {:induction false} TreesAllocated<V>(s: seq<NodeTree<V>>)
    ensures forall n :: n in AllNodes(s) ==> allocated(n)
    decreases s
  {
    if s != [] {
      TreeAllocated(s[0]);
      TreesAllocated(s[1..]);
    }
  }

  /** The nodes a set of trees speaks of exist; without this a call could be
      thought to touch them by allocating. */
  lemma SetAllocated<V>(S: set<NodeTree<V>>)
    ensures forall n :: n in Inner(S) ==> allocated(n)
    ensures forall n :: n in Roots(S) ==> allocated(n)
  {
    forall t | t in S ensures forall n :: n in AllNodes(t.kids) ==> allocated(n) {
      TreesAllocated(t.kids);
    }
  }

  // ---------- __heap_link ----------

  /** Hang child in front of the children of root, which gains a degree. */
  method HeapLink<V>(root: HeapNode<V>, child: HeapNode<V>, ghost r: NodeTree<V>, ghost c: NodeTree<V>)
    requires TreeAt(r, null) && TreeAt(c, null) && r.id == root && c.id == child && Nodes(r) !! Nodes(c)
    modifies root`child, root`degree, child`parent, child`next
    ensures TreeAt(Link(r, c), null)
    ensures Nodes(Link(r, c)) == Nodes(r) + Nodes(c)
  {
    child.parent := root;
    child.next := root.child;
    root.child := child;
    root.degree := root.degree + 1;
    assert ([c] + r.kids)[1..] == r.kids;
  }

  // ---------- __heap_reverse ----------

  lemma {:induction false} SiblingsApart<V>(h: HeapNode?<V>, s: seq<NodeTree<V>>, parent: HeapNode?<V>)
    requires SiblingsAt(h, s, parent)
    ensures Distinct(s) && PairwiseApart(Elems(s))
    ensures forall t :: t in s ==> Nodes(t) <= AllNodes(s)
    decreases |s|
  {
    if s != [] {
      SiblingsApart(s[0].id.next, s[1..], parent);
      assert s == [s[0]] + s[1..];
    }
  }

  /** What the reversing loop has left: the node at h is already cut loose, the
      ones behind it still hang under parent. */
  ghost predicate Reversing<V>(h: HeapNode<V>, tail: HeapNode?<V>, parent: HeapNode<V>,
                               rev: seq<NodeTree<V>>, rest: seq<NodeTree<V>>)
    requires rest != []
    reads AllNodes(rest), Roots(Elems(rev)), Inner(Elems(rev))
  {
    && h == rest[0].id && TreeAt(rest[0], null) && SiblingsAt(h.next, rest[1..], parent)
    && Nodes(rest[0]) !! AllNodes(rest[1..])
    && Standing(Elems(rev)) && Chain(tail, rev)
  }

  lemma ReverseStep<V>(rev: seq<NodeTree<V>>, rest: seq<NodeTree<V>>)
    requires Separate(rev, rest, []) && rest != []
    ensures Separate([rest[0]] + rev, rest[1..], [])
    ensures Cells([rest[0]] + rev, rest[1..], []) == Cells(rev, rest, [])
  {
    assert rest == [rest[0]] + rest[1..];
    DistinctCons(rest[0], rev);
  }

  lemma ChainEmpty<V>(h: HeapNode?<V>, s: seq<NodeTree<V>>)
    requires Chain(h, s)
    ensures h == null <==> s == []
  {
  }

  lemma StandingCons<V>(t: NodeTree<V>, s: seq<NodeTree<V>>)
    requires Standing(Elems(s)) && TreeAt(t, null)
    ensures Standing(Elems([t] + s))
  {
  }

  lemma ChainCons<V>(t: NodeTree<V>, s: seq<NodeTree<V>>, h: HeapNode?<V>)
    requires Chain(h, s) && t.id.next == h
    ensures Chain(t.id, [t] + s)
  {
  }

  /** A node of one tree is in no other tree of a set of disjoint trees. */
  lemma NodeElsewhere<V>(t: NodeTree<V>, s: seq<NodeTree<V>>, S: set<NodeTree<V>>)
    requires PairwiseApart(S) && t in S && t !in s && Elems(s) <= S
    ensures t.id !in Roots(Elems(s)) && t.id !in Inner(Elems(s))
  {
    assert t.id in Nodes(t);
    forall u | u in s ensures t.id != u.id && t.id !in AllNodes(u.kids) {
      assert u in Elems(s);
      assert Nodes(t) !! Nodes(u);
    }
  }

  /** One turn of the reversing loop. */
  method ReverseOne<V>(h: HeapNode<V>, tail: HeapNode?<V>, ghost parent: HeapNode<V>,
                       ghost rev: seq<NodeTree<V>>, ghost rest: seq<NodeTree<V>>)
      returns (h': HeapNode<V>, tail': HeapNode<V>)
    requires |rest| > 1 && Reversing(h, tail, parent, rev, rest)
    requires Separate(rev, rest, []) && PairwiseApart(Cells(rev, rest, []))
    modifies h`next, rest[1].id`parent
    ensures Reversing(h', tail', parent, [rest[0]] + rev, rest[1..])
  {
    ghost var S := Cells(rev, rest, []);
    assert rest[1..][0] == rest[1] && rest[1..][1..] == rest[2..];
    assert rest[1] in rest;
    assert Elems(rev) <= S;
    NodeElsewhere(rest[0], rev, S);
    NodeElsewhere(rest[1], rev, S);
    assert rest[1].id in AllNodes(rest[1..]);
    assert TreeAt(rest[1], parent);
    var next := h.next;
    h.next := tail;
    tail' := h;
    h' := next;
    h'.parent := null;
    StandingCons(rest[0], rev);
    ChainCons(rest[0], rev, tail);
  }

  lemma ReverseSplit<T>(s: seq<T>, k: nat)
    requires k < |s|
    ensures Reverse(s[..k + 1]) == [s[k]] + Reverse(s[..k])
  {
    ReverseMembers(s[..k + 1]);
    ReverseMembers(s[..k]);
  }

  method ReverseLast<V>(h: HeapNode<V>, tail: HeapNode?<V>, ghost parent: HeapNode<V>,
                        ghost rev: seq<NodeTree<V>>, ghost rest: seq<NodeTree<V>>)
    requires |rest| == 1 && Reversing(h, tail, parent, rev, rest)
    requires Separate(rev, rest, []) && PairwiseApart(Cells(rev, rest, []))
    modifies h`next
    ensures Chain(h, [rest[0]] + rev) && Standing(Cells(rev, rest, []))
  {
    NodeElsewhere(rest[0], rev, Cells(rev, rest, []));
    h.next := tail;
    StandingCons(rest[0], rev);
    ChainCons(rest[0], rev, tail);
    assert Elems([rest[0]] + rev) == Cells(rev, rest, []);
  }

  lemma {:induction false} ReverseDistinct<T>(s: seq<T>)
    requires Distinct(s)
    ensures Distinct(Reverse(s)) && Elems(Reverse(s)) == Elems(s) && (s == [] ==> Reverse(s) == [])
  {
    if s != [] {
      ReverseDistinct(s[1..]);
      assert s == [s[0]] + s[1..];
      assert Elems(Reverse(s)) == Elems(Reverse(s[1..])) + {s[0]} && Elems(s) == {s[0]} + Elems(s[1..]);
      assert s[0] !in Elems(s[1..]);
      DistinctSnoc(Reverse(s[1..]), s[0]);
    }
  }

  /** The children of a node taken out, last first, each cut loose from its parent. */
  method HeapReverse<V>(h0: HeapNode?<V>, ghost kids: seq<NodeTree<V>>, ghost parent: HeapNode<V>)
      returns (h: HeapNode?<V>)
    requires SiblingsAt(h0, kids, parent)
    modifies AllNodes(kids)
    ensures Chain(h, Reverse(kids)) && Standing(Elems(kids)) && PairwiseApart(Elems(kids))
    ensures Distinct(Reverse(kids)) && Elems(Reverse(kids)) == Elems(kids)
  {
    hide Reverse, PairwiseApart;
    SiblingsApart(h0, kids, parent);
    ReverseDistinct(kids);
    ReverseDistinct(kids[..0]);
    h := h0;
    if h == null {
      return;
    }
    var tail: HeapNode?<V> := null;
    h.parent := null;
    ghost var k := 0;
    ghost var rev, rest := [], kids;
    while h.next != null
      invariant k < |kids| && rest == kids[k..] && rev == Reverse(kids[..k])
      invariant h != null && Reversing(h, tail, parent, rev, rest)
      invariant Separate(rev, rest, []) && Cells(rev, rest, []) == Elems(kids)
      decreases |rest|
    {
      assert h in AllNodes(kids) && |rest| > 1;
      assert rest[1] in Elems(kids);
      ReverseStep(rev, rest);
      ReverseSplit(kids, k);
      h, tail := ReverseOne(h, tail, parent, rev, rest);
      rev, rest := [rest[0]] + rev, rest[1..];
      k := k + 1;
    }
    ReverseSplit(kids, k);
    assert kids[..k + 1] == kids;
    assert h in AllNodes(kids);
    ReverseLast(h, tail, parent, rev, rest);
  }

  // ---------- __heap_merge ----------

  ghost predicate Roots3<V>(done: seq<NodeTree<V>>, a: seq<NodeTree<V>>, b: seq<NodeTree<V>>) {
    Separate(done, a, b) && PairwiseApart(Cells(done, a, b))
  }

  /** head is the first root merged so far, last the one whose next is to be set. */
  ghost predicate MergedRoots<V>(head: HeapNode?<V>, last: HeapNode?<V>, done: seq<NodeTree<V>>)
    reads Roots(Elems(done))`next
  {
    && Links(done)
    && (done == [] ==> last == null)
    && (done != [] ==> head == done[0].id && last == done[|done| - 1].id)
  }

  lemma MergeStart<V>(head: HeapNode?<V>)
    ensures MergedRoots(head, null, [])
  {
  }

  /** The C code's pos: the head, or the next field of the last root merged. */
  ghost function Pos<V>(last: HeapNode?<V>): set<HeapNode<V>> { if last == null then {} else {last} }

  lemma AfterMove<V>(done: seq<NodeTree<V>>, a: seq<NodeTree<V>>, b: seq<NodeTree<V>>, last: HeapNode?<V>)
    requires Roots3(done, a, b)
    requires if done == [] then last == null else last == done[|done| - 1].id
    ensures Pos(last) !! Roots(Elems(a)) && Pos(last) !! Roots(Elems(b))
    ensures Distinct(done) && forall i :: 0 <= i < |done| - 1 ==> done[i].id !in Pos(last)
  {
    if done != [] {
      var t := done[|done| - 1];
      assert t in Cells(done, a, b) && t !in a && t !in b;
      NodeElsewhere(t, a, Cells(done, a, b));
      NodeElsewhere(t, b, Cells(done, a, b));
      forall i | 0 <= i < |done| - 1 ensures done[i].id != last {
        assert done[i] != t && done[i] in Cells(done, a, b);
        assert done[i].id in Nodes(done[i]) && t.id in Nodes(t);
      }
    }
  }

  /** Take the first root of list a. */
  method TakeRoot<V>(head: HeapNode?<V>, last: HeapNode?<V>, n: HeapNode<V>, ghost other: HeapNode?<V>,
                     ghost done: seq<NodeTree<V>>, ghost a: seq<NodeTree<V>>, ghost b: seq<NodeTree<V>>)
      returns (head': HeapNode<V>, last': HeapNode<V>, n': HeapNode?<V>)
    requires Roots3(done, a, b) && MergedRoots(head, last, done) && a != [] && Chain(n, a) && Chain(other, b)
    requires Standing(Cells(done, a, b)) && Pos(last) !! Inner(Cells(done, a, b))
    modifies Pos(last)`next
    ensures Standing(Cells(done, a, b))
    ensures MergedRoots(head', last', done + [a[0]]) && Chain(n', a[1..]) && Chain(other, b)
    ensures Roots3(done + [a[0]], a[1..], b)
    ensures Cells(done + [a[0]], a[1..], b) == Cells(done, a, b)
  {
    hide PairwiseApart;
    AfterMove(done, a, b, last);
    MoveP(done, a, b);
    n' := n.next;
    assert a == [a[0]] + a[1..];
    assert |a| > 1 ==> a[0].id.next == a[1].id;
    head', last' := n, n;
    if last != null {
      last.next := n;
      head' := head;
    }
  }

  lemma SwapRoots<V>(done: seq<NodeTree<V>>, a: seq<NodeTree<V>>, b: seq<NodeTree<V>>)
    requires Roots3(done, a, b)
    ensures Roots3(done, b, a) && Cells(done, b, a) == Cells(done, a, b)
  {
    assert Cells(done, b, a) == Cells(done, a, b);
  }

  /** What is merged already, followed by what merging the rest will give. */
  ghost function MergeFrom<V>(done: seq<NodeTree<V>>, a: seq<NodeTree<V>>, b: seq<NodeTree<V>>): seq<NodeTree<V>> {
    done + MergeRoots(a, b)
  }

  lemma MergeFromFacts<V>(done: seq<NodeTree<V>>, a: seq<NodeTree<V>>, b: seq<NodeTree<V>>)
    ensures done == [] ==> MergeFrom(done, a, b) == MergeRoots(a, b)
    ensures a == [] ==> MergeFrom(done, a, b) == done + b
    ensures b == [] ==> MergeFrom(done, a, b) == done + a
    ensures a != [] && b != [] && Deg(a[0]) < Deg(b[0]) ==>
              MergeFrom(done + [a[0]], a[1..], b) == MergeFrom(done, a, b)
    ensures a != [] && b != [] && Deg(a[0]) >= Deg(b[0]) ==>
              MergeFrom(done + [b[0]], a, b[1..]) == MergeFrom(done, a, b)
  {
  }

  /** Hang the whole list a behind what is merged already. */
  method PlaceRest<V>(head: HeapNode?<V>, last: HeapNode?<V>, n: HeapNode?<V>,
                      ghost done: seq<NodeTree<V>>, ghost a: seq<NodeTree<V>>)
      returns (head': HeapNode?<V>)
    requires Roots3(done, a, []) && MergedRoots(head, last, done) && Chain(n, a)
    requires Standing(Cells(done, a, [])) && Pos(last) !! Inner(Cells(done, a, []))
    modifies Pos(last)`next
    ensures Standing(Cells(done, a, []))
    ensures Chain(head', done + a) && Distinct(done + a) && Elems(done + a) == Cells(done, a, [])
  {
    AfterMove(done, a, [], last);
    DistinctConcat(done, a);
    head' := n;
    if last != null {
      last.next := n;
      head' := head;
    }
  }

  /** When one list is used up the other one is hung behind. */
  method MergeEnd<V>(head: HeapNode?<V>, last: HeapNode?<V>, a: HeapNode?<V>, b: HeapNode?<V>,
                     ghost done: seq<NodeTree<V>>, ghost ra: seq<NodeTree<V>>, ghost rb: seq<NodeTree<V>>)
      returns (head': HeapNode?<V>)
    requires Roots3(done, ra, rb) && MergedRoots(head, last, done) && Chain(a, ra) && Chain(b, rb)
    requires ra == [] || rb == []
    requires Standing(Cells(done, ra, rb)) && Pos(last) !! Inner(Cells(done, ra, rb))
    modifies Pos(last)`next
    ensures Standing(Cells(done, ra, rb))
    ensures Chain(head', MergeFrom(done, ra, rb)) && Distinct(MergeFrom(done, ra, rb))
    ensures Elems(MergeFrom(done, ra, rb)) == Cells(done, ra, rb)
  {
    MergeFromFacts(done, ra, rb);
    if a != null {
      head' := PlaceRest(head, last, a, done, ra);
    } else {
      SwapRoots(done, ra, rb);
      head' := PlaceRest(head, last, b, done, rb);
    }
  }

  lemma RootDegree<V>(S: set<NodeTree<V>>, h: HeapNode<V>, s: seq<NodeTree<V>>)
    requires Standing(S) && Elems(s) <= S && Chain(h, s)
    ensures s != [] && s[0].id == h && h.degree == Deg(s[0]) && s[0] in S && h.value == s[0].val
  {
    assert s[0] in Elems(s);
  }

  lemma RootNotInner<V>(S: set<NodeTree<V>>, t: NodeTree<V>)
    requires Standing(S) && PairwiseApart(S) && t in S
    ensures t.id !in Inner(S)
  {
    assert TreeAt(t, null) && t.id in Nodes(t);
    forall u | u in S ensures t.id !in AllNodes(u.kids) {
      assert t != u ==> Nodes(t) !! Nodes(u);
    }
  }

  lemma LastRoot<V>(S: set<NodeTree<V>>, last: HeapNode?<V>, done: seq<NodeTree<V>>)
    requires Standing(S) && PairwiseApart(S)
    requires Elems(done) <= S && (if done == [] then last == null else last == done[|done| - 1].id)
    ensures Pos(last) <= Roots(S) && Pos(last) !! Inner(S)
  {
    if done != [] {
      assert done[|done| - 1] in Elems(done);
      RootNotInner(S, done[|done| - 1]);
    }
  }

  /** Two root lists relinked into one, smaller degrees first; no new node. */
  method HeapMerge<V>(a0: HeapNode?<V>, b0: HeapNode?<V>, ghost sa: seq<NodeTree<V>>, ghost sb: seq<NodeTree<V>>)
      returns (head: HeapNode?<V>)
    requires Chain(a0, sa) && Chain(b0, sb) && Roots3([], sa, sb) && Standing(Cells([], sa, sb))
    modifies Roots(Cells([], sa, sb))`next
    ensures Chain(head, MergeRoots(sa, sb)) && Distinct(MergeRoots(sa, sb))
    ensures Elems(MergeRoots(sa, sb)) == Cells([], sa, sb) && Standing(Cells([], sa, sb))
  {
    hide MergeRoots, MergeFrom, PairwiseApart, Standing, Chain, Links;
    ghost var S := Cells([], sa, sb);
    head := null;
    var a, b, last: HeapNode?<V> := a0, b0, null;
    ghost var done, ra, rb := [], sa, sb;
    MergeStart(head);
    while a != null && b != null
      invariant Roots3(done, ra, rb) && MergedRoots(head, last, done) && Chain(a, ra) && Chain(b, rb)
      invariant Cells(done, ra, rb) == S && Standing(S)
      invariant MergeFrom(done, ra, rb) == MergeFrom([], sa, sb)
      decreases |ra| + |rb|
    {
      MergeFromFacts(done, ra, rb);
      RootDegree(S, a, ra);
      RootDegree(S, b, rb);
      LastRoot(S, last, done);
      if a.degree < b.degree {
        ghost var t := ra[0];
        head, last, a := TakeRoot(head, last, a, b, done, ra, rb);
        done, ra := done + [t], ra[1..];
      } else {
        ghost var t := rb[0];
        SwapRoots(done, ra, rb);
        head, last, b := TakeRoot(head, last, b, a, done, rb, ra);
        done, rb := done + [t], rb[1..];
        SwapRoots(done, rb, ra);
      }
    }
    MergeFromFacts([], sa, sb);
    LastRoot(S, last, done);
    ChainEmpty(a, ra);
    ChainEmpty(b, rb);
    head := MergeEnd(head, last, a, b, done, ra, rb);
  }

  // ---------- __heap_min ----------

  /** Where the minimum root is, and which root stands in front of it. */
  method HeapMin<V>(hp: (V, V) -> bool, head: HeapNode?<V>, ghost s: seq<NodeTree<V>>)
      returns (prev: HeapNode?<V>, node: HeapNode?<V>)
    requires RootList(head, s)
    ensures node == null <==> s == []
    ensures s != [] ==> var k := MinIndex(hp, s);
              node == s[k].id && (if k == 0 then prev == null else prev == s[k - 1].id)
  {
    prev, node := null, null;
    if head == null {
      return;
    }
    node := head;
    var last, cur := head, head.next;
    ghost var i := 1;
    while cur != null
      invariant 1 <= i <= |s| && last == s[i - 1].id && cur == (if i < |s| then s[i].id else null)
      invariant var k := MinIndex(hp, s[..i]);
                node == s[k].id && (if k == 0 then prev == null else prev == s[k - 1].id)
      decreases |s| - i
    {
      assert s[i] in Elems(s) && s[MinIndex(hp, s[..i])] in Elems(s);
      MinIndexStep(hp, s, i);
      if hp(cur.value, node.value) {
        node := cur;
        prev := last;
      }
      last := cur;
      cur := cur.next;
      i := i + 1;
    }
    assert s[..i] == s;
  }

  lemma MinIndexStep<V>(hp: (V, V) -> bool, s: seq<NodeTree<V>>, i: nat)
    requires 0 < i < |s|
    ensures MinIndex(hp, s[..i + 1]) ==
              var k := MinIndex(hp, s[..i]); if hp(s[i].val, s[k].val) then i else k
  {
    assert s[..i + 1][..i] == s[..i];
  }

  // ---------- __heap_union ----------

  /** Every node of the trees of S. */
  ghost function Under<V>(S: set<NodeTree<V>>): set<HeapNode<V>> { Roots(S) + Inner(S) }

  ghost predicate RootList<V>(h: HeapNode?<V>, s: seq<NodeTree<V>>)
    reads Roots(Elems(s))`parent, Roots(Elems(s))`next, Roots(Elems(s))`child, Roots(Elems(s))`degree
    reads Inner(Elems(s))`parent, Inner(Elems(s))`next, Inner(Elems(s))`child, Inner(Elems(s))`degree
  {
    Chain(h, s) && Distinct(s) && Standing(Elems(s)) && PairwiseApart(Elems(s))
  }

  /** Two trees of a root list replaced by their link. */
  lemma LinkedSet<V>(done: seq<NodeTree<V>>, x: NodeTree<V>, n: NodeTree<V>, rest: seq<NodeTree<V>>, t: NodeTree<V>)
    requires var all := done + [x, n] + rest; Distinct(all) && PairwiseApart(Elems(all))
    requires Nodes(t) == Nodes(x) + Nodes(n) && (t.id == x.id || t.id == n.id)
    ensures var all := done + [t] + rest; Distinct(all) && PairwiseApart(Elems(all))
    ensures AllNodes(t.kids) + {t.id} == Nodes(x) + Nodes(n)
  {
    var old_, all := done + [x, n] + rest, done + [t] + rest;
    forall u | u in done || u in rest ensures Nodes(u) !! Nodes(t) && u != t && u in old_ && u != x && u != n {
      AwayFrom(done, x, n, rest, u);
      assert u.id in Nodes(u) && t.id in Nodes(t);
    }
    DistinctReplace(done, x, n, rest, t);
  }

  lemma AwayFrom<V>(done: seq<NodeTree<V>>, x: NodeTree<V>, n: NodeTree<V>, rest: seq<NodeTree<V>>, u: NodeTree<V>)
    requires var all := done + [x, n] + rest; Distinct(all) && PairwiseApart(Elems(all))
    requires u in done || u in rest
    ensures u in Elems(done + [x, n] + rest) && u != x && u != n && Nodes(u) !! Nodes(x) && Nodes(u) !! Nodes(n)
  {
    var all := done + [x, n] + rest;
    var i := |done|;
    assert all[i] == x && all[i + 1] == n;
    if u in done {
      var k :| 0 <= k < |done| && done[k] == u;
      assert all[k] == u;
    } else {
      var k :| 0 <= k < |rest| && rest[k] == u;
      assert all[i + 2 + k] == u;
    }
  }

  lemma DistinctReplace<T>(done: seq<T>, x: T, n: T, rest: seq<T>, t: T)
    requires Distinct(done + [x, n] + rest) && t !in done && t !in rest
    ensures Distinct(done + [t] + rest)
  {
    var all, s := done + [x, n] + rest, done + [t] + rest;
    forall i, j | 0 <= i < j < |s| ensures s[i] != s[j] {
      assert i < |done| ==> s[i] == all[i];
      assert i > |done| ==> s[i] == all[i + 1];
      assert j < |done| ==> s[j] == all[j];
      assert j > |done| ==> s[j] == all[j + 1];
      assert s[|done|] == t;
    }
  }

  /** The part of a root list in front of a root m: it leads from h to m. */
  ghost predicate LeadsTo<V>(h: HeapNode?<V>, done: seq<NodeTree<V>>, m: HeapNode<V>)
    reads Roots(Elems(done))`next
  {
    && Links(done)
    && (if done == [] then h == m else h == done[0].id && done[|done| - 1].id.next == m)
  }

  lemma ChainSplit<V>(h: HeapNode?<V>, done: seq<NodeTree<V>>, m: NodeTree<V>, rest: seq<NodeTree<V>>)
    requires Chain(h, done + [m] + rest)
    ensures LeadsTo(h, done, m.id) && Chain(m.id.next, rest)
  {
    var all, k := done + [m] + rest, |done|;
    assert all[k] == m;
    forall i | 0 <= i < k - 1 ensures done[i].id.next == done[i + 1].id {
      assert all[i] == done[i] && all[i + 1] == done[i + 1];
      assert all[i].id.next == all[i + 1].id;
    }
    if k > 0 {
      assert all[k - 1] == done[k - 1] && all[0] == done[0];
      assert all[k - 1].id.next == all[k].id;
    }
    forall i | 0 <= i < |rest| - 1 ensures rest[i].id.next == rest[i + 1].id {
      assert all[k + 1 + i] == rest[i] && all[k + 2 + i] == rest[i + 1];
      assert all[k + 1 + i].id.next == all[k + 2 + i].id;
    }
    if rest != [] {
      assert all[k + 1] == rest[0] && all[|all| - 1] == rest[|rest| - 1];
      assert all[k].id.next == all[k + 1].id;
    }
  }

  lemma ChainJoin<V>(h: HeapNode?<V>, done: seq<NodeTree<V>>, m: NodeTree<V>, rest: seq<NodeTree<V>>)
    requires LeadsTo(h, done, m.id) && Chain(m.id.next, rest)
    ensures Chain(h, done + [m] + rest)
  {
    var all, k := done + [m] + rest, |done|;
    forall i | 0 <= i < |all| - 1 ensures all[i].id.next == all[i + 1].id {
      if i < k - 1 {
        assert all[i] == done[i] && all[i + 1] == done[i + 1];
      } else if i == k - 1 {
        assert all[i] == done[i] && all[i + 1] == m;
      } else if i == k {
        assert all[i] == m && all[i + 1] == rest[0];
      } else {
        assert all[i] == rest[i - k - 1] && all[i + 1] == rest[i - k];
      }
    }
    assert all[|all| - 1] == if rest == [] then m else rest[|rest| - 1];
  }

  lemma OthersApart<V>(done: seq<NodeTree<V>>, x: NodeTree<V>, n: NodeTree<V>, rest: seq<NodeTree<V>>)
    requires var all := done + [x, n] + rest; Distinct(all) && PairwiseApart(Elems(all))
    ensures {x.id, n.id} !! Under(Elems(done) + Elems(rest))
    ensures Nodes(x) !! Nodes(n) && x.id != n.id
  {
    var all := done + [x, n] + rest;
    assert all[|done|] == x && all[|done| + 1] == n;
    assert x in Elems(all) && n in Elems(all);
    assert x.id in Nodes(x) && n.id in Nodes(n);
    forall u | u in Elems(done) + Elems(rest) ensures {x.id, n.id} !! Nodes(u) {
      AwayFrom(done, x, n, rest, u);
    }
  }

  lemma UnderIs<V>(S: set<NodeTree<V>>)
    ensures Under(S) == Roots(S) + Inner(S)
  {
  }

  lemma UnderUnion<V>(S: set<NodeTree<V>>, T: set<NodeTree<V>>)
    ensures Under(S + T) == Under(S) + Under(T)
  {
  }

  lemma UnderOne<V>(t: NodeTree<V>)
    ensures Under({t}) == Nodes(t)
  {
  }

  lemma UnderReplace<V>(done: seq<NodeTree<V>>, x: NodeTree<V>, n: NodeTree<V>, rest: seq<NodeTree<V>>, t: NodeTree<V>)
    requires Nodes(t) == Nodes(x) + Nodes(n)
    ensures Under(Elems(done + [t] + rest)) == Under(Elems(done + [x, n] + rest))
  {
    hide Under, Nodes;
    var others := Elems(done) + Elems(rest);
    assert Elems(done + [t] + rest) == others + {t};
    assert Elems(done + [x, n] + rest) == others + {x} + {n};
    UnderUnion(others, {t});
    UnderUnion(others, {x});
    UnderUnion(others + {x}, {n});
    UnderOne(t);
    UnderOne(x);
    UnderOne(n);
  }

  /** Two neighbouring roots x and n, and the rest of the root list around them. */
  ghost predicate AroundPair<V>(h: HeapNode?<V>, done: seq<NodeTree<V>>, x: NodeTree<V>, n: NodeTree<V>,
                                rest: seq<NodeTree<V>>)
    reads Roots(Elems(done)), Inner(Elems(done)), Roots(Elems(rest)), Inner(Elems(rest)), Nodes(x), Nodes(n)
  {
    && LeadsTo(h, done, x.id) && x.id.next == n.id && Chain(n.id.next, rest)
    && Standing(Elems(done)) && Standing(Elems(rest)) && TreeAt(x, null) && TreeAt(n, null)
  }

  lemma TakeApart<V>(h: HeapNode?<V>, done: seq<NodeTree<V>>, x: NodeTree<V>, n: NodeTree<V>, rest: seq<NodeTree<V>>)
    requires RootList(h, done + [x, n] + rest)
    ensures AroundPair(h, done, x, n, rest)
    ensures Distinct(done + [x, n] + rest) && PairwiseApart(Elems(done + [x, n] + rest))
    ensures {x.id, n.id} !! Under(Elems(done)) && {x.id, n.id} !! Under(Elems(rest))
    ensures Nodes(x) !! Nodes(n) && x.id != n.id
  {
    var all := done + [x, n] + rest;
    assert all == done + [x] + ([n] + rest) == (done + [x]) + [n] + rest;
    ChainSplit(h, done, x, [n] + rest);
    ChainSplit(h, done + [x], n, rest);
    OthersApart(done, x, n, rest);
    UnderUnion(Elems(done), Elems(rest));
    assert all[|done|] == x && all[|done| + 1] == n;
    assert Elems(done) <= Elems(all) && Elems(rest) <= Elems(all);
  }

  lemma StandingThree<V>(S: set<NodeTree<V>>, t: NodeTree<V>, T: set<NodeTree<V>>)
    requires Standing(S) && TreeAt(t, null) && Standing(T)
    ensures Standing(S + {t} + T)
  {
  }

  lemma PutTogether<V>(h: HeapNode?<V>, done: seq<NodeTree<V>>, x: NodeTree<V>, n: NodeTree<V>,
                       rest: seq<NodeTree<V>>, t: NodeTree<V>)
    requires LeadsTo(h, done, t.id) && Chain(t.id.next, rest)
    requires Standing(Elems(done)) && Standing(Elems(rest)) && TreeAt(t, null)
    requires Distinct(done + [x, n] + rest) && PairwiseApart(Elems(done + [x, n] + rest))
    requires Nodes(t) == Nodes(x) + Nodes(n) && (t.id == x.id || t.id == n.id)
    ensures RootList(h, done + [t] + rest)
    ensures Under(Elems(done + [t] + rest)) == Under(Elems(done + [x, n] + rest))
  {
    hide Under, PairwiseApart, Chain, Links, LeadsTo, TreeAt, Standing, Distinct, Nodes;
    LinkedSet(done, x, n, rest, t);
    UnderReplace(done, x, n, rest, t);
    ChainJoin(h, done, t, rest);
    StandingThree(Elems(done), t, Elems(rest));
    assert Elems(done + [t] + rest) == Elems(done) + {t} + Elems(rest);
  }

  /** The root x takes its neighbour below itself and stays in the list. */
  method LinkNext<V>(x: HeapNode<V>, next: HeapNode<V>, ghost h: HeapNode?<V>, ghost done: seq<NodeTree<V>>,
                     ghost tx: NodeTree<V>, ghost tn: NodeTree<V>, ghost rest: seq<NodeTree<V>>)
    requires RootList(h, done + [tx, tn] + rest) && x == tx.id && next == tn.id
    modifies x, next
    ensures RootList(h, done + [Link(tx, tn)] + rest)
    ensures Under(Elems(done + [Link(tx, tn)] + rest)) == Under(Elems(done + [tx, tn] + rest))
  {
    hide RootList, Standing, Chain, Links, PairwiseApart, Under, Roots, Inner, Distinct, Elems, LeadsTo, SiblingsAt;
    TakeApart(h, done, tx, tn, rest);
    SetAllocated(Elems(done));
    SetAllocated(Elems(rest));
    UnderIs(Elems(done));
    UnderIs(Elems(rest));
    x.next := next.next;
    HeapLink(x, next, tx, tn);
    PutTogether(h, done, tx, tn, rest, Link(tx, tn));
  }

  /** The root in front of the pair is in no way part of the pair or of what follows. */
  lemma PrevApart<V>(done: seq<NodeTree<V>>, x: NodeTree<V>, n: NodeTree<V>, rest: seq<NodeTree<V>>)
    requires var all := done + [x, n] + rest; Distinct(all) && PairwiseApart(Elems(all))
    requires done != []
    ensures done[|done| - 1].id !in Nodes(x) + Nodes(n) + Under(Elems(rest))
    ensures forall i :: 0 <= i < |done| - 1 ==> done[i].id != done[|done| - 1].id
  {
    var all, k := done + [x, n] + rest, |done| - 1;
    var p := done[k];
    assert all[k] == p && p in Elems(all) && p.id in Nodes(p);
    AwayFrom(done, x, n, rest, p);
    forall u | u in rest ensures p.id !in Nodes(u) {
      var i :| 0 <= i < |rest| && rest[i] == u;
      assert all[k + 3 + i] == u && u in Elems(all);
    }
    forall i | 0 <= i < k ensures done[i].id != p.id {
      assert all[i] == done[i] && done[i] in Elems(all) && done[i].id in Nodes(done[i]);
    }
  }

  /** prev->next = next, or next becomes the first root */
  method Bypass<V>(h: HeapNode?<V>, prev: HeapNode?<V>, next: HeapNode<V>, ghost done: seq<NodeTree<V>>,
                   ghost x: HeapNode<V>)
      returns (h': HeapNode?<V>)
    requires LeadsTo(h, done, x) && Standing(Elems(done)) && PairwiseApart(Elems(done))
    requires if done == [] then prev == null else prev == done[|done| - 1].id
    requires forall i :: 0 <= i < |done| - 1 ==> done[i].id != prev
    modifies Pos(prev)`next
    ensures LeadsTo(h', done, next) && Standing(Elems(done))
  {
    if prev != null {
      RootNotInner(Elems(done), done[|done| - 1]);
      prev.next := next;
      h' := h;
    } else {
      h' := next;
    }
  }

  lemma PartsOf<V>(done: seq<NodeTree<V>>, x: NodeTree<V>, n: NodeTree<V>, rest: seq<NodeTree<V>>)
    requires PairwiseApart(Elems(done + [x, n] + rest))
    ensures PairwiseApart(Elems(done))
  {
    var all := done + [x, n] + rest;
    assert Elems(done) <= Elems(all);
  }

  /** The root x goes below its neighbour, which the root in front, or the head, now reaches. */
  method LinkPrev<V>(h: HeapNode?<V>, prev: HeapNode?<V>, x: HeapNode<V>, next: HeapNode<V>,
                     ghost done: seq<NodeTree<V>>, ghost tx: NodeTree<V>, ghost tn: NodeTree<V>,
                     ghost rest: seq<NodeTree<V>>)
      returns (h': HeapNode?<V>)
    requires RootList(h, done + [tx, tn] + rest) && x == tx.id && next == tn.id
    requires if done == [] then prev == null else prev == done[|done| - 1].id
    modifies x, next, Pos(prev)`next
    ensures RootList(h', done + [Link(tn, tx)] + rest)
    ensures Under(Elems(done + [Link(tn, tx)] + rest)) == Under(Elems(done + [tx, tn] + rest))
  {
    hide RootList, Standing, Chain, Links, PairwiseApart, Under, Roots, Inner, Distinct, Elems, LeadsTo, SiblingsAt;
    TakeApart(h, done, tx, tn, rest);
    PartsOf(done, tx, tn, rest);
    if done != [] {
      PrevApart(done, tx, tn, rest);
    }
    SetAllocated(Elems(done));
    SetAllocated(Elems(rest));
    UnderIs(Elems(done));
    UnderIs(Elems(rest));
    TreeAllocated(tx);
    TreeAllocated(tn);
    h' := Bypass(h, prev, next, done, x);
    assert Standing(Elems(rest)) && Chain(next.next, rest) && TreeAt(tx, null) && TreeAt(tn, null);
    HeapLink(next, x, tn, tx);
    PutTogether(h', done, tx, tn, rest, Link(tn, tx));
  }

  /** What the loop has passed, followed by what it will make of the rest. */
  ghost function UnionFrom<V>(hp: (V, V) -> bool, done: seq<NodeTree<V>>, x: NodeTree<V>, rest: seq<NodeTree<V>>):
    seq<NodeTree<V>>
  {
    done + Consolidate(hp, x, rest)
  }

  lemma UnionFromEnds<V>(hp: (V, V) -> bool, done: seq<NodeTree<V>>, x: NodeTree<V>, rest: seq<NodeTree<V>>)
    ensures done == [] ==> UnionFrom(hp, done, x, rest) == Consolidate(hp, x, rest)
    ensures rest == [] ==> UnionFrom(hp, done, x, rest) == done + [x] + rest
  {
  }

  lemma UnionFromStep<V>(hp: (V, V) -> bool, done: seq<NodeTree<V>>, x: NodeTree<V>, n: NodeTree<V>,
                         rest: seq<NodeTree<V>>)
    ensures done + [x] + ([n] + rest) == done + [x, n] + rest
    ensures done + [x] + ([n] + rest) == (done + [x]) + [n] + rest
    ensures UnionFrom(hp, done, x, [n] + rest) ==
              if Deg(x) != Deg(n) || (rest != [] && Deg(rest[0]) == Deg(x)) then UnionFrom(hp, done + [x], n, rest)
              else if hp(x.val, n.val) then UnionFrom(hp, done, Link(x, n), rest)
              else UnionFrom(hp, done, Link(n, x), rest)
  {
    var s := [n] + rest;
    assert s[1..] == rest && (rest != [] ==> s[1] == rest[0]);
  }

  /** What the loop reads through x, next and next->next. */
  lemma Neighbours<V>(h: HeapNode?<V>, done: seq<NodeTree<V>>, x: NodeTree<V>, rest: seq<NodeTree<V>>)
    requires RootList(h, done + [x] + rest)
    ensures x.id.degree == Deg(x) && x.id.value == x.val && x.id in Under(Elems(done + [x] + rest))
    ensures Chain(x.id.next, rest) && forall t :: t in rest ==> t.id.degree == Deg(t) && t.id.value == t.val
    ensures forall t :: t in done || t in rest ==> t.id in Under(Elems(done + [x] + rest))
  {
    var all := done + [x] + rest;
    ChainSplit(h, done, x, rest);
    assert all[|done|] == x && x in Elems(all);
    assert Elems(rest) <= Elems(all) && Elems(done) <= Elems(all);
    forall t | t in rest ensures TreeAt(t, null) {
      assert t in Elems(rest);
    }
    forall t | t in done || t in rest ensures t in Elems(all) {
      assert t in Elems(done) || t in Elems(rest);
    }
  }

  lemma ChainHead<V>(n: HeapNode?<V>, rest: seq<NodeTree<V>>)
    requires Chain(n, rest)
    ensures n == null <==> rest == []
    ensures rest != [] ==> n == rest[0].id
    ensures |rest| == 1 ==> n.next == null
    ensures |rest| > 1 ==> n.next == rest[1].id
  {
  }

  /** The loop of __heap_union over a merged root list. */
  method UnionLoop<V>(hp: (V, V) -> bool, h: HeapNode<V>, ghost s: seq<NodeTree<V>>)
      returns (h1: HeapNode?<V>)
    requires s != [] && RootList(h, s)
    modifies Under(Elems(s))
    ensures RootList(h1, Consolidate(hp, s[0], s[1..]))
    ensures Under(Elems(Consolidate(hp, s[0], s[1..]))) == Under(Elems(s))
  {
    hide RootList, Consolidate, UnionFrom, Under, Chain;
    h1 := h;
    var prev: HeapNode?<V>, x := null, h;
    ghost var done, tx, rest := [], s[0], s[1..];
    assert done + [tx] + rest == s;
    UnionFromEnds(hp, done, tx, rest);
    Neighbours(h1, done, tx, rest);
    RootHead(h, s);
    var next := x.next;
    while next != null
      invariant RootList(h1, done + [tx] + rest) && Under(Elems(done + [tx] + rest)) == Under(Elems(s))
      invariant x == tx.id && next == x.next && Chain(next, rest)
      invariant if done == [] then prev == null else prev == done[|done| - 1].id
      invariant UnionFrom(hp, done, tx, rest) == Consolidate(hp, s[0], s[1..])
      decreases |rest|
    {
      Neighbours(h1, done, tx, rest);
      ChainHead(next, rest);
      assert rest == [rest[0]] + rest[1..];
      UnionFromStep(hp, done, tx, rest[0], rest[1..]);
      if x.degree != next.degree || (next.next != null && next.next.degree == x.degree) {
        prev := x;
        x := next;
        done, tx, rest := done + [tx], rest[0], rest[1..];
      } else if hp(x.value, next.value) {
        LinkNext(x, next, h1, done, tx, rest[0], rest[1..]);
        tx, rest := Link(tx, rest[0]), rest[1..];
      } else {
        h1 := LinkPrev(h1, prev, x, next, done, tx, rest[0], rest[1..]);
        x := next;
        tx, rest := Link(rest[0], tx), rest[1..];
      }
      Neighbours(h1, done, tx, rest);
      next := x.next;
    }
    ChainHead(next, rest);
    UnionFromEnds(hp, done, tx, rest);
  }

  lemma RootHead<V>(h: HeapNode<V>, s: seq<NodeTree<V>>)
    requires RootList(h, s) && s != []
    ensures h == s[0].id
  {
  }

  lemma RootListFrom<V>(h: HeapNode?<V>, s: seq<NodeTree<V>>, S: set<NodeTree<V>>)
    requires Chain(h, s) && Distinct(s) && Elems(s) == S && Standing(S) && PairwiseApart(S)
    ensures RootList(h, s)
  {
  }

  lemma BothStanding<V>(h: HeapNode?<V>, h2: HeapNode?<V>, s: seq<NodeTree<V>>, s2: seq<NodeTree<V>>)
    requires RootList(h, s) && RootList(h2, s2)
    ensures Standing(Cells([], s, s2)) && Chain(h, s) && Chain(h2, s2)
    ensures s == [] ==> Cells([], s, s2) == Elems(s2)
    ensures s2 == [] ==> Cells([], s, s2) == Elems(s)
    ensures Roots(Cells([], s, s2)) <= Under(Cells([], s, s2))
  {
  }

  /** Merge a second root list into the heap's, from the heap's head on. */
  method HeapUnion<V>(hp: (V, V) -> bool, head: HeapNode?<V>, h2: HeapNode?<V>,
                      ghost s: seq<NodeTree<V>>, ghost s2: seq<NodeTree<V>>)
      returns (head': HeapNode?<V>)
    requires RootList(head, s) && RootList(h2, s2) && Roots3([], s, s2)
    modifies Under(Cells([], s, s2))
    ensures RootList(head', UnionRoots(hp, s, s2))
    ensures Under(Elems(UnionRoots(hp, s, s2))) == Under(Cells([], s, s2))
  {
    hide RootList, Consolidate, MergeRoots, Under, PairwiseApart, Standing;
    BothStanding(head, h2, s, s2);
    if h2 == null {
      return head;
    }
    var h1 := head;
    if h1 == null {
      return h2;
    }
    MergeVals(s, s2);
    h1 := HeapMerge(h1, h2, s, s2);
    RootListFrom(h1, MergeRoots(s, s2), Cells([], s, s2));
    head' := UnionLoop(hp, h1, MergeRoots(s, s2));
  }

  // ---------- __heap_extract_min ----------

  lemma WithoutElems<T>(s: seq<T>, k: nat)
    requires k < |s| && Distinct(s)
    ensures s == s[..k] + [s[k]] + s[k + 1..]
    ensures Distinct(Without(s, k)) && Elems(Without(s, k)) == Elems(s) - {s[k]}
  {
    assert s == s[..k] + [s[k]] + s[k + 1..];
    var w := Without(s, k);
    forall i, j | 0 <= i < j < |w| ensures w[i] != w[j] {
      assert w[i] == (if i < k then s[i] else s[i + 1]) && w[j] == (if j < k then s[j] else s[j + 1]);
    }
    assert Elems(s) == Elems(w) + {s[k]};
    forall t | t in w ensures t != s[k] {
      var i :| 0 <= i < |w| && w[i] == t;
      assert w[i] == if i < k then s[i] else s[i + 1];
    }
  }

  lemma WithoutNodes<V>(S: set<NodeTree<V>>, t: NodeTree<V>)
    requires PairwiseApart(S) && t in S
    ensures PairwiseApart(S - {t}) && Nodes(t) !! Under(S - {t})
    ensures Under(S) == Under(S - {t}) + Nodes(t)
  {
    forall n | n in Under(S - {t}) ensures n !in Nodes(t) {
      var u :| u in S - {t} && n in Nodes(u);
    }
    assert S == (S - {t}) + {t};
    UnderUnion(S - {t}, {t});
    UnderOne(t);
  }

  lemma RootIdsDiffer<V>(s: seq<NodeTree<V>>, i: nat, j: nat)
    requires Distinct(s) && PairwiseApart(Elems(s)) && i < j < |s|
    ensures s[i].id != s[j].id
  {
    assert s[i] in Elems(s) && s[j] in Elems(s) && s[i] != s[j];
    assert s[i].id in Nodes(s[i]) && s[j].id in Nodes(s[j]);
  }

  /** The links once the root behind the one at k - 1 has been skipped. */
  lemma SkippedLinks<V>(h: HeapNode?<V>, s: seq<NodeTree<V>>, k: nat)
    requires 0 < k < |s| && LeadsTo(h, s[..k - 1], s[k - 1].id) && Chain(s[k - 1].id.next, s[k + 1..])
    ensures Chain(h, Without(s, k))
  {
    ChainJoin(h, s[..k - 1], s[k - 1], s[k + 1..]);
    assert Without(s, k) == s[..k - 1] + [s[k - 1]] + s[k + 1..];
  }

  lemma BeforeSkip<V>(h: HeapNode?<V>, s: seq<NodeTree<V>>, k: nat)
    requires k < |s| && Chain(h, s)
    ensures Chain(s[k].id.next, s[k + 1..])
    ensures k > 0 ==> LeadsTo(h, s[..k - 1], s[k - 1].id)
  {
    assert s == s[..k] + [s[k]] + s[k + 1..];
    ChainSplit(h, s[..k], s[k], s[k + 1..]);
    if k > 0 {
      assert s == s[..k - 1] + [s[k - 1]] + s[k..];
      ChainSplit(h, s[..k - 1], s[k - 1], s[k..]);
    }
  }

  /** prev->next = node->next, or head = node->next */
  method Unhook<V>(head: HeapNode<V>, prev: HeapNode?<V>, node: HeapNode<V>, ghost s: seq<NodeTree<V>>, ghost k: nat)
      returns (head': HeapNode?<V>)
    requires Chain(head, s) && Distinct(s) && PairwiseApart(Elems(s)) && Standing(Elems(s))
    requires k < |s| && node == s[k].id && (if k == 0 then prev == null else prev == s[k - 1].id)
    modifies Pos(prev)`next
    ensures Chain(head', Without(s, k)) && Standing(Elems(s))
  {
    BeforeSkip(head, s, k);
    head' := head;
    if prev != null {
      assert s[k - 1] in Elems(s);
      RootNotInner(Elems(s), s[k - 1]);
      ghost var front, back := s[..k - 1], s[k + 1..];
      forall t | t in front || t in back ensures t.id != prev {
        RootsOff(s, k, t);
      }
      prev.next := node.next;
      assert LeadsTo(head, front, prev) && Chain(prev.next, back);
      SkippedLinks(head, s, k);
    } else {
      head' := node.next;
      assert Without(s, k) == s[k + 1..];
    }
  }

  lemma RootsOff<V>(s: seq<NodeTree<V>>, k: nat, t: NodeTree<V>)
    requires 0 < k < |s| && Distinct(s) && PairwiseApart(Elems(s))
    requires t in s[..k - 1] || t in s[k + 1..]
    ensures t.id != s[k - 1].id
  {
    if t in s[..k - 1] {
      var i :| 0 <= i < k - 1 && s[i] == t;
      RootIdsDiffer(s, i, k - 1);
    } else {
      var i :| k + 1 <= i < |s| && s[i] == t;
      RootIdsDiffer(s, k - 1, i);
    }
  }

  lemma KidsUnder<V>(t: NodeTree<V>)
    ensures Under(Elems(t.kids)) == AllNodes(t.kids) && AllNodes(t.kids) <= Nodes(t)
  {
    UnderSeq(t.kids);
  }

  lemma {:induction false} UnderSeq<V>(s: seq<NodeTree<V>>)
    ensures Under(Elems(s)) == AllNodes(s)
  {
    if s != [] {
      UnderSeq(s[1..]);
      assert Elems(s) == Elems([s[0]]) + Elems(s[1..]) && Elems([s[0]]) == {s[0]};
      UnderUnion({s[0]}, Elems(s[1..]));
      UnderOne(s[0]);
    }
  }

  lemma ListApart<V>(S: set<NodeTree<V>>, T: set<NodeTree<V>>)
    requires Under(S) !! Under(T) && PairwiseApart(S) && PairwiseApart(T)
    ensures S !! T && PairwiseApart(S + T)
  {
    forall t, u | t in S && u in T ensures Nodes(t) !! Nodes(u) && t != u {
      assert Nodes(t) <= Under(S) && Nodes(u) <= Under(T) by {
        UnderUnion(S - {t}, {t});
        UnderUnion(T - {u}, {u});
        assert S == (S - {t}) + {t} && T == (T - {u}) + {u};
        UnderOne(t);
        UnderOne(u);
      }
      assert t.id in Nodes(t);
    }
  }

  lemma Roots3From<V>(s: seq<NodeTree<V>>, s2: seq<NodeTree<V>>)
    requires Distinct(s) && Distinct(s2) && Under(Elems(s)) !! Under(Elems(s2))
    requires PairwiseApart(Elems(s)) && PairwiseApart(Elems(s2))
    ensures Roots3([], s, s2) && Under(Cells([], s, s2)) == Under(Elems(s)) + Under(Elems(s2))
  {
    ListApart(Elems(s), Elems(s2));
    assert Cells([], s, s2) == Elems(s) + Elems(s2);
    UnderUnion(Elems(s), Elems(s2));
    forall t | t in s ensures t !in s2 {
      assert t in Elems(s);
    }
  }

  /** The two root lists that taking out root k leaves: the other roots, and its children. */
  lemma SplitAt<V>(s: seq<NodeTree<V>>, k: nat)
    requires k < |s| && Distinct(s) && PairwiseApart(Elems(s)) && Standing(Elems(s))
    ensures var w, kids := Elems(Without(s, k)), Elems(s[k].kids);
      && Distinct(Without(s, k)) && PairwiseApart(w) && w <= Elems(s)
      && Under(w) !! Under(kids) && s[k].id !in Under(w) + Under(kids)
      && Under(Elems(s)) == Under(w) + Under(kids) + {s[k].id}
      && SiblingsAt(s[k].id.child, s[k].kids, s[k].id) && Under(kids) == AllNodes(s[k].kids)
      && Roots(w) !! AllNodes(s[k].kids) && Inner(w) !! AllNodes(s[k].kids)
  {
    WithoutElems(s, k);
    WithoutNodes(Elems(s), s[k]);
    KidsUnder(s[k]);
    assert TreeAt(s[k], null);
  }

  /** Take the minimum root out of the root list; its children go back in. */
  method HeapExtractMin<V>(hp: (V, V) -> bool, head: HeapNode?<V>, ghost s: seq<NodeTree<V>>)
      returns (head': HeapNode?<V>, node: HeapNode?<V>)
    requires RootList(head, s)
    modifies Under(Elems(s))
    ensures s == [] ==> node == null && head' == head
    ensures s != [] ==>
      && node == s[MinIndex(hp, s)].id && node.value == s[MinIndex(hp, s)].val
      && RootList(head', AfterExtract(hp, s))
      && Under(Elems(AfterExtract(hp, s))) + {node} == Under(Elems(s))
      && node !in Under(Elems(AfterExtract(hp, s)))
  {
    var prev;
    SetAllocated(Elems(s));
    prev, node := HeapMin(hp, head, s);
    head' := head;
    if node == null {
      return;
    }
    assert s[MinIndex(hp, s)] in Elems(s);
    head' := ExtractRest(hp, head, prev, node, s, MinIndex(hp, s));
  }

  method UnhookRoot<V>(head: HeapNode<V>, prev: HeapNode?<V>, node: HeapNode<V>, ghost s: seq<NodeTree<V>>, ghost k: nat)
      returns (head': HeapNode?<V>)
    requires RootList(head, s) && k < |s| && node == s[k].id
    requires if k == 0 then prev == null else prev == s[k - 1].id
    modifies Under(Elems(s))
    ensures Chain(head', Without(s, k)) && Standing(Elems(Without(s, k))) && TreeAt(s[k], null)
  {
    hide Chain, PairwiseApart;
    WithoutElems(s, k);
    assert prev != null ==> s[k - 1] in Elems(s);
    head' := Unhook(head, prev, node, s, k);
    assert s[k] in Elems(s);
  }

  method ExtractRest<V>(hp: (V, V) -> bool, head: HeapNode<V>, prev: HeapNode?<V>, node: HeapNode<V>,
                        ghost s: seq<NodeTree<V>>, ghost k: nat)
      returns (head': HeapNode?<V>)
    requires RootList(head, s) && k < |s| && node == s[k].id
    requires if k == 0 then prev == null else prev == s[k - 1].id
    modifies Under(Elems(s))
    ensures var left := UnionRoots(hp, Without(s, k), Reverse(s[k].kids));
      && RootList(head', left) && Under(Elems(left)) + {node} == Under(Elems(s)) && node !in Under(Elems(left))
  {
    hide UnionRoots, Reverse, PairwiseApart, Chain, Distinct, Nodes;
    SplitAt(s, k);
    ghost var w, kids := Without(s, k), s[k].kids;
    head' := UnhookRoot(head, prev, node, s, k);
    SetAllocated(Elems(w));
    UnderIs(Elems(w));
    hide Standing, Under, Elems, Roots, Inner;
    var h2 := HeapReverse(node.child, kids, node);
    assert Chain(head', w) && Standing(Elems(w));
    RootListFrom(h2, Reverse(kids), Elems(kids));
    RootListFrom(head', w, Elems(w));
    Roots3From(w, Reverse(kids));
    head' := HeapUnion(hp, head', h2, w, Reverse(kids));
  }

  // ---------- the heap ----------

  function EntryOf<V>(n: HeapNode<V>): Entry<HeapNode<V>, V> { Entry(n, n.value) }

  lemma LoneRoot<V>(n: HeapNode<V>)
    requires n.child == n.parent == n.next == null && n.degree == 0
    ensures RootList(n, [Leaf(EntryOf(n))])
    ensures Under(Elems([Leaf(EntryOf(n))])) == {n}
  {
    var t := Leaf(EntryOf(n));
    assert Elems([t]) == {t};
    UnderOne(t);
  }

  lemma RootListApart<V>(h: HeapNode?<V>, s: seq<NodeTree<V>>)
    requires RootList(h, s)
    ensures Distinct(s) && PairwiseApart(Elems(s))
  {
  }

  lemma TakeFacts<V(!new)>(hp: (V, V) -> bool, h: Heap<HeapNode<V>, V>)
    requires StrictWeakOrder(hp) && HeapOk(hp, h) && Bag(h) != multiset{}
    ensures Cached(hp, h).min.Some?
    ensures var v, left := Cached(hp, h).min.value.val, Heap(Cached(hp, h).roots, None);
            Taken(hp, h, v, left) && |Bag(left)| == |Bag(h)| - 1
  {
    TakeCorrect(hp, h);
  }

  class BinHeap<V(!new)> {
    var head: HeapNode?<V>
    var min: HeapNode?<V>
    var allCount: int
    ghost var h: Heap<HeapNode<V>, V>

    ghost function Footprint(): set<HeapNode<V>>
      reads this`h, this`min
    {
      Under(Elems(h.roots)) + Pos(min)
    }

    /** The pointers are those of the abstract heap h. */
    ghost predicate Linked()
      reads this`head, this`min, this`h, Footprint()
    {
      && RootList(head, h.roots)
      && h.min == (if min == null then None else Some(EntryOf(min)))
      && (min != null ==> min !in Under(Elems(h.roots)))
    }

    ghost predicate Valid()
      reads this, Footprint()
    {
      Linked() && allCount == |Bag(h)|
    }

    lemma FootprintAllocated()
      ensures forall n :: n in Footprint() ==> allocated(n)
    {
      SetAllocated(Elems(h.roots));
      UnderIs(Elems(h.roots));
    }

    constructor ()
      ensures Valid() && Bag(h) == multiset{} && Footprint() == {}
      ensures forall hp: (V, V) -> bool :: HeapOk(hp, h)
    {
      head, min, allCount := null, null, 0;
      h := Heap([], None);
    }

    method Empty() returns (r: bool)
      requires Valid()
      ensures r <==> Bag(h) == multiset{}
    {
      r := head == null && min == null;
      if head != null {
        assert Vals(h.roots[0])[h.roots[0].val] > 0;
        assert h.roots[0].val in AllVals(h.roots);
      }
    }

    /** The node starts afresh as a tree of its own; a cached minimum that it beats makes way for it. */
    method Insert(hp: (V, V) -> bool, node: HeapNode<V>)
      requires Valid() && node !in Footprint()
      modifies this, Footprint(), node
      ensures Valid() && h == Binomial.Insert(hp, old(h), EntryOf(node))
      ensures Footprint() == old(Footprint()) + {node}
      ensures Bag(h) == old(Bag(h)) + multiset{node.value}
    {
      hide UnionRoots, PairwiseApart, Standing, Chain, Distinct, Under, Roots, Inner, Bag, RootList;
      InsertBag(hp, h, EntryOf(node));
      SetAllocated(Elems(h.roots));
      UnderIs(Elems(h.roots));
      node.child, node.parent, node.next, node.degree := null, null, null, 0;
      if min != null && hp(node.value, min.value) {
        InsertAbove(hp, node);
      } else {
        Join(hp, node);
      }
      allCount := allCount + 1;
    }

    /** The new node takes the place of the cached minimum, which joins the roots. */
    method InsertAbove(hp: (V, V) -> bool, node: HeapNode<V>)
      requires Linked() && node !in Footprint() && min != null
      modifies this`head, this`min, this`h, Footprint()
      ensures Linked() && Footprint() == old(Footprint()) + {node}
      ensures h == Heap(UnionRoots(hp, old(h).roots, [Leaf(EntryOf(old(min)))]), Some(EntryOf(node)))
    {
      hide UnionRoots, PairwiseApart, Standing, Chain, Distinct, Under, Roots, Inner;
      SetAllocated(Elems(h.roots));
      UnderIs(Elems(h.roots));
      min.child, min.parent, min.next, min.degree := null, null, null, 0;
      Join(hp, min);
      min := node;
      h := h.(min := Some(EntryOf(node)));
    }

    /** Put a lone node among the roots, leaving the cached minimum alone. */
    method Join(hp: (V, V) -> bool, n: HeapNode<V>)
      requires RootList(head, h.roots) && n !in Under(Elems(h.roots))
      requires n.child == n.parent == n.next == null && n.degree == 0
      modifies this`head, this`h, Under(Elems(h.roots)), n
      ensures h == old(h).(roots := UnionRoots(hp, old(h).roots, [Leaf(EntryOf(n))]))
      ensures RootList(head, h.roots) && Under(Elems(h.roots)) == old(Under(Elems(h.roots))) + {n}
    {
      hide UnionRoots, PairwiseApart, Distinct, Under;
      ghost var one := [Leaf(EntryOf(n))];
      LoneRoot(n);
      RootListApart(head, h.roots);
      RootListApart(n, one);
      Roots3From(h.roots, one);
      head := HeapUnion(hp, head, n, h.roots, one);
      h := h.(roots := UnionRoots(hp, h.roots, one));
    }

    /** Fill the cache with the minimum root if it is empty. */
    method FillCache(hp: (V, V) -> bool)
      requires Linked()
      modifies this`head, this`min, this`h, Footprint()
      ensures Linked() && h == Cached(hp, old(h)) && Footprint() == old(Footprint())
    {
      hide AfterExtract, PairwiseApart, Standing, Chain, Distinct, Under;
      SetAllocated(Elems(h.roots));
      if min == null {
        ghost var s := h.roots;
        head, min := HeapExtractMin(hp, head, s);
        if s != [] {
          h := Heap(AfterExtract(hp, s), Some(EntryOf(min)));
        }
      }
    }

    method Peek(hp: (V, V) -> bool) returns (r: HeapNode?<V>)
      requires Valid() && StrictWeakOrder(hp) && HeapOk(hp, h)
      modifies this, Footprint()
      ensures Valid() && HeapOk(hp, h) && Footprint() == old(Footprint())
      ensures Bag(h) == old(Bag(h))
      ensures r == null <==> Bag(h) == multiset{}
      ensures r != null ==> r.value in Bag(h) && Unbeaten(hp, r.value, Bag(h))
    {
      hide HeapOk, StrictWeakOrder, Unbeaten, Bag, Cached, RootList;
      PeekCorrect(hp, h);
      FillCache(hp);
      r := min;
    }

    /** Remove and return a node of highest priority; callers check that the heap is not empty. */
    method Take(hp: (V, V) -> bool) returns (r: HeapNode<V>)
      requires Valid() && StrictWeakOrder(hp) && HeapOk(hp, h) && Bag(h) != multiset{}
      modifies this, Footprint()
      ensures Valid() && Taken(hp, old(h), r.value, h) && r.degree == NOT_IN_HEAP
      ensures r in old(Footprint()) && Footprint() == old(Footprint()) - {r}
    {
      hide HeapOk, StrictWeakOrder, Taken, Bag, Cached, RootList, Under, Elems, Linked, Footprint;
      TakeFacts(hp, h);
      r := TakeLinked(hp);
      allCount := allCount - 1;
    }

    /** Taking as far as the pointers go. */
    method TakeLinked(hp: (V, V) -> bool) returns (r: HeapNode<V>)
      requires Linked() && Cached(hp, h).min.Some?
      modifies this`head, this`min, this`h, Footprint()
      ensures Linked() && r.degree == NOT_IN_HEAP && h == Heap(Cached(hp, old(h)).roots, None)
      ensures Cached(hp, old(h)).min == Some(EntryOf(r))
      ensures r in old(Footprint()) && Footprint() == old(Footprint()) - {r}
    {
      hide Cached, RootList, Under, Roots, Inner;
      FillCache(hp);
      r := Uncache();
    }

    /** heap->min leaves the heap. */
    method Uncache() returns (r: HeapNode<V>)
      requires Linked() && h.min.Some?
      modifies this`min, this`h, Footprint()
      ensures Linked() && r.degree == NOT_IN_HEAP && old(h).min == Some(EntryOf(r))
      ensures h == old(h).(min := None)
      ensures r in old(Footprint()) && Footprint() == old(Footprint()) - {r}
    {
      UnderIs(Elems(h.roots));
      hide RootList, Under, Roots, Inner;
      r := min;
      min := null;
      h := h.(min := None);
      r.degree := NOT_IN_HEAP;
    }
  }
}
