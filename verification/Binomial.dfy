/** The binomial heap of heap.c on tree values: what each step computes, and
    why the heap is a priority queue. A tree carries the identity of its root
    node next to the value kept there, so that BinomialHeap can tie the same
    trees to node objects. */
module Binomial {
  import opened Basics

  datatype Tree<N, V> = Tree(id: N, val: V, kids: seq<Tree<N, V>>)

  /** higher_prio answers for a strict weak order. */
  ghost predicate StrictWeakOrder<V(!new)>(hp: (V, V) -> bool) {
    && (forall x, y :: hp(x, y) ==> !hp(y, x))
    && (forall x, y, z :: !hp(y, x) && !hp(z, y) ==> !hp(z, x))
  }

  function Deg<N, V>(t: Tree<N, V>): nat { |t.kids| }

  // ---------- the operations ----------

  /** child becomes the first child of root. */
  function Link<N, V>(root: Tree<N, V>, child: Tree<N, V>): Tree<N, V> {
    Tree(root.id, root.val, [child] + root.kids)
  }

  function MergeRoots<N, V>(a: seq<Tree<N, V>>, b: seq<Tree<N, V>>): seq<Tree<N, V>> {
    if a == [] then b
    else if b == [] then a
    else if Deg(a[0]) < Deg(b[0]) then [a[0]] + MergeRoots(a[1..], b)
    else [b[0]] + MergeRoots(a, b[1..])
  }

  function Reverse<T>(s: seq<T>): seq<T> {
    if s == [] then [] else Reverse(s[1..]) + [s[0]]
  }

  /** The loop of __heap_union from root x on, with the roots behind it. */
  function Consolidate<N, V>(hp: (V, V) -> bool, x: Tree<N, V>, rest: seq<Tree<N, V>>): seq<Tree<N, V>>
    decreases |rest|
  {
    if rest == [] then [x]
    else if Deg(x) != Deg(rest[0]) || (|rest| > 1 && Deg(rest[1]) == Deg(x)) then
      [x] + Consolidate(hp, rest[0], rest[1..])
    else if hp(x.val, rest[0].val) then Consolidate(hp, Link(x, rest[0]), rest[1..])
    else Consolidate(hp, Link(rest[0], x), rest[1..])
  }

  function UnionRoots<N, V>(hp: (V, V) -> bool, h: seq<Tree<N, V>>, h2: seq<Tree<N, V>>): seq<Tree<N, V>> {
    if h2 == [] then h
    else if h == [] then h2
    else
      var m := MergeRoots(h, h2);
      Consolidate(hp, m[0], m[1..])
  }

  /** Where __heap_min stops: the first root that no later root beats. */
  function MinIndex<N, V>(hp: (V, V) -> bool, s: seq<Tree<N, V>>): (k: nat)
    requires s != []
    ensures k < |s|
  {
    if |s| == 1 then 0
    else
      var k := MinIndex(hp, s[..|s| - 1]);
      if hp(s[|s| - 1].val, s[k].val) then |s| - 1 else k
  }

  function Without<T>(s: seq<T>, k: nat): seq<T>
    requires k < |s|
  {
    s[..k] + s[k + 1..]
  }

  /** The roots left when the minimum root is taken out. */
  function AfterExtract<N, V>(hp: (V, V) -> bool, s: seq<Tree<N, V>>): seq<Tree<N, V>>
    requires s != []
  {
    var k := MinIndex(hp, s);
    UnionRoots(hp, Without(s, k), Reverse(s[k].kids))
  }

  // ---------- contents ----------

  ghost function Vals<N, V>(t: Tree<N, V>): multiset<V>
    decreases t
  {
    multiset{t.val} + AllVals(t.kids)
  }

  ghost function AllVals<N, V>(s: seq<Tree<N, V>>): multiset<V>
    decreases s
  {
    if s == [] then multiset{} else Vals(s[0]) + AllVals(s[1..])
  }

  lemma Regroup<V>(x: multiset<V>, a: multiset<V>, b: multiset<V>)
    ensures x + (a + b) == (x + a) + b && x + (a + b) == a + (x + b)
  {
  }

  lemma ConsVals<N, V>(x: Tree<N, V>, s: seq<Tree<N, V>>)
    ensures AllVals([x] + s) == Vals(x) + AllVals(s)
  {
    assert ([x] + s)[1..] == s;
  }

  lemma {:induction false} AllValsConcat<N, V>(a: seq<Tree<N, V>>, b: seq<Tree<N, V>>)
    ensures AllVals(a + b) == AllVals(a) + AllVals(b)
    decreases |a|
  {
    hide Vals;
    if a == [] {
      assert a + b == b;
    } else {
      assert a + b == [a[0]] + (a[1..] + b);
      calc {
        AllVals(a + b);
        { ConsVals(a[0], a[1..] + b); }
        Vals(a[0]) + AllVals(a[1..] + b);
        { AllValsConcat(a[1..], b); }
        Vals(a[0]) + (AllVals(a[1..]) + AllVals(b));
        { Regroup(Vals(a[0]), AllVals(a[1..]), AllVals(b)); }
        AllVals(a) + AllVals(b);
      }
    }
  }

  lemma LinkVals<N, V>(root: Tree<N, V>, child: Tree<N, V>)
    ensures Vals(Link(root, child)) == Vals(root) + Vals(child)
  {
    ConsVals(child, root.kids);
    Regroup(multiset{root.val}, Vals(child), AllVals(root.kids));
  }

  lemma {:induction false} MergeVals<N, V>(a: seq<Tree<N, V>>, b: seq<Tree<N, V>>)
    ensures AllVals(MergeRoots(a, b)) == AllVals(a) + AllVals(b)
    ensures |MergeRoots(a, b)| == |a| + |b|
    decreases |a| + |b|
  {
    if a != [] && b != [] {
      if Deg(a[0]) < Deg(b[0]) {
        MergeVals(a[1..], b);
        ConsVals(a[0], MergeRoots(a[1..], b));
        Regroup(Vals(a[0]), AllVals(a[1..]), AllVals(b));
      } else {
        MergeVals(a, b[1..]);
        ConsVals(b[0], MergeRoots(a, b[1..]));
        Regroup(Vals(b[0]), AllVals(a), AllVals(b[1..]));
      }
    }
  }

  lemma {:induction false} ReverseVals<N, V>(s: seq<Tree<N, V>>)
    ensures AllVals(Reverse(s)) == AllVals(s)
  {
    if s != [] {
      ReverseVals(s[1..]);
      AllValsConcat(Reverse(s[1..]), [s[0]]);
    }
  }

  lemma {:induction false} ConsolidateVals<N, V>(hp: (V, V) -> bool, x: Tree<N, V>, rest: seq<Tree<N, V>>)
    ensures AllVals(Consolidate(hp, x, rest)) == Vals(x) + AllVals(rest)
    decreases |rest|
  {
    hide Vals, Link;
    if rest == [] {
    } else if Deg(x) != Deg(rest[0]) || (|rest| > 1 && Deg(rest[1]) == Deg(x)) {
      ConsolidateVals(hp, rest[0], rest[1..]);
      ConsVals(x, Consolidate(hp, rest[0], rest[1..]));
    } else if hp(x.val, rest[0].val) {
      LinkVals(x, rest[0]);
      Regroup(Vals(x), Vals(rest[0]), AllVals(rest[1..]));
      ConsolidateVals(hp, Link(x, rest[0]), rest[1..]);
    } else {
      LinkVals(rest[0], x);
      Regroup(Vals(x), Vals(rest[0]), AllVals(rest[1..]));
      ConsolidateVals(hp, Link(rest[0], x), rest[1..]);
    }
  }

  lemma UnionVals<N, V>(hp: (V, V) -> bool, h: seq<Tree<N, V>>, h2: seq<Tree<N, V>>)
    ensures AllVals(UnionRoots(hp, h, h2)) == AllVals(h) + AllVals(h2)
  {
    if h != [] && h2 != [] {
      var m := MergeRoots(h, h2);
      MergeVals(h, h2);
      ConsolidateVals(hp, m[0], m[1..]);
    }
  }

  // ---------- heap order ----------

  /** No child beats its parent, anywhere in the tree. */
  ghost predicate Ordered<N, V>(hp: (V, V) -> bool, t: Tree<N, V>)
    decreases t
  {
    forall i :: 0 <= i < |t.kids| ==> !hp(t.kids[i].val, t.val) && Ordered(hp, t.kids[i])
  }

  ghost predicate AllOrdered<N, V>(hp: (V, V) -> bool, s: seq<Tree<N, V>>) {
    forall i :: 0 <= i < |s| ==> Ordered(hp, s[i])
  }

  /** Nothing in the bag beats v. */
  ghost predicate Unbeaten<V>(hp: (V, V) -> bool, v: V, bag: multiset<V>) {
    forall w :: w in bag ==> !hp(w, v)
  }

  lemma {:induction false} RootUnbeaten<N, V(!new)>(hp: (V, V) -> bool, t: Tree<N, V>)
    requires StrictWeakOrder(hp) && Ordered(hp, t)
    ensures Unbeaten(hp, t.val, Vals(t))
    decreases t, 0
  {
    KidsUnbeaten(hp, t.val, t.kids);
  }

  lemma {:induction false} KidsUnbeaten<N, V(!new)>(hp: (V, V) -> bool, v: V, s: seq<Tree<N, V>>)
    requires StrictWeakOrder(hp) && AllOrdered(hp, s)
    requires forall i :: 0 <= i < |s| ==> !hp(s[i].val, v)
    ensures Unbeaten(hp, v, AllVals(s))
    decreases s
  {
    if s != [] {
      RootUnbeaten(hp, s[0]);
      KidsUnbeaten(hp, v, s[1..]);
    }
  }

  lemma LinkOrdered<N, V>(hp: (V, V) -> bool, root: Tree<N, V>, child: Tree<N, V>)
    requires Ordered(hp, root) && Ordered(hp, child) && !hp(child.val, root.val)
    ensures Ordered(hp, Link(root, child))
  {
    var t := Link(root, child);
    forall i | 0 <= i < |t.kids| ensures !hp(t.kids[i].val, t.val) && Ordered(hp, t.kids[i]) {
      assert i > 0 ==> t.kids[i] == root.kids[i - 1];
    }
  }

  lemma {:induction false} MergeOrdered<N, V>(hp: (V, V) -> bool, a: seq<Tree<N, V>>, b: seq<Tree<N, V>>)
    requires AllOrdered(hp, a) && AllOrdered(hp, b)
    ensures AllOrdered(hp, MergeRoots(a, b))
    decreases |a| + |b|
  {
    if a != [] && b != [] {
      if Deg(a[0]) < Deg(b[0]) {
        MergeOrdered(hp, a[1..], b);
      } else {
        MergeOrdered(hp, a, b[1..]);
      }
    }
  }

  lemma {:induction false} ReverseMembers<T>(s: seq<T>)
    ensures |Reverse(s)| == |s| && forall i :: 0 <= i < |s| ==> Reverse(s)[i] == s[|s| - 1 - i]
  {
    if s != [] {
      ReverseMembers(s[1..]);
    }
  }

  lemma {:induction false} ConsolidateOrdered<N, V(!new)>(hp: (V, V) -> bool, x: Tree<N, V>, rest: seq<Tree<N, V>>)
    requires StrictWeakOrder(hp) && Ordered(hp, x) && AllOrdered(hp, rest)
    ensures AllOrdered(hp, Consolidate(hp, x, rest))
    decreases |rest|
  {
    if rest == [] {
    } else if Deg(x) != Deg(rest[0]) || (|rest| > 1 && Deg(rest[1]) == Deg(x)) {
      ConsolidateOrdered(hp, rest[0], rest[1..]);
    } else if hp(x.val, rest[0].val) {
      LinkOrdered(hp, x, rest[0]);
      ConsolidateOrdered(hp, Link(x, rest[0]), rest[1..]);
    } else {
      LinkOrdered(hp, rest[0], x);
      ConsolidateOrdered(hp, Link(rest[0], x), rest[1..]);
    }
  }

  lemma UnionOrdered<N, V(!new)>(hp: (V, V) -> bool, h: seq<Tree<N, V>>, h2: seq<Tree<N, V>>)
    requires StrictWeakOrder(hp) && AllOrdered(hp, h) && AllOrdered(hp, h2)
    ensures AllOrdered(hp, UnionRoots(hp, h, h2))
  {
    if h != [] && h2 != [] {
      var m := MergeRoots(h, h2);
      MergeOrdered(hp, h, h2);
      MergeVals(h, h2);
      ConsolidateOrdered(hp, m[0], m[1..]);
    }
  }

  // ---------- binomial shape ----------

  /** A tree of degree k has children of degrees k-1, ..., 0, binomial themselves. */
  ghost predicate BinomialTree<N, V>(t: Tree<N, V>)
    decreases t
  {
    forall i :: 0 <= i < |t.kids| ==> Deg(t.kids[i]) == Deg(t) - 1 - i && BinomialTree(t.kids[i])
  }

  ghost predicate AllBinomial<N, V>(s: seq<Tree<N, V>>) {
    forall i :: 0 <= i < |s| ==> BinomialTree(s[i])
  }

  ghost predicate IncreasingDegrees<N, V>(s: seq<Tree<N, V>>) {
    forall i, j :: 0 <= i < j < |s| ==> Deg(s[i]) < Deg(s[j])
  }

  /** Degrees never fall and no degree occurs three times. */
  ghost predicate AtMostTwice<N, V>(s: seq<Tree<N, V>>) {
    && (forall i, j :: 0 <= i < j < |s| ==> Deg(s[i]) <= Deg(s[j]))
    && (forall i, j :: 0 <= i && i + 2 <= j < |s| ==> Deg(s[i]) < Deg(s[j]))
  }

  ghost predicate Shape<N, V>(s: seq<Tree<N, V>>) {
    AllBinomial(s) && IncreasingDegrees(s)
  }

  ghost function Pow2(k: nat): nat { if k == 0 then 1 else 2 * Pow2(k - 1) }

  ghost function Size<N, V>(t: Tree<N, V>): nat
    decreases t
  {
    1 + SizeAll(t.kids)
  }

  ghost function SizeAll<N, V>(s: seq<Tree<N, V>>): nat
    decreases s
  {
    if s == [] then 0 else Size(s[0]) + SizeAll(s[1..])
  }

  /** A binomial tree of degree k has 2^k nodes. */
  lemma {:induction false} BinomialSize<N, V>(t: Tree<N, V>)
    requires BinomialTree(t)
    ensures Size(t) == Pow2(Deg(t))
    decreases t, 0
  {
    KidsSize(t.kids);
  }

  lemma {:induction false} KidsSize<N, V>(s: seq<Tree<N, V>>)
    requires forall i :: 0 <= i < |s| ==> Deg(s[i]) == |s| - 1 - i && BinomialTree(s[i])
    ensures SizeAll(s) + 1 == Pow2(|s|)
    decreases s
  {
    if s != [] {
      BinomialSize(s[0]);
      assert s[0] in s;
      forall i | 0 <= i < |s[1..]| ensures Deg(s[1..][i]) == |s[1..]| - 1 - i && BinomialTree(s[1..][i]) {
        assert s[1..][i] == s[i + 1];
      }
      KidsSize(s[1..]);
    }
  }

  lemma LinkBinomial<N, V>(root: Tree<N, V>, child: Tree<N, V>)
    requires BinomialTree(root) && BinomialTree(child) && Deg(root) == Deg(child)
    ensures BinomialTree(Link(root, child)) && Deg(Link(root, child)) == Deg(root) + 1
  {
    var t := Link(root, child);
    forall i | 0 <= i < |t.kids| ensures Deg(t.kids[i]) == Deg(t) - 1 - i && BinomialTree(t.kids[i]) {
      assert i > 0 ==> t.kids[i] == root.kids[i - 1];
    }
  }

  lemma KidsReversed<N, V>(t: Tree<N, V>)
    requires BinomialTree(t)
    ensures Shape(Reverse(t.kids))
  {
    ReverseMembers(t.kids);
  }

  /** Above degree d, counting the head apart. */
  ghost predicate AtLeast<N, V>(d: nat, s: seq<Tree<N, V>>) {
    forall i :: 0 <= i < |s| ==> Deg(s[i]) >= d
  }

  lemma {:induction false} MergeAtLeast<N, V>(d: nat, a: seq<Tree<N, V>>, b: seq<Tree<N, V>>)
    requires AtLeast(d, a) && AtLeast(d, b)
    ensures AtLeast(d, MergeRoots(a, b))
    decreases |a| + |b|
  {
    if a != [] && b != [] {
      if Deg(a[0]) < Deg(b[0]) {
        MergeAtLeast(d, a[1..], b);
      } else {
        MergeAtLeast(d, a, b[1..]);
      }
    }
  }

  ghost predicate TailAbove<N, V>(d: nat, s: seq<Tree<N, V>>) {
    forall i :: 1 <= i < |s| ==> Deg(s[i]) > d
  }

  /** Of the roots of a and b, only the first of one list may have degree d;
      then only the first of the merged list does. */
  lemma MergeTailAbove<N, V>(d: nat, a: seq<Tree<N, V>>, b: seq<Tree<N, V>>)
    requires AtLeast(d, a) && AtLeast(d, b) && TailAbove(d, a) && TailAbove(d, b)
    requires AtLeast(d + 1, a) || AtLeast(d + 1, b)
    ensures TailAbove(d, MergeRoots(a, b))
  {
    if a == [] || b == [] {
    } else if Deg(a[0]) < Deg(b[0]) {
      MergeAtLeast(d + 1, a[1..], b);
    } else {
      MergeAtLeast(d + 1, a, b[1..]);
    }
  }

  lemma ConsAtMostTwice<N, V>(x: Tree<N, V>, m: seq<Tree<N, V>>)
    requires AtMostTwice(m) && AtLeast(Deg(x), m) && TailAbove(Deg(x), m)
    ensures AtMostTwice([x] + m)
  {
    var s := [x] + m;
    forall i, j | 0 <= i && i + 2 <= j < |s| ensures Deg(s[i]) < Deg(s[j]) {
      assert s[j] == m[j - 1];
      assert i > 0 ==> s[i] == m[i - 1];
    }
    forall i, j | 0 <= i < j < |s| ensures Deg(s[i]) <= Deg(s[j]) {
      assert s[j] == m[j - 1];
      assert i > 0 ==> s[i] == m[i - 1];
    }
  }

  lemma {:induction false} MergeAtMostTwice<N, V>(a: seq<Tree<N, V>>, b: seq<Tree<N, V>>)
    requires IncreasingDegrees(a) && IncreasingDegrees(b)
    ensures AtMostTwice(MergeRoots(a, b))
    decreases |a| + |b|
  {
    if a == [] || b == [] {
    } else if Deg(a[0]) < Deg(b[0]) {
      MergeAtMostTwice(a[1..], b);
      MergeAtLeast(Deg(a[0]), a[1..], b);
      MergeTailAbove(Deg(a[0]), a[1..], b);
      ConsAtMostTwice(a[0], MergeRoots(a[1..], b));
    } else {
      MergeAtMostTwice(a, b[1..]);
      MergeAtLeast(Deg(b[0]), a, b[1..]);
      MergeTailAbove(Deg(b[0]), a, b[1..]);
      ConsAtMostTwice(b[0], MergeRoots(a, b[1..]));
    }
  }

  lemma {:induction false} MergeBinomial<N, V>(a: seq<Tree<N, V>>, b: seq<Tree<N, V>>)
    requires AllBinomial(a) && AllBinomial(b)
    ensures AllBinomial(MergeRoots(a, b))
    decreases |a| + |b|
  {
    if a != [] && b != [] {
      if Deg(a[0]) < Deg(b[0]) {
        MergeBinomial(a[1..], b);
      } else {
        MergeBinomial(a, b[1..]);
      }
    }
  }

  lemma ConsShape<N, V>(x: Tree<N, V>, s: seq<Tree<N, V>>)
    requires BinomialTree(x) && Shape(s) && s != [] && Deg(x) < Deg(s[0])
    ensures Shape([x] + s)
  {
  }

  /** The next two roots both have the degree of x: the loop only advances. */
  predicate Triple<N, V>(x: Tree<N, V>, rest: seq<Tree<N, V>>) {
    |rest| > 1 && Deg(rest[0]) == Deg(x) && Deg(rest[1]) == Deg(x)
  }

  lemma {:induction false} ConsolidateShape<N, V>(hp: (V, V) -> bool, x: Tree<N, V>, rest: seq<Tree<N, V>>)
    requires BinomialTree(x) && AllBinomial(rest) && AtMostTwice(rest) && AtLeast(Deg(x), rest)
    ensures Shape(Consolidate(hp, x, rest)) && Consolidate(hp, x, rest) != []
    ensures Deg(Consolidate(hp, x, rest)[0]) >= Deg(x)
    ensures rest != [] && Deg(rest[0]) == Deg(x) && !Triple(x, rest) ==> Deg(Consolidate(hp, x, rest)[0]) > Deg(x)
    decreases |rest|
  {
    hide BinomialTree, Link;
    if rest == [] {
    } else if Deg(x) != Deg(rest[0]) || (|rest| > 1 && Deg(rest[1]) == Deg(x)) {
      ConsolidateShape(hp, rest[0], rest[1..]);
      ConsShape(x, Consolidate(hp, rest[0], rest[1..]));
    } else if hp(x.val, rest[0].val) {
      LinkBinomial(x, rest[0]);
      ConsolidateShape(hp, Link(x, rest[0]), rest[1..]);
    } else {
      LinkBinomial(rest[0], x);
      ConsolidateShape(hp, Link(rest[0], x), rest[1..]);
    }
  }

  lemma UnionShape<N, V>(hp: (V, V) -> bool, h: seq<Tree<N, V>>, h2: seq<Tree<N, V>>)
    requires Shape(h) && Shape(h2)
    ensures Shape(UnionRoots(hp, h, h2))
  {
    hide BinomialTree, Consolidate, MergeRoots;
    if h != [] && h2 != [] {
      var m := MergeRoots(h, h2);
      MergeBinomial(h, h2);
      MergeAtMostTwice(h, h2);
      MergeVals(h, h2);
      ConsolidateShape(hp, m[0], m[1..]);
    }
  }

  // ---------- the minimum ----------

  lemma {:induction false} MinIndexUnbeaten<N, V(!new)>(hp: (V, V) -> bool, s: seq<Tree<N, V>>)
    requires StrictWeakOrder(hp) && s != []
    ensures forall i :: 0 <= i < |s| ==> !hp(s[i].val, s[MinIndex(hp, s)].val)
  {
    if |s| > 1 {
      var init := s[..|s| - 1];
      MinIndexUnbeaten(hp, init);
      var v, last := init[MinIndex(hp, init)].val, s[|s| - 1].val;
      forall i | 0 <= i < |s| ensures !hp(s[i].val, s[MinIndex(hp, s)].val) {
        assert i < |s| - 1 ==> !hp(init[i].val, v);
        assert hp(last, v) ==> !hp(v, last);
      }
    }
  }

  lemma WithoutVals<N, V>(s: seq<Tree<N, V>>, k: nat)
    requires k < |s|
    ensures AllVals(s) == Vals(s[k]) + AllVals(Without(s, k))
  {
    hide Vals, AllVals;
    assert s == s[..k] + ([s[k]] + s[k + 1..]);
    AllValsConcat(s[..k], [s[k]] + s[k + 1..]);
    ConsVals(s[k], s[k + 1..]);
    AllValsConcat(s[..k], s[k + 1..]);
    Regroup(AllVals(s[..k]), Vals(s[k]), AllVals(s[k + 1..]));
  }

  // ---------- the heap with its cached minimum ----------

  datatype Entry<N, V> = Entry(id: N, val: V)

  datatype Heap<N, V> = Heap(roots: seq<Tree<N, V>>, min: Option<Entry<N, V>>)

  function Leaf<N, V>(e: Entry<N, V>): Tree<N, V> { Tree(e.id, e.val, []) }

  function Insert<N, V>(hp: (V, V) -> bool, h: Heap<N, V>, e: Entry<N, V>): Heap<N, V> {
    if h.min.Some? && hp(e.val, h.min.value.val) then
      Heap(UnionRoots(hp, h.roots, [Leaf(h.min.value)]), Some(e))
    else Heap(UnionRoots(hp, h.roots, [Leaf(e)]), h.min)
  }

  /** Fill the cache, as both peek and take begin by doing. */
  function Cached<N, V>(hp: (V, V) -> bool, h: Heap<N, V>): Heap<N, V> {
    if h.min.Some? || h.roots == [] then h
    else
      var t := h.roots[MinIndex(hp, h.roots)];
      Heap(AfterExtract(hp, h.roots), Some(Entry(t.id, t.val)))
  }

  ghost function MinBag<N, V>(m: Option<Entry<N, V>>): multiset<V> {
    if m.Some? then multiset{m.value.val} else multiset{}
  }

  /** The bag of values the heap stands for. */
  ghost function Bag<N, V>(h: Heap<N, V>): multiset<V> { AllVals(h.roots) + MinBag(h.min) }

  /** Binomial shape, heap order, and a cached minimum that nothing beats. */
  ghost predicate HeapOk<N, V>(hp: (V, V) -> bool, h: Heap<N, V>) {
    && Shape(h.roots) && AllOrdered(hp, h.roots)
    && (h.min.Some? ==> Unbeaten(hp, h.min.value.val, AllVals(h.roots)))
  }

  lemma LeafFacts<N, V>(hp: (V, V) -> bool, e: Entry<N, V>)
    ensures Shape([Leaf(e)]) && AllOrdered(hp, [Leaf(e)]) && AllVals([Leaf(e)]) == multiset{e.val}
  {
    assert [Leaf(e)][1..] == [];
  }

  lemma InsertBag<N, V>(hp: (V, V) -> bool, h: Heap<N, V>, e: Entry<N, V>)
    ensures Bag(Insert(hp, h, e)) == Bag(h) + multiset{e.val}
    ensures |Bag(Insert(hp, h, e))| == |Bag(h)| + 1
  {
    hide UnionRoots, AllVals;
    var moved := if h.min.Some? && hp(e.val, h.min.value.val) then h.min.value else e;
    LeafFacts(hp, moved);
    UnionVals(hp, h.roots, [Leaf(moved)]);
    Regroup(AllVals(h.roots), multiset{moved.val}, MinBag(h.min));
    Regroup(AllVals(h.roots), MinBag(h.min), multiset{e.val});
  }

  /** heap_insert keeps the heap well formed and adds exactly the new value. */
  lemma InsertCorrect<N, V(!new)>(hp: (V, V) -> bool, h: Heap<N, V>, e: Entry<N, V>)
    requires StrictWeakOrder(hp) && HeapOk(hp, h)
    ensures HeapOk(hp, Insert(hp, h, e))
    ensures Bag(Insert(hp, h, e)) == Bag(h) + multiset{e.val}
  {
    var moved := if h.min.Some? && hp(e.val, h.min.value.val) then h.min.value else e;
    LeafFacts(hp, moved);
    UnionShape(hp, h.roots, [Leaf(moved)]);
    UnionOrdered(hp, h.roots, [Leaf(moved)]);
    UnionVals(hp, h.roots, [Leaf(moved)]);
    if moved != e {
      assert forall w :: !hp(w, moved.val) && !hp(moved.val, e.val) ==> !hp(w, e.val);
    }
  }

  lemma ExtractShape<N, V>(hp: (V, V) -> bool, s: seq<Tree<N, V>>)
    requires Shape(s) && s != []
    ensures Shape(AfterExtract(hp, s))
  {
    hide BinomialTree, UnionRoots;
    var k := MinIndex(hp, s);
    KidsReversed(s[k]);
    UnionShape(hp, Without(s, k), Reverse(s[k].kids));
  }

  lemma ExtractOrdered<N, V(!new)>(hp: (V, V) -> bool, s: seq<Tree<N, V>>)
    requires StrictWeakOrder(hp) && AllOrdered(hp, s) && s != []
    ensures AllOrdered(hp, AfterExtract(hp, s))
  {
    hide UnionRoots;
    var k := MinIndex(hp, s);
    ReverseMembers(s[k].kids);
    assert Ordered(hp, s[k]);
    UnionOrdered(hp, Without(s, k), Reverse(s[k].kids));
  }

  lemma ExtractVals<N, V>(hp: (V, V) -> bool, s: seq<Tree<N, V>>)
    requires s != []
    ensures AllVals(s) == multiset{s[MinIndex(hp, s)].val} + AllVals(AfterExtract(hp, s))
  {
    hide UnionRoots, AllVals;
    var k := MinIndex(hp, s);
    WithoutVals(s, k);
    ReverseVals(s[k].kids);
    UnionVals(hp, Without(s, k), Reverse(s[k].kids));
    Regroup(multiset{s[k].val}, AllVals(s[k].kids), AllVals(Without(s, k)));
  }

  /** Extracting the minimum root splits it off and keeps the rest well formed. */
  lemma ExtractCorrect<N, V(!new)>(hp: (V, V) -> bool, s: seq<Tree<N, V>>)
    requires StrictWeakOrder(hp) && Shape(s) && AllOrdered(hp, s) && s != []
    ensures Shape(AfterExtract(hp, s)) && AllOrdered(hp, AfterExtract(hp, s))
    ensures AllVals(s) == multiset{s[MinIndex(hp, s)].val} + AllVals(AfterExtract(hp, s))
    ensures Unbeaten(hp, s[MinIndex(hp, s)].val, AllVals(s))
  {
    hide AfterExtract, AllVals;
    ExtractShape(hp, s);
    ExtractOrdered(hp, s);
    ExtractVals(hp, s);
    MinIndexUnbeaten(hp, s);
    KidsUnbeaten(hp, s[MinIndex(hp, s)].val, s);
  }

  /** heap_peek keeps the heap well formed and its values; what it leaves in the
      cache is a value nothing beats, unless the heap is empty. */
  lemma PeekCorrect<N, V(!new)>(hp: (V, V) -> bool, h: Heap<N, V>)
    requires StrictWeakOrder(hp) && HeapOk(hp, h)
    ensures HeapOk(hp, Cached(hp, h)) && Bag(Cached(hp, h)) == Bag(h)
    ensures Cached(hp, h).min.None? <==> Bag(h) == multiset{}
    ensures Cached(hp, h).min.Some? ==>
              var v := Cached(hp, h).min.value.val; v in Bag(h) && Unbeaten(hp, v, Bag(h))
  {
    if h.min.None? && h.roots != [] {
      ExtractCorrect(hp, h.roots);
    }
  }

  /** v is a value of h that no value of h beats, and left is h without one v. */
  ghost predicate Taken<N, V>(hp: (V, V) -> bool, h: Heap<N, V>, v: V, left: Heap<N, V>) {
    && v in Bag(h) && Unbeaten(hp, v, Bag(h))
    && HeapOk(hp, left) && Bag(left) == Bag(h) - multiset{v}
  }

  /** heap_take on a heap with values returns one nothing beats and removes exactly it. */
  lemma TakeCorrect<N, V(!new)>(hp: (V, V) -> bool, h: Heap<N, V>)
    requires StrictWeakOrder(hp) && HeapOk(hp, h) && Bag(h) != multiset{}
    ensures Cached(hp, h).min.Some?
    ensures Taken(hp, h, Cached(hp, h).min.value.val, Heap(Cached(hp, h).roots, None))
  {
    PeekCorrect(hp, h);
  }
}
