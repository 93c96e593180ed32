/** The bottom-up merge sort of llist.c on sequences of values: what the
    pointer version in LinkedList computes, and why that is the one stable
    sort of its input. */
module MergeSort {

  /** A comparator of the C kind: negative, zero or positive. */
  ghost predicate TotalPreorder<T(!new)>(cmp: (T, T) -> int) {
    && (forall x, y :: cmp(x, y) <= 0 || cmp(y, x) <= 0)
    && (forall x, y :: cmp(x, y) > 0 <==> cmp(y, x) < 0)
    && (forall x, y, z :: cmp(x, y) <= 0 && cmp(y, z) <= 0 ==> cmp(x, z) <= 0)
  }

  ghost predicate Sorted<T>(cmp: (T, T) -> int, s: seq<T>) {
    forall i, j :: 0 <= i < j < |s| ==> cmp(s[i], s[j]) <= 0
  }

  /** The elements of s that compare equal to x, in the order they stand in s. */
  ghost function Class<T>(cmp: (T, T) -> int, x: T, s: seq<T>): seq<T> {
    if s == [] then []
    else (if cmp(x, s[0]) == 0 then [s[0]] else []) + Class(cmp, x, s[1..])
  }

  /** t is s, rearranged without moving equal elements past each other. */
  ghost predicate StablyRearranged<T(!new)>(cmp: (T, T) -> int, s: seq<T>, t: seq<T>) {
    && multiset(t) == multiset(s)
    && forall x :: Class(cmp, x, t) == Class(cmp, x, s)
  }

  function Min(a: nat, b: nat): nat { if a < b then a else b }

  function Take<T>(s: seq<T>, k: nat): seq<T> { s[..Min(k, |s|)] }

  function Drop<T>(s: seq<T>, k: nat): seq<T> { s[Min(k, |s|)..] }

  function Merge<T>(cmp: (T, T) -> int, a: seq<T>, b: seq<T>): seq<T> {
    if a == [] then b
    else if b == [] then a
    else if cmp(a[0], b[0]) <= 0 then [a[0]] + Merge(cmp, a[1..], b)
    else [b[0]] + Merge(cmp, a, b[1..])
  }

  /** One pass of the outer loop: merge neighbouring runs of length k. */
  function Pass<T>(cmp: (T, T) -> int, k: nat, s: seq<T>): seq<T>
    requires k > 0
    decreases |s|
  {
    if s == [] then []
    else Merge(cmp, Take(s, k), Take(Drop(s, k), k)) + Pass(cmp, k, Drop(s, 2 * k))
  }

  /** The passes from run length k on, until a pass does at most one merge. */
  function SortFrom<T>(cmp: (T, T) -> int, k: nat, s: seq<T>): seq<T>
    requires k > 0
    decreases |s| - k
  {
    var t := Pass(cmp, k, s);
    if |s| <= 2 * k then t
    else
      PassLength(cmp, k, s);
      SortFrom(cmp, 2 * k, t)
  }

  function Sort<T>(cmp: (T, T) -> int, s: seq<T>): seq<T> { SortFrom(cmp, 1, s) }

  // ---------- merging ----------

  lemma ConsMultiset<T>(s: seq<T>, r: seq<T>, more: multiset<T>)
    requires s != [] && multiset(r) == multiset(s[1..]) + more
    ensures multiset([s[0]] + r) == multiset(s) + more
  {
    assert s == [s[0]] + s[1..];
  }

  lemma {:induction false} MergeMultiset<T>(cmp: (T, T) -> int, a: seq<T>, b: seq<T>)
    ensures multiset(Merge(cmp, a, b)) == multiset(a) + multiset(b)
    ensures |Merge(cmp, a, b)| == |a| + |b|
    decreases |a| + |b|
  {
    if a != [] && b != [] {
      if cmp(a[0], b[0]) <= 0 {
        MergeMultiset(cmp, a[1..], b);
        ConsMultiset(a, Merge(cmp, a[1..], b), multiset(b));
      } else {
        MergeMultiset(cmp, a, b[1..]);
        ConsMultiset(b, Merge(cmp, a, b[1..]), multiset(a));
      }
    }
  }

  ghost predicate Below<T>(cmp: (T, T) -> int, x: T, s: seq<T>) {
    forall i :: 0 <= i < |s| ==> cmp(x, s[i]) <= 0
  }

  lemma SortedCons<T>(cmp: (T, T) -> int, x: T, s: seq<T>)
    requires Sorted(cmp, s) && Below(cmp, x, s)
    ensures Sorted(cmp, [x] + s)
  {
  }

  lemma MergeBelow<T>(cmp: (T, T) -> int, x: T, a: seq<T>, b: seq<T>)
    requires Below(cmp, x, a) && Below(cmp, x, b)
    ensures Below(cmp, x, Merge(cmp, a, b))
  {
    var m := Merge(cmp, a, b);
    forall i | 0 <= i < |m| ensures cmp(x, m[i]) <= 0 {
      MergeMultiset(cmp, a, b);
      assert m[i] in multiset(m);
      assert m[i] in a || m[i] in b;
    }
  }

  lemma {:induction false} MergeSorted<T(!new)>(cmp: (T, T) -> int, a: seq<T>, b: seq<T>)
    requires TotalPreorder(cmp) && Sorted(cmp, a) && Sorted(cmp, b)
    ensures Sorted(cmp, Merge(cmp, a, b))
    decreases |a| + |b|
  {
    if a != [] && b != [] {
      if cmp(a[0], b[0]) <= 0 {
        MergeSorted(cmp, a[1..], b);
        MergeBelow(cmp, a[0], a[1..], b);
        SortedCons(cmp, a[0], Merge(cmp, a[1..], b));
      } else {
        MergeSorted(cmp, a, b[1..]);
        MergeBelow(cmp, b[0], a, b[1..]);
        SortedCons(cmp, b[0], Merge(cmp, a, b[1..]));
      }
    }
  }

  // ---------- classes of equal elements ----------

  lemma {:induction false} ClassConcat<T>(cmp: (T, T) -> int, x: T, a: seq<T>, b: seq<T>)
    ensures Class(cmp, x, a + b) == Class(cmp, x, a) + Class(cmp, x, b)
  {
    if a == [] {
      assert a + b == b;
    } else {
      hide Class;
      ClassConcat(cmp, x, a[1..], b);
      assert a == [a[0]] + a[1..] && a + b == [a[0]] + (a[1..] + b);
      ClassCons(cmp, x, a[0], a[1..]);
      ClassCons(cmp, x, a[0], a[1..] + b);
    }
  }

  lemma {:induction false} ClassEmpty<T>(cmp: (T, T) -> int, x: T, s: seq<T>)
    requires forall i :: 0 <= i < |s| ==> cmp(x, s[i]) != 0
    ensures Class(cmp, x, s) == []
  {
    if s != [] {
      ClassEmpty(cmp, x, s[1..]);
    }
  }

  lemma {:induction false} ClassMembers<T>(cmp: (T, T) -> int, x: T, s: seq<T>, y: T)
    ensures y in Class(cmp, x, s) <==> y in s && cmp(x, y) == 0
  {
    if s != [] {
      ClassMembers(cmp, x, s[1..], y);
      assert s == [s[0]] + s[1..];
    }
  }

  ghost function IfEqual<T>(cmp: (T, T) -> int, x: T, y: T): seq<T> {
    if cmp(x, y) == 0 then [y] else []
  }

  lemma ClassCons<T>(cmp: (T, T) -> int, x: T, y: T, s: seq<T>)
    ensures Class(cmp, x, [y] + s) == IfEqual(cmp, x, y) + Class(cmp, x, s)
  {
    assert ([y] + s)[1..] == s;
  }

  /** Nothing in a sorted run equals x once x's equal comes strictly before it. */
  lemma StrictlyBefore<T(!new)>(cmp: (T, T) -> int, x: T, y: T, a: seq<T>)
    requires TotalPreorder(cmp) && Sorted(cmp, a) && a != []
    requires cmp(a[0], y) > 0 && cmp(x, y) == 0
    ensures Class(cmp, x, a) == []
  {
    forall i | 0 <= i < |a| ensures cmp(x, a[i]) != 0 {
      var first, y' := a[0], a[i];
      assert cmp(first, y') <= 0;
      assert cmp(y', x) <= 0 ==> cmp(first, x) <= 0;
    }
    ClassEmpty(cmp, x, a);
  }

  lemma {:induction false} MergeClass<T(!new)>(cmp: (T, T) -> int, x: T, a: seq<T>, b: seq<T>)
    requires TotalPreorder(cmp) && Sorted(cmp, a)
    ensures Class(cmp, x, Merge(cmp, a, b)) == Class(cmp, x, a) + Class(cmp, x, b)
    decreases |a| + |b|
  {
    hide TotalPreorder;
    if a == [] || b == [] {
    } else if cmp(a[0], b[0]) <= 0 {
      MergeClass(cmp, x, a[1..], b);
      ClassCons(cmp, x, a[0], Merge(cmp, a[1..], b));
    } else {
      MergeClass(cmp, x, a, b[1..]);
      ClassCons(cmp, x, b[0], Merge(cmp, a, b[1..]));
      if cmp(x, b[0]) == 0 {
        StrictlyBefore(cmp, x, b[0], a);
      }
    }
  }

  // ---------- one pass ----------

  lemma SplitRuns<T>(k: nat, s: seq<T>)
    requires k > 0
    ensures s == Take(s, k) + Take(Drop(s, k), k) + Drop(s, 2 * k)
  {
  }

  lemma {:induction false} PassLength<T>(cmp: (T, T) -> int, k: nat, s: seq<T>)
    requires k > 0
    ensures multiset(Pass(cmp, k, s)) == multiset(s) && |Pass(cmp, k, s)| == |s|
    decreases |s|
  {
    if s != [] {
      SplitRuns(k, s);
      MergeMultiset(cmp, Take(s, k), Take(Drop(s, k), k));
      PassLength(cmp, k, Drop(s, 2 * k));
    }
  }

  /** Every block of k elements, counted from the front, is sorted. */
  ghost predicate RunsSorted<T>(cmp: (T, T) -> int, k: nat, s: seq<T>)
    requires k > 0
    decreases |s|
  {
    s == [] || (Sorted(cmp, Take(s, k)) && RunsSorted(cmp, k, Drop(s, k)))
  }

  /** A first run of n elements, unless nothing follows, is cut off again. */
  lemma FirstRun<T>(m: seq<T>, t: seq<T>, n: nat)
    requires |m| <= n && (t != [] ==> |m| == n)
    ensures Take(m + t, n) == m && Drop(m + t, n) == t
  {
  }

  lemma {:induction false} PassRuns<T(!new)>(cmp: (T, T) -> int, k: nat, s: seq<T>)
    requires k > 0 && TotalPreorder(cmp) && RunsSorted(cmp, k, s)
    ensures RunsSorted(cmp, 2 * k, Pass(cmp, k, s))
    decreases |s|
  {
    if s != [] {
      var a, b, rest := Take(s, k), Take(Drop(s, k), k), Drop(s, 2 * k);
      var m := Merge(cmp, a, b);
      MergeSorted(cmp, a, b);
      MergeMultiset(cmp, a, b);
      assert Drop(Drop(s, k), k) == rest;
      PassRuns(cmp, k, rest);
      PassLength(cmp, k, rest);
      assert rest != [] ==> |m| == 2 * k;
      hide TotalPreorder, Merge, Sorted, Take, Drop;
      FirstRun(m, Pass(cmp, k, rest), 2 * k);
    }
  }

  lemma {:induction false} PassClass<T(!new)>(cmp: (T, T) -> int, k: nat, s: seq<T>, x: T)
    requires k > 0 && TotalPreorder(cmp) && RunsSorted(cmp, k, s)
    ensures Class(cmp, x, Pass(cmp, k, s)) == Class(cmp, x, s)
    decreases |s|
  {
    if s != [] {
      var a, b, rest := Take(s, k), Take(Drop(s, k), k), Drop(s, 2 * k);
      assert Drop(Drop(s, k), k) == rest;
      PassClass(cmp, k, rest, x);
      MergeClass(cmp, x, a, b);
      ClassConcat(cmp, x, Merge(cmp, a, b), Pass(cmp, k, rest));
      SplitRuns(k, s);
      ClassConcat(cmp, x, a, b);
      ClassConcat(cmp, x, a + b, rest);
    }
  }

  // ---------- the whole sort ----------

  lemma {:induction false} SortFromCorrect<T(!new)>(cmp: (T, T) -> int, k: nat, s: seq<T>)
    requires k > 0 && TotalPreorder(cmp) && RunsSorted(cmp, k, s)
    ensures Sorted(cmp, SortFrom(cmp, k, s)) && StablyRearranged(cmp, s, SortFrom(cmp, k, s))
    decreases |s| - k
  {
    var t := Pass(cmp, k, s);
    PassRuns(cmp, k, s);
    PassLength(cmp, k, s);
    forall x ensures Class(cmp, x, t) == Class(cmp, x, s) {
      PassClass(cmp, k, s, x);
    }
    if |s| <= 2 * k {
      assert Take(t, 2 * k) == t;
    } else {
      SortFromCorrect(cmp, 2 * k, t);
    }
  }

  lemma {:induction false} SingletonRuns<T>(cmp: (T, T) -> int, s: seq<T>)
    ensures RunsSorted(cmp, 1, s)
    decreases |s|
  {
    if s != [] {
      SingletonRuns(cmp, Drop(s, 1));
    }
  }

  /** The sort of llist.c yields a sorted and stable permutation, whatever the
      total preorder. */
  lemma SortIsStable<T(!new)>(cmp: (T, T) -> int, s: seq<T>)
    requires TotalPreorder(cmp)
    ensures Sorted(cmp, Sort(cmp, s)) && StablyRearranged(cmp, s, Sort(cmp, s))
  {
    SingletonRuns(cmp, s);
    SortFromCorrect(cmp, 1, s);
  }

  lemma FirstsAgree<T(!new)>(cmp: (T, T) -> int, t: seq<T>, u: seq<T>)
    requires TotalPreorder(cmp) && Sorted(cmp, t) && Sorted(cmp, u)
    requires forall x :: Class(cmp, x, t) == Class(cmp, x, u)
    requires t != [] && u != []
    ensures t[0] == u[0]
  {
    var x, y := t[0], u[0];
    assert cmp(x, x) == 0 && cmp(y, y) == 0;
    assert Class(cmp, x, t)[0] == x;
    assert Class(cmp, y, u)[0] == y;
    ClassMembers(cmp, x, u, x);
    ClassMembers(cmp, y, t, y);
    ClassMembers(cmp, x, t, x);
    ClassMembers(cmp, y, u, y);
    assert x in u && y in t;
    assert cmp(x, y) <= 0 && cmp(y, x) <= 0;
    assert Class(cmp, x, u)[0] == y;
  }

  lemma ClassTails<T>(cmp: (T, T) -> int, x: T, t: seq<T>, u: seq<T>)
    requires t != [] && u != [] && t[0] == u[0] && Class(cmp, x, t) == Class(cmp, x, u)
    ensures Class(cmp, x, t[1..]) == Class(cmp, x, u[1..])
  {
    var c := if cmp(x, t[0]) == 0 then [t[0]] else [];
    assert Class(cmp, x, t[1..]) == Class(cmp, x, t)[|c|..];
    assert Class(cmp, x, u[1..]) == Class(cmp, x, u)[|c|..];
  }

  lemma NoClasses<T(!new)>(cmp: (T, T) -> int, t: seq<T>, u: seq<T>)
    requires TotalPreorder(cmp) && (forall x :: Class(cmp, x, t) == Class(cmp, x, u)) && t == []
    ensures u == []
  {
    if u != [] {
      assert cmp(u[0], u[0]) == 0;
      ClassMembers(cmp, u[0], u, u[0]);
      ClassMembers(cmp, u[0], t, u[0]);
    }
  }

  /** A sorted sequence is fixed by its classes: there is only one stable sort. */
  lemma {:induction false} StableSortUnique<T(!new)>(cmp: (T, T) -> int, t: seq<T>, u: seq<T>)
    requires TotalPreorder(cmp) && Sorted(cmp, t) && Sorted(cmp, u)
    requires forall x :: Class(cmp, x, t) == Class(cmp, x, u)
    ensures t == u
    decreases |t|
  {
    if t == [] {
      NoClasses(cmp, t, u);
    } else if u == [] {
      NoClasses(cmp, u, t);
    } else {
      FirstsAgree(cmp, t, u);
      forall x ensures Class(cmp, x, t[1..]) == Class(cmp, x, u[1..]) {
        ClassTails(cmp, x, t, u);
      }
      StableSortUnique(cmp, t[1..], u[1..]);
      assert t == [t[0]] + t[1..] && u == [u[0]] + u[1..];
    }
  }

  // ---------- sorting behind every append ----------

  lemma {:induction false} SortFromRearranges<T>(cmp: (T, T) -> int, k: nat, s: seq<T>)
    requires k > 0
    ensures multiset(SortFrom(cmp, k, s)) == multiset(s) && |SortFrom(cmp, k, s)| == |s|
    decreases |s| - k
  {
    PassLength(cmp, k, s);
    if |s| > 2 * k {
      SortFromRearranges(cmp, 2 * k, Pass(cmp, k, s));
    }
  }

  /** Whatever the comparator says, no element is lost or doubled. */
  lemma SortRearranges<T>(cmp: (T, T) -> int, s: seq<T>)
    ensures multiset(Sort(cmp, s)) == multiset(s) && |Sort(cmp, s)| == |s|
  {
    SortFromRearranges(cmp, 1, s);
  }

  /** x behind everything that is not greater, up to the first that is. */
  function Inserted<T>(cmp: (T, T) -> int, w: seq<T>, x: T): seq<T> {
    if w == [] || cmp(w[0], x) > 0 then [x] + w else [w[0]] + Inserted(cmp, w[1..], x)
  }

  /** Behind an element greater than x there are only such. */
  lemma GreaterBehind<T(!new)>(cmp: (T, T) -> int, w: seq<T>, x: T)
    requires TotalPreorder(cmp) && Sorted(cmp, w) && w != [] && cmp(w[0], x) > 0
    ensures forall i :: 0 <= i < |w| ==> cmp(w[i], x) > 0
  {
    forall i | 0 < i < |w| ensures cmp(w[i], x) > 0 {
      var first, y := w[0], w[i];
      assert cmp(first, y) <= 0;
      assert cmp(y, x) <= 0 ==> cmp(first, x) <= 0;
    }
  }

  /** k is the place of x in the sorted w. */
  ghost predicate PlaceOf<T>(cmp: (T, T) -> int, w: seq<T>, x: T, k: nat) {
    && k <= |w| && Inserted(cmp, w, x) == w[..k] + [x] + w[k..]
    && (forall i :: 0 <= i < k ==> cmp(w[i], x) <= 0)
    && forall i :: k <= i < |w| ==> cmp(w[i], x) > 0
  }

  lemma PlaceOneOn<T>(cmp: (T, T) -> int, w: seq<T>, x: T, k: nat)
    requires w != [] && cmp(w[0], x) <= 0 && PlaceOf(cmp, w[1..], x, k)
    ensures PlaceOf(cmp, w, x, k + 1)
  {
    assert forall i :: 0 < i < |w| ==> w[i] == w[1..][i - 1];
    assert w[..k + 1] == [w[0]] + w[1..][..k];
  }

  lemma {:induction false} InsertedAt<T(!new)>(cmp: (T, T) -> int, w: seq<T>, x: T) returns (k: nat)
    requires TotalPreorder(cmp) && Sorted(cmp, w)
    ensures PlaceOf(cmp, w, x, k)
  {
    hide TotalPreorder;
    if w == [] {
      k := 0;
    } else if cmp(w[0], x) > 0 {
      GreaterBehind(cmp, w, x);
      k := 0;
    } else {
      k := InsertedAt(cmp, w[1..], x);
      PlaceOneOn(cmp, w, x, k);
      k := k + 1;
    }
  }

  lemma {:induction false} InsertedSorted<T(!new)>(cmp: (T, T) -> int, w: seq<T>, x: T)
    requires TotalPreorder(cmp) && Sorted(cmp, w)
    ensures Sorted(cmp, Inserted(cmp, w, x))
    ensures forall y :: Below(cmp, y, w) && cmp(y, x) <= 0 ==> Below(cmp, y, Inserted(cmp, w, x))
  {
    if w != [] && cmp(w[0], x) <= 0 {
      InsertedSorted(cmp, w[1..], x);
      assert Below(cmp, w[0], w[1..]);
      SortedCons(cmp, w[0], Inserted(cmp, w[1..], x));
    } else if w != [] {
      GreaterBehind(cmp, w, x);
      SortedCons(cmp, x, w);
    }
  }

  lemma AppendedClass<T>(cmp: (T, T) -> int, s: seq<T>, x: T, y: T)
    ensures Class(cmp, y, s + [x]) == Class(cmp, y, s) + IfEqual(cmp, y, x)
  {
    ClassConcat(cmp, y, s, [x]);
  }

  lemma {:induction false} InsertedClass<T(!new)>(cmp: (T, T) -> int, w: seq<T>, x: T, y: T)
    requires TotalPreorder(cmp) && Sorted(cmp, w)
    ensures Class(cmp, y, Inserted(cmp, w, x)) == Class(cmp, y, w) + IfEqual(cmp, y, x)
  {
    hide TotalPreorder;
    if w == [] || cmp(w[0], x) > 0 {
      ClassCons(cmp, y, x, w);
      if cmp(y, x) == 0 && w != [] {
        StrictlyBefore(cmp, y, x, w);
      }
    } else {
      InsertedClass(cmp, w[1..], x, y);
      ClassCons(cmp, y, w[0], Inserted(cmp, w[1..], x));
    }
  }

  /** Sorting what is sorted changes nothing. */
  lemma SortSorted<T(!new)>(cmp: (T, T) -> int, w: seq<T>)
    requires TotalPreorder(cmp) && Sorted(cmp, w)
    ensures Sort(cmp, w) == w
  {
    SortIsStable(cmp, w);
    StableSortUnique(cmp, Sort(cmp, w), w);
  }

  /** Appending to a list and sorting it later is inserting at once. */
  lemma SortAfterAppend<T(!new)>(cmp: (T, T) -> int, s: seq<T>, x: T)
    requires TotalPreorder(cmp)
    ensures Sort(cmp, s + [x]) == Inserted(cmp, Sort(cmp, s), x)
  {
    hide TotalPreorder, Sorted, Sort, Inserted;
    var w := Sort(cmp, s);
    SortIsStable(cmp, s);
    SortIsStable(cmp, s + [x]);
    InsertedSorted(cmp, w, x);
    forall y ensures Class(cmp, y, Sort(cmp, s + [x])) == Class(cmp, y, Inserted(cmp, w, x)) {
      hide Class;
      InsertedClass(cmp, w, x, y);
      AppendedClass(cmp, s, x, y);
    }
    StableSortUnique(cmp, Sort(cmp, s + [x]), Inserted(cmp, w, x));
  }
}
