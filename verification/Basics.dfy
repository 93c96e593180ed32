/** Shared vocabulary: optional values, sums, and sequences without repetition. */
module Basics {
  datatype Option<+T> = None | Some(value: T)

  function AsSeq<T>(x: Option<T>): seq<T> { if x.Some? then [x.value] else [] }

  function Max(a: int, b: int): int { if a > b then a else b }

  function Sum(s: seq<int>): int { if s == [] then 0 else Sum(s[..|s| - 1]) + s[|s| - 1] }

  lemma {:induction false} SumUpdate(s: seq<int>, a: nat, v: int)
    requires a < |s|
    ensures Sum(s[a := v]) == Sum(s) - s[a] + v
  {
    var n := |s| - 1;
    if a == n {
      assert s[a := v][..n] == s[..n];
    } else {
      SumUpdate(s[..n], a, v);
      assert s[a := v][..n] == s[..n][a := v];
    }
  }

  lemma {:induction false} SumZeros(s: seq<int>)
    requires forall i :: 0 <= i < |s| ==> s[i] == 0
    ensures Sum(s) == 0
  {
    if s != [] {
      SumZeros(s[..|s| - 1]);
    }
  }

  ghost function Elems<T>(s: seq<T>): set<T> { set x | x in s }

  /** Where in s the elements with p stand. */
  ghost function Places<T>(p: T -> bool, s: seq<T>): set<int> { set i | 0 <= i < |s| && p(s[i]) }

  lemma PlacesSnoc<T>(p: T -> bool, s: seq<T>)
    requires s != []
    ensures |Places(p, s)| == |Places(p, s[..|s| - 1])| + if p(s[|s| - 1]) then 1 else 0
  {
    var n := |s| - 1;
    assert Places(p, s) == Places(p, s[..n]) + if p(s[n]) then {n} else {};
  }

  ghost predicate Distinct<T>(s: seq<T>) {
    forall i, j :: 0 <= i < j < |s| ==> s[i] != s[j]
  }

  ghost predicate Apart<T>(a: seq<T>, b: seq<T>) {
    forall x :: x in a ==> x !in b
  }

  /** Three sequences that share no element and repeat none. */
  ghost predicate Separate<T>(a: seq<T>, b: seq<T>, c: seq<T>) {
    && Distinct(a) && Distinct(b) && Distinct(c)
    && Apart(a, b) && Apart(a, c) && Apart(b, c)
  }

  ghost function Cells<T>(a: seq<T>, b: seq<T>, c: seq<T>): set<T> {
    Elems(a) + Elems(b) + Elems(c)
  }

  lemma DistinctSnoc<T>(s: seq<T>, x: T)
    requires Distinct(s) && x !in s
    ensures Distinct(s + [x])
  {
  }

  lemma DistinctCons<T>(x: T, s: seq<T>)
    requires Distinct(s) && x !in s
    ensures Distinct([x] + s)
  {
  }

  lemma DistinctConcat<T>(a: seq<T>, b: seq<T>)
    requires Distinct(a) && Distinct(b) && Apart(a, b)
    ensures Distinct(a + b) && Elems(a + b) == Elems(a) + Elems(b)
  {
    var s := a + b;
    forall i, j | 0 <= i < j < |s| ensures s[i] != s[j] {
      assert i < |a| ==> s[i] in a;
      assert j >= |a| ==> s[j] == b[j - |a|];
      assert i >= |a| ==> s[i] == b[i - |a|];
    }
  }

  /** Moving the first element of b behind a. */
  lemma MoveP<T>(a: seq<T>, b: seq<T>, c: seq<T>)
    requires Separate(a, b, c) && b != []
    ensures Separate(a + [b[0]], b[1..], c)
    ensures Cells(a + [b[0]], b[1..], c) == Cells(a, b, c)
  {
    assert b == [b[0]] + b[1..];
    DistinctSnoc(a, b[0]);
  }

  /** Moving the first element of c behind a. */
  lemma MoveR<T>(a: seq<T>, b: seq<T>, c: seq<T>)
    requires Separate(a, b, c) && c != []
    ensures Separate(a + [c[0]], b, c[1..])
    ensures Cells(a + [c[0]], b, c[1..]) == Cells(a, b, c)
  {
    assert c == [c[0]] + c[1..];
    DistinctSnoc(a, c[0]);
  }

  lemma ConcatInit<T>(a: seq<T>, b: seq<T>)
    requires b != []
    ensures (a + b)[..|a + b| - 1] == a + b[..|b| - 1] && (a + b)[|a + b| - 1] == b[|b| - 1]
  {
  }

  lemma Assoc<T>(a: multiset<T>, b: multiset<T>, c: multiset<T>)
    ensures (a + b) + c == a + (b + c) && (a + b) + c == (a + c) + b
  {
  }

  /** Two balances add up. */
  lemma Balance<T>(a: multiset<T>, out1: multiset<T>, b: multiset<T>, in1: multiset<T>,
                   out2: multiset<T>, c: multiset<T>, in2: multiset<T>)
    requires b + out1 == a + in1 && c + out2 == b + in2
    ensures c + (out1 + out2) == a + (in1 + in2)
  {
    assert c + (out1 + out2) == (c + out2) + out1;
    assert (b + in2) + out1 == (b + out1) + in2;
    assert (a + in1) + in2 == a + (in1 + in2);
  }

  lemma SeparateSplit<T>(a: seq<T>, c: seq<T>, k: nat)
    requires k <= |c| && Separate(a, [], c)
    ensures Separate(a, c[..k], c[k..])
    ensures Cells(a, c[..k], c[k..]) == Cells(a, [], c)
  {
    assert c == c[..k] + c[k..];
  }

  lemma NothingLeft<T>(a: seq<T>, c: seq<T>)
    requires c == []
    ensures Cells(a, [], c) == Elems(a)
  {
  }
}
