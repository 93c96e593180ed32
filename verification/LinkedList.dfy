/** The singly linked list of llist.c: a header whose item is never used, and
    cells chained by next. Sorting, appending and removing rewrite the next
    pointers of the existing cells. */
module LinkedList {
  import opened MergeSort
  import opened Basics

  class Cell<T> {
    const item: T
    var next: Cell?<T>

    constructor (item: T)
      ensures this.item == item && next == null
    {
      this.item := item;
      next := null;
    }
  }

  function Items<T>(cs: seq<Cell<T>>): (s: seq<T>)
    ensures |s| == |cs| && forall i :: 0 <= i < |cs| ==> s[i] == cs[i].item
  {
    seq(|cs|, i requires 0 <= i < |cs| => cs[i].item)
  }

  /** Each cell of cs points to the next one; nothing is said of the last. */
  ghost predicate Links<T>(cs: seq<Cell<T>>)
    reads cs
  {
    forall i :: 0 <= i < |cs| - 1 ==> cs[i].next == cs[i + 1]
  }

  /** From h one reaches exactly the cells cs, and then null. */
  ghost predicate Chain<T>(h: Cell?<T>, cs: seq<Cell<T>>)
    reads cs
  {
    if cs == [] then h == null
    else h == cs[0] && Links(cs) && cs[|cs| - 1].next == null
  }

  // ---------- the sort ----------

  /** The merged part: list is its first cell, tail its last one. */
  ghost predicate MergedPart<T>(list: Cell?<T>, tail: Cell?<T>, done: seq<Cell<T>>)
    reads done
  {
    && Links(done)
    && (done == [] ==> tail == null)
    && (done != [] ==> list == done[0] && tail == done[|done| - 1])
  }

  /** The comparator as the C code calls it, on cells. */
  function OnCells<T>(cmp: (T, T) -> int): (Cell<T>, Cell<T>) -> int {
    (a: Cell<T>, b: Cell<T>) => cmp(a.item, b.item)
  }

  lemma MergeTakesP<T>(cmp: (T, T) -> int, done: seq<T>, a: seq<T>, b: seq<T>)
    requires a != [] && (b == [] || cmp(a[0], b[0]) <= 0)
    ensures (done + [a[0]]) + Merge(cmp, a[1..], b) == done + Merge(cmp, a, b)
  {
    assert a == [a[0]] + a[1..];
    assert b == [] ==> Merge(cmp, a[1..], b) == a[1..];
    assert Merge(cmp, a, b) == [a[0]] + Merge(cmp, a[1..], b);
  }

  lemma MergeTakesQ<T>(cmp: (T, T) -> int, done: seq<T>, a: seq<T>, b: seq<T>)
    requires b != [] && (a == [] || cmp(a[0], b[0]) > 0)
    ensures (done + [b[0]]) + Merge(cmp, a, b[1..]) == done + Merge(cmp, a, b)
  {
    assert b == [b[0]] + b[1..];
    assert Merge(cmp, a, b) == [b[0]] + Merge(cmp, a, b[1..]);
  }

  lemma TakeRest<T>(rs: seq<T>, k: nat)
    requires rs != [] && k > 0
    ensures Take(rs, k) != [] && Take(rs, k)[0] == rs[0]
    ensures Take(rs, k)[1..] == Take(rs[1..], k - 1) && Drop(rs[1..], k - 1) == Drop(rs, k)
  {
  }

  /** What is merged already, followed by what merging the rest will give. */
  ghost function Target<T>(cmp: (T, T) -> int, done: seq<Cell<T>>, ps: seq<Cell<T>>, qs: seq<Cell<T>>):
    seq<Cell<T>>
  {
    done + Merge(OnCells(cmp), ps, qs)
  }

  lemma TargetTakesP<T>(cmp: (T, T) -> int, done: seq<Cell<T>>, ps: seq<Cell<T>>, qs: seq<Cell<T>>)
    requires ps != [] && (qs == [] || cmp(ps[0].item, qs[0].item) <= 0)
    ensures Target(cmp, done + [ps[0]], ps[1..], qs) == Target(cmp, done, ps, qs)
  {
    MergeTakesP(OnCells(cmp), done, ps, qs);
  }

  lemma TargetTakesQ<T>(cmp: (T, T) -> int, done: seq<Cell<T>>, ps: seq<Cell<T>>, rs: seq<Cell<T>>, k: nat)
    requires rs != [] && k > 0 && (ps == [] || cmp(ps[0].item, rs[0].item) > 0)
    ensures Target(cmp, done + [rs[0]], ps, Take(rs[1..], k - 1)) == Target(cmp, done, ps, Take(rs, k))
    ensures Drop(rs[1..], k - 1) == Drop(rs, k)
  {
    TakeRest(rs, k);
    MergeTakesQ(OnCells(cmp), done, ps, Take(rs, k));
  }

  lemma TargetReached<T>(cmp: (T, T) -> int, done: seq<Cell<T>>, ps: seq<Cell<T>>, qs: seq<Cell<T>>)
    requires ps == [] && qs == []
    ensures Target(cmp, done, ps, qs) == done
  {
  }

  ghost predicate MergeState<T>(list: Cell?<T>, tail: Cell?<T>, p: Cell?<T>, q: Cell?<T>,
                                done: seq<Cell<T>>, ps: seq<Cell<T>>, rs: seq<Cell<T>>)
    reads done, ps, rs
  {
    && MergedPart(list, tail, done) && Separate(done, ps, rs)
    && (ps != [] ==> p == ps[0]) && Links(ps) && Chain(q, rs)
  }

  /** Take the first cell of the left run and hang it behind the merged part. */
  method TakeP<T>(ghost cmp: (T, T) -> int, ghost qsize: nat, list: Cell?<T>, tail: Cell?<T>,
                  p: Cell<T>, ghost q: Cell?<T>,
                  ghost done: seq<Cell<T>>, ghost ps: seq<Cell<T>>, ghost rs: seq<Cell<T>>)
      returns (list': Cell<T>, tail': Cell<T>, p': Cell?<T>)
    requires MergeState(list, tail, p, q, done, ps, rs) && ps != []
    requires qsize == 0 || q == null || cmp(p.item, q.item) <= 0
    modifies if tail == null then {} else {tail}
    ensures MergeState(list', tail', p', q, done + [p], ps[1..], rs)
    ensures Cells(done + [p], ps[1..], rs) == Cells(done, ps, rs)
    ensures Target(cmp, done + [p], ps[1..], Take(rs, qsize)) == Target(cmp, done, ps, Take(rs, qsize))
  {
    TargetTakesP(cmp, done, ps, Take(rs, qsize));
    hide Target, Cells;
    MoveP(done, ps, rs);
    assert tail != null ==> tail in done;
    list', p' := p, p.next;
    assert |ps| > 1 ==> p' == ps[1];
    if tail != null {
      tail.next := p;
      list' := list;
    }
    tail' := p;
  }

  /** Take the first cell of the right run and hang it behind the merged part. */
  method TakeQ<T>(ghost cmp: (T, T) -> int, ghost qsize: nat, list: Cell?<T>, tail: Cell?<T>,
                  ghost p: Cell?<T>, q: Cell<T>,
                  ghost done: seq<Cell<T>>, ghost ps: seq<Cell<T>>, ghost rs: seq<Cell<T>>)
      returns (list': Cell<T>, tail': Cell<T>, q': Cell?<T>)
    requires MergeState(list, tail, p, q, done, ps, rs) && qsize > 0
    requires ps == [] || cmp(p.item, q.item) > 0
    modifies if tail == null then {} else {tail}
    ensures rs != []
    ensures MergeState(list', tail', p, q', done + [q], ps, rs[1..])
    ensures Cells(done + [q], ps, rs[1..]) == Cells(done, ps, rs)
    ensures Drop(rs[1..], qsize - 1) == Drop(rs, qsize)
    ensures Target(cmp, done + [q], ps, Take(rs[1..], qsize - 1)) == Target(cmp, done, ps, Take(rs, qsize))
  {
    hide Target, Take, Drop, Cells;
    TargetTakesQ(cmp, done, ps, rs, qsize);
    MoveR(done, ps, rs);
    assert tail != null ==> tail in done;
    list', q' := q, q.next;
    if tail != null {
      tail.next := q;
      list' := list;
    }
    tail' := q;
  }

  /** The innermost loop: merge the psize cells from p with the at most qsize
      cells from q. */
  method MergeRuns<T>(cmp: (T, T) -> int, p0: Cell<T>, psize0: nat, q0: Cell?<T>, qsize0: nat,
                      list0: Cell?<T>, tail0: Cell?<T>,
                      ghost done0: seq<Cell<T>>, ghost ps0: seq<Cell<T>>, ghost rs0: seq<Cell<T>>)
      returns (list: Cell?<T>, tail: Cell?<T>, q: Cell?<T>,
               ghost done: seq<Cell<T>>, ghost rs: seq<Cell<T>>)
    requires MergeState(list0, tail0, p0, q0, done0, ps0, rs0) && |ps0| == psize0 > 0
    modifies Cells(done0, ps0, rs0)
    ensures MergeState(list, tail, null, q, done, [], rs) && done != []
    ensures rs == Drop(rs0, qsize0) && Cells(done, [], rs) == Cells(done0, ps0, rs0)
    ensures done == Target(cmp, done0, ps0, Take(rs0, qsize0))
  {
    hide Merge, Target;
    var p: Cell?<T>, psize, qsize := p0, psize0, qsize0;
    q, list, tail := q0, list0, tail0;
    done, rs := done0, rs0;
    ghost var ps := ps0;
    ghost var target := Target(cmp, done0, ps0, Take(rs0, qsize0));
    while psize > 0 || (qsize > 0 && q != null)
      invariant MergeState(list, tail, p, q, done, ps, rs)
      invariant |ps| == psize && (done != [] || psize > 0)
      invariant Cells(done, ps, rs) == Cells(done0, ps0, rs0)
      invariant Drop(rs, qsize) == Drop(rs0, qsize0)
      invariant Target(cmp, done, ps, Take(rs, qsize)) == target
      decreases psize + |rs|
    {
      assert tail != null ==> tail in Cells(done, ps, rs);
      if psize > 0 && (qsize == 0 || q == null || cmp(p.item, q.item) <= 0) {
        ghost var e: Cell<T> := p;
        list, tail, p := TakeP(cmp, qsize, list, tail, p, q, done, ps, rs);
        psize := psize - 1;
        done, ps := done + [e], ps[1..];
      } else {
        ghost var e: Cell<T> := q;
        list, tail, q := TakeQ(cmp, qsize, list, tail, p, q, done, ps, rs);
        qsize := qsize - 1;
        done, rs := done + [e], rs[1..];
      }
    }
    TargetReached(cmp, done, ps, Take(rs, qsize));
  }

  /** Step at most insize cells along from p. */
  method StepAlong<T>(p: Cell<T>, insize: nat, ghost cs: seq<Cell<T>>) returns (q: Cell?<T>, psize: nat)
    requires insize > 0 && cs != [] && Chain(p, cs)
    ensures psize == Min(insize, |cs|) && Chain(q, cs[psize..])
  {
    q, psize := p, 0;
    var i := 0;
    while i < insize && q != null
      invariant i == psize <= insize && psize <= |cs| && Chain(q, cs[psize..])
      decreases |cs| - psize
    {
      psize := psize + 1;
      q := q.next;
      i := i + 1;
    }
  }

  lemma SortUnfold<T>(cmp: (T, T) -> int, k: nat, s: seq<T>)
    requires k > 0
    ensures SortFrom(cmp, k, s) == if |s| <= 2 * k then Pass(cmp, k, s) else SortFrom(cmp, 2 * k, Pass(cmp, k, s))
    ensures |Pass(cmp, k, s)| == |s|
  {
    PassLength(cmp, k, s);
  }

  lemma InnerCell<T>(cs: seq<Cell<T>>, i: nat)
    requires Links(cs) && i < |cs|
    ensures i + 1 < |cs| ==> cs[i].next != null
  {
    assert i + 1 < |cs| ==> cs[i].next == cs[i + 1];
  }

  lemma NextInChain<T>(l: Cell<T>, cs: seq<Cell<T>>, i: nat)
    requires i <= |cs| && Chain(l, cs[i..])
    ensures i < |cs| && l == cs[i] && Chain(l.next, cs[i + 1..])
  {
    assert i + 1 < |cs| ==> cs[i..][0].next == cs[i..][1];
    assert cs[i..][1..] == cs[i + 1..];
  }

  /** What is merged already, followed by what the rest of the pass will give. */
  ghost function PassFrom<T>(cmp: (T, T) -> int, k: nat, done: seq<Cell<T>>, rest: seq<Cell<T>>): seq<Cell<T>>
    requires k > 0
  {
    done + Pass(OnCells(cmp), k, rest)
  }

  lemma PassUnfold<T>(cmp: (T, T) -> int, k: nat, done: seq<Cell<T>>, s: seq<Cell<T>>)
    requires k > 0 && s != []
    ensures PassFrom(cmp, k, Target(cmp, done, Take(s, k), Take(Drop(s, k), k)), Drop(s, 2 * k))
         == PassFrom(cmp, k, done, s)
    ensures s[..Min(k, |s|)] == Take(s, k) && s[Min(k, |s|)..] == Drop(s, k)
    ensures Drop(Drop(s, k), k) == Drop(s, 2 * k)
  {
    assert Drop(Drop(s, k), k) == Drop(s, 2 * k);
  }

  lemma PassEnds<T>(cmp: (T, T) -> int, k: nat, ns: seq<Cell<T>>, cs: seq<Cell<T>>)
    requires k > 0
    ensures PassFrom(cmp, k, ns, []) == ns
    ensures PassFrom(cmp, k, [], cs) == Pass(OnCells(cmp), k, cs)
  {
  }

  /** One turn of the middle loop: cut two runs off the front and merge them. */
  method MergeNext<T>(cmp: (T, T) -> int, insize: nat, list0: Cell?<T>, tail0: Cell?<T>, p: Cell<T>,
                      ghost done: seq<Cell<T>>, ghost rest: seq<Cell<T>>)
      returns (list: Cell?<T>, tail: Cell?<T>, p': Cell?<T>,
               ghost done': seq<Cell<T>>, ghost rest': seq<Cell<T>>)
    requires insize > 0 && rest != [] && MergeState(list0, tail0, null, p, done, [], rest)
    modifies Cells(done, [], rest)
    ensures MergeState(list, tail, null, p', done', [], rest') && done' != []
    ensures rest' == Drop(rest, 2 * insize) && Cells(done', [], rest') == Cells(done, [], rest)
    ensures PassFrom(cmp, insize, done', rest') == PassFrom(cmp, insize, done, rest)
  {
    hide Pass, PassFrom, Merge, Target;
    var q, psize := StepAlong(p, insize, rest);
    SeparateSplit(done, rest, psize);
    PassUnfold(cmp, insize, done, rest);
    list, tail, p', done', rest' := MergeRuns(cmp, p, psize, q, insize, list0, tail0,
                                              done, rest[..psize], rest[psize..]);
  }

  /** One round of the outer loop over a non-empty chain. */
  method OnePass<T>(cmp: (T, T) -> int, insize: nat, first: Cell<T>, ghost cs: seq<Cell<T>>)
      returns (list: Cell<T>, nmerges: nat, ghost ns: seq<Cell<T>>)
    requires insize > 0 && cs != [] && Chain(first, cs) && Distinct(cs)
    modifies Elems(cs)
    ensures ns == Pass(OnCells(cmp), insize, cs)
    ensures ns != [] && Chain(list, ns) && Distinct(ns) && Elems(ns) == Elems(cs)
    ensures nmerges <= 1 <==> |cs| <= 2 * insize
  {
    hide Pass, PassFrom;
    var p: Cell?<T> := first;
    var head: Cell?<T>, tail: Cell?<T> := null, null;
    ns, nmerges := [], 0;
    ghost var rest := cs;
    while p != null
      invariant MergeState(head, tail, null, p, ns, [], rest)
      invariant Cells(ns, [], rest) == Elems(cs)
      invariant PassFrom(cmp, insize, ns, rest) == PassFrom(cmp, insize, [], cs)
      invariant if nmerges == 0 then ns == [] && rest == cs else ns != []
      invariant nmerges == 1 ==> |cs| <= 2 * insize + |rest| && (rest == [] || |cs| > 2 * insize)
      invariant nmerges > 1 ==> |cs| > 2 * insize
      decreases |rest|
    {
      nmerges := nmerges + 1;
      head, tail, p, ns, rest := MergeNext(cmp, insize, head, tail, p, ns, rest);
      assert nmerges == 1 ==> |rest| == |Drop(cs, 2 * insize)|;
    }
    NothingLeft(ns, rest);
    PassEnds(cmp, insize, ns, cs);
    assert tail in Elems(ns);
    tail.next := null;
    list := head;
  }

  lemma {:induction false} ItemsMerge<T>(cmp: (T, T) -> int, a: seq<Cell<T>>, b: seq<Cell<T>>)
    ensures Items(Merge(OnCells(cmp), a, b)) == Merge(cmp, Items(a), Items(b))
    decreases |a| + |b|
  {
    if a != [] && b != [] {
      if cmp(a[0].item, b[0].item) <= 0 {
        ItemsMerge(cmp, a[1..], b);
        assert Items(a)[1..] == Items(a[1..]);
      } else {
        ItemsMerge(cmp, a, b[1..]);
        assert Items(b)[1..] == Items(b[1..]);
      }
    }
  }

  lemma ItemsCut<T>(cs: seq<Cell<T>>, k: nat)
    ensures Items(Take(cs, k)) == Take(Items(cs), k) && Items(Drop(cs, k)) == Drop(Items(cs), k)
  {
  }

  lemma ItemsConcat<T>(a: seq<Cell<T>>, b: seq<Cell<T>>)
    ensures Items(a + b) == Items(a) + Items(b)
  {
  }

  lemma {:induction false} ItemsPass<T>(cmp: (T, T) -> int, k: nat, cs: seq<Cell<T>>)
    requires k > 0
    ensures Items(Pass(OnCells(cmp), k, cs)) == Pass(cmp, k, Items(cs))
    decreases |cs|
  {
    if cs != [] {
      ItemsMerge(cmp, Take(cs, k), Take(Drop(cs, k), k));
      ItemsPass(cmp, k, Drop(cs, 2 * k));
      ItemsCut(cs, k);
      ItemsCut(Drop(cs, k), k);
      ItemsCut(cs, 2 * k);
      ItemsConcat(Merge(OnCells(cmp), Take(cs, k), Take(Drop(cs, k), k)), Pass(OnCells(cmp), k, Drop(cs, 2 * k)));
    }
  }

  /** One pass, and whether it was the last one. */
  method SortRound<T>(cmp: (T, T) -> int, insize: nat, first: Cell<T>, ghost cs: seq<Cell<T>>, ghost goal: seq<T>)
      returns (list: Cell<T>, nmerges: nat, ghost ns: seq<Cell<T>>)
    requires insize > 0 && cs != [] && Chain(first, cs) && Distinct(cs)
    requires SortFrom(cmp, insize, Items(cs)) == goal
    modifies Elems(cs)
    ensures |ns| == |cs| && Chain(list, ns) && Distinct(ns) && Elems(ns) == Elems(cs)
    ensures nmerges <= 1 ==> Items(ns) == goal
    ensures nmerges > 1 ==> |ns| > 2 * insize && SortFrom(cmp, 2 * insize, Items(ns)) == goal
  {
    ItemsPass(cmp, insize, cs);
    SortUnfold(cmp, insize, Items(cs));
    list, nmerges, ns := OnePass(cmp, insize, first, cs);
  }

  /** The whole sort of a non-empty chain. */
  method SortCells<T>(cmp: (T, T) -> int, first: Cell<T>, ghost cs: seq<Cell<T>>)
      returns (list: Cell<T>, ghost ns: seq<Cell<T>>)
    requires cs != [] && Chain(first, cs) && Distinct(cs)
    modifies Elems(cs)
    ensures Items(ns) == Sort(cmp, Items(cs))
    ensures |ns| == |cs| && Chain(list, ns) && Distinct(ns) && Elems(ns) == Elems(cs)
  {
    hide SortFrom;
    list, ns := first, cs;
    var insize, nmerges := 1, 2;
    ghost var goal := Sort(cmp, Items(cs));
    while true
      invariant insize > 0 && |ns| == |cs| && Chain(list, ns) && Distinct(ns) && Elems(ns) == Elems(cs)
      invariant SortFrom(cmp, insize, Items(ns)) == goal
      decreases |ns| - insize
    {
      list, nmerges, ns := SortRound(cmp, insize, list, ns, goal);
      if nmerges <= 1 {
        break;
      }
      insize := insize * 2;
    }
  }

  // ---------- the list with its header ----------

  class PintList<T> {
    var next: Cell?<T>
    ghost var cells: seq<Cell<T>>

    ghost predicate Valid()
      reads this, cells
    {
      Chain(next, cells) && Distinct(cells)
    }

    ghost function Contents(): seq<T>
      reads this
    {
      Items(cells)
    }

    constructor ()
      ensures Valid() && Contents() == [] && cells == []
    {
      next, cells := null, [];
    }

    method Empty() returns (r: bool)
      requires Valid()
      ensures r <==> Contents() == []
    {
      r := next == null;
    }

    method Head() returns (r: Option<T>)
      requires Valid()
      ensures r == if Contents() == [] then None else Some(Contents()[0])
    {
      r := if next == null then None else Some(next.item);
    }

    /** Returns the list itself, or null for an empty list, as the C code does. */
    method Sort(cmp: (T, T) -> int) returns (r: PintList?<T>)
      requires Valid()
      modifies this, cells
      ensures Valid() && Elems(cells) == Elems(old(cells))
      ensures Contents() == MergeSort.Sort(cmp, old(Contents()))
      ensures r == if old(Contents()) == [] then null else this
    {
      if next == null {
        return null;
      }
      next, cells := SortCells(cmp, next, cells);
      r := this;
    }

    method AddToTail(item: T)
      requires Valid()
      modifies this, cells
      ensures Valid() && fresh(Elems(cells) - Elems(old(cells)))
      ensures Contents() == old(Contents()) + [item]
    {
      var c := new Cell(item);
      if next == null {
        next := c;
      } else {
        var l := next;
        ghost var i := 0;
        while l.next != null
          invariant i < |cells| && l == cells[i]
          decreases |cells| - i
        {
          l := l.next;
          i := i + 1;
        }
        InnerCell(cells, i);
        l.next := c;
      }
      DistinctSnoc(cells, c);
      cells := cells + [c];
    }

    /** Unlink the cell behind cell l, the i-th one. */
    method UnlinkAfter(l: Cell<T>, ghost i: nat)
      requires Valid() && i + 1 < |cells| && l == cells[i]
      modifies this, l
      ensures Valid() && Elems(cells) <= Elems(old(cells))
      ensures Contents() == old(Contents())[..i + 1] + old(Contents())[i + 2..]
    {
      ghost var before := cells;
      assert l.next == cells[i + 1];
      assert i + 2 < |cells| ==> cells[i + 1].next == cells[i + 2];
      l.next := l.next.next;
      cells := before[..i + 1] + before[i + 2..];
    }

    /** Unlink the first cell whose item matches, and return that item. */
    method Rem(match_: T -> bool) returns (r: Option<T>)
      requires Valid()
      modifies this, cells
      ensures Valid() && Elems(cells) <= Elems(old(cells))
      ensures r == FirstMatch(match_, old(Contents()))
      ensures Contents() == WithoutFirst(match_, old(Contents()))
    {
      if next == null {
        return None;
      }
      if match_(next.item) {
        FirstMatchAt(match_, Contents(), 0);
        r := Some(next.item);
        next := next.next;
        cells := cells[1..];
        return;
      }
      hide FirstMatch, WithoutFirst, Distinct;
      var l := next;
      ghost var i := 0;
      while l.next != null
        invariant i < |cells| && l == cells[i]
        invariant forall k :: 0 <= k <= i ==> !match_(Contents()[k])
        decreases |cells| - i
      {
        assert i < |cells| - 1 ==> cells[i].next == cells[i + 1];
        if match_(l.next.item) {
          FirstMatchAt(match_, Contents(), i + 1);
          r := Some(l.next.item);
          UnlinkAfter(l, i);
          return;
        }
        l := l.next;
        i := i + 1;
      }
      InnerCell(cells, i);
      NoMatch(match_, Contents());
      r := None;
    }

    /** The first item that matches, in list order. */
    method Search(match_: T -> bool) returns (r: Option<T>)
      requires Valid()
      ensures r == FirstMatch(match_, Contents())
    {
      var l := next;
      ghost var i := 0;
      while l != null
        invariant i <= |cells| && Chain(l, cells[i..])
        invariant forall k :: 0 <= k < i ==> !match_(Contents()[k])
        decreases |cells| - i
      {
        if match_(l.item) {
          FirstMatchAt(match_, Contents(), i);
          return Some(l.item);
        }
        NextInChain(l, cells, i);
        l := l.next;
        i := i + 1;
      }
      NoMatch(match_, Contents());
      r := None;
    }
  }

  function FirstMatch<T>(match_: T -> bool, s: seq<T>): Option<T> {
    if s == [] then None else if match_(s[0]) then Some(s[0]) else FirstMatch(match_, s[1..])
  }

  function WithoutFirst<T>(match_: T -> bool, s: seq<T>): seq<T> {
    if s == [] then [] else if match_(s[0]) then s[1..] else [s[0]] + WithoutFirst(match_, s[1..])
  }

  lemma {:induction false} FirstMatchAt<T>(match_: T -> bool, s: seq<T>, i: nat)
    requires i < |s| && match_(s[i]) && forall k :: 0 <= k < i ==> !match_(s[k])
    ensures FirstMatch(match_, s) == Some(s[i]) && WithoutFirst(match_, s) == s[..i] + s[i + 1..]
  {
    if i > 0 {
      FirstMatchAt(match_, s[1..], i - 1);
      assert s[..i] + s[i + 1..] == [s[0]] + (s[1..][..i - 1] + s[1..][i..]);
    }
  }

  lemma {:induction false} NoMatch<T>(match_: T -> bool, s: seq<T>)
    requires forall k :: 0 <= k < |s| ==> !match_(s[k])
    ensures FirstMatch(match_, s) == None && WithoutFirst(match_, s) == s
  {
    if s != [] {
      NoMatch(match_, s[1..]);
    }
  }
}
