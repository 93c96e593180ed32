/** The two levels of scheduler_2LSFQD.c: credits admit requests into a queue
    ordered by deadline, from which they go out while few enough are outstanding. */
module TwoLevel {
  import opened Basics
  import opened Division
  import Avatar
  import MergeSort

  datatype Item = Item(id: nat, app: nat, size: nat, deadline: int, timewindow: int, inWindow: bool)

  /** rates in megabytes, the replenish time and window length in milliseconds,
      the deadline every queued request is given, and "infinity". */
  datatype Conf = Conf(rates: seq<nat>, replenishTime: nat, deadline: nat, window: nat, infinite: int)

  ghost predicate Sane(c: Conf) { |c.rates| > 0 && c.infinite >= 2 }

  function Quota(c: Conf, a: nat): nat
    requires a < |c.rates|
  {
    c.rates[a] * 1048576 / 1000 * c.replenishTime
  }

  /** A fresh amount is what the rate, in megabytes a second, comes to over the
      replenish time, in milliseconds, but for less than a byte for each of them. */
  lemma QuotaIsRate(c: Conf, a: nat)
    requires a < |c.rates|
    ensures var bytes := c.rates[a] * 1048576 * c.replenishTime;
      bytes - 999 * c.replenishTime <= 1000 * Quota(c, a) <= bytes
  {
    var rate: int, q: int, t := c.rates[a] * 1048576, c.rates[a] * 1048576 / 1000, c.replenishTime;
    QuotientBounds(rate, 1000);
    Scaled(1000 * q, rate, t);
    Scaled(rate - 999, 1000 * q, t);
    assert 1000 * (q * t) == 1000 * q * t && (rate - 999) * t == rate * t - 999 * t;
  }

  lemma Scaled(x: int, y: int, t: nat)
    requires x <= y
    ensures x * t <= y * t
  {
  }

  function Quotas(c: Conf): seq<int> { seq(|c.rates|, a requires 0 <= a < |c.rates| => Quota(c, a)) }

  // ---------- the history ----------

  /** What has happened: credits replenished, a request admitted, a request sent
      out (missed tells whether its deadline had passed). */
  datatype Happening =
    | Replenished
    | Admitted(app: nat, size: nat)
    | SentOut(missed: bool, outstanding: int, threshold: int)

  /** The credits of application a after a history, from what it had at first. */
  function Left(c: Conf, first: seq<nat>, h: seq<Happening>, a: nat): int
    requires a < |first| == |c.rates|
  {
    if h == [] then first[a] else Then(c, Left(c, first, h[..|h| - 1], a), h[|h| - 1], a)
  }

  function Then(c: Conf, left: int, x: Happening, a: nat): int
    requires a < |c.rates|
  {
    match x
    case Replenished => Quota(c, a)
    case Admitted(app, size) => left - if app == a then size else 0
    case SentOut(_, _, _) => left
  }

  ghost predicate NeverOverdrawn(c: Conf, first: seq<nat>, h: seq<Happening>)
    requires |first| == |c.rates|
  {
    forall k, a :: 0 <= k <= |h| && 0 <= a < |first| ==> Left(c, first, h[..k], a) >= 0
  }

  /** Whoever had not missed its deadline found fewer outstanding than the threshold. */
  ghost predicate Restrained(h: seq<Happening>) {
    forall k :: 0 <= k < |h| && h[k].SentOut? ==> h[k].missed || h[k].outstanding < h[k].threshold
  }

  /** The sizes that a history admits for application a. */
  function AdmittedFor(h: seq<Happening>, a: nat): nat {
    if h == [] then 0
    else AdmittedFor(h[..|h| - 1], a) +
         match h[|h| - 1] case Admitted(app, size) => (if app == a then size else 0) case _ => 0
  }

  lemma {:induction false} LeftAfter(c: Conf, first: seq<nat>, h: seq<Happening>, g: seq<Happening>, a: nat)
    requires a < |first| == |c.rates| && forall x :: x in g ==> x != Replenished
    ensures Left(c, first, h + g, a) == Left(c, first, h, a) - AdmittedFor(g, a)
    decreases |g|
  {
    if g == [] {
      assert h + g == h;
    } else {
      var n := |g| - 1;
      assert forall x :: x in g[..n] ==> x in g;
      LeftAfter(c, first, h, g[..n], a);
      assert (h + g)[..|h + g| - 1] == h + g[..n];
      assert g[n] in g;
    }
  }

  /** Between two replenishments an application is admitted at most the amount of one. */
  lemma RateBound(c: Conf, first: seq<nat>, h: seq<Happening>, i: nat, j: nat, a: nat)
    requires |first| == |c.rates| && NeverOverdrawn(c, first, h) && a < |first|
    requires i < j <= |h| && h[i] == Replenished && forall k :: i < k < j ==> h[k] != Replenished
    ensures AdmittedFor(h[i + 1..j], a) <= Quota(c, a)
  {
    assert h[..i + 1][..i] == h[..i];
    assert h[..j] == h[..i + 1] + h[i + 1..j];
    LeftAfter(c, first, h[..i + 1], h[i + 1..j], a);
    assert Left(c, first, h[..j], a) >= 0;
  }

  /** One more happening, as long as it does not overdraw. */
  lemma HistorySnoc(c: Conf, first: seq<nat>, h: seq<Happening>, x: Happening)
    requires |first| == |c.rates| && NeverOverdrawn(c, first, h)
    ensures forall a :: 0 <= a < |first| ==> Left(c, first, h + [x], a) == Then(c, Left(c, first, h, a), x, a)
    ensures (x.Admitted? && x.app < |first| ==> Left(c, first, h, x.app) >= x.size) ==>
              NeverOverdrawn(c, first, h + [x])
    ensures Restrained(h) && (x.SentOut? ==> x.missed || x.outstanding < x.threshold) ==> Restrained(h + [x])
  {
    assert (h + [x])[..|h|] == h == h[..|h|];
    if x.Admitted? && x.app < |first| ==> Left(c, first, h, x.app) >= x.size {
      forall a | 0 <= a < |first| ensures Left(c, first, h, a) >= 0 {
        assert Left(c, first, h[..|h|], a) >= 0;
      }
      NeverOverdrawnSnoc(c, first, h, x);
    }
  }

  lemma NeverOverdrawnSnoc(c: Conf, first: seq<nat>, h: seq<Happening>, x: Happening)
    requires |first| == |c.rates| && NeverOverdrawn(c, first, h)
    requires forall a :: 0 <= a < |first| ==> Left(c, first, h + [x], a) >= 0
    ensures NeverOverdrawn(c, first, h + [x])
  {
    var g := h + [x];
    forall k, a | 0 <= k <= |g| && 0 <= a < |first| ensures Left(c, first, g[..k], a) >= 0 {
      if k <= |h| {
        assert g[..k] == h[..k];
      } else {
        assert g[..k] == g;
      }
    }
  }

  // ---------- queues ----------

  function Count(ls: seq<seq<Item>>): nat {
    if ls == [] then 0 else Count(ls[..|ls| - 1]) + |ls[|ls| - 1]|
  }

  lemma {:induction false} CountUpdate(ls: seq<seq<Item>>, a: nat, l: seq<Item>)
    requires a < |ls|
    ensures Count(ls[a := l]) == Count(ls) - |ls[a]| + |l|
  {
    var n := |ls| - 1;
    if a == n {
      assert ls[a := l][..n] == ls[..n];
    } else {
      CountUpdate(ls[..n], a, l);
      assert ls[a := l][..n] == ls[..n][a := l];
    }
  }

  ghost function IdsOf(l: seq<Item>): multiset<nat> {
    if l == [] then multiset{} else IdsOf(l[..|l| - 1]) + multiset{l[|l| - 1].id}
  }

  ghost function IdsIn(ls: seq<seq<Item>>): multiset<nat> {
    if ls == [] then multiset{} else IdsIn(ls[..|ls| - 1]) + IdsOf(ls[|ls| - 1])
  }

  lemma {:induction false} IdsConcat(a: seq<Item>, b: seq<Item>)
    ensures IdsOf(a + b) == IdsOf(a) + IdsOf(b)
  {
    if b == [] {
      assert a + b == a;
    } else {
      var n := |b| - 1;
      IdsConcat(a, b[..n]);
      ConcatInit(a, b);
      Assoc(IdsOf(a), IdsOf(b[..n]), multiset{b[n].id});
    }
  }

  lemma IdsHead(l: seq<Item>)
    requires l != []
    ensures IdsOf(l) == IdsOf(l[1..]) + multiset{l[0].id}
  {
    IdsSnoc([], l[0]);
    IdsConcat([l[0]], l[1..]);
    assert [l[0]] + l[1..] == l && [] + [l[0]] == [l[0]];
  }

  lemma IdsCut(l: seq<Item>, k: nat)
    requires k < |l|
    ensures IdsOf(l) == IdsOf(l[..k] + l[k + 1..]) + multiset{l[k].id}
  {
    hide IdsOf;
    assert l == l[..k] + l[k..] && l[k..][1..] == l[k + 1..];
    IdsConcat(l[..k], l[k..]);
    IdsHead(l[k..]);
    IdsConcat(l[..k], l[k + 1..]);
  }

  lemma IdsSnoc(l: seq<Item>, x: Item)
    ensures IdsOf(l + [x]) == IdsOf(l) + multiset{x.id}
  {
    assert (l + [x])[..|l|] == l;
  }

  lemma IdsInLast(ls: seq<seq<Item>>)
    requires ls != []
    ensures IdsIn(ls) == IdsIn(ls[..|ls| - 1]) + IdsOf(ls[|ls| - 1])
  {
  }

  lemma {:induction false} IdsUpdate(ls: seq<seq<Item>>, a: nat, l: seq<Item>, more: multiset<nat>)
    requires a < |ls| && (IdsOf(l) + more == IdsOf(ls[a]))
    ensures IdsIn(ls[a := l]) + more == IdsIn(ls)
  {
    hide IdsIn, IdsOf;
    var n := |ls| - 1;
    IdsInLast(ls);
    IdsInLast(ls[a := l]);
    if a == n {
      assert ls[a := l][..n] == ls[..n];
      Assoc(IdsIn(ls[..n]), IdsOf(l), more);
    } else {
      assert ls[a := l][..n] == ls[..n][a := l];
      IdsUpdate(ls[..n], a, l, more);
      Assoc(IdsIn(ls[..n][a := l]), IdsOf(ls[n]), more);
    }
  }

  lemma {:induction false} IdsGrow(ls: seq<seq<Item>>, a: nat, x: Item)
    requires a < |ls|
    ensures IdsIn(ls[a := ls[a] + [x]]) == IdsIn(ls) + multiset{x.id}
  {
    var n := |ls| - 1;
    var l := ls[a] + [x];
    if a == n {
      assert ls[a := l][..n] == ls[..n] && l[..|l| - 1] == ls[a];
      Assoc(IdsIn(ls[..n]), IdsOf(ls[n]), multiset{x.id});
    } else {
      IdsGrow(ls[..n], a, x);
      assert ls[a := l][..n] == ls[..n][a := ls[..n][a] + [x]];
      Assoc(IdsIn(ls[..n]), multiset{x.id}, IdsOf(ls[n]));
    }
  }

  ghost predicate AllEmpty(ls: seq<seq<Item>>) { forall a :: 0 <= a < |ls| ==> ls[a] == [] }

  /** No application can pay for its first request. */
  ghost predicate CannotPay(ls: seq<seq<Item>>, credits: seq<int>)
    requires |ls| == |credits|
  {
    forall a :: 0 <= a < |ls| && ls[a] != [] ==> ls[a][0].size > credits[a]
  }

  /** A request that cannot be paid for itself makes no difference behind the others. */
  lemma WaitingPaysNothing(ls: seq<seq<Item>>, credits: seq<int>, a: nat, x: Item)
    requires |ls| == |credits| && a < |ls| && credits[a] < x.size
    ensures CannotPay(ls[a := ls[a] + [x]], credits) <==> CannotPay(ls, credits)
  {
    var more := ls[a := ls[a] + [x]];
    assert forall b :: 0 <= b < |ls| && ls[b] != [] ==> more[b] != [] && more[b][0] == ls[b][0];
    assert ls[a] == [] ==> more[a][0] == x;
  }

  function ByDeadline(): (Item, Item) -> int { (a: Item, b: Item) => a.deadline - b.deadline }

  ghost predicate InDeadlineOrder(l: seq<Item>) {
    forall i, j :: 0 <= i < j < |l| ==> l[i].deadline <= l[j].deadline
  }

  /** A queue in deadline order, with no deadline after latest and no window after w. */
  ghost predicate Queue(l: seq<Item>, latest: int, w: int) {
    InDeadlineOrder(l) && forall x :: x in l ==> x.deadline <= latest && x.timewindow <= w
  }

  lemma SortOrdered(l: seq<Item>)
    requires InDeadlineOrder(l)
    ensures MergeSort.Sort(ByDeadline(), l) == l
  {
    MergeSort.SortIsStable(ByDeadline(), l);
    MergeSort.StableSortUnique(ByDeadline(), MergeSort.Sort(ByDeadline(), l), l);
  }

  /** x goes to the end of a queue in deadline order. */
  lemma QueueSnoc(l: seq<Item>, latest: int, x: Item, w: int)
    requires Queue(l, latest, w) && latest <= x.deadline && x.timewindow == w
    ensures Queue(l + [x], x.deadline, w) && MergeSort.Sort(ByDeadline(), l + [x]) == l + [x]
    ensures IdsOf(l + [x]) == IdsOf(l) + multiset{x.id}
    ensures Arrived(l + [x], w) == Arrived(l, w) + 1
    ensures Due(l + [x], w) == Due(l, w) + if x.inWindow then 1 else 0
  {
    assert (l + [x])[..|l|] == l;
    assert forall i :: 0 <= i < |l| ==> l[i] in l;
    SortOrdered(l + [x]);
  }

  lemma QueueTail(l: seq<Item>, latest: int, w: int)
    requires Queue(l, latest, w) && l != []
    ensures Queue(l[1..], latest, w)
  {
  }

  lemma QueueLater(l: seq<Item>, latest: int, w: int, latest': int, w': int)
    requires Queue(l, latest, w) && latest <= latest' && w <= w'
    ensures Queue(l, latest', w')
  {
  }

  /** How many of l arrived in window w, and how many of those with a deadline in it. */
  function Arrived(l: seq<Item>, w: int): nat {
    if l == [] then 0 else Arrived(l[..|l| - 1], w) + if l[|l| - 1].timewindow == w then 1 else 0
  }

  function Due(l: seq<Item>, w: int): nat {
    if l == [] then 0
    else Due(l[..|l| - 1], w) + if l[|l| - 1].timewindow == w && l[|l| - 1].inWindow then 1 else 0
  }

  lemma {:induction false} ArrivedHead(l: seq<Item>, w: int)
    requires l != []
    ensures Arrived(l, w) == Arrived(l[1..], w) + if l[0].timewindow == w then 1 else 0
    ensures Due(l, w) == Due(l[1..], w) + if l[0].timewindow == w && l[0].inWindow then 1 else 0
  {
    var n := |l| - 1;
    if n > 0 {
      ArrivedHead(l[..n], w);
      assert l[..n][1..] == l[1..][..n - 1];
    }
  }

  lemma {:induction false} DueAtMostArrived(l: seq<Item>, w: int)
    ensures Due(l, w) <= Arrived(l, w) <= |l|
  {
    if l != [] {
      DueAtMostArrived(l[..|l| - 1], w);
    }
  }

  /** How many of l have a deadline from lo on and before hi. */
  function Between(l: seq<Item>, lo: int, hi: int): nat {
    if l == [] then 0 else Between(l[..|l| - 1], lo, hi) + if lo <= l[|l| - 1].deadline < hi then 1 else 0
  }

  lemma {:induction false} BetweenAtMost(l: seq<Item>, lo: int, hi: int)
    ensures Between(l, lo, hi) <= |l|
  {
    if l != [] {
      BetweenAtMost(l[..|l| - 1], lo, hi);
    }
  }

  /** The three counts are those of the requests with the property they are named for. */
  lemma {:induction false} CountsAre(l: seq<Item>, w: int, lo: int, hi: int)
    ensures Arrived(l, w) == |Places((x: Item) => x.timewindow == w, l)|
    ensures Due(l, w) == |Places((x: Item) => x.timewindow == w && x.inWindow, l)|
    ensures Between(l, lo, hi) == |Places((x: Item) => lo <= x.deadline < hi, l)|
  {
    if l != [] {
      CountsAre(l[..|l| - 1], w, lo, hi);
      PlacesSnoc((x: Item) => x.timewindow == w, l);
      PlacesSnoc((x: Item) => x.timewindow == w && x.inWindow, l);
      PlacesSnoc((x: Item) => lo <= x.deadline < hi, l);
    }
  }

  /** From the first request due too late on, all are. */
  lemma {:induction false} NoneLater(l: seq<Item>, i: nat, lo: int, hi: int)
    requires InDeadlineOrder(l) && i < |l| && l[i].deadline >= hi
    ensures Between(l, lo, hi) == Between(l[..i], lo, hi)
  {
    var n := |l| - 1;
    assert l[..n][..i] == l[..i];
    if i < n {
      NoneLater(l[..n], i, lo, hi);
    }
  }

  lemma {:induction false} NoneArrived(l: seq<Item>, w: int)
    requires forall x :: x in l ==> x.timewindow < w
    ensures Arrived(l, w) == 0 && Due(l, w) == 0
  {
    if l != [] {
      NoneArrived(l[..|l| - 1], w);
    }
  }

  /** A queue as the next window finds it. */
  lemma NextQueue(l: seq<Item>, latest: int, w: int)
    requires Queue(l, latest, w)
    ensures Queue(l, latest, w + 1) && Arrived(l, w + 1) == 0 && Due(l, w + 1) == 0
  {
    NoneArrived(l, w + 1);
  }

  lemma {:induction false} NoIds(ls: seq<seq<Item>>)
    requires forall i :: 0 <= i < |ls| ==> ls[i] == []
    ensures IdsIn(ls) == multiset{}
  {
    if ls != [] {
      NoIds(ls[..|ls| - 1]);
    }
  }

  // ---------- turns ----------

  /** The upper level: the requests of each application, its credits, and whose turn it is. */
  datatype Upper = Upper(lists: seq<seq<Item>>, credits: seq<int>, turn: nat)

  ghost predicate CanPay(u: Upper, a: nat) {
    a < |u.lists| && a < |u.credits| && u.lists[a] != [] && u.credits[a] >= u.lists[a][0].size
  }

  /** How many turns from q on it is until a's, among n. */
  function Distance(q: nat, a: nat, n: nat): int { if a >= q then a - q else a + n - q }

  /** a is the first application from the turn on that can pay. */
  ghost predicate FirstToPay(u: Upper, a: nat) {
    && CanPay(u, a) && u.turn < |u.lists|
    && forall b :: 0 <= b < |u.lists| && Distance(u.turn, b, |u.lists|) < Distance(u.turn, a, |u.lists|) ==> !CanPay(u, b)
  }

  /** The first request of a is admitted and paid for, and the turn moves on behind a. */
  ghost function AfterAdmitting(u: Upper, a: nat): Upper {
    if CanPay(u, a) then
      Upper(u.lists[a := u.lists[a][1..]], u.credits[a := u.credits[a] - u.lists[a][0].size],
            if a + 1 == |u.lists| then 0 else a + 1)
    else u
  }

  ghost function AfterAll(u: Upper, order: seq<nat>): Upper
    decreases |order|
  {
    if order == [] then u else AfterAll(AfterAdmitting(u, order[0]), order[1..])
  }

  /** Each in order is the first that can pay when it is its turn. */
  ghost predicate InTurn(u: Upper, order: seq<nat>)
    decreases |order|
  {
    order == [] || (FirstToPay(u, order[0]) && InTurn(AfterAdmitting(u, order[0]), order[1..]))
  }

  /** What is admitted, in order, as it stands in a history. */
  ghost function Admissions(u: Upper, order: seq<nat>): seq<Happening>
    decreases |order|
  {
    if order == [] || !CanPay(u, order[0]) then []
    else [Admitted(order[0], u.lists[order[0]][0].size)] + Admissions(AfterAdmitting(u, order[0]), order[1..])
  }

  lemma NobodyYet(u: Upper)
    ensures InTurn(u, []) && AfterAll(u, []) == u && Admissions(u, []) == []
  {
  }

  lemma {:induction false} InTurnSnoc(u: Upper, order: seq<nat>, a: nat)
    requires InTurn(u, order) && FirstToPay(AfterAll(u, order), a)
    ensures InTurn(u, order + [a]) && AfterAll(u, order + [a]) == AfterAdmitting(AfterAll(u, order), a)
    ensures Admissions(u, order + [a]) ==
              Admissions(u, order) + [Admitted(a, AfterAll(u, order).lists[a][0].size)]
    decreases |order|
  {
    if order == [] {
      assert [] + [a] == [a] && [a][1..] == [];
    } else {
      InTurnSnoc(AfterAdmitting(u, order[0]), order[1..], a);
      assert (order + [a])[1..] == order[1..] + [a] && (order + [a])[0] == order[0];
    }
  }

  /** Admitting one application leaves the credits and requests of the others alone. */
  lemma OthersCanStillPay(u: Upper, a: nat, b: nat)
    requires CanPay(u, a) && a != b && |u.lists| == |u.credits|
    ensures CanPay(AfterAdmitting(u, a), b) <==> CanPay(u, b)
  {
  }

  /** Whoever can pay and comes before a in turn is admitted before a is. */
  lemma {:induction false} AdmittedBefore(u: Upper, order: seq<nat>, j: nat, b: nat)
    requires InTurn(u, order) && j < |order| && |u.lists| == |u.credits| && CanPay(u, b)
    requires u.turn < |u.lists| && Distance(u.turn, b, |u.lists|) < Distance(u.turn, order[j], |u.lists|)
    ensures b in order[..j]
    decreases |order|
  {
    var a := order[0];
    InTurnCut(u, order, j);
    assert FirstToPay(u, a) && j > 0;
    if a != b {
      OthersCanStillPay(u, a, b);
      TurnMoves(u.turn, a, b, |u.lists|);
      TurnMoves(u.turn, a, order[j], |u.lists|);
      assert order[1..][j - 1] == order[j];
      AdmittedBefore(AfterAdmitting(u, a), order[1..], j - 1, b);
      assert order[1..][..j - 1] == order[1..j];
    }
    assert order[..j] == [a] + order[1..j];
  }

  /** Once the turn has moved on behind a, whoever was behind a is nearer by so much. */
  lemma TurnMoves(q: nat, a: nat, b: nat, n: nat)
    requires q < n && a < n && b < n && Distance(q, a, n) < Distance(q, b, n)
    ensures var q' := if a + 1 == n then 0 else a + 1;
            Distance(q', b, n) == Distance(q, b, n) - Distance(q, a, n) - 1
  {
  }

  lemma {:induction false} InTurnCut(u: Upper, order: seq<nat>, i: nat)
    requires InTurn(u, order) && i < |order| && |u.lists| == |u.credits|
    ensures var v := AfterAll(u, order[..i]);
      && FirstToPay(v, order[i]) && |v.lists| == |v.credits| == |u.lists|
      && AfterAll(u, order[..i + 1]) == AfterAdmitting(v, order[i])
      && InTurn(AfterAdmitting(v, order[i]), order[i + 1..])
    decreases |order|
  {
    if i == 0 {
      assert order[..1] == [order[0]] && [order[0]][1..] == [] && order[..0] == [];
    } else {
      InTurnCut(AfterAdmitting(u, order[0]), order[1..], i - 1);
      assert order[..i][1..] == order[1..][..i - 1] && order[..i + 1][1..] == order[1..][..i];
      assert order[1..][i - 1 + 1..] == order[i + 1..];
    }
  }

  /** Between two admissions of one application every other one that can pay
      after the first of them is admitted. */
  lemma TakesTurns(u: Upper, order: seq<nat>, i: nat, j: nat, b: nat)
    requires InTurn(u, order) && |u.lists| == |u.credits| && i < j < |order| && order[i] == order[j]
    requires b != order[i] && CanPay(AfterAll(u, order[..i + 1]), b)
    ensures b in order[i + 1..j]
  {
    InTurnCut(u, order, i);
    InTurnCut(u, order, j);
    var v := AfterAll(u, order[..i + 1]);
    AdmittedBefore(v, order[i + 1..], j - i - 1, b);
    assert order[i + 1..][..j - i - 1] == order[i + 1..j];
  }

  // ---------- the scheduler ----------

  class Scheduler {
    const c: Conf
    const thresholds: array<Avatar.Float>
    ghost const first: seq<nat>
    var sarc: seq<seq<Item>>
    var credits: seq<int>
    var queueIndex: nat
    var edf: seq<Item>
    var edfLength: int
    var outstanding: int
    var maxOutstanding: int
    var threshold: int
    var arrival: int
    var arrivalDeadline: int
    var completed: int
    var windowId: int
    var windowEnd: int
    var nextEnd: int
    var clock: int
    var out: seq<Item>
    ghost var doneAll: int
    ghost var doneDue: int
    ghost var history: seq<Happening>

    ghost predicate Shaped()
      reads this`sarc, this`credits
    {
      |c.rates| == |sarc| == |credits| == |first| > 0
    }

    /** Credits are what the history leaves and are never overdrawn. */
    ghost predicate Paid()
      requires |c.rates| == |credits| == |first|
      reads this`credits, this`history
    {
      && (forall a :: 0 <= a < |credits| ==> credits[a] == Left(c, first, history, a))
      && NeverOverdrawn(c, first, history)
    }

    /** The lower queue is in deadline order, and nobody's deadline is further than
        a request of this instant would get. */
    ghost predicate Ordered()
      reads this`edf, this`clock, this`windowId
    {
      Queue(edf, clock + c.deadline, windowId)
    }

    /** The counters of the window thread. */
    ghost predicate Counted()
      reads this`edf, this`edfLength, this`outstanding, this`out, this`arrival, this`arrivalDeadline
      reads this`windowId, this`doneAll, this`doneDue
    {
      && edfLength == |edf| && outstanding == |out|
      && arrival == Arrived(edf, windowId) + doneAll && arrivalDeadline == Due(edf, windowId) + doneDue
      && 0 <= doneDue <= doneAll
    }

    ghost predicate Valid()
      reads this
    {
      Shaped() && queueIndex < |sarc| && Paid() && Restrained(history) && Ordered() && Counted()
    }

    /** Every request in the scheduler. */
    ghost function All(): multiset<nat>
      reads this`sarc, this`edf, this`out
    {
      IdsIn(sarc) + IdsOf(edf) + IdsOf(out)
    }

    /** The measure of the recursion. */
    ghost function Rank(): nat
      reads this`sarc, this`edf
    {
      2 * Count(sarc) + |edf|
    }

    /** Nothing more can go out. */
    ghost predicate Full()
      reads this`edf, this`outstanding, this`threshold
    {
      edf == [] || outstanding >= threshold
    }

    predicate Admissible(a: nat)
      requires a < |sarc| && a < |credits|
      reads this`sarc, this`credits
    {
      sarc[a] != [] && credits[a] >= sarc[a][0].size
    }

    ghost predicate Idle()
      requires Shaped()
      reads this`sarc, this`credits
    {
      CannotPay(sarc, credits)
    }

    ghost function Up(): Upper
      reads this`sarc, this`credits, this`queueIndex
    {
      Upper(sarc, credits, queueIndex)
    }

    /** No request waits for credits. */
    ghost predicate NoneWaiting()
      reads this`sarc
    {
      AllEmpty(sarc)
    }

    /** One request waits for credits, that of application a, and there are enough. */
    ghost predicate OneWaiting(a: nat)
      reads this`sarc, this`credits
    {
      && a < |sarc| && a < |credits| && |sarc[a]| == 1 && Admissible(a)
      && forall b :: 0 <= b < |sarc| && b != a ==> sarc[b] == []
    }

    /** The credits once that request is paid for. */
    ghost function Paying(a: nat): seq<int>
      reads this`sarc, this`credits
    {
      if OneWaiting(a) then credits[a := credits[a] - sarc[a][0].size] else credits
    }

    /** The lower queue is empty and a request may go out. */
    ghost predicate RoomBelow()
      reads this`edf, this`outstanding, this`threshold
    {
      edf == [] && outstanding < threshold
    }

    /** When an enqueue leaves nothing that could be admitted: the credits cover
        the request, or fresh ones would and there is room to spare; or with room
        to spare fresh ones cover no other first request either; or without room
        nothing could be admitted before. */
    ghost predicate IdleAfter(app: nat, length: nat)
      requires Shaped() && app < |sarc|
      reads this`sarc, this`credits, this`outstanding, this`threshold
    {
      || credits[app] >= length
      || if 9 * threshold > 10 * outstanding then Quota(c, app) >= length || CannotPay(sarc, Quotas(c)) else Idle()
    }

    method Now() returns (now: int)
      modifies this`clock
      ensures now == clock >= old(clock)
    {
      var passed: int :| passed >= 0;
      clock := clock + passed;
      now := clock;
    }

    /** Time passing leaves the queue in order. */
    lemma Waited(before: int)
      requires Queue(edf, before + c.deadline, windowId) && before <= clock
      ensures Ordered()
    {
      QueueLater(edf, before + c.deadline, windowId, clock + c.deadline, windowId);
    }

    lemma QueueNow()
      requires Ordered() && Counted()
      ensures Queue(edf, clock + c.deadline, windowId) && edfLength == |edf| && outstanding == |out|
    {
    }

    lemma NothingCounted()
      requires edfLength == |edf| && outstanding == |out| && Arrived(edf, windowId) == Due(edf, windowId) == 0
      requires arrival == arrivalDeadline == doneAll == doneDue == 0
      ensures Counted()
    {
    }

    // ---------- the upper level ----------

    /** twolsfqd_replenish */
    method Replenish()
      requires Valid()
      modifies this`credits, this`history
      ensures Valid() && history == old(history) + [Replenished]
      ensures forall a :: 0 <= a < |credits| ==> credits[a] == Quota(c, a)
    {
      var i := 0;
      while i < |c.rates|
        invariant i <= |c.rates| == |credits|
        invariant forall a :: 0 <= a < i ==> credits[a] == Quota(c, a)
        modifies this`credits
      {
        credits := credits[i := c.rates[i] * 1048576 / 1000 * c.replenishTime];
        i := i + 1;
      }
      HistorySnoc(c, first, history, Replenished);
      history := history + [Replenished];
    }

    /** twolsfqd_update_spareness: replenish while less than nine tenths of the threshold is outstanding. */
    method UpdateSpareness()
      requires Valid()
      modifies this`credits, this`history
      ensures Valid()
      ensures if 9 * threshold > 10 * outstanding then history == old(history) + [Replenished]
              else history == old(history) && credits == old(credits)
      ensures 9 * threshold > 10 * outstanding ==> forall a :: 0 <= a < |credits| ==> credits[a] == Quota(c, a)
    {
      if 9 * threshold > 10 * outstanding {
        Replenish();
      }
    }

    /** Take the first request of application a and charge for it. */
    method Admit(a: nat, ghost turn: nat) returns (next: Item)
      requires Valid() && a < |sarc| && Admissible(a)
      modifies this`sarc, this`credits, this`history
      ensures Valid() && next == old(sarc[a][0]) && sarc == old(sarc[a := sarc[a][1..]])
      ensures credits == old(credits[a := credits[a] - sarc[a][0].size])
      ensures history == old(history) + [Admitted(a, next.size)]
      ensures forall b: nat :: old(OneWaiting(b)) ==> NoneWaiting() && credits == old(Paying(b))
      ensures Rank() == old(Rank()) - 2 && All() + multiset{next.id} == old(All())
      ensures Upper(sarc, credits, if a + 1 == |sarc| then 0 else a + 1)
              == AfterAdmitting(Upper(old(sarc), old(credits), turn), a)
    {
      hide Arrived, Due, Queue, Left, NeverOverdrawn, Restrained, IdsIn, IdsOf, Count, Counted, Ordered;
      next := sarc[a][0];
      var rest := sarc[a][1..];
      ghost var x := Admitted(a, next.size);
      CountUpdate(sarc, a, rest);
      IdsHead(sarc[a]);
      IdsUpdate(sarc, a, rest, multiset{next.id});
      Assoc(IdsIn(sarc[a := rest]), multiset{next.id}, IdsOf(edf));
      Assoc(IdsIn(sarc[a := rest]) + IdsOf(edf), multiset{next.id}, IdsOf(out));
      HistorySnoc(c, first, history, x);
      sarc := sarc[a := rest];
      credits := credits[a := credits[a] - next.size];
      history := history + [x];
    }

    /** twolsfqd_dequeue_all; order is who was admitted, while nothing goes out. */
    method DequeueAll() returns (ghost order: seq<nat>)
      requires Valid()
      modifies this`sarc, this`credits, this`queueIndex, this`edf, this`edfLength, this`outstanding
      modifies this`maxOutstanding, this`arrival, this`arrivalDeadline, this`clock, this`out, this`history
      ensures Valid() && Idle() && All() == old(All()) && Rank() <= old(Rank())
      ensures old(Full()) ==> Full()
      ensures clock >= old(clock) && |sarc| == old(|sarc|) && old(history) <= history && old(out) <= out
      ensures old(maxOutstanding) <= maxOutstanding <= Max(old(maxOutstanding), outstanding)
      ensures outstanding >= old(outstanding)
      ensures outstanding == old(outstanding) ==>
                && InTurn(old(Up()), order) && Up() == AfterAll(old(Up()), order)
                && history == old(history) + Admissions(old(Up()), order)
      ensures old(Idle()) ==>
                unchanged(this`sarc, this`credits, this`edf, this`outstanding, this`history, this`out, this`queueIndex)
      ensures forall a: nat :: old(OneWaiting(a) && RoomBelow()) ==>
                && NoneWaiting() && edf == [] && outstanding == old(outstanding) + 1
                && (9 * threshold <= 10 * outstanding ==> credits == old(Paying(a)))
      decreases Rank(), 3
    {
      hide Paid, Restrained, Ordered, Counted, All, Rank, Full, Idle, OneWaiting, Paying, RoomBelow;
      hide InTurn, AfterAll, AfterAdmitting, Admissions, FirstToPay;
      order := [];
      NobodyYet(Up());
      var citem, a := Dequeue();
      if citem != None && outstanding == old(outstanding) {
        InTurnSnoc(old(Up()), order, a);
        order := order + [a];
      }
      while citem != None
        invariant Valid() && All() == old(All()) && Rank() <= old(Rank()) && (citem == None ==> Idle())
        invariant old(Full()) ==> Full()
        invariant clock >= old(clock) && |sarc| == old(|sarc|) && old(history) <= history && old(out) <= out
        invariant old(maxOutstanding) <= maxOutstanding <= Max(old(maxOutstanding), outstanding)
        invariant outstanding >= old(outstanding)
        invariant outstanding == old(outstanding) ==>
                    && InTurn(old(Up()), order) && Up() == AfterAll(old(Up()), order)
                    && history == old(history) + Admissions(old(Up()), order)
        invariant old(Idle()) ==> citem == None
        invariant old(Idle()) ==>
                    unchanged(this`sarc, this`credits, this`edf, this`outstanding, this`history, this`out, this`queueIndex)
        invariant forall a: nat :: old(OneWaiting(a) && RoomBelow()) ==>
                    && NoneWaiting() && edf == [] && outstanding == old(outstanding) + 1
                    && (9 * threshold <= 10 * outstanding ==> credits == old(Paying(a)))
        decreases Rank() + (if citem == None then 0 else 1)
      {
        NobodyIdle();
        citem, a := Dequeue();
        if citem != None && outstanding == old(outstanding) {
          InTurnSnoc(old(Up()), order, a);
          order := order + [a];
        }
      }
    }

    lemma LoneWaits(was: seq<seq<Item>>, app: nat, x: Item)
      requires Shaped() && |was| == |sarc| && app < |was| && sarc == was[app := was[app] + [x]]
      requires credits[app] >= x.size
      ensures AllEmpty(was) ==> OneWaiting(app) && Paying(app) == credits[app := credits[app] - x.size]
    {
    }

    lemma NobodyIdle()
      requires Shaped()
      ensures NoneWaiting() ==> Idle()
    {
    }

    /** twolsfqd_dequeue: try every application once, in turn, and admit one
        request, that of application a. */
    method Dequeue() returns (r: Option<Item>, ghost a: nat)
      requires Valid()
      modifies this`sarc, this`credits, this`queueIndex, this`edf, this`edfLength, this`outstanding
      modifies this`maxOutstanding, this`arrival, this`arrivalDeadline, this`clock, this`out, this`history
      ensures Valid() && All() == old(All()) && clock >= old(clock) && |sarc| == old(|sarc|)
      ensures old(history) <= history && old(out) <= out && outstanding >= old(outstanding)
      ensures old(maxOutstanding) <= maxOutstanding <= Max(old(maxOutstanding), outstanding)
      ensures r == None <==> old(Idle())
      ensures r == None ==> Idle() && (old(Full()) ==> Full())
      ensures r == None ==>
                unchanged(this`sarc, this`credits, this`edf, this`outstanding, this`history, this`out, this`queueIndex)
      ensures r != None ==>
                && FirstToPay(old(Up()), a) && r == Some(old(Up()).lists[a][0])
                && old(history) + [Admitted(a, r.value.size)] <= history
      ensures r != None && outstanding == old(outstanding) ==>
                && Up() == AfterAdmitting(old(Up()), a) && history == old(history) + [Admitted(a, r.value.size)]
      ensures forall a: nat :: old(OneWaiting(a) && RoomBelow()) ==>
                && NoneWaiting() && edf == [] && outstanding == old(outstanding) + 1
                && (9 * threshold <= 10 * outstanding ==> credits == old(Paying(a)))
      ensures r != None ==> Full() && Rank() < old(Rank())
      decreases Rank(), 2
    {
      hide Paid, Restrained, Ordered, Counted, All, Rank, Full, OneWaiting, Paying, AllEmpty, CannotPay;
      hide FirstToPay, CanPay, AfterAdmitting, OneWaiting;
      ghost var turn := queueIndex;
      var found := NextAdmissible();
      assert forall a: nat :: old(OneWaiting(a)) ==> OneWaiting(a) && Paying(a) == old(Paying(a));
      if !found {
        return None, 0;
      }
      PaysSomething(queueIndex);
      a := queueIndex;
      var next := AdmitNext(turn);
      r := Some(next);
    }

    /** The rest of twolsfqd_dequeue: hand the request over and move the turn on. */
    method AdmitNext(ghost turn: nat) returns (next: Item)
      requires Valid() && Admissible(queueIndex)
      modifies this`sarc, this`credits, this`queueIndex, this`edf, this`edfLength, this`outstanding
      modifies this`maxOutstanding, this`arrival, this`arrivalDeadline, this`clock, this`out, this`history
      ensures Valid() && All() == old(All()) && clock >= old(clock) && |sarc| == old(|sarc|)
      ensures old(out) <= out && outstanding >= old(outstanding) && Full() && Rank() < old(Rank())
      ensures old(maxOutstanding) <= maxOutstanding <= Max(old(maxOutstanding), outstanding)
      ensures next == old(sarc[queueIndex][0])
      ensures old(history) + [Admitted(old(queueIndex), next.size)] <= history
      ensures outstanding == old(outstanding) ==>
                && Up() == AfterAdmitting(Upper(old(sarc), old(credits), turn), old(queueIndex))
                && history == old(history) + [Admitted(old(queueIndex), next.size)]
      ensures forall a: nat :: old(OneWaiting(a) && RoomBelow()) ==>
                && NoneWaiting() && edf == [] && outstanding == old(outstanding) + 1
                && (9 * threshold <= 10 * outstanding ==> credits == old(Paying(a)))
      decreases Rank(), 1
    {
      hide Paid, Restrained, Ordered, Counted, All, Rank, Full, OneWaiting, Paying, AllEmpty, AfterAdmitting;
      next := Admit(queueIndex, turn);
      EdfEnqueue(next);
      NextTurn(queueIndex, |sarc|);
      queueIndex := (queueIndex + 1) % |sarc|;
    }

    /** The loop of twolsfqd_dequeue up to the first application that can pay. */
    method NextAdmissible() returns (found: bool)
      requires Shaped() && queueIndex < |sarc|
      modifies this`queueIndex
      ensures queueIndex < |sarc| && (found ==> Admissible(queueIndex) && FirstToPay(old(Up()), queueIndex))
      ensures !found ==> Idle() && queueIndex == old(queueIndex) && forall a: nat :: !OneWaiting(a)
    {
      var k := 0;
      var n := |sarc|;
      ghost var q0 := queueIndex;
      while k < n
        invariant k <= n == |sarc| && queueIndex == Turn(q0, k, n)
        invariant forall j :: 0 <= j < k ==> !Admissible(Turn(q0, j, n))
      {
        if Admissible(queueIndex) {
          FirstReached(q0, k, n);
          return true;
        }
        NextTurn(queueIndex, n);
        queueIndex := (queueIndex + 1) % n;
        k := k + 1;
      }
      AllVisited(q0, n);
      NextTurn(q0, n);
      found := false;
    }

    /** Whoever is nearer than the application k turns on has been tried. */
    lemma FirstReached(q0: nat, k: nat, n: nat)
      requires Shaped() && n == |sarc| && q0 < n && k < n && Admissible(Turn(q0, k, n))
      requires forall j :: 0 <= j < k ==> !Admissible(Turn(q0, j, n))
      ensures FirstToPay(Upper(sarc, credits, q0), Turn(q0, k, n))
    {
      var u := Upper(sarc, credits, q0);
      forall b | 0 <= b < n && Distance(q0, b, n) < Distance(q0, Turn(q0, k, n), n) ensures !CanPay(u, b) {
        var j := Distance(q0, b, n);
        assert Turn(q0, j, n) == b && j < k;
      }
    }

    lemma PaysSomething(a: nat)
      requires Shaped() && a < |sarc| && Admissible(a)
      ensures !Idle()
    {
    }

    /** The application k turns after q. */
    static function Turn(q: nat, k: nat, n: nat): (r: nat)
      requires q < n && k <= n
      ensures r < n
    {
      if q + k < n then q + k else q + k - n
    }

    static lemma NextTurn(q: nat, n: nat)
      requires q < n
      ensures (q + 1) % n == if q + 1 == n then 0 else q + 1
    {
    }

    lemma AllVisited(q0: nat, n: nat)
      requires Shaped() && n == |sarc| && q0 < n && forall j :: 0 <= j < n ==> !Admissible(Turn(q0, j, n))
      ensures Idle() && forall a: nat :: !OneWaiting(a)
    {
      forall a | 0 <= a < n ensures !Admissible(a) {
        var j := if a >= q0 then a - q0 else a + n - q0;
        assert Turn(q0, j, n) == a;
      }
      assert forall a :: 0 <= a < n && sarc[a] != [] ==> !Admissible(a);
    }

    // ---------- the lower level ----------

    /** The first half of twolsfqd_edf_enqueue: give the request its deadline and queue it. */
    method Put(item: Item)
      requires Valid()
      modifies this`edf, this`edfLength, this`arrival, this`arrivalDeadline, this`clock
      ensures Valid() && clock >= old(clock)
      ensures edf == old(edf) + [item.(deadline := clock + c.deadline, timewindow := windowId,
                                       inWindow := clock + c.deadline < windowEnd)]
      ensures Rank() == old(Rank()) + 1 && All() == old(All()) + multiset{item.id}
    {
      hide Paid, Restrained, Arrived, Due, Queue, IdsIn, IdsOf, Count, ByDeadline, MergeSort.Sort;
      ghost var latest := clock + c.deadline;
      var now := Now();
      arrival := arrival + 1;
      var x := item.(deadline := now + c.deadline, timewindow := windowId, inWindow := now + c.deadline < windowEnd);
      QueueSnoc(edf, latest, x, windowId);
      edf := edf + [x];
      edfLength := edfLength + 1;
      if outstanding != 0 {
        edf := MergeSort.Sort(ByDeadline(), edf);
      }
      if x.deadline < windowEnd {
        arrivalDeadline := arrivalDeadline + 1;
      }
    }

    /** twolsfqd_edf_enqueue */
    method EdfEnqueue(item: Item)
      requires Valid()
      modifies this`sarc, this`credits, this`queueIndex, this`edf, this`edfLength, this`outstanding
      modifies this`maxOutstanding, this`arrival, this`arrivalDeadline, this`clock, this`out, this`history
      ensures Valid() && Full() && All() == old(All()) + multiset{item.id} && Rank() <= old(Rank()) + 1
      ensures clock >= old(clock) && |sarc| == old(|sarc|) && old(history) <= history && old(out) <= out
      ensures maxOutstanding == Max(old(maxOutstanding), outstanding) && outstanding >= old(outstanding)
      ensures outstanding == old(outstanding) ==> unchanged(this`sarc, this`credits, this`history, this`out, this`queueIndex)
      ensures old(NoneWaiting() && RoomBelow()) ==>
                && sarc == old(sarc) && edf == [] && outstanding == old(outstanding) + 1
                && (9 * threshold <= 10 * outstanding ==> credits == old(credits))
      decreases Rank() + 1, 1
    {
      hide Paid, Restrained, Ordered, Counted, All, Rank, Full;
      Put(item);
      ghost var n := EdfDequeueAll();
      if outstanding > maxOutstanding {
        maxOutstanding := outstanding;
      }
    }

    /** The counting loop of twolsfqd_edf_dequeue_all. */
    method CountReady(now: int) returns (n: nat)
      requires Valid()
      ensures n <= |edf|
      ensures forall i :: 0 <= i < n ==> edf[i].deadline <= now || outstanding + i < threshold
      ensures n < |edf| ==> edf[n].deadline > now && outstanding + n >= threshold
    {
      n := 0;
      while n < |edf|
        invariant n <= |edf|
        invariant forall i :: 0 <= i < n ==> edf[i].deadline <= now || outstanding + i < threshold
      {
        if edf[n].deadline <= now {
          n := n + 1;
        } else if outstanding + n < threshold {
          n := n + 1;
        } else {
          break;
        }
      }
    }

    /** twolsfqd_edf_dequeue_all: send out n requests; if there were any, replenish
        when there is room to spare, and admit all that can be. */
    method EdfDequeueAll() returns (ghost n: nat)
      requires Valid()
      modifies this`sarc, this`credits, this`queueIndex, this`edf, this`edfLength, this`outstanding
      modifies this`maxOutstanding, this`arrival, this`arrivalDeadline, this`clock, this`out, this`history
      ensures Valid() && Full() && All() == old(All()) && Rank() <= old(Rank())
      ensures clock >= old(clock) && |sarc| == old(|sarc|) && old(history) <= history
      ensures n <= |old(edf)| && old(out) + old(edf)[..n] <= out && outstanding >= old(outstanding) + n
      ensures old(maxOutstanding) <= maxOutstanding <= Max(old(maxOutstanding), outstanding)
      ensures n < |old(edf)| ==> old(outstanding) + n >= threshold
      ensures n == 0 ==>
                unchanged(this`sarc, this`credits, this`edf, this`outstanding, this`history, this`out, this`queueIndex)
      ensures old(NoneWaiting()) ==>
                && sarc == old(sarc) && edf == old(edf)[n..] && outstanding == old(outstanding) + n
                && (9 * threshold <= 10 * outstanding ==> credits == old(credits))
      ensures n > 0 ==> Idle() && |history| >= |old(history)| + n && history[|old(history)|].SentOut?
      ensures n > 0 && 9 * threshold > 10 * (old(outstanding) + n) ==>
                |history| > |old(history)| + n && history[|old(history)| + n] == Replenished
      decreases Rank(), 0
    {
      hide Paid, Restrained, Counted, All, Rank, Queue, AllEmpty, CannotPay, OneWaiting, Paying;
      ghost var before := clock;
      var now := Now();
      Waited(before);
      var itemCount := CountReady(now);
      n := itemCount;
      SendOut(now, itemCount);
      assert old(out) + old(edf)[..0] == old(out);
      if itemCount > 0 {
        Refill();
      }
    }

    /** Replenish when there is room to spare, and admit all that can be. */
    method Refill()
      requires Valid()
      modifies this`sarc, this`credits, this`queueIndex, this`edf, this`edfLength, this`outstanding
      modifies this`maxOutstanding, this`arrival, this`arrivalDeadline, this`clock, this`out, this`history
      ensures Valid() && Idle() && All() == old(All()) && Rank() <= old(Rank())
      ensures old(Full()) ==> Full()
      ensures clock >= old(clock) && |sarc| == old(|sarc|) && old(history) <= history && old(out) <= out
      ensures old(maxOutstanding) <= maxOutstanding <= Max(old(maxOutstanding), outstanding)
      ensures outstanding >= old(outstanding)
      ensures 9 * threshold > 10 * old(outstanding) ==>
                |history| > |old(history)| && history[|old(history)|] == Replenished
      ensures old(NoneWaiting()) ==>
                && sarc == old(sarc) && edf == old(edf) && outstanding == old(outstanding)
                && (9 * threshold <= 10 * outstanding ==> credits == old(credits))
      decreases Rank(), 4
    {
      hide Paid, Restrained, Counted, Ordered, All, Rank, AllEmpty, CannotPay, OneWaiting, Paying;
      hide InTurn, AfterAll, Admissions, Full;
      UpdateSpareness();
      NobodyIdle();
      ghost var order := DequeueAll();
    }

    /** The loop that takes the counted requests out; none of its pops finds the queue empty. */
    method SendOut(now: int, itemCount: nat)
      requires Valid() && now <= clock && itemCount <= |edf|
      requires forall i :: 0 <= i < itemCount ==> edf[i].deadline <= now || outstanding + i < threshold
      modifies this`edf, this`edfLength, this`outstanding, this`arrival, this`arrivalDeadline, this`out, this`history
      ensures Valid() && edf == old(edf)[itemCount..] && outstanding == old(outstanding) + itemCount
      ensures All() == old(All()) && Rank() == old(Rank()) - itemCount
      ensures old(history) <= history && |history| == |old(history)| + itemCount
      ensures (itemCount == 0 ==> history == old(history)) && out == old(out) + old(edf)[..itemCount]
      ensures itemCount > 0 ==> history[|old(history)|].SentOut?
    {
      hide Paid, Restrained, Ordered, Counted, All;
      var i := 0;
      while i < itemCount
        invariant i <= itemCount && Valid() && All() == old(All())
        invariant old(history) <= history && |history| == |old(history)| + i
        invariant edf == old(edf)[i..] && outstanding == old(outstanding) + i && out == old(out) + old(edf)[..i]
        invariant i > 0 ==> history[|old(history)|].SentOut?
      {
        var item := EdfDequeue(now);
        assert item != None;
        i := i + 1;
      }
    }

    /** twolsfqd_edf_dequeue: nothing from an empty queue. scanned is when the
        queue was looked at. */
    method EdfDequeue(ghost scanned: int) returns (r: Option<Item>)
      requires Valid() && scanned <= clock
      requires edf != [] ==> edf[0].deadline <= scanned || outstanding < threshold
      modifies this`edf, this`edfLength, this`outstanding, this`arrival, this`arrivalDeadline, this`out, this`history
      ensures Valid() && All() == old(All())
      ensures old(edf) == [] ==>
                r == None && edf == [] && outstanding == old(outstanding) && history == old(history) && out == old(out)
      ensures old(edf) != [] ==>
        && r == Some(old(edf)[0]) && edf == old(edf)[1..] && outstanding == old(outstanding) + 1
        && out == old(out) + [old(edf)[0]]
        && history == old(history) + [SentOut(old(edf)[0].deadline <= scanned, old(outstanding), threshold)]
    {
      hide Ordered, Counted, All, Left, NeverOverdrawn, Restrained;
      if edf == [] {
        return None;
      }
      var item := edf[0];
      HistorySnoc(c, first, history, SentOut(item.deadline <= scanned, outstanding, threshold));
      history := history + [SentOut(item.deadline <= scanned, outstanding, threshold)];
      Unqueue(item);
      r := Some(item);
    }

    /** Take the head off the queue and count it as outstanding. */
    method Unqueue(item: Item)
      requires edf != [] && item == edf[0] && Ordered() && Counted()
      modifies this`edf, this`edfLength, this`outstanding, this`arrival, this`arrivalDeadline, this`out
      ensures Ordered() && Counted() && All() == old(All())
      ensures edf == old(edf)[1..] && outstanding == old(outstanding) + 1 && out == old(out) + [item]
    {
      hide Arrived, Due, IdsOf, IdsIn, Queue;
      QueueTail(edf, clock + c.deadline, windowId);
      ArrivedHead(edf, windowId);
      IdsHead(edf);
      IdsSnoc(out, item);
      if item.timewindow == windowId {
        arrival := arrival - 1;
        if item.inWindow {
          arrivalDeadline := arrivalDeadline - 1;
        }
      }
      edf := edf[1..];
      out := out + [item];
      outstanding := outstanding + 1;
      edfLength := edfLength - 1;
    }

    // ---------- what the proxy and the two threads call ----------

    method Append(app: nat, item: Item)
      requires Valid() && app < |sarc|
      modifies this`sarc
      ensures Valid() && All() == old(All()) + multiset{item.id} && sarc == old(sarc[app := sarc[app] + [item]])
    {
      hide IdsIn, IdsOf;
      IdsGrow(sarc, app, item);
      sarc := sarc[app := sarc[app] + [item]];
    }

    /** twolsfqd_enqueue, but for the lock it leaves on the request. */
    method Enqueue(app: nat, length: nat, id: nat)
      requires Valid() && app < |sarc|
      modifies this`sarc, this`credits, this`queueIndex, this`edf, this`edfLength, this`outstanding
      modifies this`maxOutstanding, this`arrival, this`arrivalDeadline, this`clock, this`out, this`history
      ensures Valid() && All() == old(All()) + multiset{id} && old(history) <= history && |sarc| == old(|sarc|)
      ensures old(Full()) ==> Full()
      ensures Idle() <==> old(IdleAfter(app, length))
      ensures old(credits[app]) < length && 9 * threshold > 10 * old(outstanding) ==>
                && |history| > |old(history)| && history[|old(history)|] == Replenished
                && (Quota(c, app) < length ==>
                      && history == old(history) + [Replenished] && edf == old(edf) && outstanding == old(outstanding)
                      && sarc == old(sarc[app := sarc[app] + [Item(id, app, length, 0, 0, false)]])
                      && credits == Quotas(c))
      ensures old(credits[app]) < length && 9 * threshold <= 10 * old(outstanding) ==>
                && sarc == old(sarc[app := sarc[app] + [Item(id, app, length, 0, 0, false)]])
                && unchanged(this`credits, this`edf, this`outstanding, this`history, this`out)
      ensures old(NoneWaiting() && RoomBelow() && credits[app] >= length) ==>
                && NoneWaiting() && edf == [] && outstanding == old(outstanding) + 1
                && (9 * threshold <= 10 * outstanding ==> credits == old(credits[app := credits[app] - length]))
    {
      hide Paid, Restrained, Ordered, Counted, Full, All, CannotPay, AllEmpty, OneWaiting, Paying;
      ghost var x := Item(id, app, length, 0, 0, false);
      Append(app, Item(id, app, length, 0, 0, false));
      if credits[app] >= length {
        LoneWaits(old(sarc), app, x);
        ghost var order := DequeueAll();
      } else {
        WaitingPaysNothing(old(sarc), credits, app, x);
        UpdateSpareness();
        if credits[app] >= length {
          ghost var order := DequeueAll();
        } else if 9 * threshold > 10 * outstanding {
          assert credits == Quotas(c);
          WaitingPaysNothing(old(sarc), credits, app, x);
        }
      }
    }

    /** twolsfqd_edf_complete, once all of the k-th outstanding request has come. */
    method Complete(k: nat, item: Item)
      requires Valid() && k < |out| && out[k] == item
      modifies this`sarc, this`credits, this`queueIndex, this`edf, this`edfLength, this`outstanding
      modifies this`maxOutstanding, this`arrival, this`arrivalDeadline, this`clock, this`out, this`history
      modifies this`completed, this`doneAll, this`doneDue
      ensures Valid() && Full() && All() + multiset{item.id} == old(All()) && old(history) <= history
      ensures completed == old(completed) + 1
      ensures doneAll == old(doneAll) + if item.timewindow == windowId then 1 else 0
      ensures doneDue == old(doneDue) + if item.timewindow == windowId && item.inWindow then 1 else 0
      ensures old(Idle()) ==> Idle()
      ensures old(edf) == [] ==>
                && sarc == old(sarc) && credits == old(credits) && edf == [] && outstanding == old(outstanding) - 1
      ensures old(out[..k] + out[k + 1..]) <= out
    {
      hide Paid, Restrained, Ordered, Counted, All, Full, AllEmpty, CannotPay;
      CountCompletion(k, item);
      ghost var n := EdfDequeueAll();
    }

    method CountCompletion(k: nat, item: Item)
      requires Valid() && k < |out| && out[k] == item
      modifies this`outstanding, this`arrival, this`arrivalDeadline, this`out
      modifies this`completed, this`doneAll, this`doneDue
      ensures Valid() && All() + multiset{item.id} == old(All()) && outstanding == old(outstanding) - 1
      ensures completed == old(completed) + 1 && out == old(out[..k] + out[k + 1..])
      ensures doneAll == old(doneAll) + if item.timewindow == windowId then 1 else 0
      ensures doneDue == old(doneDue) + if item.timewindow == windowId && item.inWindow then 1 else 0
    {
      hide Paid, Restrained, Ordered, IdsIn, IdsOf, Arrived, Due;
      if item.timewindow == windowId {
        arrival := arrival + 1;
        doneAll := doneAll + 1;
        if item.inWindow {
          arrivalDeadline := arrivalDeadline + 1;
          doneDue := doneDue + 1;
        }
      }
      completed := completed + 1;
      IdsCut(out, k);
      out := out[..k] + out[k + 1..];
      outstanding := outstanding - 1;
    }

    /** twolsfqd_time_replenish, when the replenish time is up. */
    method ReplenishTimeout()
      requires Valid()
      modifies this`sarc, this`credits, this`queueIndex, this`edf, this`edfLength, this`outstanding
      modifies this`maxOutstanding, this`arrival, this`arrivalDeadline, this`clock, this`out, this`history
      ensures Valid() && Idle() && All() == old(All()) && old(history) + [Replenished] <= history
      ensures old(Full()) ==> Full()
    {
      hide Paid, Restrained, Ordered, Counted, Full, IdsIn, Idle;
      Replenish();
      ghost var order := DequeueAll();
    }

    /** The window thread's count of queued requests due in the next window; it
        may stop at the first one due later. */
    method CountDue() returns (itemCount: nat)
      requires Valid()
      ensures itemCount == Between(edf, windowEnd, nextEnd)
    {
      itemCount := 0;
      var i := 0;
      while i < |edf|
        invariant i <= |edf| && itemCount == Between(edf[..i], windowEnd, nextEnd)
      {
        assert edf[..i + 1][..i] == edf[..i];
        if edf[i].deadline < windowEnd {
        } else if edf[i].deadline < nextEnd {
          itemCount := itemCount + 1;
        } else {
          NoneLater(edf, i, windowEnd, nextEnd);
          return;
        }
        i := i + 1;
      }
      assert edf[..i] == edf;
    }

    ghost predicate InRange()
      reads this`threshold, thresholds
    {
      1 <= threshold <= c.infinite && forall i :: 0 <= i < thresholds.Length ==> Avatar.Positive(thresholds[i])
    }

    /** What the window thread knows at the end of a window. */
    ghost function Observed(): Avatar.Window
      reads this
    {
      Avatar.Window(threshold, maxOutstanding, completed,
                    outstanding + Between(edf, windowEnd, nextEnd) + arrivalDeadline,
                    outstanding + |edf| + arrival, c.infinite)
    }

    /** The lower estimate of what comes is never above the upper one. */
    method Observe() returns (w: Avatar.Window)
      requires Valid()
      ensures w == Observed() && w.lower <= w.upper
      ensures w.lower == outstanding + Between(edf, windowEnd, nextEnd) + arrivalDeadline
      ensures w.upper == outstanding + |edf| + arrival
      ensures (w.threshold, w.maxOutstanding, w.completed, w.infinite) ==
              (threshold, maxOutstanding, completed, c.infinite)
    {
      var itemCount := CountDue();
      BetweenAtMost(edf, windowEnd, nextEnd);
      DueAtMostArrived(edf, windowId);
      w := Avatar.Window(threshold, maxOutstanding, completed, outstanding + itemCount + arrivalDeadline,
                         outstanding + edfLength + arrival, c.infinite);
    }

    /** One turn of twolsfqd_time_window, given what each class waited and its
        percentile. Where the new threshold is a NaN, C leaves its value open. */
    method TimeWindow(cs: seq<Avatar.Class>) returns (r: Avatar.Outcome)
      requires Valid() && Sane(c) && |cs| == thresholds.Length
      modifies this, thresholds
      ensures r == Avatar.Analysis(old(Observed()), cs, old(thresholds[..])) && r != Avatar.Exit(-4)
      ensures r.Done? ==> Valid() && Full() && All() == old(All()) && old(history) <= history
      ensures r.Done? && old(Idle()) ==> Idle()
      ensures r.Done? ==> windowId == old(windowId) + 1 && thresholds[..] == r.thresholds
      ensures r.Done? ==> completed == doneAll == doneDue == 0 && nextEnd == windowEnd + c.window
      ensures r.Done? && r.next.Num? ==> threshold == Avatar.Ceil(r.next.r)
      ensures r.Done? && r.overload && 9 * threshold > 10 * old(outstanding) ==>
                |history| > |old(history)| && history[|old(history)|] == Replenished
      ensures r.Done? && !r.overload && |history| > |old(history)| ==> history[|old(history)|].SentOut?
      ensures old(InRange()) && (forall x :: x in cs ==> x.deadline != x.waiting || x.percentile != 0) ==>
                r.Done? && InRange()
    {
      hide Avatar.Analysis, Avatar.Ceil, Paid, Restrained, Ordered, Counted, All, Full, CannotPay;
      var w := Observe();
      Foreseen(w, cs);
      r := Avatar.Analyse(w, cs, thresholds);
      if r.Done? {
        EndWindow(r.next, r.overload);
      }
    }

    /** What the analysis of a window can come to. */
    lemma Foreseen(w: Avatar.Window, cs: seq<Avatar.Class>)
      requires w.lower <= w.upper && w.infinite == c.infinite && Sane(c) && |cs| == thresholds.Length
      ensures Avatar.Analysis(w, cs, thresholds[..]) != Avatar.Exit(-4)
      ensures InRange() && (forall x :: x in cs ==> x.deadline != x.waiting || x.percentile != 0) ==>
                var r := Avatar.Analysis(w, cs, thresholds[..]);
                && r.Done? && |r.thresholds| == thresholds.Length
                && r.next.Num? && 1 <= Avatar.Ceil(r.next.r) <= c.infinite
                && forall i :: 0 <= i < thresholds.Length ==> Avatar.Positive(r.thresholds[i])
    {
      hide Avatar.Analysis, Avatar.Ceil;
      Avatar.ExitsExactlyWhen(w, cs, thresholds[..]);
      if (forall i :: 0 <= i < thresholds.Length ==> Avatar.Positive(thresholds[i]))
         && forall x :: x in cs ==> x.deadline != x.waiting || x.percentile != 0 {
        Avatar.ThresholdInRange(w, cs, thresholds[..]);
      }
    }

    /** The rest of the turn once there is a new threshold. */
    method EndWindow(next: Avatar.Float, overload: bool)
      requires Valid()
      modifies this
      ensures Valid() && Full() && All() == old(All()) && old(history) <= history
      ensures windowId == old(windowId) + 1 && (next.Num? ==> threshold == Avatar.Ceil(next.r))
      ensures completed == doneAll == doneDue == 0
      ensures windowEnd >= old(clock) + c.window && nextEnd == windowEnd + c.window
      ensures overload && 9 * threshold > 10 * old(outstanding) ==>
                |history| > |old(history)| && history[|old(history)|] == Replenished
      ensures !overload && |history| > |old(history)| ==> history[|old(history)|].SentOut?
      ensures old(Idle()) ==> Idle()
    {
      hide Avatar.Ceil, Paid, Restrained, Ordered, Counted, All, Full, CannotPay;
      SetThreshold(next);
      NewWindow();
      BeginWindow(overload);
    }

    /** The new threshold, rounded up. */
    method SetThreshold(next: Avatar.Float)
      requires Valid()
      modifies this`threshold
      ensures Valid() && (next.Num? ==> threshold == Avatar.Ceil(next.r))
    {
      if next.Num? {
        threshold := Avatar.Ceil(next.r);
      } else {
        var any: int := *;
        threshold := any;
      }
    }

    /** The end of the turn: let the queues go on under the new threshold. */
    method BeginWindow(overload: bool)
      requires Valid()
      modifies this`sarc, this`credits, this`queueIndex, this`edf, this`edfLength, this`outstanding
      modifies this`maxOutstanding, this`arrival, this`arrivalDeadline, this`clock, this`out, this`history
      ensures Valid() && Full() && All() == old(All()) && old(history) <= history
      ensures overload && 9 * threshold > 10 * old(outstanding) ==>
                |history| > |old(history)| && history[|old(history)|] == Replenished
      ensures !overload && |history| > |old(history)| ==> history[|old(history)|].SentOut?
      ensures old(Idle()) ==> Idle()
    {
      hide Paid, Restrained, Ordered, Counted, All, Full, AllEmpty, CannotPay, OneWaiting, Paying;
      if overload {
        Refill();
      }
      ghost var n := EdfDequeueAll();
    }

    /** Move the window on and start its counters afresh. */
    method NewWindow()
      requires Valid()
      modifies this`windowId, this`windowEnd, this`nextEnd, this`maxOutstanding, this`completed
      modifies this`arrival, this`arrivalDeadline, this`clock, this`doneAll, this`doneDue
      ensures Valid() && windowId == old(windowId) + 1
      ensures clock >= old(clock) && windowEnd == clock + c.window && nextEnd == windowEnd + c.window
      ensures maxOutstanding == completed == arrival == arrivalDeadline == doneAll == doneDue == 0
    {
      hide Paid, Restrained, Queue, Arrived, Due, Counted, Ordered;
      QueueNow();
      NextQueue(edf, clock + c.deadline, windowId);
      ghost var before := clock;
      windowId := windowId + 1;
      var now := Now();
      windowEnd := now + c.window;
      nextEnd := windowEnd + c.window;
      maxOutstanding, completed, arrival, arrivalDeadline := 0, 0, 0, 0;
      doneAll, doneDue := 0, 0;
      Waited(before);
      NothingCounted();
    }

    constructor (c: Conf, start: int)
      requires Sane(c)
      ensures Valid() && Full() && InRange() && this.c == c && All() == multiset{} && history == []
      ensures thresholds.Length == |c.rates| && threshold == c.infinite / 2 && outstanding == 0
      ensures NoneWaiting() && edf == []
      ensures credits == seq(|c.rates|, i requires 0 <= i < |c.rates| => c.rates[i] * 1048576)
    {
      var n := |c.rates|;
      this.c := c;
      thresholds := new Avatar.Float[n](i => Avatar.Num(1.0));
      first := seq(n, i requires 0 <= i < n => c.rates[i] * 1048576);
      sarc := seq(n, i => []);
      credits := seq(n, i requires 0 <= i < n => c.rates[i] * 1048576);
      queueIndex, edf, edfLength, outstanding, maxOutstanding := 0, [], 0, 0, 0;
      threshold := c.infinite / 2;
      arrival, arrivalDeadline, completed, windowId, windowEnd, nextEnd := 0, 0, 0, 0, 0, 0;
      clock := start;
      out, doneAll, doneDue, history := [], 0, 0, [];
      new;
      NoIds(sarc);
    }
  }

  /** Application 0 of two spends its first credits to the last byte. */
  method SpendCredits(deadline: nat, window: nat, start: int) returns (s: Scheduler)
    ensures fresh(s) && s.Valid() && s.c == Conf([1, 1], 200, deadline, window, 2) && s.threshold == 1
    ensures s.sarc == [[], []] && s.credits == [0, 1048576] && s.edf == [] && s.outstanding == |s.out| == 1
  {
    hide Restrained, Scheduler.Paid, Scheduler.Ordered, Scheduler.All, Scheduler.Full;
    s := new Scheduler(Conf([1, 1], 200, deadline, window, 2), start);
    assert s.credits == [1048576, 1048576];
    s.Enqueue(0, 1048576, 0);
  }

  /** A run after which a request could be admitted and is not: the second
      request of application 0 finds neither credits nor room, the first
      completes; a request of application 1 that no credits cover then replenishes
      those of both, and dispatches nothing. */
  method LeftWaiting(deadline: nat, window: nat, start: int) returns (s: Scheduler)
    ensures fresh(s) && s.Valid() && s.RoomBelow() && !s.Idle()
    ensures s.sarc == [[Item(1, 0, 100, 0, 0, false)], [Item(2, 1, 2000000, 0, 0, false)]]
    ensures s.credits == [209600, 209600]
  {
    hide Restrained, Scheduler.Paid, Scheduler.Ordered, Scheduler.All, Scheduler.Full, Scheduler.Counted;
    s := SpendCredits(deadline, window, start);
    s.Enqueue(0, 100, 1);
    ghost var x, y := Item(1, 0, 100, 0, 0, false), Item(2, 1, 2000000, 0, 0, false);
    assert [] + [x] == [x] && s.sarc == [[x], []];
    s.Complete(0, s.out[0]);
    assert Quotas(s.c) == [209600, 209600];
    s.Enqueue(1, 2000000, 2);
    assert [] + [y] == [y] && s.sarc == [[x], [y]];
  }
}
