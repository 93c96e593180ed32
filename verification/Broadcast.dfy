/** How the distributed schedulers tell each other what they have served: a
    coordinator, a worker and a receiver thread in each of several proxies. What
    each thread does under a mutex, or with one message, is one step. */
module Broadcast {
  import opened Basics

  /** One amount for each application. */
  type Amounts = seq<nat>

  /** The receive thread waits, or has applied the first done amounts of a message. */
  datatype Receiver = Waiting | Applying(from: nat, msg: Amounts, done: nat)

  /** The state of one proxy. buffer holds for each peer the message not yet sent,
      inbox what is on its way from each peer. The last three fields only keep
      account: what was ever added, applied from each peer, and used up. */
  datatype Proxy = Proxy(
    pending: Amounts, counter: nat, ready: bool, begin: bool, complete: bool,
    buffer: seq<Option<Amounts>>, inbox: seq<seq<Amounts>>, receiver: Receiver, delay: Amounts,
    added: Amounts, applied: seq<Amounts>, used: Amounts)

  function Zeros(n: nat): (s: Amounts)
    ensures |s| == n && forall i :: 0 <= i < n ==> s[i] == 0
  {
    seq(n, i => 0)
  }

  // ---------- the steps of one proxy ----------

  /** The part of an enqueue under the broadcast mutex; enough says whether to wake the coordinator. */
  function Added(x: Proxy, a: nat, amount: nat, enough: bool): Proxy
    requires a < |x.pending| && a < |x.added|
  {
    x.(pending := x.pending[a := x.pending[a] + amount], counter := x.counter + amount,
       added := x.added[a := x.added[a] + amount], ready := x.ready || enough)
  }

  /** The coordinator, once woken: a copy of what is pending for every peer of me. */
  function Fired(x: Proxy, me: nat): Proxy {
    x.(buffer := seq(|x.buffer|, q => if q == me then None else Some(x.pending)),
       pending := Zeros(|x.pending|), counter := 0, complete := false, ready := false, begin := true)
  }

  /** The worker sends the message for one peer. */
  function Sent(x: Proxy, q: nat): Proxy
    requires q < |x.buffer|
  {
    x.(buffer := x.buffer[q := None])
  }

  /** A message comes to be on its way from p. */
  function Arriving(x: Proxy, p: nat, msg: Amounts): Proxy
    requires p < |x.inbox|
  {
    x.(inbox := x.inbox[p := x.inbox[p] + [msg]])
  }

  /** The worker finds every message sent. */
  function Finished(x: Proxy): Proxy { x.(begin := false, complete := true) }

  /** The receiver has a whole message from p. */
  function Fetched(x: Proxy, p: nat): Proxy
    requires p < |x.inbox| && x.inbox[p] != []
  {
    x.(receiver := Applying(p, x.inbox[p][0], 0), inbox := x.inbox[p := x.inbox[p][1..]])
  }

  function Bumped(rows: seq<Amounts>, p: nat, a: nat, v: nat): seq<Amounts>
    requires p < |rows| && a < |rows[p]|
  {
    var row: Amounts := rows[p][a := rows[p][a] + v];
    rows[p := row]
  }

  /** The receiver applies the next amount under the queue mutex. */
  function AppliedNext(x: Proxy): Proxy
    requires x.receiver.Applying?
    requires var r := x.receiver;
      && r.done < |r.msg| && r.done < |x.delay| && r.from < |x.applied| && r.done < |x.applied[r.from]|
  {
    var r := x.receiver;
    var a, v := r.done, r.msg[r.done];
    x.(delay := x.delay[a := x.delay[a] + v],
       applied := Bumped(x.applied, r.from, a, v),
       receiver := if a + 1 == |r.msg| then Waiting else r.(done := a + 1))
  }

  /** The part of an enqueue under the queue mutex that takes the delay of its application. */
  function Used(x: Proxy, a: nat): Proxy
    requires a < |x.delay| && a < |x.used|
  {
    x.(delay := x.delay[a := 0], used := x.used[a := x.used[a] + x.delay[a]])
  }

  // ---------- the proxies together ----------

  datatype Step =
    | Add(p: nat, a: nat, amount: nat, enough: bool)
    | Fire(p: nat)
    | Send(p: nat, q: nat)
    | Finish(p: nat)
    | Fetch(p: nat, from: nat)
    | Apply(p: nat)
    | Use(p: nat, a: nat)

  ghost predicate MsgOk(apps: nat, least: nat, m: Amounts) { |m| == apps && Sum(m) >= least }

  ghost predicate Zero(s: Amounts) { forall i :: 0 <= i < |s| ==> s[i] == 0 }

  /** A proxy by itself: its arrays have their sizes; while a broadcast is not
      complete its worker is at work, and when it is no buffer is unsent; woken
      or sent, there is at least the least amount to tell. It tells itself nothing. */
  ghost predicate Sound(n: nat, apps: nat, least: nat, me: nat, x: Proxy) {
    && apps > 0 && |x.buffer| == |x.inbox| == |x.applied| == n
    && |x.pending| == |x.delay| == |x.added| == |x.used| == apps
    && (forall p :: 0 <= p < n ==> |x.applied[p]| == apps)
    && x.counter == Sum(x.pending) && (x.ready ==> x.counter >= least)
    && x.begin == !x.complete && (x.complete ==> forall q :: 0 <= q < n ==> x.buffer[q] == None)
    && (me < n ==> x.buffer[me] == None && x.inbox[me] == [] && Zero(x.applied[me]))
    && (x.receiver.Applying? ==> x.receiver.from != me)
    && (forall q :: 0 <= q < n && x.buffer[q].Some? ==> MsgOk(apps, least, x.buffer[q].value))
    && (forall p, i :: 0 <= p < n && 0 <= i < |x.inbox[p]| ==> MsgOk(apps, least, x.inbox[p][i]))
    && (x.receiver.Applying? ==>
          x.receiver.from < n && x.receiver.done < apps && MsgOk(apps, least, x.receiver.msg))
  }

  /** The thread that takes step s is where it can take it. */
  ghost predicate Enabled(least: nat, ps: seq<Proxy>, s: Step) {
    && s.p < |ps|
    && var x := ps[s.p];
       match s
       case Add(_, a, amount, enough) => a < |x.pending| && a < |x.added| && (enough ==> x.counter + amount >= least)
       case Fire(_) => x.complete && x.ready
       case Send(p, q) =>
         q < |ps| && q != p && x.begin && q < |x.buffer| && x.buffer[q].Some? && p < |ps[q].inbox|
       case Finish(_) => x.begin && forall q :: 0 <= q < |x.buffer| ==> x.buffer[q] == None
       case Fetch(_, from) => x.receiver.Waiting? && from < |x.inbox| && x.inbox[from] != []
       case Apply(_) =>
         && x.receiver.Applying? && x.receiver.done < |x.receiver.msg| && x.receiver.done < |x.delay|
         && x.receiver.from < |x.applied| && x.receiver.done < |x.applied[x.receiver.from]|
       case Use(_, a) => a < |x.delay| && a < |x.used|
  }

  ghost predicate AllSound(apps: nat, least: nat, ps: seq<Proxy>) {
    forall p :: 0 <= p < |ps| ==> Sound(|ps|, apps, least, p, ps[p])
  }

  ghost function Next(least: nat, ps: seq<Proxy>, s: Step): seq<Proxy>
    requires Enabled(least, ps, s)
  {
    match s
    case Add(p, a, amount, enough) => ps[p := Added(ps[p], a, amount, enough)]
    case Fire(p) => ps[p := Fired(ps[p], p)]
    case Send(p, q) => ps[p := Sent(ps[p], q)][q := Arriving(ps[q], p, ps[p].buffer[q].value)]
    case Finish(p) => ps[p := Finished(ps[p])]
    case Fetch(q, from) => ps[q := Fetched(ps[q], from)]
    case Apply(q) => ps[q := AppliedNext(ps[q])]
    case Use(q, a) => ps[q := Used(ps[q], a)]
  }

  // ---------- loops of the coordinator ----------

  /** The message goes to the buffer of every peer. */
  method FillBuffers(buffer: array<Option<Amounts>>, me: nat, msg: Amounts)
    modifies buffer
    ensures buffer[..] == seq(buffer.Length, q => if q == me then None else Some(msg))
  {
    var i := 0;
    while i < buffer.Length
      invariant i <= buffer.Length
      invariant forall q :: 0 <= q < i ==> buffer[q] == if q == me then None else Some(msg)
    {
      buffer[i] := if i == me then None else Some(msg);
      i := i + 1;
    }
  }

  /** Nothing is pending any more. */
  method ClearQueue(pending: array<nat>)
    modifies pending
    ensures pending[..] == Zeros(pending.Length)
  {
    var i := 0;
    while i < pending.Length
      invariant i <= pending.Length
      invariant forall a :: 0 <= a < i ==> pending[a] == 0
    {
      pending[i] := 0;
      i := i + 1;
    }
  }

  // ---------- conservation ----------

  function At(s: Amounts, a: nat): nat { if a < |s| then s[a] else 0 }

  function InBuffer(b: Option<Amounts>, a: nat): nat { if b.Some? then At(b.value, a) else 0 }

  function InInbox(ms: seq<Amounts>, a: nat): nat {
    if ms == [] then 0 else InInbox(ms[..|ms| - 1], a) + At(ms[|ms| - 1], a)
  }

  function InReceiver(r: Receiver, p: nat, a: nat): nat {
    if r.Applying? && r.from == p && r.done <= a then At(r.msg, a) else 0
  }

  /** What x has sent to q for application a: all it ever added but what is
      still pending or in the buffer for q. */
  function SentTo(x: Proxy, q: nat, a: nat): int {
    At(x.added, a) - At(x.pending, a) - if q < |x.buffer| then InBuffer(x.buffer[q], a) else 0
  }

  /** What has come from p for application a: on its way to x, in x's hands, or applied. */
  function ComeFrom(x: Proxy, p: nat, a: nat): int {
    (if p < |x.inbox| then InInbox(x.inbox[p], a) else 0) + InReceiver(x.receiver, p, a)
    + if p < |x.applied| then At(x.applied[p], a) else 0
  }

  /** What was applied at a proxy for a, from all its peers. */
  function Column(rows: seq<Amounts>, a: nat): nat {
    if rows == [] then 0 else Column(rows[..|rows| - 1], a) + At(rows[|rows| - 1], a)
  }

  /** What was applied is still due as delay, or has been used up. */
  ghost predicate Spent(x: Proxy, a: nat) {
    Column(x.applied, a) == At(x.delay, a) + At(x.used, a)
  }

  lemma {:induction false} InboxHead(ms: seq<Amounts>, a: nat)
    requires ms != []
    ensures InInbox(ms, a) == At(ms[0], a) + InInbox(ms[1..], a)
  {
    var n := |ms| - 1;
    if n > 0 {
      InboxHead(ms[..n], a);
      assert ms[..n][1..] == ms[1..][..n - 1];
    }
  }

  lemma {:induction false} ColumnUpdate(rows: seq<Amounts>, p: nat, b: nat, v: nat, a: nat)
    requires p < |rows| && b < |rows[p]|
    ensures Column(Bumped(rows, p, b, v), a) == Column(rows, a) + if a == b then v else 0
  {
    var n := |rows| - 1;
    var u := Bumped(rows, p, b, v);
    if p == n {
      assert u[..n] == rows[..n];
    } else {
      ColumnUpdate(rows[..n], p, b, v, a);
      assert u[..n] == Bumped(rows[..n], p, b, v);
    }
  }

  /** A step of one proxy keeps it sound, its accounts with every peer, and what it owes. */
  ghost predicate Keeps(n: nat, apps: nat, least: nat, me: nat, x: Proxy, y: Proxy) {
    && Sound(n, apps, least, me, y)
    && (forall q, a :: 0 <= q < n && q != me && 0 <= a < apps ==>
          SentTo(y, q, a) == SentTo(x, q, a) && ComeFrom(y, q, a) == ComeFrom(x, q, a))
    && forall a :: 0 <= a < apps && Spent(x, a) ==> Spent(y, a)
  }

  lemma AddedKeeps(n: nat, apps: nat, least: nat, me: nat, x: Proxy, a: nat, amount: nat, enough: bool)
    requires Sound(n, apps, least, me, x) && a < apps && (enough ==> x.counter + amount >= least)
    ensures Keeps(n, apps, least, me, x, Added(x, a, amount, enough))
  {
    SumUpdate(x.pending, a, x.pending[a] + amount);
  }

  lemma FiredKeeps(n: nat, apps: nat, least: nat, me: nat, x: Proxy)
    requires Sound(n, apps, least, me, x) && x.complete && x.ready
    ensures Keeps(n, apps, least, me, x, Fired(x, me))
  {
    SumZeros(Zeros(apps));
  }

  lemma FinishedKeeps(n: nat, apps: nat, least: nat, me: nat, x: Proxy)
    requires Sound(n, apps, least, me, x) && forall q :: 0 <= q < n ==> x.buffer[q] == None
    ensures Keeps(n, apps, least, me, x, Finished(x))
  {
  }

  lemma FetchedKeeps(n: nat, apps: nat, least: nat, me: nat, x: Proxy, p: nat)
    requires Sound(n, apps, least, me, x) && p < n && x.inbox[p] != [] && x.receiver.Waiting?
    ensures Keeps(n, apps, least, me, x, Fetched(x, p))
  {
    assert MsgOk(apps, least, x.inbox[p][0]);
    forall a | 0 <= a < apps
      ensures InInbox(x.inbox[p], a) == At(x.inbox[p][0], a) + InInbox(x.inbox[p][1..], a)
    {
      InboxHead(x.inbox[p], a);
    }
  }

  lemma AppliedKeeps(n: nat, apps: nat, least: nat, me: nat, x: Proxy)
    requires Sound(n, apps, least, me, x) && x.receiver.Applying?
    ensures Keeps(n, apps, least, me, x, AppliedNext(x))
  {
    var r := x.receiver;
    forall a | 0 <= a < apps
      ensures Column(Bumped(x.applied, r.from, r.done, r.msg[r.done]), a)
           == Column(x.applied, a) + if a == r.done then r.msg[r.done] else 0
    {
      ColumnUpdate(x.applied, r.from, r.done, r.msg[r.done], a);
    }
  }

  lemma UsedKeeps(n: nat, apps: nat, least: nat, me: nat, x: Proxy, a: nat)
    requires Sound(n, apps, least, me, x) && a < apps
    ensures Keeps(n, apps, least, me, x, Used(x, a))
  {
  }

  /** The two ends of sending a message. */
  lemma SentSound(n: nat, apps: nat, least: nat, me: nat, x: Proxy, q: nat)
    requires Sound(n, apps, least, me, x) && q < n && x.buffer[q].Some? && x.begin
    ensures Sound(n, apps, least, me, Sent(x, q)) && MsgOk(apps, least, x.buffer[q].value)
  {
  }

  lemma ArrivingSound(n: nat, apps: nat, least: nat, me: nat, x: Proxy, p: nat, msg: Amounts)
    requires Sound(n, apps, least, me, x) && p < n && p != me && MsgOk(apps, least, msg)
    ensures Sound(n, apps, least, me, Arriving(x, p, msg))
  {
  }

  lemma SentAccounts(x: Proxy, q: nat, r: nat, a: nat)
    requires q < |x.buffer| && x.buffer[q].Some?
    ensures var y := Sent(x, q);
      && SentTo(y, r, a) == SentTo(x, r, a) + (if r == q then At(x.buffer[q].value, a) else 0)
      && ComeFrom(y, r, a) == ComeFrom(x, r, a) && Spent(y, a) == Spent(x, a)
  {
  }

  lemma ArrivingAccounts(x: Proxy, p: nat, msg: Amounts, r: nat, a: nat)
    requires p < |x.inbox|
    ensures var y := Arriving(x, p, msg);
      && ComeFrom(y, r, a) == ComeFrom(x, r, a) + (if r == p then At(msg, a) else 0)
      && SentTo(y, r, a) == SentTo(x, r, a) && Spent(y, a) == Spent(x, a)
  {
    assert (x.inbox[p] + [msg])[..|x.inbox[p]|] == x.inbox[p];
  }

  /** Everything p added for application a is pending at p, in the buffer for q,
      on its way, in q's hands, or applied at q. */
  ghost predicate Conserved(ps: seq<Proxy>, p: nat, q: nat, a: nat)
    requires p < |ps| && q < |ps|
  {
    SentTo(ps[p], q, a) == ComeFrom(ps[q], p, a)
  }

  ghost predicate Good(apps: nat, least: nat, ps: seq<Proxy>) {
    && AllSound(apps, least, ps)
    && (forall p, q, a :: 0 <= p < |ps| && 0 <= q < |ps| && p != q && 0 <= a < apps ==> Conserved(ps, p, q, a))
    && (forall q, a :: 0 <= q < |ps| && 0 <= a < apps ==> Spent(ps[q], a))
  }

  lemma LocalStep(apps: nat, least: nat, ps: seq<Proxy>, s: Step)
    requires AllSound(apps, least, ps) && Enabled(least, ps, s) && !s.Send?
    ensures exists y :: Next(least, ps, s) == ps[s.p := y] && Keeps(|ps|, apps, least, s.p, ps[s.p], y)
  {
    var n, x := |ps|, ps[s.p];
    assert Sound(n, apps, least, s.p, x);
    hide Keeps, Sound;
    match s {
      case Add(p, a, amount, enough) =>
        AddedKeeps(n, apps, least, p, x, a, amount, enough);
      case Fire(p) => FiredKeeps(n, apps, least, p, x);
      case Send(p, q) =>
      case Finish(p) =>
        FinishedKeeps(n, apps, least, p, x);
      case Fetch(q, from) =>
        FetchedKeeps(n, apps, least, q, x, from);
      case Apply(q) => AppliedKeeps(n, apps, least, q, x);
      case Use(q, a) =>
        UsedKeeps(n, apps, least, q, x, a);
    }
  }

  /** Every step of every thread keeps all accounts. */
  lemma StepKeeps(apps: nat, least: nat, ps: seq<Proxy>, s: Step)
    requires Good(apps, least, ps) && Enabled(least, ps, s)
    ensures Good(apps, least, Next(least, ps, s)) && |Next(least, ps, s)| == |ps|
  {
    hide Sound, SentTo, ComeFrom, Spent;
    if s.Send? {
      SendKeeps(apps, least, ps, s.p, s.q);
    } else {
      LocalStep(apps, least, ps, s);
      var y :| Next(least, ps, s) == ps[s.p := y] && Keeps(|ps|, apps, least, s.p, ps[s.p], y);
      var qs := ps[s.p := y];
      forall p, q, a | 0 <= p < |ps| && 0 <= q < |ps| && p != q && 0 <= a < apps
        ensures Conserved(qs, p, q, a)
      {
        assert Conserved(ps, p, q, a);
      }
      forall r, a | 0 <= r < |ps| && 0 <= a < apps ensures Spent(qs[r], a) {
        assert Spent(ps[r], a);
      }
    }
  }

  lemma SendKeeps(apps: nat, least: nat, ps: seq<Proxy>, p: nat, q: nat)
    requires Good(apps, least, ps) && Enabled(least, ps, Send(p, q))
    ensures Good(apps, least, Next(least, ps, Send(p, q)))
  {
    hide Sound, SentTo, ComeFrom, Spent, Sent, Arriving;
    var n, msg := |ps|, ps[p].buffer[q].value;
    var x, y := Sent(ps[p], q), Arriving(ps[q], p, msg);
    assert Sound(n, apps, least, p, ps[p]) && Sound(n, apps, least, q, ps[q]);
    SentSound(n, apps, least, p, ps[p], q);
    ArrivingSound(n, apps, least, q, ps[q], p, msg);
    var qs := ps[p := x][q := y];
    forall r | 0 <= r < n ensures Sound(n, apps, least, r, qs[r]) {
      assert Sound(n, apps, least, r, ps[r]);
    }
    forall r, t, a | 0 <= r < n && 0 <= t < n && r != t && 0 <= a < apps ensures Conserved(qs, r, t, a) {
      assert Conserved(ps, r, t, a);
      SentAccounts(ps[p], q, t, a);
      SentAccounts(ps[p], q, r, a);
      ArrivingAccounts(ps[q], p, msg, t, a);
      ArrivingAccounts(ps[q], p, msg, r, a);
    }
    forall r, a | 0 <= r < n && 0 <= a < apps ensures Spent(qs[r], a) {
      assert Spent(ps[r], a);
      SentAccounts(ps[p], q, 0, a);
      ArrivingAccounts(ps[q], p, msg, 0, a);
    }
  }

  // ---------- runs ----------

  ghost predicate AllEnabled(least: nat, ps: seq<Proxy>, ss: seq<Step>)
    decreases |ss|
  {
    ss == [] || (Enabled(least, ps, ss[0]) && AllEnabled(least, Next(least, ps, ss[0]), ss[1..]))
  }

  ghost function Run(least: nat, ps: seq<Proxy>, ss: seq<Step>): seq<Proxy>
    requires AllEnabled(least, ps, ss)
    decreases |ss|
  {
    if ss == [] then ps else Run(least, Next(least, ps, ss[0]), ss[1..])
  }

  function FreshProxy(n: nat, apps: nat): Proxy {
    Proxy(Zeros(apps), 0, false, false, true, seq(n, i => None), seq(n, i => []), Waiting, Zeros(apps),
          Zeros(apps), seq(n, i => Zeros(apps)), Zeros(apps))
  }

  function Initial(n: nat, apps: nat): seq<Proxy> { seq(n, i => FreshProxy(n, apps)) }

  lemma {:induction false} NothingApplied(rows: seq<Amounts>, a: nat)
    requires forall p :: 0 <= p < |rows| ==> At(rows[p], a) == 0
    ensures Column(rows, a) == 0
  {
    if rows != [] {
      NothingApplied(rows[..|rows| - 1], a);
    }
  }

  lemma InitialGood(n: nat, apps: nat, least: nat)
    requires apps > 0
    ensures Good(apps, least, Initial(n, apps))
  {
    SumZeros(Zeros(apps));
    var x := FreshProxy(n, apps);
    forall a | 0 <= a < apps ensures Spent(x, a) {
      NothingApplied(x.applied, a);
    }
  }

  /** The laws hold in every state of every interleaving. */
  lemma {:induction false} RunGood(apps: nat, least: nat, ps: seq<Proxy>, ss: seq<Step>)
    requires Good(apps, least, ps) && AllEnabled(least, ps, ss)
    ensures Good(apps, least, Run(least, ps, ss)) && |Run(least, ps, ss)| == |ps|
    decreases |ss|
  {
    hide Good;
    if ss != [] {
      StepKeeps(apps, least, ps, ss[0]);
      RunGood(apps, least, Next(least, ps, ss[0]), ss[1..]);
    }
  }

  /** What the steps of a run add at proxy p for application a. */
  function AmountOf(ss: seq<Step>, p: nat, a: nat): nat {
    if ss == [] then 0
    else (if ss[0].Add? && ss[0].p == p && ss[0].a == a then ss[0].amount else 0) + AmountOf(ss[1..], p, a)
  }

  lemma StepAdds(apps: nat, least: nat, ps: seq<Proxy>, s: Step, p: nat, a: nat)
    requires Good(apps, least, ps) && Enabled(least, ps, s) && p < |ps| && a < apps
    ensures |ps[p].added| == |Next(least, ps, s)[p].added| == apps
    ensures Next(least, ps, s)[p].added[a] == ps[p].added[a] + AmountOf([s], p, a)
  {
    assert Sound(|ps|, apps, least, p, ps[p]);
    assert |ps[p].added| == apps;
    hide Sound, Good, Sum;
  }

  lemma {:induction false} RunAdds(apps: nat, least: nat, ps: seq<Proxy>, ss: seq<Step>, p: nat, a: nat)
    requires Good(apps, least, ps) && AllEnabled(least, ps, ss) && p < |ps| && a < apps
    ensures var qs := Run(least, ps, ss);
      && |qs| == |ps| && |ps[p].added| == |qs[p].added| == apps
      && qs[p].added[a] == ps[p].added[a] + AmountOf(ss, p, a)
    decreases |ss|
  {
    assert Sound(|ps|, apps, least, p, ps[p]);
    hide Good, Sound, Next, Enabled;
    if ss != [] {
      StepKeeps(apps, least, ps, ss[0]);
      StepAdds(apps, least, ps, ss[0], p, a);
      RunAdds(apps, least, Next(least, ps, ss[0]), ss[1..], p, a);
    }
  }

  /** Whoever uses what is due for an application leaves nothing due, and has
      then used all that was ever applied for it. */
  lemma UsesAll(x: Proxy, a: nat)
    requires a < |x.delay| && a < |x.used| && Spent(x, a)
    ensures Used(x, a).delay[a] == 0 && Used(x, a).used[a] == Column(x.applied, a)
  {
  }

  /** Conservation, written out: what a run adds at sender p for a is pending, in the
      buffer for q, on its way to q, in q's hands, or applied at q; and what was
      applied at q is due there or used up. */
  lemma ConservationOfBytes(n: nat, apps: nat, least: nat, ss: seq<Step>, p: nat, q: nat, a: nat)
    requires apps > 0 && AllEnabled(least, Initial(n, apps), ss) && p < n && q < n && p != q && a < apps
    ensures var ps := Run(least, Initial(n, apps), ss);
      && |ps| == n && Sound(n, apps, least, p, ps[p]) && Sound(n, apps, least, q, ps[q])
      && AmountOf(ss, p, a) == ps[p].pending[a] + InBuffer(ps[p].buffer[q], a) + InInbox(ps[q].inbox[p], a)
                               + InReceiver(ps[q].receiver, p, a) + ps[q].applied[p][a]
      && Column(ps[q].applied, a) == ps[q].delay[a] + ps[q].used[a]
  {
    InitialGood(n, apps, least);
    RunAdds(apps, least, Initial(n, apps), ss, p, a);
    RunGood(apps, least, Initial(n, apps), ss);
    var ps := Run(least, Initial(n, apps), ss);
    assert Conserved(ps, p, q, a) && Spent(ps[q], a);
    assert Sound(n, apps, least, p, ps[p]) && Sound(n, apps, least, q, ps[q]);
  }

  /** The coordinator never writes over an unsent message, and no message tells
      less than the least amount. */
  lemma NeverOverwritten(n: nat, apps: nat, least: nat, ss: seq<Step>, p: nat, q: nat)
    requires apps > 0 && AllEnabled(least, Initial(n, apps), ss) && p < n && q < n
    ensures var ps := Run(least, Initial(n, apps), ss);
      && |ps| == n && |ps[p].buffer| == |ps[q].inbox| == n
      && (Enabled(least, ps, Fire(p)) ==> ps[p].buffer[q] == None && Sum(ps[p].pending) >= least)
      && (ps[p].buffer[q].Some? ==> Sum(ps[p].buffer[q].value) >= least)
      && forall i :: 0 <= i < |ps[q].inbox[p]| ==> Sum(ps[q].inbox[p][i]) >= least
  {
    InitialGood(n, apps, least);
    RunGood(apps, least, Initial(n, apps), ss);
    var ps := Run(least, Initial(n, apps), ss);
    assert Sound(n, apps, least, p, ps[p]) && Sound(n, apps, least, q, ps[q]);
    forall i | 0 <= i < |ps[q].inbox[p]| ensures Sum(ps[q].inbox[p][i]) >= least {
      assert MsgOk(apps, least, ps[q].inbox[p][i]);
    }
  }
}
