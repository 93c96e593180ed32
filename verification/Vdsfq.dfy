/** The variant of scheduler_vDSFQ.c: instead of bytes a proxy tells its peers
    once which applications it serves, and a request is delayed by how many
    other proxies serve its application. */
module Vdsfq {
  import opened Basics
  import B = Broadcast
  import D = Dsfq

  /** vapp_entries_local: not seen, seen but not told, told. left2 is set while an
      application may be untold, timeout by the timer. */
  datatype VProxy = VProxy(base: B.Proxy, entries: seq<int>, left2: bool, timeout: bool)

  // ---------- the steps ----------

  /** The part of vdsfq_enqueue under the broadcast mutex. */
  function Announced(threshold: nat, x: VProxy, a: nat): VProxy
    requires a < |x.entries| && a < |x.base.pending| && a < |x.base.added|
  {
    var isNew := x.entries[a] == 0;
    var left2, amount := x.left2 || isNew, if isNew then 1 else 0;
    VProxy(B.Added(x.base, a, amount, (left2 && x.timeout) || x.base.counter + amount >= threshold),
           if isNew then x.entries[a := 1] else x.entries, left2, x.timeout)
  }

  function Told(entries: seq<int>): (r: seq<int>)
    ensures |r| == |entries| && forall a :: 0 <= a < |r| ==> r[a] == if entries[a] == 1 then 2 else entries[a]
  {
    seq(|entries|, a requires 0 <= a < |entries| => if entries[a] == 1 then 2 else entries[a])
  }

  /** What the coordinator puts in a message: the count of an application seen but not told. */
  function Message(x: VProxy): (m: seq<nat>)
    requires |x.entries| == |x.base.pending|
    ensures |m| == |x.entries|
    ensures forall a :: 0 <= a < |m| ==> m[a] == if x.entries[a] == 1 then x.base.pending[a] else 0
  {
    seq(|x.entries|, a requires 0 <= a < |x.entries| => if x.entries[a] == 1 then x.base.pending[a] else 0)
  }

  function FiredWith(x: B.Proxy, me: nat, msg: seq<nat>): B.Proxy {
    x.(buffer := seq(|x.buffer|, q => if q == me then None else Some(msg)),
       pending := B.Zeros(|x.pending|), counter := 0, complete := false, ready := false, begin := true)
  }

  /** vdsfq_broadcast_trigger_work, once its two waits are over. */
  function Triggered(x: VProxy, me: nat): VProxy
    requires |x.entries| == |x.base.pending|
  {
    VProxy(FiredWith(x.base, me, Message(x)), Told(x.entries), false, false)
  }

  // ---------- one proxy ----------

  function Ones(entries: seq<int>): nat {
    if entries == [] then 0 else Ones(entries[..|entries| - 1]) + if entries[|entries| - 1] == 1 then 1 else 0
  }

  /** An application not seen was never added, one seen was added once, and is
      pending exactly while it is not told. Nothing is used up. */
  ghost predicate Regular(n: nat, apps: nat, me: nat, x: VProxy) {
    && B.Sound(n, apps, 0, me, x.base) && |x.entries| == apps
    && forall a :: 0 <= a < apps ==>
         && 0 <= x.entries[a] <= 2 && x.base.used[a] == 0
         && x.base.pending[a] == (if x.entries[a] == 1 then 1 else 0)
         && x.base.added[a] == (if x.entries[a] == 0 then 0 else 1)
  }

  lemma AnnouncedRegular(n: nat, apps: nat, me: nat, threshold: nat, x: VProxy, a: nat)
    requires Regular(n, apps, me, x) && a < apps
    ensures Regular(n, apps, me, Announced(threshold, x, a))
  {
    var y := Announced(threshold, x, a);
    B.AddedKeeps(n, apps, 0, me, x.base, a, if x.entries[a] == 0 then 1 else 0, y.base.ready);
    B.AddedKeeps(n, apps, 0, me, x.base, a, if x.entries[a] == 0 then 1 else 0,
                 (y.left2 && x.timeout) || x.base.counter + (if x.entries[a] == 0 then 1 else 0) >= threshold);
  }

  /** The message tells what is pending, so the coordinator here is that of module Broadcast. */
  lemma TriggeredRegular(n: nat, apps: nat, me: nat, x: VProxy)
    requires Regular(n, apps, me, x) && x.base.complete && x.base.ready
    ensures Regular(n, apps, me, Triggered(x, me)) && Triggered(x, me).base == B.Fired(x.base, me)
  {
    assert Message(x) == x.base.pending;
    B.FiredKeeps(n, apps, 0, me, x.base);
  }

  lemma AppliedRegular(n: nat, apps: nat, me: nat, x: VProxy)
    requires Regular(n, apps, me, x) && x.base.receiver.Applying?
    ensures var r := x.base.receiver;
      && r.done < |r.msg| && r.done < |x.base.delay| && r.from < |x.base.applied| && r.done < |x.base.applied[r.from]|
      && Regular(n, apps, me, x.(base := B.AppliedNext(x.base)))
  {
    B.AppliedKeeps(n, apps, 0, me, x.base);
  }

  lemma {:induction false} CountIsOnes(pending: seq<nat>, entries: seq<int>)
    requires |pending| == |entries| && forall a :: 0 <= a < |pending| ==> pending[a] == if entries[a] == 1 then 1 else 0
    ensures Sum(pending) == Ones(entries)
  {
    if pending != [] {
      CountIsOnes(pending[..|pending| - 1], entries[..|entries| - 1]);
    }
  }

  // ---------- the proxies together ----------

  datatype Step =
    | Enqueue(p: nat, a: nat)
    | Timeout(p: nat)
    | Fire(p: nat)
    | Send(p: nat, q: nat)
    | Finish(p: nat)
    | Fetch(p: nat, from: nat)
    | Apply(p: nat)

  function Bases(vs: seq<VProxy>): (ps: seq<B.Proxy>)
    ensures |ps| == |vs| && forall p :: 0 <= p < |ps| ==> ps[p] == vs[p].base
  {
    seq(|vs|, p requires 0 <= p < |vs| => vs[p].base)
  }

  /** The step of module Broadcast that a step is; none for the timer. */
  function AsBroadcast(threshold: nat, vs: seq<VProxy>, s: Step): Option<B.Step>
    requires s.p < |vs| && (s.Enqueue? ==> s.a < |vs[s.p].entries|)
  {
    match s
    case Enqueue(p, a) =>
      var x := vs[p];
      var isNew := x.entries[a] == 0;
      var amount := if isNew then 1 else 0;
      Some(B.Add(p, a, amount, ((x.left2 || isNew) && x.timeout) || x.base.counter + amount >= threshold))
    case Timeout(_) => None
    case Fire(p) => Some(B.Fire(p))
    case Send(p, q) => Some(B.Send(p, q))
    case Finish(p) => Some(B.Finish(p))
    case Fetch(p, from) => Some(B.Fetch(p, from))
    case Apply(p) => Some(B.Apply(p))
  }

  ghost predicate Enabled(threshold: nat, vs: seq<VProxy>, s: Step) {
    && s.p < |vs| && (s.Enqueue? ==> s.a < |vs[s.p].entries|) && |vs[s.p].entries| == |vs[s.p].base.pending|
    && (AsBroadcast(threshold, vs, s).Some? ==> B.Enabled(0, Bases(vs), AsBroadcast(threshold, vs, s).value))
  }

  ghost function Next(threshold: nat, vs: seq<VProxy>, s: Step): seq<VProxy>
    requires Enabled(threshold, vs, s)
  {
    var x := vs[s.p];
    match s
    case Enqueue(p, a) => vs[p := Announced(threshold, x, a)]
    case Timeout(p) => vs[p := x.(timeout := true)]
    case Fire(p) => vs[p := Triggered(x, p)]
    case Send(p, q) =>
      var y := vs[q];
      vs[p := x.(base := B.Sent(x.base, q))][q := y.(base := B.Arriving(y.base, p, x.base.buffer[q].value))]
    case Finish(p) => vs[p := x.(base := B.Finished(x.base))]
    case Fetch(p, from) => vs[p := x.(base := B.Fetched(x.base, from))]
    case Apply(p) => vs[p := x.(base := B.AppliedNext(x.base))]
  }

  ghost predicate AllRegular(apps: nat, vs: seq<VProxy>) {
    forall p :: 0 <= p < |vs| ==> Regular(|vs|, apps, p, vs[p])
  }

  ghost predicate Good(apps: nat, vs: seq<VProxy>) {
    AllRegular(apps, vs) && B.Good(apps, 0, Bases(vs))
  }

  /** Every step but the timer's is the step of module Broadcast it is named after. */
  lemma StepRefines(apps: nat, threshold: nat, vs: seq<VProxy>, s: Step)
    requires Good(apps, vs) && Enabled(threshold, vs, s)
    ensures |Next(threshold, vs, s)| == |vs|
    ensures Bases(Next(threshold, vs, s)) ==
              match AsBroadcast(threshold, vs, s)
              case None => Bases(vs)
              case Some(b) => B.Next(0, Bases(vs), b)
  {
    var vs', ps := Next(threshold, vs, s), Bases(vs);
    var x := vs[s.p];
    assert Regular(|vs|, apps, s.p, x);
    hide B.Sound, B.Good, Good;
    if s.Fire? {
      TriggeredRegular(|vs|, apps, s.p, x);
    }
    if s.Timeout? {
      assert Bases(vs') == ps;
    } else {
      assert Bases(vs') == B.Next(0, ps, AsBroadcast(threshold, vs, s).value);
    }
  }

  lemma StepKeeps(apps: nat, threshold: nat, vs: seq<VProxy>, s: Step)
    requires Good(apps, vs) && Enabled(threshold, vs, s)
    ensures Good(apps, Next(threshold, vs, s)) && |Next(threshold, vs, s)| == |vs|
  {
    StepRefines(apps, threshold, vs, s);
    if AsBroadcast(threshold, vs, s).Some? {
      B.StepKeeps(apps, 0, Bases(vs), AsBroadcast(threshold, vs, s).value);
    }
    var vs' := Next(threshold, vs, s);
    assert B.AllSound(apps, 0, Bases(vs'));
    forall p | 0 <= p < |vs| ensures Regular(|vs|, apps, p, vs'[p]) {
      assert Regular(|vs|, apps, p, vs[p]);
      assert B.Sound(|vs|, apps, 0, p, Bases(vs')[p]);
      StepRegular(apps, threshold, vs, s, p);
    }
  }

  lemma StepRegular(apps: nat, threshold: nat, vs: seq<VProxy>, s: Step, p: nat)
    requires AllRegular(apps, vs) && Enabled(threshold, vs, s) && p < |vs| == |Next(threshold, vs, s)|
    requires B.Sound(|vs|, apps, 0, p, Next(threshold, vs, s)[p].base)
    ensures Regular(|vs|, apps, p, Next(threshold, vs, s)[p])
  {
    var x := vs[p];
    assert Regular(|vs|, apps, p, x);
    if s.p == p && s.Enqueue? {
      AnnouncedRegular(|vs|, apps, p, threshold, x, s.a);
    } else if s.p == p && s.Fire? {
      TriggeredRegular(|vs|, apps, p, x);
    }
  }

  // ---------- runs ----------

  ghost predicate AllEnabled(threshold: nat, vs: seq<VProxy>, ss: seq<Step>)
    decreases |ss|
  {
    ss == [] || (Enabled(threshold, vs, ss[0]) && AllEnabled(threshold, Next(threshold, vs, ss[0]), ss[1..]))
  }

  ghost function Run(threshold: nat, vs: seq<VProxy>, ss: seq<Step>): seq<VProxy>
    requires AllEnabled(threshold, vs, ss)
    decreases |ss|
  {
    if ss == [] then vs else Run(threshold, Next(threshold, vs, ss[0]), ss[1..])
  }

  function Initial(n: nat, apps: nat): seq<VProxy> {
    seq(n, p => VProxy(B.FreshProxy(n, apps), seq(apps, a => 0), true, false))
  }

  lemma {:induction false} RunGood(apps: nat, threshold: nat, vs: seq<VProxy>, ss: seq<Step>)
    requires Good(apps, vs) && AllEnabled(threshold, vs, ss)
    ensures Good(apps, Run(threshold, vs, ss)) && |Run(threshold, vs, ss)| == |vs|
    decreases |ss|
  {
    hide Good;
    if ss != [] {
      StepKeeps(apps, threshold, vs, ss[0]);
      RunGood(apps, threshold, Next(threshold, vs, ss[0]), ss[1..]);
    }
  }

  lemma InitialGood(n: nat, apps: nat)
    requires apps > 0
    ensures Good(apps, Initial(n, apps))
  {
    B.InitialGood(n, apps, 0);
    assert Bases(Initial(n, apps)) == B.Initial(n, apps);
    forall p | 0 <= p < n ensures Regular(n, apps, p, Initial(n, apps)[p]) {
      assert B.Sound(n, apps, 0, p, B.Initial(n, apps)[p]);
    }
  }

  /** How many of the rows, other than that of me, have told of a. */
  function Tellers(rows: seq<seq<nat>>, a: nat): nat {
    if rows == [] then 0
    else Tellers(rows[..|rows| - 1], a) + if B.At(rows[|rows| - 1], a) > 0 then 1 else 0
  }

  lemma {:induction false} ColumnIsTellers(rows: seq<seq<nat>>, a: nat)
    requires forall p :: 0 <= p < |rows| ==> B.At(rows[p], a) <= 1
    ensures B.Column(rows, a) == Tellers(rows, a) <= |rows|
    ensures (exists me :: 0 <= me < |rows| && B.At(rows[me], a) == 0) ==> Tellers(rows, a) <= |rows| - 1
  {
    if rows != [] {
      var init := rows[..|rows| - 1];
      ColumnIsTellers(init, a);
      if me :| 0 <= me < |rows| && B.At(rows[me], a) == 0 {
        assert me < |init| ==> B.At(init[me], a) == 0;
      }
    }
  }

  /** Over every run each proxy is told of each application at most once by each
      peer, and of no application it did not serve; what it believes is exactly
      the number of peers that have told it, never more than there are; and a
      coordinator's counter is the number of applications seen but not told. */
  lemma ToldAtMostOnce(n: nat, apps: nat, threshold: nat, ss: seq<Step>, p: nat, q: nat, a: nat)
    requires apps > 0 && AllEnabled(threshold, Initial(n, apps), ss) && p < n && q < n && p != q && a < apps
    ensures var vs := Run(threshold, Initial(n, apps), ss);
      && |vs| == n && Regular(n, apps, p, vs[p]) && Regular(n, apps, q, vs[q])
      && var x, y := vs[p].base, vs[q].base;
         && B.InBuffer(x.buffer[q], a) + B.InInbox(y.inbox[p], a) + B.InReceiver(y.receiver, p, a) + y.applied[p][a]
              == (if vs[p].entries[a] == 2 then 1 else 0)
         && y.delay[a] == Tellers(y.applied, a) <= n - 1
         && x.counter == Ones(vs[p].entries)
  {
    InitialGood(n, apps);
    RunGood(apps, threshold, Initial(n, apps), ss);
    var vs := Run(threshold, Initial(n, apps), ss);
    var ps := Bases(vs);
    assert Regular(n, apps, p, vs[p]) && Regular(n, apps, q, vs[q]);
    assert B.Conserved(ps, p, q, a) && B.Spent(ps[q], a);
    CountIsOnes(vs[p].base.pending, vs[p].entries);
    hide Good, B.Good, B.InBuffer, B.InInbox, B.InReceiver;
    AppliedOnce(n, apps, vs, q, a);
    ColumnIsTellers(vs[q].base.applied, a);
  }

  /** A proxy has heard at most once of an application from each, and never from itself. */
  lemma AppliedOnce(n: nat, apps: nat, vs: seq<VProxy>, q: nat, a: nat)
    requires Good(apps, vs) && |vs| == n && q < n && a < apps
    ensures |vs[q].base.applied| == n && B.At(vs[q].base.applied[q], a) == 0
    ensures forall r :: 0 <= r < n ==> B.At(vs[q].base.applied[r], a) <= 1
  {
    assert Regular(n, apps, q, vs[q]);
    forall r | 0 <= r < n && r != q ensures B.At(vs[q].base.applied[r], a) <= 1 {
      assert Regular(n, apps, r, vs[r]);
      assert B.Conserved(Bases(vs), r, q, a);
    }
  }

  // ---------- what is seen, and when the coordinator is woken ----------

  /** With a threshold: at the threshold the coordinator is woken, and woken there
      is something to tell; left2 says that there is, or that nothing was seen yet. */
  ghost predicate Awake(threshold: nat, x: VProxy) {
    && (x.base.counter >= threshold ==> x.base.ready) && (x.base.ready ==> x.base.counter > 0)
    && (x.base.counter > 0 ==> x.left2)
    && (x.left2 ==> x.base.counter > 0 || forall a :: 0 <= a < |x.entries| ==> x.entries[a] == 0)
  }

  /** After a request the coordinator is woken exactly if it was, or there is
      enough to tell, or the timer is up and there is anything to tell. */
  lemma AnnounceWakes(n: nat, apps: nat, me: nat, threshold: nat, x: VProxy, a: nat)
    requires Regular(n, apps, me, x) && Awake(threshold, x) && threshold > 0 && a < apps
    ensures var y := Announced(threshold, x, a);
      && Awake(threshold, y) && y.timeout == x.timeout
      && (y.base.ready <==> x.base.ready || y.base.counter >= threshold || (x.timeout && y.base.counter > 0))
      && y.entries[a] != 0 && forall b :: 0 <= b < apps && b != a ==> y.entries[b] == x.entries[b]
  {
  }

  lemma KeepsAwake(threshold: nat, x: VProxy, y: VProxy)
    requires Awake(threshold, x)
    ensures (y.base.counter, y.base.ready, y.left2, y.entries) == (x.base.counter, x.base.ready, x.left2, x.entries) ==>
              Awake(threshold, y)
  {
  }

  lemma StepAwake(apps: nat, threshold: nat, vs: seq<VProxy>, s: Step, p: nat, a: nat)
    requires Good(apps, vs) && Enabled(threshold, vs, s) && threshold > 0 && p < |vs| && a < apps
    requires Awake(threshold, vs[p])
    ensures |Next(threshold, vs, s)| == |vs| && Awake(threshold, Next(threshold, vs, s)[p])
    ensures |vs[p].entries| == |Next(threshold, vs, s)[p].entries| == apps
    ensures Next(threshold, vs, s)[p].entries[a] != 0 <==> vs[p].entries[a] != 0 || s == Enqueue(p, a)
  {
    var x := vs[s.p];
    hide B.Sound, B.Good, B.Enabled;
    assert Regular(|vs|, apps, p, vs[p]) && Regular(|vs|, apps, s.p, x);
    hide Good;
    if s.p == p {
      if s.Enqueue? {
        AnnounceWakes(|vs|, apps, p, threshold, x, s.a);
      } else if s.Fire? {
      }
    }
    hide Announced, Triggered, Awake, Told;
    KeepsAwake(threshold, vs[p], Next(threshold, vs, s)[p]);
  }

  /** The timer is up from when it goes off until a broadcast. */
  lemma StepTimer(threshold: nat, vs: seq<VProxy>, s: Step, p: nat)
    requires Enabled(threshold, vs, s) && p < |vs|
    ensures |Next(threshold, vs, s)| == |vs|
    ensures Next(threshold, vs, s)[p].timeout <==> s == Timeout(p) || (vs[p].timeout && s != Fire(p))
  {
    hide B.Sound;
  }

  lemma EntriesOf(apps: nat, vs: seq<VProxy>, p: nat)
    requires Good(apps, vs) && p < |vs|
    ensures |vs[p].entries| == apps
  {
    assert Regular(|vs|, apps, p, vs[p]);
  }

  lemma {:induction false} RunAwake(apps: nat, threshold: nat, vs: seq<VProxy>, ss: seq<Step>, p: nat, a: nat)
    requires Good(apps, vs) && AllEnabled(threshold, vs, ss) && threshold > 0 && p < |vs| && a < apps
    requires Awake(threshold, vs[p])
    ensures var ws := Run(threshold, vs, ss);
      && |ws| == |vs| && |vs[p].entries| == |ws[p].entries| == apps && Awake(threshold, ws[p])
      && (ws[p].entries[a] != 0 <==> vs[p].entries[a] != 0 || Enqueue(p, a) in ss)
    decreases |ss|
  {
    hide Good, Regular, Next, Enabled, Awake, Bases, AsBroadcast;
    EntriesOf(apps, vs, p);
    if ss != [] {
      StepKeeps(apps, threshold, vs, ss[0]);
      StepAwake(apps, threshold, vs, ss[0], p, a);
      RunAwake(apps, threshold, Next(threshold, vs, ss[0]), ss[1..], p, a);
      assert ss == [ss[0]] + ss[1..];
    }
  }

  /** Over every run: an application is seen at a proxy exactly if a request of it
      came there; the coordinator is woken once there is enough to tell, and never
      with nothing to tell; and the next request wakes it exactly if there is
      then enough to tell, or the timer is up and there is anything to tell. */
  lemma WokenRightly(n: nat, apps: nat, threshold: nat, ss: seq<Step>, p: nat, a: nat)
    requires apps > 0 && threshold > 0 && AllEnabled(threshold, Initial(n, apps), ss) && p < n && a < apps
    ensures var vs := Run(threshold, Initial(n, apps), ss);
      && |vs| == n && Regular(n, apps, p, vs[p]) && (vs[p].entries[a] != 0 <==> Enqueue(p, a) in ss)
      && (vs[p].base.counter >= threshold ==> vs[p].base.ready) && (vs[p].base.ready ==> vs[p].base.counter > 0)
      && var y := Announced(threshold, vs[p], a);
         y.base.ready <==> vs[p].base.ready || y.base.counter >= threshold || (vs[p].timeout && y.base.counter > 0)
  {
    InitialGood(n, apps);
    RunGood(apps, threshold, Initial(n, apps), ss);
    RunAwake(apps, threshold, Initial(n, apps), ss, p, a);
    var vs := Run(threshold, Initial(n, apps), ss);
    assert Regular(n, apps, p, vs[p]);
    AnnounceWakes(n, apps, p, threshold, vs[p], a);
  }

  // ---------- a proxy's threads ----------

  class Proxy {
    const me: nat
    const threshold: nat
    const requestReceiveQueue: array<nat>
    const entriesLocal: array<int>
    const entriesRemote: array<nat>
    const broadcastBuffer: array<Option<seq<nat>>>
    const lastFinishTags: array<int>
    var virtualTime: int
    var currentIoCounter: nat
    var thresholdReady: bool
    var broadcastBegin: bool
    var broadcastComplete: bool
    var left2: bool
    var timeout: bool
    var inbox: seq<seq<seq<nat>>>
    var receiver: B.Receiver
    ghost var added: seq<nat>
    ghost var applied: seq<seq<nat>>
    ghost var used: seq<nat>

    ghost function State(): VProxy
      reads this, requestReceiveQueue, entriesLocal, entriesRemote, broadcastBuffer
    {
      VProxy(B.Proxy(requestReceiveQueue[..], currentIoCounter, thresholdReady, broadcastBegin, broadcastComplete,
                     broadcastBuffer[..], inbox, receiver, entriesRemote[..], added, applied, used),
             entriesLocal[..], left2, timeout)
    }

    ghost predicate Valid(n: nat)
      reads this, requestReceiveQueue, entriesLocal, entriesRemote, broadcastBuffer
    {
      && requestReceiveQueue != entriesRemote && lastFinishTags != entriesLocal
      && lastFinishTags.Length == entriesLocal.Length && Regular(n, entriesLocal.Length, me, State())
    }

    /** Proxy me of n, before any request. */
    constructor (n: nat, apps: nat, me: nat, threshold: nat)
      requires me < n && apps > 0
      ensures Valid(n) && State() == Initial(n, apps)[me] && this.me == me && this.threshold == threshold
      ensures entriesLocal.Length == apps
    {
      this.me, this.threshold := me, threshold;
      requestReceiveQueue := new nat[apps](i => 0);
      entriesLocal := new int[apps](i => 0);
      entriesRemote := new nat[apps](i => 0);
      lastFinishTags := new int[apps](i => 0);
      virtualTime := 0;
      broadcastBuffer := new Option<seq<nat>>[n](i => None);
      currentIoCounter, thresholdReady, broadcastBegin, broadcastComplete := 0, false, false, true;
      left2, timeout := true, false;
      inbox, receiver := seq(n, i => []), B.Waiting;
      added, applied, used := B.Zeros(apps), seq(n, i => B.Zeros(apps)), B.Zeros(apps);
      new;
      InitialGood(n, apps);
      assert Regular(n, apps, me, Initial(n, apps)[me]);
      assert requestReceiveQueue[..] == B.Zeros(apps) && entriesRemote[..] == B.Zeros(apps);
      assert broadcastBuffer[..] == seq(n, i => None) && entriesLocal[..] == seq(apps, a => 0);
    }

    /** vdsfq_enqueue under the broadcast mutex */
    method Announce(ghost n: nat, app: nat)
      requires Valid(n) && app < entriesLocal.Length
      modifies this`currentIoCounter, this`thresholdReady, this`left2, this`added, requestReceiveQueue, entriesLocal
      ensures Valid(n) && State() == Announced(threshold, old(State()), app)
    {
      hide Regular;
      Sizes(n);
      AnnouncedRegular(n, entriesLocal.Length, me, threshold, State(), app);
      ghost var before := State();
      var needsBroadcast := false;
      if entriesLocal[app] == 0 {
        SeenFirst(n, app);
        left2 := true;
        requestReceiveQueue[app] := 1;
        currentIoCounter := currentIoCounter + 1;
        entriesLocal[app] := 1;
        added := added[app := added[app] + 1];
      }
      if left2 && timeout {
        needsBroadcast := true;
      }
      if currentIoCounter >= threshold {
        needsBroadcast := true;
      }
      if needsBroadcast {
        thresholdReady := true;
      }
      assert State().base.pending == Announced(threshold, before, app).base.pending;
      assert State().base.added == Announced(threshold, before, app).base.added;
    }

    /** vdsfq_enqueue under the queue mutex: what is believed of the peers puts the
        request off, and is not used up. */
    method TagRequest(ghost n: nat, app: nat, length: nat, weight: nat) returns (startTag: int, finishTag: int)
      requires Valid(n) && app < lastFinishTags.Length && weight > 0
      modifies lastFinishTags
      ensures Valid(n) && State() == old(State()) && app < entriesRemote.Length
      ensures startTag == D.StartTag(virtualTime, old(lastFinishTags[app]), entriesRemote[app] * length, weight)
      ensures finishTag == startTag + length / weight / D.REDUCER
      ensures lastFinishTags[..] == old(lastFinishTags[..])[app := finishTag]
    {
      Sizes(n);
      hide Regular;
      var tempDelay := entriesRemote[app] * length / (weight * D.REDUCER);
      startTag := Max(virtualTime, lastFinishTags[app] + tempDelay);
      finishTag := startTag + length / weight / D.REDUCER;
      lastFinishTags[app] := finishTag;
    }

    lemma Sizes(n: nat)
      requires Valid(n)
      ensures requestReceiveQueue.Length == entriesLocal.Length == entriesRemote.Length == |added|
      ensures broadcastBuffer.Length == n
    {
    }

    lemma SeenFirst(n: nat, app: nat)
      requires Valid(n) && app < entriesLocal.Length && entriesLocal[app] == 0
      ensures requestReceiveQueue.Length == entriesLocal.Length && requestReceiveQueue[app] == 0
    {
      assert State().base.pending[app] == requestReceiveQueue[app] && State().entries[app] == entriesLocal[app];
    }

    /** vdsfq_broadcast_trigger_work, once its two waits are over. */
    method Trigger(ghost n: nat)
      requires Valid(n) && broadcastComplete && thresholdReady
      modifies this`currentIoCounter, this`thresholdReady, this`broadcastBegin, this`broadcastComplete
      modifies this`left2, this`timeout, requestReceiveQueue, entriesLocal, broadcastBuffer
      ensures Valid(n) && State() == Triggered(old(State()), me)
    {
      TriggeredRegular(n, entriesLocal.Length, me, State());
      hide Regular;
      Sizes(n);
      var msg := Collect();
      left2 := false;
      B.FillBuffers(broadcastBuffer, me, msg);
      broadcastComplete, thresholdReady, timeout := false, false, false;
      B.ClearQueue(requestReceiveQueue);
      currentIoCounter := 0;
      broadcastBegin := true;
    }

    /** The loop that fills the message and marks what it tells. */
    method Collect() returns (msg: seq<nat>)
      requires requestReceiveQueue.Length == entriesLocal.Length
      modifies entriesLocal
      ensures msg == old(Message(State())) && entriesLocal[..] == old(Told(entriesLocal[..]))
    {
      msg := [];
      var i := 0;
      while i < entriesLocal.Length
        invariant i <= entriesLocal.Length && |msg| == i
        invariant forall a :: 0 <= a < i ==> msg[a] == if old(entriesLocal[a]) == 1 then requestReceiveQueue[a] else 0
        invariant forall a :: 0 <= a < i ==>
                    entriesLocal[a] == if old(entriesLocal[a]) == 1 then 2 else old(entriesLocal[a])
        invariant forall a :: i <= a < entriesLocal.Length ==> entriesLocal[a] == old(entriesLocal[a])
      {
        if entriesLocal[i] == 1 {
          msg := msg + [requestReceiveQueue[i]];
          entriesLocal[i] := 2;
        } else {
          msg := msg + [0];
        }
        i := i + 1;
      }
    }

    /** vdsfq_proxy_receive_work: add the next amount under the queue mutex. */
    method ApplyNext(ghost n: nat)
      requires Valid(n) && receiver.Applying?
      modifies this`receiver, this`applied, entriesRemote
      ensures Valid(n) && State() == old(State()).(base := B.AppliedNext(old(State()).base))
    {
      hide Regular, B.Sound;
      AppliedRegular(n, entriesLocal.Length, me, State());
      var app, periodCount := receiver.done, receiver.msg[receiver.done];
      entriesRemote[app] := entriesRemote[app] + periodCount;
      applied := B.Bumped(applied, receiver.from, app, periodCount);
      receiver := if app + 1 == |receiver.msg| then B.Waiting else receiver.(done := app + 1);
    }
  }
}
