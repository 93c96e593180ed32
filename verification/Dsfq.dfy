/** A proxy of the distributed fair queuing of scheduler_DSFQ.c: it tells its
    peers how many bytes each application has asked of it, and lets what it hears
    from them delay the next request of that application. */
module Dsfq {
  import opened Basics
  import opened Division
  import B = Broadcast

  const REDUCER: nat := 1024

  /** A request that finds d bytes of delay due for its application starts where
      its predecessor would end, put off by those bytes in units of its weight. */
  function StartTag(virtualTime: int, lastFinish: int, d: nat, weight: nat): int
    requires weight > 0
  {
    Max(virtualTime, lastFinish + d / (weight * REDUCER))
  }

  /** A request is put off to the later of virtual time and its predecessor's end
      with as many units as the delay fills. */
  lemma DelayPutsOff(virtualTime: int, lastFinish: int, d: nat, weight: nat, units: nat)
    requires weight > 0 && weight * REDUCER * units <= d < weight * REDUCER * units + weight * REDUCER
    ensures var t := StartTag(virtualTime, lastFinish, d, weight);
      && t >= virtualTime && t >= lastFinish + units && (t == virtualTime || t == lastFinish + units)
  {
    DivUnique(d, weight * REDUCER, units, d - weight * REDUCER * units);
  }

  // ---------- the tags of one application ----------

  /** What a request finds when it is tagged. */
  datatype Tagging = Tagging(delay: nat, length: nat, weight: nat, virtualTime: int)

  function FinishAfter(last: int, g: Tagging): int
    requires g.weight > 0
  {
    StartTag(g.virtualTime, last, g.delay, g.weight) + g.length / g.weight / REDUCER
  }

  ghost predicate Weighted(gs: seq<Tagging>) { forall g :: g in gs ==> g.weight > 0 }

  /** The last finish tag after some requests. */
  function LastAfter(last: int, gs: seq<Tagging>): int
    requires Weighted(gs)
  {
    if gs == [] then last else FinishAfter(LastAfter(last, gs[..|gs| - 1]), gs[|gs| - 1])
  }

  function Delays(gs: seq<Tagging>): nat { if gs == [] then 0 else Delays(gs[..|gs| - 1]) + gs[|gs| - 1].delay }

  /** What the requests cost, and the whole units of the delays they find. */
  function Costs(gs: seq<Tagging>): nat
    requires Weighted(gs)
  {
    if gs == [] then 0
    else Costs(gs[..|gs| - 1]) + gs[|gs| - 1].length / gs[|gs| - 1].weight / REDUCER
  }

  function Units(gs: seq<Tagging>): nat
    requires Weighted(gs)
  {
    if gs == [] then 0
    else Units(gs[..|gs| - 1]) + gs[|gs| - 1].delay / (gs[|gs| - 1].weight * REDUCER)
  }

  /** Where each request's predecessor, with the delay, ends no earlier than virtual time. */
  ghost predicate AheadOfTime(last: int, gs: seq<Tagging>)
    requires Weighted(gs)
  {
    gs == [] || (AheadOfTime(last, gs[..|gs| - 1])
                 && LastAfter(last, gs[..|gs| - 1]) + gs[|gs| - 1].delay / (gs[|gs| - 1].weight * REDUCER)
                    >= gs[|gs| - 1].virtualTime)
  }

  /** An application's last finish tag grows at least by what its requests cost
      and the units of the delays they use up, and by exactly that while it stays
      ahead of virtual time. */
  lemma {:induction false} TagsGrowByDelay(last: int, gs: seq<Tagging>)
    requires Weighted(gs)
    ensures LastAfter(last, gs) >= last + Costs(gs) + Units(gs)
    ensures AheadOfTime(last, gs) ==> LastAfter(last, gs) == last + Costs(gs) + Units(gs)
  {
    if gs != [] {
      var g := gs[|gs| - 1];
      assert g in gs;
      TagsGrowByDelay(last, gs[..|gs| - 1]);
      QuotientBounds(g.delay, g.weight * REDUCER);
      DelayPutsOff(g.virtualTime, LastAfter(last, gs[..|gs| - 1]), g.delay, g.weight, g.delay / (g.weight * REDUCER));
    }
  }

  /** With one weight the units are those of all delay used up, but for less than
      one for each request. */
  lemma {:induction false} UnitsOfDelays(gs: seq<Tagging>, unit: nat)
    requires Weighted(gs) && unit > 0 && forall g :: g in gs ==> g.weight * REDUCER == unit
    ensures unit * Units(gs) <= Delays(gs) <= unit * Units(gs) + (unit - 1) * |gs|
  {
    if gs != [] {
      var g, init := gs[|gs| - 1], gs[..|gs| - 1];
      assert g in gs;
      UnitsOfDelays(init, unit);
      QuotientBounds(g.delay, unit);
      assert unit * (Units(init) + g.delay / unit) == unit * Units(init) + unit * (g.delay / unit);
      assert (unit - 1) * (|init| + 1) == (unit - 1) * |init| + (unit - 1);
    }
  }

  lemma TaggedOneMore(last: int, gs: seq<Tagging>, g: Tagging)
    requires Weighted(gs) && g.weight > 0
    ensures Weighted(gs + [g]) && LastAfter(last, gs + [g]) == FinishAfter(LastAfter(last, gs), g)
    ensures Delays(gs + [g]) == Delays(gs) + g.delay
  {
    assert (gs + [g])[..|gs|] == gs;
  }

  /** The delays used up and the last finish tags of all applications are those
      of the requests tagged. */
  ghost predicate TagsRight(last: seq<int>, used: seq<nat>, taggings: seq<seq<Tagging>>) {
    && |taggings| == |used| == |last|
    && forall a :: 0 <= a < |taggings| ==>
         Weighted(taggings[a]) && used[a] == Delays(taggings[a]) && last[a] == LastAfter(0, taggings[a])
  }

  lemma TagsStayRight(last: seq<int>, used: seq<nat>, taggings: seq<seq<Tagging>>, a: nat, g: Tagging)
    requires TagsRight(last, used, taggings) && a < |last| && g.weight > 0
    ensures |used| == |taggings| == |last|
    ensures TagsRight(last[a := FinishAfter(last[a], g)], used[a := used[a] + g.delay],
                      taggings[a := taggings[a] + [g]])
  {
    hide FinishAfter;
    TaggedOneMore(0, taggings[a], g);
  }

  lemma NoneTagged(apps: nat)
    ensures TagsRight(seq(apps, i => 0), B.Zeros(apps), seq(apps, i => []))
  {
  }

  class Proxy {
    const me: nat
    const threshold: nat
    const requestReceiveQueue: array<nat>
    const delayValues: array<nat>
    const lastFinishTags: array<int>
    const broadcastBuffer: array<Option<seq<nat>>>
    var currentIoCounter: nat
    var thresholdReady: bool
    var broadcastBegin: bool
    var broadcastComplete: bool
    var virtualTime: int
    var inbox: seq<seq<seq<nat>>>
    var receiver: B.Receiver
    ghost var added: seq<nat>
    ghost var applied: seq<seq<nat>>
    ghost var used: seq<nat>
    ghost var taggings: seq<seq<Tagging>>

    ghost function State(): B.Proxy
      reads this, requestReceiveQueue, delayValues, broadcastBuffer
    {
      B.Proxy(requestReceiveQueue[..], currentIoCounter, thresholdReady, broadcastBegin, broadcastComplete,
              broadcastBuffer[..], inbox, receiver, delayValues[..], added, applied, used)
    }

    /** A proxy among n that serves a number of applications. */
    ghost predicate Valid(n: nat, apps: nat)
      reads this, requestReceiveQueue, delayValues, broadcastBuffer, lastFinishTags
    {
      && requestReceiveQueue != delayValues && lastFinishTags.Length == apps
      && B.Sound(n, apps, threshold, me, State()) && Tagged()
    }

    /** All delay used up went into the tags of the requests that found it. */
    ghost predicate Tagged()
      reads this`taggings, this`used, lastFinishTags
    {
      TagsRight(lastFinishTags[..], used, taggings)
    }

    constructor (n: nat, apps: nat, me: nat, threshold: nat)
      requires me < n && apps > 0
      ensures Valid(n, apps) && State() == B.FreshProxy(n, apps) && this.me == me && this.threshold == threshold
    {
      this.me, this.threshold := me, threshold;
      requestReceiveQueue := new nat[apps](i => 0);
      delayValues := new nat[apps](i => 0);
      lastFinishTags := new int[apps](i => 0);
      broadcastBuffer := new Option<seq<nat>>[n](i => None);
      currentIoCounter, thresholdReady, broadcastBegin, broadcastComplete := 0, false, false, true;
      virtualTime := 0;
      inbox, receiver := seq(n, i => []), B.Waiting;
      added, applied, used := B.Zeros(apps), seq(n, i => B.Zeros(apps)), B.Zeros(apps);
      taggings := seq(apps, i => []);
      new;
      hide TagsRight;
      NoneTagged(apps);
      assert lastFinishTags[..] == seq(apps, i => 0);
      B.InitialGood(n, apps, threshold);
      assert B.Sound(n, apps, threshold, me, B.Initial(n, apps)[me]);
      hide B.Sound;
      assert requestReceiveQueue[..] == B.Zeros(apps) && delayValues[..] == B.Zeros(apps);
      assert broadcastBuffer[..] == seq(n, i => None);
    }

    /** dsfq_enqueue under the broadcast mutex: count the bytes, and wake the
        coordinator once there are enough. */
    method CountRequest(ghost n: nat, app: nat, length: nat)
      requires Valid(n, lastFinishTags.Length) && app < lastFinishTags.Length
      modifies this`currentIoCounter, this`thresholdReady, this`added, requestReceiveQueue
      ensures Valid(n, lastFinishTags.Length)
      ensures State() == B.Added(old(State()), app, length, old(currentIoCounter) + length >= threshold)
    {
      B.AddedKeeps(n, lastFinishTags.Length, threshold, me, State(), app, length,
                   currentIoCounter + length >= threshold);
      hide B.Sound, TagsRight;
      requestReceiveQueue[app] := requestReceiveQueue[app] + length;
      currentIoCounter := currentIoCounter + length;
      added := added[app := added[app] + length];
      if currentIoCounter >= threshold {
        thresholdReady := true;
      }
    }

    /** dsfq_enqueue under the queue mutex: use up the delay due and give the request its tags. */
    method TagRequest(ghost n: nat, app: nat, length: nat, weight: nat) returns (startTag: int, finishTag: int)
      requires Valid(n, lastFinishTags.Length) && app < lastFinishTags.Length && weight > 0
      modifies this`used, this`taggings, delayValues, lastFinishTags
      ensures Valid(n, lastFinishTags.Length) && State() == B.Used(old(State()), app)
      ensures startTag == StartTag(virtualTime, old(lastFinishTags[app]), old(delayValues[app]), weight)
      ensures finishTag == startTag + length / weight / REDUCER
      ensures lastFinishTags[..] == old(lastFinishTags[..])[app := finishTag]
      ensures taggings == old(taggings[app := taggings[app] + [Tagging(delayValues[app], length, weight, virtualTime)]])
    {
      B.UsedKeeps(n, lastFinishTags.Length, threshold, me, State(), app);
      hide B.Sound, TagsRight;
      ghost var g := Tagging(delayValues[app], length, weight, virtualTime);
      TagsStayRight(lastFinishTags[..], used, taggings, app, g);
      taggings := taggings[app := taggings[app] + [g]];
      var delay := delayValues[app];
      used := used[app := used[app] + delayValues[app]];
      delayValues[app] := 0;
      startTag := Max(virtualTime, lastFinishTags[app] + delay / (weight * REDUCER));
      finishTag := startTag + length / weight / REDUCER;
      lastFinishTags[app] := finishTag;
    }

    /** dsfq_broadcast_trigger_work, once its two waits are over. */
    method Trigger(ghost n: nat)
      requires Valid(n, lastFinishTags.Length) && broadcastComplete && thresholdReady
      modifies this`currentIoCounter, this`thresholdReady, this`broadcastBegin, this`broadcastComplete
      modifies requestReceiveQueue, broadcastBuffer
      ensures Valid(n, lastFinishTags.Length) && State() == B.Fired(old(State()), me)
    {
      hide B.Sound, TagsRight;
      B.FiredKeeps(n, lastFinishTags.Length, threshold, me, State());
      var msg := requestReceiveQueue[..];
      B.FillBuffers(broadcastBuffer, me, msg);
      broadcastComplete, thresholdReady := false, false;
      B.ClearQueue(requestReceiveQueue);
      currentIoCounter := 0;
      broadcastBegin := true;
    }

    /** The worker hands the message for peer q to its socket. */
    method SendTo(ghost n: nat, q: nat) returns (msg: seq<nat>)
      requires Valid(n, lastFinishTags.Length) && q < n && broadcastBegin && broadcastBuffer[q].Some?
      modifies broadcastBuffer
      ensures Valid(n, lastFinishTags.Length) && State() == B.Sent(old(State()), q)
      ensures Some(msg) == old(broadcastBuffer[q]) && B.MsgOk(lastFinishTags.Length, threshold, msg)
    {
      B.SentSound(n, lastFinishTags.Length, threshold, me, State(), q);
      hide B.Sound, TagsRight;
      msg := broadcastBuffer[q].value;
      broadcastBuffer[q] := None;
    }

    /** The worker looks for unsent messages; the broadcast is over when there is none. */
    method CheckComplete(ghost n: nat)
      requires Valid(n, lastFinishTags.Length) && broadcastBegin
      modifies this`broadcastBegin, this`broadcastComplete
      ensures Valid(n, lastFinishTags.Length)
      ensures State() == if forall q :: 0 <= q < n ==> broadcastBuffer[q] == None then B.Finished(old(State()))
                         else old(State())
    {
      var completeFlag := true;
      var i := 0;
      while i < broadcastBuffer.Length
        invariant i <= broadcastBuffer.Length && completeFlag
        invariant forall q :: 0 <= q < i ==> broadcastBuffer[q] == None
      {
        if broadcastBuffer[i] != None {
          completeFlag := false;
          break;
        }
        i := i + 1;
      }
      if completeFlag {
        broadcastBegin, broadcastComplete := false, true;
      }
    }

    /** The receiver gets a whole message from peer p. */
    method Receive(ghost n: nat, p: nat)
      requires Valid(n, lastFinishTags.Length) && p < n && receiver.Waiting? && inbox[p] != []
      modifies this`inbox, this`receiver
      ensures Valid(n, lastFinishTags.Length) && State() == B.Fetched(old(State()), p)
    {
      B.FetchedKeeps(n, lastFinishTags.Length, threshold, me, State(), p);
      hide B.Sound, TagsRight;
      receiver := B.Applying(p, inbox[p][0], 0);
      inbox := inbox[p := inbox[p][1..]];
    }

    /** The receiver adds the next amount to what is due, under the queue mutex. */
    method ApplyNext(ghost n: nat)
      requires Valid(n, lastFinishTags.Length) && receiver.Applying?
      modifies this`receiver, this`applied, delayValues
      ensures Valid(n, lastFinishTags.Length) && State() == B.AppliedNext(old(State()))
    {
      B.AppliedKeeps(n, lastFinishTags.Length, threshold, me, State());
      var app, periodCount := receiver.done, receiver.msg[receiver.done];
      delayValues[app] := delayValues[app] + periodCount;
      applied := B.Bumped(applied, receiver.from, app, periodCount);
      receiver := if app + 1 == |receiver.msg| then B.Waiting else receiver.(done := app + 1);
    }
  }

  // ---------- the whole system ----------

  /** In DSFQ the amounts are bytes and the coordinator is woken at the threshold
      exactly. */
  ghost predicate Possible(threshold: nat, ps: seq<B.Proxy>, s: B.Step) {
    && B.Enabled(threshold, ps, s)
    && (s.Add? ==> (s.enough <==> ps[s.p].counter + s.amount >= threshold))
  }

  ghost predicate AllPossible(threshold: nat, ps: seq<B.Proxy>, ss: seq<B.Step>)
    decreases |ss|
  {
    ss == [] || (Possible(threshold, ps, ss[0]) && AllPossible(threshold, B.Next(threshold, ps, ss[0]), ss[1..]))
  }

  lemma {:induction false} PossibleEnabled(threshold: nat, ps: seq<B.Proxy>, ss: seq<B.Step>)
    requires AllPossible(threshold, ps, ss)
    ensures B.AllEnabled(threshold, ps, ss)
    decreases |ss|
  {
    if ss != [] {
      PossibleEnabled(threshold, B.Next(threshold, ps, ss[0]), ss[1..]);
    }
  }

  /** The coordinator is awake exactly while there are enough bytes to tell. */
  ghost predicate Awake(threshold: nat, x: B.Proxy) { x.ready <==> x.counter >= threshold }

  lemma StepAwake(threshold: nat, ps: seq<B.Proxy>, s: B.Step, p: nat)
    requires Possible(threshold, ps, s) && threshold > 0 && p < |ps| && Awake(threshold, ps[p])
    ensures |B.Next(threshold, ps, s)| == |ps| && Awake(threshold, B.Next(threshold, ps, s)[p])
  {
  }

  /** Over every run the coordinator is awake exactly while there are enough bytes. */
  lemma {:induction false} WokenAtThreshold(threshold: nat, ps: seq<B.Proxy>, ss: seq<B.Step>, p: nat)
    requires AllPossible(threshold, ps, ss) && threshold > 0 && p < |ps| && Awake(threshold, ps[p])
    ensures B.AllEnabled(threshold, ps, ss)
    ensures |B.Run(threshold, ps, ss)| == |ps| && Awake(threshold, B.Run(threshold, ps, ss)[p])
    decreases |ss|
  {
    PossibleEnabled(threshold, ps, ss);
    hide Awake, B.Next, B.Enabled;
    if ss != [] {
      StepAwake(threshold, ps, ss[0], p);
      WokenAtThreshold(threshold, B.Next(threshold, ps, ss[0]), ss[1..], p);
    }
  }

  /** Bytes are conserved between every two proxies in every interleaving of
      their threads; a broadcast never goes over an unsent one, and always tells
      of at least the threshold. */
  lemma BytesConserved(n: nat, apps: nat, threshold: nat, ss: seq<B.Step>, p: nat, q: nat, a: nat)
    requires apps > 0 && AllPossible(threshold, B.Initial(n, apps), ss) && p < n && q < n && p != q && a < apps
    ensures B.AllEnabled(threshold, B.Initial(n, apps), ss)
    ensures var ps := B.Run(threshold, B.Initial(n, apps), ss);
      && |ps| == n && B.Sound(n, apps, threshold, p, ps[p]) && B.Sound(n, apps, threshold, q, ps[q])
      && B.AmountOf(ss, p, a) == ps[p].pending[a] + B.InBuffer(ps[p].buffer[q], a) + B.InInbox(ps[q].inbox[p], a)
                           + B.InReceiver(ps[q].receiver, p, a) + ps[q].applied[p][a]
      && B.Column(ps[q].applied, a) == ps[q].delay[a] + ps[q].used[a]
      && (Possible(threshold, ps, B.Fire(p)) ==> ps[p].buffer[q] == None && Sum(ps[p].pending) >= threshold)
      && forall i :: 0 <= i < |ps[q].inbox[p]| ==> Sum(ps[q].inbox[p][i]) >= threshold
  {
    PossibleEnabled(threshold, B.Initial(n, apps), ss);
    B.ConservationOfBytes(n, apps, threshold, ss, p, q, a);
    B.NeverOverwritten(n, apps, threshold, ss, p, q);
  }
}
