/** One direction of the relay (proxy2.c, message.c): messages are received into
    buffers and sent on, several on their way at once, on a socket that is
    written one message at a time. */
module Relay {
  import opened Basics

  type Byte = bv8

  /** data is what has come of a message of size bytes, head how much of it has gone out. */
  datatype Msg = Msg(data: seq<Byte>, head: nat, size: nat, locked: bool)

  /** The messages in order of arrival, the one being received, the one being sent,
      what was written to the socket, and which messages went out whole, in order. */
  datatype Link = Link(msgs: seq<Msg>, receiving: Option<nat>, sending: Option<nat>, out: seq<Byte>, gone: seq<nat>)

  // ---------- the steps ----------

  /** list_req_state_buffer_nonempty_nonlock_comp */
  predicate Sendable(m: Msg) { |m.data| != m.head && !m.locked }

  function FirstSendable(ms: seq<Msg>, i: nat): (r: Option<nat>)
    requires i <= |ms|
    ensures r.Some? ==> i <= r.value < |ms| && Sendable(ms[r.value]) && forall k :: i <= k < r.value ==> !Sendable(ms[k])
    ensures r.None? ==> forall k :: i <= k < |ms| ==> !Sendable(ms[k])
    decreases |ms| - i
  {
    if i == |ms| then None else if Sendable(ms[i]) then Some(i) else FirstSendable(ms, i + 1)
  }

  /** update_socket_current_send */
  function Picked(l: Link): Link {
    if l.sending.Some? then l else l.(sending := FirstSendable(l.msgs, 0))
  }

  /** The header of a message is seen: it goes to the end of the list, locked if the scheduler holds it back. */
  function Begun(l: Link, size: nat, locked: bool): Link {
    l.(msgs := l.msgs + [Msg([], 0, size, locked)], receiving := Some(|l.msgs|))
  }

  /** Some bytes of the message come in. */
  function Received(l: Link, bytes: seq<Byte>): Link
    requires l.receiving.Some? && l.receiving.value < |l.msgs|
  {
    var i := l.receiving.value;
    var m := l.msgs[i].(data := l.msgs[i].data + bytes);
    l.(msgs := l.msgs[i := m], receiving := if |m.data| == m.size then None else l.receiving)
  }

  /** The scheduler lets a message go. */
  function Unlocked(l: Link, i: nat): Link
    requires i < |l.msgs|
  {
    l.(msgs := l.msgs[i := l.msgs[i].(locked := false)])
  }

  /** The socket takes n bytes of the message being sent. */
  function SentSome(l: Link, n: nat): Link
    requires l.sending.Some? && l.sending.value < |l.msgs|
    requires var m := l.msgs[l.sending.value]; m.head + n <= |m.data|
  {
    var m := l.msgs[l.sending.value];
    if m.head + n == |m.data| == m.size then
      Picked(Written(l, n).(sending := None, gone := l.gone + [l.sending.value]))
    else Written(l, n)
  }

  function Written(l: Link, n: nat): Link
    requires l.sending.Some? && l.sending.value < |l.msgs|
    requires var m := l.msgs[l.sending.value]; m.head + n <= |m.data|
  {
    var i := l.sending.value;
    var m := l.msgs[i];
    l.(out := l.out + m.data[m.head..m.head + n], msgs := l.msgs[i := m.(head := m.head + n)])
  }

  datatype Step = Begin(size: nat, locked: bool) | Receive(bytes: seq<Byte>) | Unlock(i: nat) | Pick | Send(n: nat)

  predicate Enabled(l: Link, s: Step) {
    match s
    case Begin(size, _) => l.receiving.None? && size > 0
    case Receive(bytes) =>
      && l.receiving.Some? && l.receiving.value < |l.msgs|
      && 0 < |bytes| <= l.msgs[l.receiving.value].size - |l.msgs[l.receiving.value].data|
    case Unlock(i) => i < |l.msgs|
    case Pick => true
    case Send(n) =>
      && l.sending.Some? && l.sending.value < |l.msgs|
      && 0 < n <= |l.msgs[l.sending.value].data| - l.msgs[l.sending.value].head
  }

  function Next(l: Link, s: Step): Link
    requires Enabled(l, s)
  {
    match s
    case Begin(size, locked) => Begun(l, size, locked)
    case Receive(bytes) => Received(l, bytes)
    case Unlock(i) => Unlocked(l, i)
    case Pick => Picked(l)
    case Send(n) => SentSome(l, n)
  }

  // ---------- what every state satisfies ----------

  ghost predicate Named(ms: seq<Msg>, names: seq<nat>) {
    forall k :: 0 <= k < |names| ==> names[k] < |ms|
  }

  /** The data of the messages named, one after another. */
  ghost function Joined(ms: seq<Msg>, names: seq<nat>): seq<Byte>
    requires Named(ms, names)
  {
    if names == [] then [] else Joined(ms, names[..|names| - 1]) + ms[names[|names| - 1]].data
  }

  /** What has gone out of the message being sent. */
  function PartSent(l: Link): seq<Byte> {
    if l.sending.Some? && l.sending.value < |l.msgs| && l.msgs[l.sending.value].head <= |l.msgs[l.sending.value].data|
    then l.msgs[l.sending.value].data[..l.msgs[l.sending.value].head]
    else []
  }

  /** A message goes out only after it came in; it is part sent only while it is
      the one being sent; and nothing of a locked message goes out. */
  ghost predicate MsgOk(l: Link, i: nat)
    requires i < |l.msgs|
  {
    var m := l.msgs[i];
    && m.head <= |m.data| <= m.size && m.size > 0
    && (|m.data| < m.size <==> l.receiving == Some(i))
    && (0 < m.head < m.size ==> l.sending == Some(i))
    && (m.head == m.size <==> i in l.gone)
    && (m.locked ==> m.head == 0 && l.sending != Some(i))
  }

  ghost predicate Orderly(l: Link) {
    && (l.receiving.Some? ==> l.receiving.value < |l.msgs|)
    && (l.sending.Some? ==> l.sending.value < |l.msgs| && l.sending.value !in l.gone)
    && (forall i :: 0 <= i < |l.msgs| ==> MsgOk(l, i))
    && Named(l.msgs, l.gone) && Distinct(l.gone)
    && l.out == Joined(l.msgs, l.gone) + PartSent(l)
  }

  /** The joined data depends on nothing but the data of the messages named. */
  lemma {:induction false} JoinedSame(ms: seq<Msg>, ns: seq<Msg>, names: seq<nat>)
    requires Named(ms, names) && Named(ns, names)
    requires forall k :: 0 <= k < |names| ==> ms[names[k]].data == ns[names[k]].data
    ensures Joined(ms, names) == Joined(ns, names)
  {
    if names != [] {
      JoinedSame(ms, ns, names[..|names| - 1]);
    }
  }

  lemma PickedOrderly(l: Link)
    requires Orderly(l)
    ensures Orderly(Picked(l))
  {
    if l.sending.None? {
      var r := FirstSendable(l.msgs, 0);
      forall i | 0 <= i < |l.msgs| ensures MsgOk(Picked(l), i) {
        assert MsgOk(l, i);
      }
      if r.Some? {
        assert MsgOk(l, r.value);
        assert l.msgs[r.value].head == 0;
      }
    }
  }

  lemma BegunOrderly(l: Link, size: nat, locked: bool)
    requires Orderly(l) && l.receiving.None? && size > 0
    ensures Orderly(Begun(l, size, locked))
  {
    var k := Begun(l, size, locked);
    forall i | 0 <= i < |k.msgs| ensures MsgOk(k, i) {
      if i < |l.msgs| {
        assert MsgOk(l, i);
      } else {
        assert forall g :: g in l.gone ==> g < |l.msgs|;
      }
    }
    JoinedSame(l.msgs, k.msgs, l.gone);
  }

  lemma ReceivedOrderly(l: Link, bytes: seq<Byte>)
    requires Orderly(l) && Enabled(l, Receive(bytes))
    ensures Orderly(Received(l, bytes))
  {
    var j, k := l.receiving.value, Received(l, bytes);
    assert MsgOk(l, j);
    forall i | 0 <= i < |k.msgs| ensures MsgOk(k, i) {
      assert MsgOk(l, i);
    }
    assert j !in l.gone;
    JoinedSame(l.msgs, k.msgs, l.gone);
    assert PartSent(k) == PartSent(l);
  }

  lemma UnlockedOrderly(l: Link, j: nat)
    requires Orderly(l) && j < |l.msgs|
    ensures Orderly(Unlocked(l, j))
  {
    var k := Unlocked(l, j);
    forall i | 0 <= i < |k.msgs| ensures MsgOk(k, i) {
      assert MsgOk(l, i);
    }
    JoinedSame(l.msgs, k.msgs, l.gone);
  }

  lemma MoreSent(before: seq<Byte>, data: seq<Byte>, head: nat, n: nat)
    requires head + n <= |data|
    ensures (before + data[..head]) + data[head..head + n] == before + data[..head + n]
  {
    assert data[..head] + data[head..head + n] == data[..head + n];
  }

  /** Some bytes more, but the message is not through. */
  lemma SentPartOrderly(l: Link, n: nat)
    requires Orderly(l) && Enabled(l, Send(n))
    requires var m := l.msgs[l.sending.value]; !(m.head + n == |m.data| == m.size)
    ensures Orderly(SentSome(l, n))
  {
    hide Joined, FirstSendable, Distinct;
    var j, k := l.sending.value, SentSome(l, n);
    var m := l.msgs[j];
    assert MsgOk(l, j);
    forall i | 0 <= i < |k.msgs| ensures MsgOk(k, i) {
      assert MsgOk(l, i);
    }
    JoinedSame(l.msgs, k.msgs, l.gone);
    MoreSent(Joined(l.msgs, l.gone), m.data, m.head, n);
  }

  lemma LastBytes(l: Link, n: nat)
    requires Orderly(l) && Enabled(l, Send(n))
    requires var m := l.msgs[l.sending.value]; m.head + n == |m.data| == m.size
    ensures var j := l.sending.value;
      var m, msgs := l.msgs[j], l.msgs[j := l.msgs[j].(head := l.msgs[j].head + n)];
      && Named(msgs, l.gone + [j]) && Distinct(l.gone + [j])
      && l.out + m.data[m.head..m.head + n] == Joined(msgs, l.gone + [j])
  {
    var j := l.sending.value;
    var m, msgs := l.msgs[j], l.msgs[j := l.msgs[j].(head := l.msgs[j].head + n)];
    DistinctSnoc(l.gone, j);
    JoinedSame(l.msgs, msgs, l.gone);
    assert (l.gone + [j])[..|l.gone|] == l.gone;
    MoreSent(Joined(l.msgs, l.gone), m.data, m.head, n);
    assert m.data[..|m.data|] == m.data;
  }

  /** The last bytes of the message: it is gone whole, and the socket free. */
  lemma SentWholeOrderly(l: Link, n: nat)
    requires Orderly(l) && Enabled(l, Send(n))
    requires var m := l.msgs[l.sending.value]; m.head + n == |m.data| == m.size
    ensures Orderly(Written(l, n).(sending := None, gone := l.gone + [l.sending.value]))
    ensures Orderly(SentSome(l, n))
  {
    hide FirstSendable, Joined, Distinct;
    LastBytes(l, n);
    var j := l.sending.value;
    var k := Written(l, n).(sending := None, gone := l.gone + [j]);
    assert MsgOk(l, j);
    forall i | 0 <= i < |k.msgs| ensures MsgOk(k, i) {
      assert MsgOk(l, i);
    }
    assert k.out == Joined(k.msgs, k.gone) + PartSent(k);
    PickedOrderly(k);
  }

  lemma SentOrderly(l: Link, n: nat)
    requires Orderly(l) && Enabled(l, Send(n))
    ensures Orderly(SentSome(l, n))
    ensures var m := l.msgs[l.sending.value];
      if m.head + n == |m.data| == m.size
      then Orderly(Written(l, n).(sending := None, gone := l.gone + [l.sending.value]))
      else SentSome(l, n) == Written(l, n)
  {
    hide Orderly;
    var m := l.msgs[l.sending.value];
    if m.head + n == |m.data| == m.size {
      SentWholeOrderly(l, n);
    } else {
      SentPartOrderly(l, n);
    }
  }

  lemma StepOrderly(l: Link, s: Step)
    requires Orderly(l) && Enabled(l, s)
    ensures Orderly(Next(l, s))
  {
    hide Orderly;
    match s {
      case Begin(size, locked) => BegunOrderly(l, size, locked);
      case Receive(bytes) => ReceivedOrderly(l, bytes);
      case Unlock(i) => UnlockedOrderly(l, i);
      case Pick => PickedOrderly(l);
      case Send(n) => SentOrderly(l, n);
    }
  }

  // ---------- runs ----------

  ghost predicate AllEnabled(l: Link, ss: seq<Step>)
    decreases |ss|
  {
    ss == [] || (Enabled(l, ss[0]) && AllEnabled(Next(l, ss[0]), ss[1..]))
  }

  function Run(l: Link, ss: seq<Step>): Link
    requires AllEnabled(l, ss)
    decreases |ss|
  {
    if ss == [] then l else Run(Next(l, ss[0]), ss[1..])
  }

  const QUIET := Link([], None, None, [], [])

  lemma {:induction false} RunOrderly(l: Link, ss: seq<Step>)
    requires Orderly(l) && AllEnabled(l, ss)
    ensures Orderly(Run(l, ss))
    decreases |ss|
  {
    hide Orderly;
    if ss != [] {
      StepOrderly(l, ss[0]);
      RunOrderly(Next(l, ss[0]), ss[1..]);
    }
  }

  /** Over every interleaving of partial receives and sends, what was written is
      whole messages one after another, each received whole and sent once, and
      then the first bytes of the one being sent; no byte of a locked message is
      among it. */
  lemma WholeMessages(ss: seq<Step>, i: nat)
    requires AllEnabled(QUIET, ss) && i < |Run(QUIET, ss).msgs|
    ensures var l := Run(QUIET, ss);
      && Named(l.msgs, l.gone) && Distinct(l.gone) && l.out == Joined(l.msgs, l.gone) + PartSent(l)
      && l.msgs[i].head <= |l.msgs[i].data| <= l.msgs[i].size
      && (i in l.gone ==> l.msgs[i].head == |l.msgs[i].data| == l.msgs[i].size && l.sending != Some(i))
      && (0 < l.msgs[i].head < l.msgs[i].size ==> l.sending == Some(i))
      && (l.msgs[i].locked ==> i !in l.gone && l.sending != Some(i) && l.msgs[i].head == 0)
  {
    RunOrderly(QUIET, ss);
    assert MsgOk(Run(QUIET, ss), i);
  }

  // ---------- what comes in ----------

  /** The data of all messages, in order of arrival. */
  function AllData(ms: seq<Msg>): seq<Byte> {
    if ms == [] then [] else AllData(ms[..|ms| - 1]) + ms[|ms| - 1].data
  }

  function BytesIn(s: Step): seq<Byte> { if s.Receive? then s.bytes else [] }

  /** The bytes received in a run, how many are sent, and the messages begun. */
  function Incoming(ss: seq<Step>): seq<Byte> { if ss == [] then [] else BytesIn(ss[0]) + Incoming(ss[1..]) }

  function SentCount(ss: seq<Step>): nat {
    if ss == [] then 0 else (if ss[0].Send? then ss[0].n else 0) + SentCount(ss[1..])
  }

  function Begins(ss: seq<Step>): seq<Step> {
    if ss == [] then [] else (if ss[0].Begin? then [ss[0]] else []) + Begins(ss[1..])
  }

  /** Only the newest message is ever being received. */
  ghost predicate TakesLast(l: Link) { l.receiving.Some? ==> l.receiving.value == |l.msgs| - 1 }

  lemma {:induction false} AllDataSame(ms: seq<Msg>, ns: seq<Msg>)
    requires |ms| == |ns| && forall i :: 0 <= i < |ms| ==> ms[i].data == ns[i].data
    ensures AllData(ms) == AllData(ns)
  {
    if ms != [] {
      AllDataSame(ms[..|ms| - 1], ns[..|ns| - 1]);
    }
  }

  lemma AllDataLast(ms: seq<Msg>, m: Msg)
    ensures AllData(ms + [m]) == AllData(ms) + m.data
  {
    assert (ms + [m])[..|ms|] == ms;
  }

  lemma PickedTakesNone(l: Link)
    ensures Picked(l).msgs == l.msgs && Picked(l).receiving == l.receiving && Picked(l).out == l.out
  {
  }

  /** A step adds to the data what it receives, and to the output as many bytes as it sends. */
  lemma StepTakesIn(l: Link, s: Step)
    requires Enabled(l, s) && TakesLast(l)
    ensures TakesLast(Next(l, s)) && AllData(Next(l, s).msgs) == AllData(l.msgs) + BytesIn(s)
    ensures |Next(l, s).out| == |l.out| + if s.Send? then s.n else 0
  {
    hide FirstSendable;
    var k := Next(l, s);
    match s {
      case Begin(size, locked) => AllDataLast(l.msgs, Msg([], 0, size, locked));
      case Receive(bytes) =>
        var n, init := |l.msgs| - 1, l.msgs[..|l.msgs| - 1];
        assert k.msgs == init + [k.msgs[n]] && l.msgs == init + [l.msgs[n]];
        AllDataLast(init, k.msgs[n]);
        AllDataLast(init, l.msgs[n]);
      case Unlock(i) => AllDataSame(l.msgs, k.msgs);
      case Pick => PickedTakesNone(l);
      case Send(n) => AllDataSame(l.msgs, k.msgs);
    }
  }

  lemma {:induction false} RunTakesIn(l: Link, ss: seq<Step>)
    requires AllEnabled(l, ss) && TakesLast(l)
    ensures AllData(Run(l, ss).msgs) == AllData(l.msgs) + Incoming(ss)
    ensures |Run(l, ss).out| == |l.out| + SentCount(ss)
    decreases |ss|
  {
    hide Next, Enabled, TakesLast, AllData;
    if ss != [] {
      StepTakesIn(l, ss[0]);
      RunTakesIn(Next(l, ss[0]), ss[1..]);
    }
  }

  /** The sizes and locks of the messages after a step: a new message has those
      it began with, and a lock goes when it is opened. */
  lemma StepLabels(l: Link, s: Step)
    requires Enabled(l, s)
    ensures var k := Next(l, s);
      && |k.msgs| == |l.msgs| + (if s.Begin? then 1 else 0)
      && (forall i :: 0 <= i < |l.msgs| ==>
            k.msgs[i].size == l.msgs[i].size && k.msgs[i].locked == (l.msgs[i].locked && s != Unlock(i)))
      && (s.Begin? ==> (k.msgs[|l.msgs|].size, k.msgs[|l.msgs|].locked) == (s.size, s.locked))
  {
    hide FirstSendable;
  }

  /** Message i has the size it began with, and is locked exactly if it began
      locked and has not been unlocked. */
  ghost predicate Labelled(l: Link, k: Link, ss: seq<Step>, i: nat)
    requires i < |k.msgs|
  {
    && (i < |l.msgs| ==>
          k.msgs[i].size == l.msgs[i].size && k.msgs[i].locked == (l.msgs[i].locked && Unlock(i) !in ss))
    && (i >= |l.msgs| ==>
          var j := i - |l.msgs|;
          && j < |Begins(ss)| && Begins(ss)[j].Begin?
          && k.msgs[i].size == Begins(ss)[j].size
          && k.msgs[i].locked == (Begins(ss)[j].locked && Unlock(i) !in ss))
  }

  lemma {:induction false} RunLabels(l: Link, ss: seq<Step>, i: nat)
    requires AllEnabled(l, ss) && i < |Run(l, ss).msgs|
    ensures |Run(l, ss).msgs| == |l.msgs| + |Begins(ss)| && Labelled(l, Run(l, ss), ss, i)
    decreases |ss|
  {
    hide Next;
    if ss != [] {
      StepLabels(l, ss[0]);
      RunLabels(Next(l, ss[0]), ss[1..], i);
      assert ss == [ss[0]] + ss[1..];
      assert i >= |l.msgs| ==> ss[0] != Unlock(i);
    }
  }

  lemma {:induction false} DataAt(ms: seq<Msg>, i: nat)
    requires i < |ms|
    ensures AllData(ms[..i]) + ms[i].data <= AllData(ms)
  {
    var n := |ms| - 1;
    if i < n {
      DataAt(ms[..n], i);
      assert ms[..n][..i] == ms[..i];
    }
  }

  /** Over every run from the start: the data of all messages, joined in order of
      arrival, is all that was received; each message is the stretch of it behind
      those before, of the size it began with; as many bytes went out as were
      sent; and a message is locked exactly until it is unlocked. */
  lemma WhatCameIn(ss: seq<Step>, i: nat)
    requires AllEnabled(QUIET, ss) && i < |Run(QUIET, ss).msgs|
    ensures var l := Run(QUIET, ss);
      && AllData(l.msgs) == Incoming(ss) && |l.out| == SentCount(ss)
      && AllData(l.msgs[..i]) + l.msgs[i].data <= Incoming(ss)
      && |l.msgs| == |Begins(ss)| && Begins(ss)[i].Begin? && l.msgs[i].size == Begins(ss)[i].size
      && l.msgs[i].locked == (Begins(ss)[i].locked && Unlock(i) !in ss)
  {
    hide Run, AllEnabled;
    RunTakesIn(QUIET, ss);
    RunLabels(QUIET, ss, i);
    DataAt(Run(QUIET, ss).msgs, i);
  }

  /** A pick takes the first message that may go, if the socket is free; it finds
      none only if there is none. */
  lemma PicksFirst(l: Link)
    ensures var k := Picked(l);
      && (l.sending.Some? ==> k == l)
      && (l.sending.None? ==>
            && (forall i :: 0 <= i < |l.msgs| && Sendable(l.msgs[i]) ==> k.sending.Some? && k.sending.value <= i)
            && (k.sending.Some? ==> k.sending.value < |l.msgs| && Sendable(l.msgs[k.sending.value])))
  {
  }

  /** When the last byte of a message is sent the next that may go is picked. */
  lemma NextPicked(l: Link, n: nat)
    requires Enabled(l, Send(n))
    requires var m := l.msgs[l.sending.value]; m.head + n == |m.data| == m.size
    ensures var k := SentSome(l, n);
      && k.gone == l.gone + [l.sending.value]
      && (k.sending.None? ==> forall i :: 0 <= i < |k.msgs| ==> !Sendable(k.msgs[i]))
      && (k.sending.Some? ==> k.sending.value < |k.msgs| && Sendable(k.msgs[k.sending.value]))
  {
    hide FirstSendable;
    PicksFirst(Written(l, n).(sending := None, gone := l.gone + [l.sending.value]));
  }

  // ---------- the objects of the program ----------

  class RequestState {
    const buffer: array<Byte>
    var head: nat
    var tail: nat
    var locked: bool

    constructor (size: nat, locked: bool)
      ensures head == tail == 0 && this.locked == locked && buffer.Length == size && fresh(buffer)
    {
      buffer := new Byte[size];
      head, tail, this.locked := 0, 0, locked;
    }
  }

  function View(r: RequestState): Msg
    reads r, r.buffer
  {
    Msg(if r.tail <= r.buffer.Length then r.buffer[..r.tail] else [], r.head, r.buffer.Length, r.locked)
  }

  ghost function Buffers(rs: seq<RequestState>): set<array<Byte>> { set r | r in rs :: r.buffer }

  ghost function Views(rs: seq<RequestState>): (ms: seq<Msg>)
    reads rs, Buffers(rs)
    ensures |ms| == |rs| && forall i :: 0 <= i < |ms| ==> ms[i] == View(rs[i])
  {
    if rs == [] then [] else Views(rs[..|rs| - 1]) + [View(rs[|rs| - 1])]
  }

  /** A socket that writes, with the messages its counterpart has read. */
  class Connection {
    var requests: seq<RequestState>
    var currentReceive: RequestState?
    var currentSend: RequestState?
    ghost var receiving: Option<nat>
    ghost var sending: Option<nat>
    ghost var out: seq<Byte>
    ghost var gone: seq<nat>

    ghost function State(): Link
      reads this, requests, Buffers(requests)
    {
      Link(Views(requests), receiving, sending, out, gone)
    }

    /** Different messages are different objects with different buffers. */
    ghost predicate Apart()
      reads this`requests, requests
    {
      && (forall i, j :: 0 <= i < j < |requests| ==>
            requests[i] != requests[j] && requests[i].buffer != requests[j].buffer)
      && forall i :: 0 <= i < |requests| ==> requests[i].tail <= requests[i].buffer.Length
    }

    ghost predicate Pointed(o: Option<nat>, r: RequestState?)
      reads this`requests
    {
      if o.None? then r == null else o.value < |requests| && r == requests[o.value]
    }

    ghost predicate Valid()
      reads this, requests, Buffers(requests)
    {
      Apart() && Pointed(receiving, currentReceive) && Pointed(sending, currentSend) && Orderly(State())
    }

    constructor ()
      ensures Valid() && State() == QUIET
    {
      requests, currentReceive, currentSend := [], null, null;
      receiving, sending, out, gone := None, None, [], [];
    }

    /** add_request_to_socket, when the header of a message is seen */
    method BeginMessage(size: nat, locked: bool)
      requires Valid() && currentReceive == null && size > 0
      modifies this
      ensures Valid() && State() == Begun(old(State()), size, locked)
    {
      hide Orderly, Views;
      BegunOrderly(State(), size, locked);
      currentReceive := AddRequest(size, locked);
      receiving := Some(|requests| - 1);
      assert State() == Begun(old(State()), size, locked);
    }

    /** A new message goes to the end of the list. */
    method AddRequest(size: nat, locked: bool) returns (r: RequestState)
      requires Apart()
      modifies this`requests
      ensures Apart() && requests == old(requests) + [r] && fresh(r) && fresh(r.buffer)
      ensures Views(requests) == old(Views(requests)) + [Msg([], 0, size, locked)]
    {
      hide Views;
      ghost var before := Views(requests);
      r := new RequestState(size, locked);
      requests := requests + [r];
      assert r.buffer[..0] == [];
      assert Views(requests) == before + [View(r)];
    }

    static method Store(r: RequestState, bytes: seq<Byte>)
      requires |bytes| <= r.buffer.Length - r.tail
      modifies r`tail, r.buffer
      ensures r.tail == old(r.tail) + |bytes|
      ensures View(r) == old(View(r)).(data := old(View(r)).data + bytes)
    {
      forall i | 0 <= i < |bytes| {
        r.buffer[r.tail + i] := bytes[i];
      }
      r.tail := r.tail + |bytes|;
    }

    /** The read step of the poll loop: recv() has put bytes into the buffer. */
    method ReceiveBytes(bytes: seq<Byte>)
      requires Valid() && currentReceive != null
      requires 0 < |bytes| <= currentReceive.buffer.Length - currentReceive.tail
      modifies this`receiving, this`currentReceive, currentReceive, currentReceive.buffer
      ensures Valid() && State() == Received(old(State()), bytes)
    {
      hide Orderly, Views;
      ReceivingNow();
      ReceivedOrderly(State(), bytes);
      Fill(bytes);
      if currentReceive.tail == currentReceive.buffer.Length {
        receiving, currentReceive := None, null;
      }
      assert State() == Received(old(State()), bytes);
      assert Orderly(Received(old(State()), bytes));
    }

    method Fill(bytes: seq<Byte>)
      requires Apart() && currentReceive != null && Pointed(receiving, currentReceive)
      requires |bytes| <= currentReceive.buffer.Length - currentReceive.tail
      modifies currentReceive, currentReceive.buffer
      ensures Apart()
      ensures var j, ms := receiving.value, old(Views(requests));
              Views(requests) == ms[j := ms[j].(data := ms[j].data + bytes)]
    {
      hide Views;
      ghost var ms := Views(requests);
      Store(currentReceive, bytes);
      assert Views(requests) == ms[receiving.value := View(currentReceive)];
    }

    /** A completion elsewhere lets the j-th message go. */
    method Unlock(j: nat)
      requires Valid() && j < |requests|
      modifies requests[j]
      ensures Valid() && State() == Unlocked(old(State()), j)
    {
      hide Orderly, Views;
      UnlockedOrderly(State(), j);
      ghost var before := State();
      requests[j].locked := false;
      assert Views(requests) == before.msgs[j := View(requests[j])];
    }

    /** update_socket_current_send */
    method UpdateCurrentSend()
      requires Valid()
      modifies this`sending, this`currentSend
      ensures Valid() && State() == Picked(old(State()))
    {
      hide Orderly, Views;
      PickedOrderly(State());
      if currentSend == null {
        HeadsInBounds();
        var i := 0;
        while i < |requests|
          invariant i <= |requests| && FirstSendable(Views(requests), 0) == FirstSendable(Views(requests), i)
        {
          if requests[i].tail - requests[i].head != 0 && !requests[i].locked {
            assert Sendable(Views(requests)[i]);
            currentSend := requests[i];
            sending := Some(i);
            assert !currentSend.locked;
            assert State() == Picked(old(State()));
            return;
          }
          i := i + 1;
        }
      }
    }

    /** prepare_events for this socket: whether to wait for it to be writable. */
    method PrepareEvents() returns (pollOut: bool)
      requires Valid()
      modifies this`sending, this`currentSend
      ensures Valid() && State() == Picked(old(State()))
      ensures pollOut <==> currentSend != null && currentSend.tail > currentSend.head
      ensures old(sending).None? ==> (pollOut <==> exists m :: m in State().msgs && Sendable(m))
    {
      UpdateCurrentSend();
      if currentSend != null {
        SendingInBounds();
      }
      pollOut := currentSend != null && currentSend.head != currentSend.tail;
    }

    lemma SendingInBounds()
      requires Valid() && currentSend != null
      ensures currentSend.head <= currentSend.tail <= currentSend.buffer.Length && sending.value < |requests|
    {
      assert MsgOk(State(), sending.value);
    }

    lemma HeadsInBounds()
      requires Valid()
      ensures forall i :: 0 <= i < |requests| ==> requests[i].head <= requests[i].tail <= requests[i].buffer.Length
    {
      forall i | 0 <= i < |requests| ensures requests[i].head <= requests[i].tail <= requests[i].buffer.Length {
        assert MsgOk(State(), i);
      }
    }

    lemma ReceivingNow()
      requires Valid() && currentReceive != null
      ensures currentReceive.tail < currentReceive.buffer.Length && receiving.value < |requests|
    {
      assert MsgOk(State(), receiving.value);
    }

    /** The write step of the poll loop: send() has taken n of the bytes ready. */
    method SendBytes(n: nat)
      requires Valid() && currentSend != null && 0 < n <= currentSend.tail - currentSend.head
      modifies this`sending, this`currentSend, this`out, this`gone, currentSend`head
      ensures Valid() && State() == SentSome(old(State()), n)
    {
      hide Orderly, Views, MsgOk;
      SendingInBounds();
      SentOrderly(State(), n);
      Write(n);
      if currentSend.buffer.Length == currentSend.head {
        MessageGone();
      }
    }

    /** The message has gone out whole; look for another. */
    method MessageGone()
      requires Apart() && Pointed(receiving, currentReceive) && sending.Some?
      requires Orderly(State().(sending := None, gone := gone + [sending.value]))
      modifies this`sending, this`currentSend, this`gone
      ensures Valid() && State() == Picked(old(State()).(sending := None, gone := old(gone) + [old(sending).value]))
    {
      hide Orderly, Views;
      gone := gone + [sending.value];
      sending, currentSend := None, null;
      assert State() == old(State()).(sending := None, gone := old(gone) + [old(sending).value]);
      UpdateCurrentSend();
    }

    method Write(n: nat)
      requires Apart() && currentSend != null && Pointed(sending, currentSend)
      requires currentSend.head + n <= currentSend.tail
      modifies this`out, currentSend`head
      ensures Apart() && State() == Written(old(State()), n)
    {
      hide Views;
      ghost var before, j := State(), sending.value;
      out := out + currentSend.buffer[..currentSend.tail][currentSend.head..currentSend.head + n];
      currentSend.head := currentSend.head + n;
      assert Views(requests) == before.msgs[j := View(currentSend)];
    }
  }
}
