/**
 * The publish/subscribe bus as a state machine, and its trace specification. A handler is a
 * function on W, the state that handlers capture by reference.
 */
module EventBus {
  import opened Words
  import opened Memory
  import opened Events

  type Handler<!W> = (W, HvEvent) -> W

  datatype Subscription<!W> = Subscription(id: u32, filter: Option<EventType>, handler: Handler<W>)

  predicate Wants(filter: Option<EventType>, e: HvEvent) {
    filter.None? || filter.value == e.kind
  }

  /** One handler invocation. */
  datatype Call = Call(id: u32, event: HvEvent)

  /** events and calls are the history of publications and of handler invocations. */
  datatype Bus<!W> = Bus(
    subs: seq<Subscription<W>>, nextId: u32, published: u64, events: seq<HvEvent>, calls: seq<Call>)

  const NEW_ID: u32 := 1

  function NewBus<W>(): Bus<W> {
    Bus([], NEW_ID, 0, [], [])
  }

  /** The handlers of the matching subscriptions run one after the other, in list order. */
  function Deliver<W>(subs: seq<Subscription<W>>, w: W, e: HvEvent): W {
    if subs == [] then w
    else Deliver(subs[1..], if Wants(subs[0].filter, e) then subs[0].handler(w, e) else w, e)
  }

  /** A handler subscribed for one kind is invoked for that kind of event and no other, one subscribed for all for every event. */
  lemma OneSubscription<W>(id: u32, kind: EventType, handler: Handler<W>, w: W, e: HvEvent)
    ensures var s := Subscription(id, Some(kind), handler);
      && Deliver([s], w, e) == (if e.kind == kind then handler(w, e) else w)
      && CallsFor([s], e) == (if e.kind == kind then [Call(id, e)] else [])
    ensures var s := Subscription(id, None, handler);
      Deliver([s], w, e) == handler(w, e) && CallsFor([s], e) == [Call(id, e)]
  {
    var some, all := Subscription(id, Some(kind), handler), Subscription(id, None, handler);
    assert [some][1..] == [] && [all][1..] == [];
  }

  /** Earlier subscriptions are served first: what they did to the captured state is what the later ones find. */
  lemma {:induction false} ServedInOrder<W>(first: seq<Subscription<W>>, rest: seq<Subscription<W>>, w: W, e: HvEvent)
    ensures Deliver(first + rest, w, e) == Deliver(rest, Deliver(first, w, e), e)
    ensures CallsFor(first + rest, e) == CallsFor(first, e) + CallsFor(rest, e)
    decreases |first|
  {
    if first == [] {
      assert first + rest == rest;
    } else {
      assert (first + rest)[1..] == first[1..] + rest;
      ServedInOrder(first[1..], rest, if Wants(first[0].filter, e) then first[0].handler(w, e) else w, e);
    }
  }

  /** Subscribers that leave the captured state alone. */
  ghost predicate Inert<W(!new)>(subs: seq<Subscription<W>>) {
    forall i, w, e :: 0 <= i < |subs| ==> subs[i].handler(w, e) == w
  }

  lemma {:induction false} InertDelivery<W(!new)>(subs: seq<Subscription<W>>, w: W, e: HvEvent)
    requires Inert(subs)
    ensures Deliver(subs, w, e) == w
  {
    if subs != [] {
      assert subs[0].handler(w, e) == w;
      assert Inert(subs[1..]) by {
        forall i, w', e' | 0 <= i < |subs[1..]| ensures subs[1..][i].handler(w', e') == w' {
          assert subs[i + 1].handler(w', e') == w';
        }
      }
      InertDelivery(subs[1..], w, e);
    }
  }

  function CallsFor<W>(subs: seq<Subscription<W>>, e: HvEvent): seq<Call> {
    if subs == [] then []
    else (if Wants(subs[0].filter, e) then [Call(subs[0].id, e)] else []) + CallsFor(subs[1..], e)
  }

  function Without<W>(subs: seq<Subscription<W>>, id: u32): seq<Subscription<W>> {
    if subs == [] then []
    else (if subs[0].id == id then [] else [subs[0]]) + Without(subs[1..], id)
  }

  function Subscribed<W>(b: Bus<W>, filter: Option<EventType>, handler: Handler<W>): Bus<W> {
    b.(subs := b.subs + [Subscription(b.nextId, filter, handler)], nextId := Wrap32(b.nextId + 1))
  }

  function Published<W>(b: Bus<W>, e: HvEvent): Bus<W> {
    b.(published := Wrap64(b.published + 1), events := b.events + [e], calls := b.calls + CallsFor(b.subs, e))
  }

  /** Any use of the bus; Touch is anything else that happens to the captured state. */
  datatype Op<!W> =
    | Subscribe(filter: Option<EventType>, handler: Handler<W>)
    | Unsubscribe(id: u32)
    | Publish(event: HvEvent)
    | Touch(change: W -> W)

  function Apply<W>(b: Bus<W>, w: W, op: Op<W>): (Bus<W>, W) {
    match op
    case Subscribe(filter, handler) => (Subscribed(b, filter, handler), w)
    case Unsubscribe(id) => (b.(subs := Without(b.subs, id)), w)
    case Publish(e) => (Published(b, e), Deliver(b.subs, w, e))
    case Touch(change) => (b, change(w))
  }

  function ApplyAll<W>(b: Bus<W>, w: W, ops: seq<Op<W>>): (Bus<W>, W)
    decreases |ops|
  {
    if ops == [] then (b, w)
    else var (b', w') := Apply(b, w, ops[0]); ApplyAll(b', w', ops[1..])
  }

  // ---------------------------------------------------------------------------------------------
  // Trace specification.

  function Subscriptions<W>(ops: seq<Op<W>>): nat {
    if ops == [] then 0 else (if ops[0].Subscribe? then 1 else 0) + Subscriptions(ops[1..])
  }

  /** What a subscription with this id and filter must receive from what happens after it: matching
      events in order, up to its unsubscription. */
  function Inbox<W>(id: nat, filter: Option<EventType>, later: seq<Op<W>>): seq<HvEvent> {
    if later == [] then []
    else match later[0]
      case Unsubscribe(gone) => if gone == id then [] else Inbox(id, filter, later[1..])
      case Publish(e) => (if filter == None || filter == Some(e.kind) then [e] else []) + Inbox(id, filter, later[1..])
      case _ => Inbox(id, filter, later[1..])
  }

  /** What the invocation history says a subscription received. */
  function Received(calls: seq<Call>, id: nat): seq<HvEvent> {
    if calls == [] then []
    else (if calls[0].id == id then [calls[0].event] else []) + Received(calls[1..], id)
  }

  function Publications<W>(ops: seq<Op<W>>): seq<HvEvent> {
    if ops == [] then [] else (if ops[0].Publish? then [ops[0].event] else []) + Publications(ops[1..])
  }

  /** Ids are non-zero, below the next one, and strictly increasing along the list. */
  ghost predicate Ordered<W>(b: Bus<W>) {
    && 0 < b.nextId
    && (forall i :: 0 <= i < |b.subs| ==> 0 < b.subs[i].id < b.nextId)
    && (forall i, j :: 0 <= i < j < |b.subs| ==> b.subs[i].id < b.subs[j].id)
  }

  ghost predicate Live<W>(subs: seq<Subscription<W>>, id: nat) {
    exists i :: 0 <= i < |subs| && subs[i].id == id
  }

  lemma {:induction false} ReceivedConcat(a: seq<Call>, b: seq<Call>, id: nat)
    ensures Received(a + b, id) == Received(a, id) + Received(b, id)
  {
    if a == [] {
      assert a + b == b;
    } else {
      ReceivedConcat(a[1..], b, id);
      assert (a + b)[0] == a[0] && (a + b)[1..] == a[1..] + b;
      var first := if a[0].id == id then [a[0].event] else [];
      assert first + (Received(a[1..], id) + Received(b, id)) == first + Received(a[1..], id) + Received(b, id);
    }
  }

  lemma {:induction false} NothingFor<W>(subs: seq<Subscription<W>>, e: HvEvent, id: nat)
    requires !Live(subs, id)
    ensures Received(CallsFor(subs, e), id) == []
  {
    if subs != [] {
      assert subs[0].id != id;
      assert forall i :: 0 <= i < |subs[1..]| ==> subs[1..][i].id == subs[i + 1].id;
      NothingFor(subs[1..], e, id);
      ReceivedConcat(if Wants(subs[0].filter, e) then [Call(subs[0].id, e)] else [], CallsFor(subs[1..], e), id);
    }
  }

  lemma HeadReceived<W>(sub: Subscription<W>, e: HvEvent, id: nat)
    ensures Received(if Wants(sub.filter, e) then [Call(sub.id, e)] else [], id) ==
      if Wants(sub.filter, e) && sub.id == id then [e] else []
  {
    if Wants(sub.filter, e) {
      assert [Call(sub.id, e)][1..] == [];
    }
  }

  lemma {:induction false} OneCall<W>(subs: seq<Subscription<W>>, e: HvEvent, k: nat)
    requires k < |subs| && forall i, j :: 0 <= i < j < |subs| ==> subs[i].id < subs[j].id
    ensures Received(CallsFor(subs, e), subs[k].id) == if Wants(subs[k].filter, e) then [e] else []
  {
    var head := if Wants(subs[0].filter, e) then [Call(subs[0].id, e)] else [];
    ReceivedConcat(head, CallsFor(subs[1..], e), subs[k].id);
    HeadReceived(subs[0], e, subs[k].id);
    if k == 0 {
      assert !Live(subs[1..], subs[0].id);
      NothingFor(subs[1..], e, subs[0].id);
    } else {
      assert subs[1..][k - 1] == subs[k] && subs[0].id < subs[k].id;
      OneCall(subs[1..], e, k - 1);
    }
  }

  /** erase_if keeps the other subscriptions, in order. */
  lemma {:induction false} WithoutKeeps<W>(subs: seq<Subscription<W>>, gone: u32)
    requires forall i, j :: 0 <= i < j < |subs| ==> subs[i].id < subs[j].id
    ensures var r := Without(subs, gone);
      && (forall i, j :: 0 <= i < j < |r| ==> r[i].id < r[j].id)
      && (forall i :: 0 <= i < |r| ==> r[i] in subs && r[i].id != gone)
      && (forall i :: 0 <= i < |subs| && subs[i].id != gone ==> subs[i] in r)
  {
    if subs != [] {
      WithoutKeeps(subs[1..], gone);
      var r, t := Without(subs, gone), Without(subs[1..], gone);
      forall i | 0 <= i < |t| ensures subs[0].id < t[i].id && t[i] in subs {
        assert t[i] in subs[1..];
      }
      forall i | 0 <= i < |subs| && subs[i].id != gone ensures subs[i] in r {
        if i > 0 { assert subs[1..][i - 1] in t; }
      }
    }
  }

  lemma StepOrdered<W>(b: Bus<W>, w: W, op: Op<W>)
    requires Ordered(b) && (op.Subscribe? ==> b.nextId + 1 < TWO32)
    ensures Ordered(Apply(b, w, op).0)
  {
    if op.Unsubscribe? {
      WithoutKeeps(b.subs, op.id);
      WithoutBounded(b.subs, op.id, b.nextId);
    }
  }

  lemma {:induction false} WithoutBounded<W>(subs: seq<Subscription<W>>, gone: u32, next: u32)
    requires forall i :: 0 <= i < |subs| ==> 0 < subs[i].id < next
    ensures forall i :: 0 <= i < |Without(subs, gone)| ==> 0 < Without(subs, gone)[i].id < next
  {
    if subs != [] {
      WithoutBounded(subs[1..], gone, next);
    }
  }

  /** A subscription with an id that is not in the list receives nothing until the id is handed out. */
  lemma {:induction false} DeadReceivesNothing<W>(b: Bus<W>, w: W, ops: seq<Op<W>>, id: u32)
    requires Ordered(b) && b.nextId + Subscriptions(ops) < TWO32
    requires id < b.nextId && !Live(b.subs, id)
    ensures Received(ApplyAll(b, w, ops).0.calls, id) == Received(b.calls, id)
    decreases |ops|
  {
    if ops != [] {
      var op := ops[0];
      var (b', w') := Apply(b, w, op);
      StepOrdered(b, w, op);
      match op {
        case Publish(e) =>
          NothingFor(b.subs, e, id);
          ReceivedConcat(b.calls, CallsFor(b.subs, e), id);
        case Unsubscribe(gone) =>
          WithoutKeeps(b.subs, gone);
        case _ =>
      }
      DeadReceivesNothing(b', w', ops[1..], id);
    }
  }

  lemma Survives<W>(subs: seq<Subscription<W>>, k: nat, gone: u32) returns (k': nat)
    requires k < |subs| && subs[k].id != gone
    requires forall i, j :: 0 <= i < j < |subs| ==> subs[i].id < subs[j].id
    ensures k' < |Without(subs, gone)| && Without(subs, gone)[k'] == subs[k]
  {
    WithoutKeeps(subs, gone);
    assert subs[k] in Without(subs, gone);
    k' :| 0 <= k' < |Without(subs, gone)| && Without(subs, gone)[k'] == subs[k];
  }

  lemma ConcatAssoc(a: seq<HvEvent>, b: seq<HvEvent>, c: seq<HvEvent>)
    ensures (a + b) + c == a + (b + c)
  {
  }

  /** A live subscription receives, on top of what it had, exactly its inbox. */
  lemma {:induction false} LiveReceives<W>(b: Bus<W>, w: W, ops: seq<Op<W>>, k: nat)
    requires Ordered(b) && b.nextId + Subscriptions(ops) < TWO32 && k < |b.subs|
    ensures Received(ApplyAll(b, w, ops).0.calls, b.subs[k].id)
         == Received(b.calls, b.subs[k].id) + Inbox(b.subs[k].id, b.subs[k].filter, ops)
    decreases |ops|
  {
    if ops != [] {
      var op, id := ops[0], b.subs[k].id;
      var (b', w') := Apply(b, w, op);
      StepOrdered(b, w, op);
      match op {
        case Publish(e) =>
          OneCall(b.subs, e, k);
          ReceivedConcat(b.calls, CallsFor(b.subs, e), id);
          LiveReceives(b', w', ops[1..], k);
          ConcatAssoc(Received(b.calls, id), Received(CallsFor(b.subs, e), id), Inbox(id, b.subs[k].filter, ops[1..]));
        case Unsubscribe(gone) =>
          if gone == id {
            WithoutKeeps(b.subs, gone);
            DeadReceivesNothing(b', w', ops[1..], id);
          } else {
            var k' := Survives(b.subs, k, gone);
            LiveReceives(b', w', ops[1..], k');
          }
        case _ =>
          LiveReceives(b', w', ops[1..], k);
      }
    }
  }

  lemma {:induction false} ApplyConcat<W>(b: Bus<W>, w: W, pre: seq<Op<W>>, post: seq<Op<W>>)
    ensures ApplyAll(b, w, pre + post) == ApplyAll(ApplyAll(b, w, pre).0, ApplyAll(b, w, pre).1, post)
    ensures Subscriptions(pre + post) == Subscriptions(pre) + Subscriptions(post)
    decreases |pre|
  {
    if pre == [] {
      assert pre + post == post;
    } else {
      var r := Apply(b, w, pre[0]);
      ApplyConcat(r.0, r.1, pre[1..], post);
      assert (pre + post)[1..] == pre[1..] + post;
    }
  }

  lemma {:induction false} PrefixFacts<W>(b: Bus<W>, w: W, ops: seq<Op<W>>)
    requires Ordered(b) && b.nextId + Subscriptions(ops) < TWO32
    ensures var b' := ApplyAll(b, w, ops).0;
      Ordered(b') && b'.nextId == b.nextId + Subscriptions(ops)
      && forall id: nat :: id >= b'.nextId ==> Received(b'.calls, id) == Received(b.calls, id)
    decreases |ops|
  {
    if ops != [] {
      var op := ops[0];
      var (b', w') := Apply(b, w, op);
      StepOrdered(b, w, op);
      PrefixFacts(b', w', ops[1..]);
      if op.Publish? {
        forall id: nat | id >= b.nextId ensures Received(b'.calls, id) == Received(b.calls, id) {
          NothingFor(b.subs, op.event, id);
          ReceivedConcat(b.calls, CallsFor(b.subs, op.event), id);
        }
      }
    }
  }

  /**
   * For any interleaving, the subscription made by operation i has an id of its own (one more
   * than the number of earlier subscriptions) and its handler is invoked for exactly the matching
   * events published after it and before its unsubscription, once each and in order.
   */
  lemma EachSubscriberGetsItsInbox<W>(w: W, ops: seq<Op<W>>, i: nat)
    requires i < |ops| && ops[i].Subscribe? && 1 + Subscriptions(ops) < TWO32
    ensures var id := 1 + Subscriptions(ops[..i]);
      Received(ApplyAll(NewBus(), w, ops).0.calls, id) == Inbox(id, ops[i].filter, ops[i + 1..])
  {
    var pre, post := ops[..i], ops[i..];
    assert ops == pre + post && post[0] == ops[i] && post[1..] == ops[i + 1..];
    assert Ordered(NewBus<W>()) && Received(NewBus<W>().calls, 1 + Subscriptions(pre)) == [];
    InboxFrom(NewBus(), w, pre, post);
  }

  lemma InboxFrom<W>(b: Bus<W>, w: W, pre: seq<Op<W>>, post: seq<Op<W>>)
    requires post != [] && post[0].Subscribe? && Ordered(b) && b.nextId + Subscriptions(pre + post) < TWO32
    ensures var id := b.nextId + Subscriptions(pre);
      Received(ApplyAll(b, w, pre + post).0.calls, id) == Received(b.calls, id) + Inbox(id, post[0].filter, post[1..])
  {
    ApplyConcat(b, w, pre, post);
    PrefixFacts(b, w, pre);
    var r := ApplyAll(b, w, pre);
    NewSubscription(r.0, r.1, post);
  }

  lemma NewSubscription<W>(b: Bus<W>, w: W, ops: seq<Op<W>>)
    requires Ordered(b) && ops != [] && ops[0].Subscribe? && b.nextId + Subscriptions(ops) < TWO32
    ensures Received(ApplyAll(b, w, ops).0.calls, b.nextId)
         == Received(b.calls, b.nextId) + Inbox(b.nextId, ops[0].filter, ops[1..])
  {
    StepOrdered(b, w, ops[0]);
    var r := Apply(b, w, ops[0]);
    assert r.0.subs[|b.subs|] == Subscription(b.nextId, ops[0].filter, ops[0].handler);
    LiveReceives(r.0, r.1, ops[1..], |b.subs|);
  }

  /** One recorded invocation carried out: the handler subscribed under that id is applied. */
  function Invoke<W>(subs: seq<Subscription<W>>, c: Call, w: W): W {
    if subs == [] then w else if subs[0].id == c.id then subs[0].handler(w, c.event) else Invoke(subs[1..], c, w)
  }

  function InvokeAll<W>(subs: seq<Subscription<W>>, calls: seq<Call>, w: W): W {
    if calls == [] then w else InvokeAll(subs, calls[1..], Invoke(subs, calls[0], w))
  }

  lemma {:induction false} InvokeAt<W>(subs: seq<Subscription<W>>, k: nat, e: HvEvent, w: W)
    requires k < |subs| && forall i, j :: 0 <= i < j < |subs| ==> subs[i].id < subs[j].id
    ensures Invoke(subs, Call(subs[k].id, e), w) == subs[k].handler(w, e)
    decreases k
  {
    if k > 0 {
      assert subs[0].id != subs[k].id;
      InvokeAt(subs[1..], k - 1, e, w);
    }
  }

  lemma {:induction false} DeliveryFrom<W>(subs: seq<Subscription<W>>, k: nat, w: W, e: HvEvent)
    requires k <= |subs| && forall i, j :: 0 <= i < j < |subs| ==> subs[i].id < subs[j].id
    ensures Deliver(subs[k..], w, e) == InvokeAll(subs, CallsFor(subs[k..], e), w)
    decreases |subs| - k
  {
    if k < |subs| {
      assert subs[k..][1..] == subs[k + 1..];
      var w' := if Wants(subs[k].filter, e) then subs[k].handler(w, e) else w;
      DeliveryFrom(subs, k + 1, w', e);
      var rest := CallsFor(subs[k + 1..], e);
      if Wants(subs[k].filter, e) {
        InvokeAt(subs, k, e, w);
        assert ([Call(subs[k].id, e)] + rest)[1..] == rest;
      } else {
        assert [] + rest == rest;
      }
    }
  }

  /** The recorded invocations are what publishing does: carrying them out in order changes the captured state alike. */
  lemma DeliveryIsTheCalls<W>(b: Bus<W>, w: W, e: HvEvent)
    requires Ordered(b)
    ensures Apply(b, w, Op.Publish(e)).1 == InvokeAll(b.subs, CallsFor(b.subs, e), w)
  {
    assert b.subs[0..] == b.subs;
    DeliveryFrom(b.subs, 0, w, e);
  }

  /** The bus counts and records every publication and nothing else. */
  lemma {:induction false} PublishedEvents<W>(b: Bus<W>, w: W, ops: seq<Op<W>>)
    ensures var b' := ApplyAll(b, w, ops).0;
      b'.events == b.events + Publications(ops) && b'.published == Wrap64(b.published + |Publications(ops)|)
    decreases |ops|
  {
    if ops != [] {
      var (b', w') := Apply(b, w, ops[0]);
      PublishedEvents(b', w', ops[1..]);
      if ops[0].Publish? {
        WrapAdd64(b.published, 1, |Publications(ops[1..])|);
      }
    }
  }
}
