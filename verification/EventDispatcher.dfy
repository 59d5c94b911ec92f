/** EventDispatcher: the bus of module EventBus with its list, counters and handlers updated in place. */
module EventDispatchers {
  import opened Words
  import opened Memory
  import opened Events
  import opened EventBus

  /** A variable that callbacks capture by reference. */
  class Cell<W> {
    var state: W

    constructor (state: W)
      ensures this.state == state
    {
      this.state := state;
    }
  }

  class EventDispatcher<W> {
    const world: Cell<W>
    var subscriptions: seq<Subscription<W>>
    var nextId: u32
    var publishedCount: u64
    ghost var events: seq<HvEvent>
    ghost var calls: seq<Call>

    ghost function State(): Bus<W>
      reads this
    {
      Bus(subscriptions, nextId, publishedCount, events, calls)
    }

    constructor (world: Cell<W>)
      ensures this.world == world && State() == NewBus()
    {
      this.world := world;
      subscriptions, nextId, publishedCount, events, calls := [], NEW_ID, 0, [], [];
    }

    method Subscribe(filter: Option<EventType>, handler: Handler<W>) returns (id: u32)
      modifies this
      ensures id == old(nextId)
      ensures (State(), world.state) == Apply(old(State()), old(world.state), Op.Subscribe(filter, handler))
    {
      id := nextId;
      nextId := Wrap32(nextId + 1);
      subscriptions := subscriptions + [Subscription(id, filter, handler)];
    }

    method Unsubscribe(id: u32)
      modifies this
      ensures (State(), world.state) == Apply(old(State()), old(world.state), Op.Unsubscribe(id))
    {
      var kept: seq<Subscription<W>> := [];
      for i := 0 to |subscriptions|
        invariant State() == old(State())
        invariant Without(subscriptions, id) == kept + Without(subscriptions[i..], id)
      {
        WithoutStep(subscriptions, i, id, kept);
        if subscriptions[i].id != id {
          kept := kept + [subscriptions[i]];
        }
      }
      assert subscriptions[|subscriptions|..] == [] && kept + [] == kept;
      subscriptions := kept;
    }

    /** One turn of the unsubscription loop. */
    static lemma WithoutStep(subs: seq<Subscription<W>>, i: nat, id: u32, kept: seq<Subscription<W>>)
      requires i < |subs|
      ensures kept + Without(subs[i..], id)
           == (if subs[i].id != id then kept + [subs[i]] else kept) + Without(subs[i + 1..], id)
    {
      assert subs[i..][1..] == subs[i + 1..];
      var rest := Without(subs[i + 1..], id);
      assert kept + ([subs[i]] + rest) == kept + [subs[i]] + rest && kept + ([] + rest) == kept + rest;
    }

    /** One turn of the delivery loop. */
    static lemma DeliverStep(subs: seq<Subscription<W>>, i: nat, w: W, e: HvEvent)
      requires i < |subs|
      ensures Deliver(subs[i..], w, e)
           == Deliver(subs[i + 1..], if Wants(subs[i].filter, e) then subs[i].handler(w, e) else w, e)
      ensures CallsFor(subs[i..], e)
           == (if Wants(subs[i].filter, e) then [Call(subs[i].id, e)] else []) + CallsFor(subs[i + 1..], e)
    {
      assert subs[i..][1..] == subs[i + 1..];
    }

    /** The delivery loop. */
    method CallHandlers(e: HvEvent)
      modifies this`calls, world
      ensures world.state == Deliver(subscriptions, old(world.state), e)
      ensures calls == old(calls) + CallsFor(subscriptions, e)
    {
      ghost var done: seq<Call> := [];
      for i := 0 to |subscriptions|
        invariant Deliver(subscriptions, old(world.state), e) == Deliver(subscriptions[i..], world.state, e)
        invariant calls == old(calls) && CallsFor(subscriptions, e) == done + CallsFor(subscriptions[i..], e)
      {
        var sub := subscriptions[i];
        DeliverStep(subscriptions, i, world.state, e);
        if sub.filter.None? || sub.filter.value == e.kind {
          world.state := sub.handler(world.state, e);
          done := done + [Call(sub.id, e)];
        }
      }
      assert done == CallsFor(subscriptions, e) by {
        assert subscriptions[|subscriptions|..] == [];
      }
      calls := calls + done;
    }

    method Publish(e: HvEvent)
      modifies this, world
      ensures (State(), world.state) == Apply(old(State()), old(world.state), Op.Publish(e))
    {
      publishedCount := Wrap64(publishedCount + 1);
      events := events + [e];
      CallHandlers(e);
    }
  }
}
