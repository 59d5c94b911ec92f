/**
 * The VMI agent as a subscriber: what it makes of one event, and what its log holds after any
 * use of the bus, of the machine and of the agent's switches.
 */
module VmiLog {
  import opened Words
  import opened Memory
  import opened Registers
  import opened Events
  import opened EventBus
  import opened Text
  import opened Introspection
  import opened GuestPhysical
  import opened EventLog

  /** What the agent can learn about the VM at an event: register reads may fail. */
  datatype VcpuView = VcpuView(regs: Option<Regs>, sregs: Option<Sregs>)
  datatype VmView = VmView(vcpus: seq<VcpuView>, banks: seq<Bank>, now: int)

  /** notified is the history of introspection callbacks, by number of registration. */
  datatype Agent = Agent(
    log: seq<IntrospectionEvent>, callbacks: nat, notified: seq<(nat, IntrospectionEvent)>,
    dumping: bool, dumpAddr: u64, dumpSize: nat)

  const NEW_AGENT := Agent([], 0, [], false, 0, 0)

  /** VmiAgent::snapshotRegisters: None for a vCPU that does not exist or cannot be read. */
  function Capture(v: VmView, index: nat): Option<GuestSnapshot> {
    if index >= |v.vcpus| || v.vcpus[index].regs.None? || v.vcpus[index].sregs.None? then None
    else Some(SnapshotOf(v.vcpus[index].regs.value, v.vcpus[index].sregs.value, v.now))
  }

  function Dump(a: Agent, v: VmView): Option<seq<byte>> {
    var bytes := ReadPhys(v.banks, a.dumpAddr, a.dumpSize);
    if a.dumping && bytes != [] then Some(bytes) else None
  }

  function Enrich(a: Agent, v: VmView, e: HvEvent): IntrospectionEvent {
    var captured := Capture(v, e.vcpuId);
    var snapshot := if captured.Some? then captured.value else NO_SNAPSHOT;
    IntrospectionEvent(e, snapshot, Dump(a, v), Summary(e, snapshot))
  }

  /** One call of every callback, in the order of their registration. */
  function Notifications(n: nat, ie: IntrospectionEvent): seq<(nat, IntrospectionEvent)> {
    if n == 0 then [] else Notifications(n - 1, ie) + [(n - 1, ie)]
  }

  lemma {:induction false} NotifiedOnce(n: nat, ie: IntrospectionEvent)
    ensures |Notifications(n, ie)| == n && forall i :: 0 <= i < n ==> Notifications(n, ie)[i] == (i, ie)
  {
    if n > 0 {
      NotifiedOnce(n - 1, ie);
    }
  }

  type Enricher = (Agent, VmView, HvEvent) -> IntrospectionEvent

  /** Append to the log, then call every callback. */
  function Logged(a: Agent, ie: IntrospectionEvent): Agent {
    a.(log := a.log + [ie], notified := a.notified + Notifications(a.callbacks, ie))
  }

  /** VmiAgent::handleHvEvent. */
  function Handle(a: Agent, v: VmView, e: HvEvent): Agent {
    Logged(a, Enrich(a, v, e))
  }

  /** A vCPU can be captured exactly when it exists and all its registers can be read; the snapshot then shows them. */
  lemma Captured(v: VmView, index: nat)
    ensures Capture(v, index).Some? <==> index < |v.vcpus| && v.vcpus[index].regs.Some? && v.vcpus[index].sregs.Some?
    ensures Capture(v, index).Some? ==>
      var s := Capture(v, index).value;
      Pictures(s, v.vcpus[index].regs.value, v.vcpus[index].sregs.value) && s.timestamp == v.now
  {
  }

  /** An entry keeps its event and shows the vCPU the event names, or nothing but zeroes when that cannot be captured. */
  lemma EntrySnapshot(a: Agent, v: VmView, e: HvEvent)
    ensures var ie := Enrich(a, v, e);
      && ie.base == e
      && if e.vcpuId < |v.vcpus| && v.vcpus[e.vcpuId].regs.Some? && v.vcpus[e.vcpuId].sregs.Some?
         then Pictures(ie.snapshot, v.vcpus[e.vcpuId].regs.value, v.vcpus[e.vcpuId].sregs.value) && ie.snapshot.timestamp == v.now
         else Pictures(ie.snapshot, ZERO_REGS, ZERO_SREGS) && ie.snapshot.timestamp == 0
  {
    Captured(v, e.vcpuId);
  }

  /** A dump is attached exactly when dumping is on and the non-empty range lies in one region. */
  lemma DumpAttached(a: Agent, v: VmView, e: HvEvent)
    ensures Enrich(a, v, e).memDump.Some? <==> a.dumping && a.dumpSize > 0 && HeldByOne(v.banks, a.dumpAddr, a.dumpSize)
    ensures Enrich(a, v, e).memDump.Some? ==>
      |Enrich(a, v, e).memDump.value| == a.dumpSize
      && forall k :: 0 <= k < a.dumpSize ==> Maps(v.banks, a.dumpAddr + k, Enrich(a, v, e).memDump.value[k])
  {
    if a.dumpSize > 0 {
      ReadsFlatMemory(v.banks, a.dumpAddr, a.dumpSize);
    } else {
      var i := FirstHolder(v.banks, a.dumpAddr, 0);
    }
  }

  // ---------------------------------------------------------------------------------------------
  // On the bus.

  /** The state that handlers share: the machine, the agent, and whatever other subscribers keep. */
  datatype Site<X> = Site(vm: VmView, agent: Agent, other: X)

  function AgentHandler<X>(): Handler<Site<X>> {
    (w: Site<X>, e: HvEvent) => w.(agent := Handle(w.agent, w.vm, e))
  }

  datatype Use<!X> =
    | Attach(filter: Option<EventType>, handler: Handler<Site<X>>)
    | Detach(id: u32)
    | Raise(event: HvEvent)
    | MachineMoves(vm: VmView)
    | OnEvent
    | EnableDump(addr: u64, size: nat)
    | DisableDump

  /** What a use does to the agent other than through the bus. */
  function Configure(a: Agent, u: Use): Agent {
    match u
    case OnEvent => a.(callbacks := a.callbacks + 1)
    case EnableDump(addr, size) => a.(dumping := true, dumpAddr := addr, dumpSize := size)
    case DisableDump => a.(dumping := false)
    case _ => a
  }

  function AsOp<X>(u: Use<X>): Op<Site<X>> {
    match u
    case Attach(filter, handler) => Op.Subscribe(filter, handler)
    case Detach(id) => Op.Unsubscribe(id)
    case Raise(e) => Op.Publish(e)
    case MachineMoves(vm) => Op.Touch((w: Site<X>) => w.(vm := vm))
    case _ => Op.Touch((w: Site<X>) => w.(agent := Configure(w.agent, u)))
  }

  /** Other subscribers leave the machine and the agent alone. */
  ghost predicate Respects<X(!new)>(h: Handler<Site<X>>) {
    forall w, e {:trigger h(w, e)} :: h(w, e).vm == w.vm && h(w, e).agent == w.agent
  }

  ghost predicate Polite<X(!new)>(u: Use<X>, agentId: u32) {
    (u.Attach? ==> Respects(u.handler)) && (u.Detach? ==> u.id != agentId)
  }

  function ApplyUses<X>(b: Bus<Site<X>>, w: Site<X>, us: seq<Use<X>>): (Bus<Site<X>>, Site<X>)
    decreases |us|
  {
    if us == [] then (b, w)
    else var r := Apply(b, w, AsOp(us[0])); ApplyUses(r.0, r.1, us[1..])
  }

  /** What the agent should be after these uses, said without the bus, for any way to enrich events. */
  function After<X>(enrich: Enricher, vm: VmView, a: Agent, us: seq<Use<X>>): (VmView, Agent)
    decreases |us|
  {
    if us == [] then (vm, a)
    else match us[0]
      case Raise(e) => After(enrich, vm, Logged(a, enrich(a, vm, e)), us[1..])
      case MachineMoves(vm') => After(enrich, vm', a, us[1..])
      case _ => After(enrich, vm, Configure(a, us[0]), us[1..])
  }

  function Expected<X>(vm: VmView, a: Agent, us: seq<Use<X>>): (VmView, Agent) {
    After(Enrich, vm, a, us)
  }

  /** Subscription k is the agent's; all others are somebody else's. */
  ghost predicate AgentAt<X(!new)>(subs: seq<Subscription<Site<X>>>, k: nat, id: u32) {
    && k < |subs| && subs[k] == Subscription(id, None, AgentHandler())
    && (forall i :: 0 <= i < |subs| && i != k ==> subs[i].id != id && Respects(subs[i].handler))
  }

  lemma {:induction false} DeliverOthers<X(!new)>(subs: seq<Subscription<Site<X>>>, w: Site<X>, e: HvEvent)
    requires forall i :: 0 <= i < |subs| ==> Respects(subs[i].handler)
    ensures Deliver(subs, w, e).vm == w.vm && Deliver(subs, w, e).agent == w.agent
  {
    if subs != [] {
      var w1 := if Wants(subs[0].filter, e) then subs[0].handler(w, e) else w;
      assert Respects(subs[0].handler);
      DeliverOthers(subs[1..], w1, e);
    }
  }

  lemma {:induction false} DeliverOnce<X(!new)>(subs: seq<Subscription<Site<X>>>, w: Site<X>, e: HvEvent, k: nat, id: u32)
    requires AgentAt(subs, k, id)
    ensures Deliver(subs, w, e).vm == w.vm && Deliver(subs, w, e).agent == Handle(w.agent, w.vm, e)
    decreases k
  {
    var w1 := if Wants(subs[0].filter, e) then subs[0].handler(w, e) else w;
    if k == 0 {
      assert w1 == w.(agent := Handle(w.agent, w.vm, e));
      forall i | 0 <= i < |subs[1..]| ensures Respects(subs[1..][i].handler) {
        assert Respects(subs[i + 1].handler);
      }
      DeliverOthers(subs[1..], w1, e);
    } else {
      assert Respects(subs[0].handler);
      assert AgentAt(subs[1..], k - 1, id) by {
        forall i | 0 <= i < |subs[1..]| && i != k - 1 ensures subs[1..][i].id != id && Respects(subs[1..][i].handler) {
          assert subs[1..][i] == subs[i + 1];
        }
      }
      DeliverOnce(subs[1..], w1, e, k - 1, id);
    }
  }

  lemma {:induction false} WithoutOther<X(!new)>(subs: seq<Subscription<Site<X>>>, k: nat, id: u32, gone: u32) returns (k': nat)
    requires AgentAt(subs, k, id) && gone != id
    ensures AgentAt(Without(subs, gone), k', id)
    decreases |subs|
  {
    if k == 0 {
      k' := 0;
      OthersKept(subs[1..], id, gone) by {
        forall i | 0 <= i < |subs[1..]| ensures subs[1..][i].id != id && Respects(subs[1..][i].handler) {
          assert subs[1..][i] == subs[i + 1];
        }
      }
    } else {
      assert AgentAt(subs[1..], k - 1, id) by {
        forall i | 0 <= i < |subs[1..]| && i != k - 1 ensures subs[1..][i].id != id && Respects(subs[1..][i].handler) {
          assert subs[1..][i] == subs[i + 1];
        }
      }
      k' := WithoutOther(subs[1..], k - 1, id, gone);
      if subs[0].id != gone {
        k' := k' + 1;
      }
    }
  }

  lemma {:induction false} OthersKept<X(!new)>(subs: seq<Subscription<Site<X>>>, id: u32, gone: u32)
    requires forall i :: 0 <= i < |subs| ==> subs[i].id != id && Respects(subs[i].handler)
    ensures forall i :: 0 <= i < |Without(subs, gone)| ==>
      Without(subs, gone)[i].id != id && Respects(Without(subs, gone)[i].handler)
  {
    if subs != [] {
      OthersKept(subs[1..], id, gone);
    }
  }

  function Attaches<X>(us: seq<Use<X>>): nat {
    if us == [] then 0 else (if us[0].Attach? then 1 else 0) + Attaches(us[1..])
  }

  /** One use: the agent keeps its subscription, and an event published reaches it exactly once. */
  lemma UseSeen<X(!new)>(b: Bus<Site<X>>, w: Site<X>, u: Use<X>, k: nat, id: u32) returns (k': nat)
    requires AgentAt(b.subs, k, id) && id < b.nextId && (u.Attach? ==> b.nextId + 1 < TWO32) && Polite(u, id)
    ensures var (b', w') := Apply(b, w, AsOp(u));
      && AgentAt(b'.subs, k', id) && b'.nextId == b.nextId + (if u.Attach? then 1 else 0)
      && w'.vm == (if u.MachineMoves? then u.vm else w.vm)
      && w'.agent == if u.Raise? then Handle(w.agent, w.vm, u.event) else Configure(w.agent, u)
  {
    k' := k;
    match u {
      case Raise(e) => DeliverOnce(b.subs, w, e, k, id);
      case Detach(gone) => k' := WithoutOther(b.subs, k, id, gone);
      case _ =>
    }
  }

  /**
   * While the agent is subscribed, its state is the expected one: whatever others subscribe,
   * unsubscribe or publish, each published event reaches it exactly once, in order, with the
   * machine and the switches as they are at that moment.
   */
  lemma {:induction false} AgentSeesEverything<X(!new)>(
      b: Bus<Site<X>>, w: Site<X>, us: seq<Use<X>>, k: nat, id: u32) returns (k': nat)
    requires AgentAt(b.subs, k, id) && id < b.nextId && b.nextId + Attaches(us) < TWO32
    requires forall i :: 0 <= i < |us| ==> Polite(us[i], id)
    ensures var r := ApplyUses(b, w, us).1; (r.vm, r.agent) == Expected(w.vm, w.agent, us)
    ensures var b' := ApplyUses(b, w, us).0; AgentAt(b'.subs, k', id) && b'.nextId == b.nextId + Attaches(us)
    decreases |us|
  {
    k' := k;
    if us != [] {
      var r := Apply(b, w, AsOp(us[0]));
      k' := UseSeen(b, w, us[0], k, id);
      k' := AgentSeesEverything(r.0, r.1, us[1..], k', id);
    }
  }

  function Raised<X>(us: seq<Use<X>>): seq<HvEvent> {
    if us == [] then []
    else if us[0].Raise? then [us[0].event] + Raised(us[1..])
    else Raised(us[1..])
  }

  function Bases(log: seq<IntrospectionEvent>): seq<HvEvent> {
    seq(|log|, i requires 0 <= i < |log| => log[i].base)
  }

  lemma BasesStep(log: seq<IntrospectionEvent>, ie: IntrospectionEvent, more: seq<HvEvent>)
    ensures Bases(log + [ie]) + more == Bases(log) + ([ie.base] + more)
  {
    assert Bases(log + [ie]) == Bases(log) + [ie.base];
  }

  /** Enrichment keeps the event. */
  ghost predicate KeepsEvent(enrich: Enricher) {
    forall a, v, e {:trigger enrich(a, v, e)} :: enrich(a, v, e).base == e
  }

  lemma EnrichKeepsEvent()
    ensures KeepsEvent(Enrich)
  {
  }

  lemma {:induction false} LogGrows<X>(enrich: Enricher, vm: VmView, a: Agent, us: seq<Use<X>>)
    ensures a.log <= After(enrich, vm, a, us).1.log
    decreases |us|
  {
    if us != [] {
      match us[0] {
        case Raise(e) => LogGrows(enrich, vm, Logged(a, enrich(a, vm, e)), us[1..]);
        case MachineMoves(vm') => LogGrows(enrich, vm', a, us[1..]);
        case _ => LogGrows(enrich, vm, Configure(a, us[0]), us[1..]);
      }
    }
  }

  lemma {:induction false} LogBases<X>(enrich: Enricher, vm: VmView, a: Agent, us: seq<Use<X>>)
    requires KeepsEvent(enrich)
    ensures Bases(After(enrich, vm, a, us).1.log) == Bases(a.log) + Raised(us)
    decreases |us|
  {
    if us != [] {
      match us[0] {
        case Raise(e) =>
          LogBases(enrich, vm, Logged(a, enrich(a, vm, e)), us[1..]);
          BasesStep(a.log, enrich(a, vm, e), Raised(us[1..]));
        case MachineMoves(vm') => LogBases(enrich, vm', a, us[1..]);
        case _ => LogBases(enrich, vm, Configure(a, us[0]), us[1..]);
      }
    }
  }

  /** The log is append-only and is exactly the published events, in order. */
  lemma LogIsWhatWasPublished<X>(vm: VmView, a: Agent, us: seq<Use<X>>)
    ensures var a' := Expected(vm, a, us).1;
      a.log <= a'.log && Bases(a'.log) == Bases(a.log) + Raised(us)
  {
    EnrichKeepsEvent();
    LogGrows(Enrich, vm, a, us);
    LogBases(Enrich, vm, a, us);
  }

  /** From its construction on, an agent logs exactly the events published, whoever else uses the bus. */
  lemma AgentLife<X(!new)>(b: Bus<Site<X>>, w: Site<X>, us: seq<Use<X>>)
    requires Ordered(b) && b.nextId + 1 + Attaches(us) < TWO32
    requires forall i :: 0 <= i < |b.subs| ==> Respects(b.subs[i].handler)
    requires forall i :: 0 <= i < |us| ==> Polite(us[i], b.nextId)
    requires w.agent == NEW_AGENT
    ensures var r := ApplyUses(Subscribed(b, None, AgentHandler()), w, us).1;
      r.agent == Expected(w.vm, NEW_AGENT, us).1 && Bases(r.agent.log) == Raised(us)
  {
    var k := AgentLives(b, w, us);
    LogIsWhatWasPublished(w.vm, NEW_AGENT, us);
  }

  lemma AgentLives<X(!new)>(b: Bus<Site<X>>, w: Site<X>, us: seq<Use<X>>) returns (k: nat)
    requires Ordered(b) && b.nextId + 1 + Attaches(us) < TWO32
    requires forall i :: 0 <= i < |b.subs| ==> Respects(b.subs[i].handler)
    requires forall i :: 0 <= i < |us| ==> Polite(us[i], b.nextId)
    ensures var r := ApplyUses(Subscribed(b, None, AgentHandler()), w, us);
      && r.1.agent == Expected(w.vm, w.agent, us).1
      && AgentAt(r.0.subs, k, b.nextId) && r.0.nextId == b.nextId + 1 + Attaches(us)
  {
    var b' := Subscribed(b, None, AgentHandler());
    assert AgentAt(b'.subs, |b.subs|, b.nextId);
    k := AgentSeesEverything(b', w, us, |b.subs|, b.nextId);
  }

  /** What the switches alone do to the agent. */
  function Switched<X>(a: Agent, us: seq<Use<X>>): (r: Agent)
    ensures r.log == a.log && r.notified == a.notified
    decreases |us|
  {
    if us == [] then a else Switched(Configure(a, us[0]), us[1..])
  }

  /** Without a subscription of its own, nothing published reaches the agent. */
  lemma {:induction false} AgentSeesNothing<X(!new)>(b: Bus<Site<X>>, w: Site<X>, us: seq<Use<X>>)
    requires b.nextId + Attaches(us) < TWO32
    requires forall i :: 0 <= i < |b.subs| ==> Respects(b.subs[i].handler)
    requires forall i :: 0 <= i < |us| && us[i].Attach? ==> Respects(us[i].handler)
    ensures ApplyUses(b, w, us).1.agent == Switched(w.agent, us)
    decreases |us|
  {
    if us != [] {
      var u := us[0];
      var r := Apply(b, w, AsOp(u));
      match u {
        case Raise(e) => DeliverOthers(b.subs, w, e);
        case Detach(gone) => RespectKept(b.subs, gone);
        case _ =>
      }
      AgentSeesNothing(r.0, r.1, us[1..]);
    }
  }

  lemma {:induction false} RespectKept<X(!new)>(subs: seq<Subscription<Site<X>>>, gone: u32)
    requires forall i :: 0 <= i < |subs| && subs[i].id != gone ==> Respects(subs[i].handler)
    ensures forall i :: 0 <= i < |Without(subs, gone)| ==> Respects(Without(subs, gone)[i].handler)
  {
    if subs != [] {
      RespectKept(subs[1..], gone);
    }
  }

  lemma {:induction false} UsesSplit<X>(b: Bus<Site<X>>, w: Site<X>, us: seq<Use<X>>, vs: seq<Use<X>>)
    ensures var r := ApplyUses(b, w, us); ApplyUses(b, w, us + vs) == ApplyUses(r.0, r.1, vs)
    decreases |us|
  {
    if us == [] {
      assert us + vs == vs;
    } else {
      var r := Apply(b, w, AsOp(us[0]));
      UsesSplit(r.0, r.1, us[1..], vs);
      assert (us + vs)[0] == us[0] && (us + vs)[1..] == us[1..] + vs;
    }
  }

  /**
   * The agent's whole life on the bus: constructed, used, and destroyed, which unsubscribes it.
   * Its log is exactly the events published in between; nothing that happens on the bus
   * afterwards, or to the machine, reaches the destroyed agent or its callbacks.
   */
  lemma AgentLifetime<X(!new)>(b: Bus<Site<X>>, w: Site<X>, us: seq<Use<X>>, later: seq<Use<X>>)
    requires GoodLife(b, us, later) && w.agent == NEW_AGENT
    ensures HasLogged(AtTheEnd(b, w, us, later), us, Expected(w.vm, NEW_AGENT, us).1.notified)
  {
    AgentEnds(b, w, us, later);
    LogIsWhatWasPublished(w.vm, NEW_AGENT, us);
  }

  /** Other subscribers leave the agent and the machine alone, and there are fewer than 2^32 subscriptions. */
  ghost predicate GoodLife<X(!new)>(b: Bus<Site<X>>, us: seq<Use<X>>, later: seq<Use<X>>) {
    && Ordered(b) && b.nextId + 1 + Attaches(us) + Attaches(later) < TWO32
    && (forall i :: 0 <= i < |b.subs| ==> Respects(b.subs[i].handler))
    && (forall i :: 0 <= i < |us| ==> Polite(us[i], b.nextId))
    && (forall i :: 0 <= i < |later| && later[i].Attach? ==> Respects(later[i].handler))
  }

  /** The log is exactly the events published during us, and the callbacks were called as noted. */
  predicate HasLogged<X>(a: Agent, us: seq<Use<X>>, notified: seq<(nat, IntrospectionEvent)>) {
    Bases(a.log) == Raised(us) && a.notified == notified
  }

  /** The agent after its life and what comes later: constructed on b, used, destroyed. */
  function AtTheEnd<X>(b: Bus<Site<X>>, w: Site<X>, us: seq<Use<X>>, later: seq<Use<X>>): Agent {
    ApplyUses(Subscribed(b, None, AgentHandler()), w, us + ([Use<X>.Detach(b.nextId)] + later)).1.agent
  }

  /** What is left of the agent in the end: what its life made of it, but for the switches. */
  lemma AgentEnds<X(!new)>(b: Bus<Site<X>>, w: Site<X>, us: seq<Use<X>>, later: seq<Use<X>>)
    requires GoodLife(b, us, later)
    ensures AtTheEnd(b, w, us, later) == Switched(Expected(w.vm, w.agent, us).1, later)
  {
    var k := AgentLives(b, w, us);
    AgentDies(Subscribed(b, None, AgentHandler()), w, us, k, b.nextId, later);
  }

  lemma AgentDies<X(!new)>(b: Bus<Site<X>>, w: Site<X>, us: seq<Use<X>>, k: nat, id: u32, later: seq<Use<X>>)
    requires var b1 := ApplyUses(b, w, us).0; AgentAt(b1.subs, k, id) && b1.nextId + Attaches(later) < TWO32
    requires forall i :: 0 <= i < |later| && later[i].Attach? ==> Respects(later[i].handler)
    ensures ApplyUses(b, w, us + ([Use<X>.Detach(id)] + later)).1.agent == Switched(ApplyUses(b, w, us).1.agent, later)
  {
    UsesSplit(b, w, us, [Use<X>.Detach(id)] + later);
    var r := ApplyUses(b, w, us);
    AgentLeaves(r.0, r.1, k, id, later);
  }

  lemma AgentLeaves<X(!new)>(b: Bus<Site<X>>, w: Site<X>, k: nat, id: u32, later: seq<Use<X>>)
    requires AgentAt(b.subs, k, id) && b.nextId + Attaches(later) < TWO32
    requires forall i :: 0 <= i < |later| && later[i].Attach? ==> Respects(later[i].handler)
    ensures ApplyUses(b, w, [Use<X>.Detach(id)] + later).1.agent == Switched(w.agent, later)
  {
    RespectKept(b.subs, id);
    AgentSeesNothing(b.(subs := Without(b.subs, id)), w, later);
    assert ([Use<X>.Detach(id)] + later)[1..] == later;
  }

  // ---------------------------------------------------------------------------------------------
  // Moving an agent.

  /** What a move leaves in the object moved from: its vectors are empty, everything else is copied. */
  function MovedFrom(a: Agent): Agent {
    Agent([], 0, [], a.dumping, a.dumpAddr, a.dumpSize)
  }

  lemma {:induction false} RaisedSplit<X>(us: seq<Use<X>>, vs: seq<Use<X>>)
    ensures Raised(us + vs) == Raised(us) + Raised(vs)
  {
    if us == [] {
      assert us + vs == vs;
    } else {
      assert (us + vs)[1..] == us[1..] + vs;
      RaisedSplit(us[1..], vs);
    }
  }

  /** An agent and the object it was moved to; before the move there is no heir. */
  datatype Pair<!X> = Pair(bus: Bus<Site<X>>, site: Site<X>, heir: Agent)

  /** The agent is used, then moved from, then more happens; the handler on the bus is still the first object's. */
  function MoveBetween<X>(b: Bus<Site<X>>, w: Site<X>, us: seq<Use<X>>, later: seq<Use<X>>): Pair<X> {
    var (b1, w1) := ApplyUses(b, w, us);
    var (b2, w2) := ApplyUses(b1, w1.(agent := MovedFrom(w1.agent)), later);
    Pair(b2, w2, w1.agent)
  }

  /**
   * A moved agent is not followed by its subscription. Events published after the move go to the
   * object moved from, and none to the one moved to, whose log holds exactly what was published
   * before: so it holds what was published in all if and only if nothing was published since.
   * Both objects hold the subscription's id: when either is destroyed, the other is cut off too.
   */
  lemma MovedAgent<X(!new)>(b: Bus<Site<X>>, w: Site<X>, us: seq<Use<X>>, later: seq<Use<X>>, after: seq<Use<X>>)
    requires Ordered(b) && b.nextId + 1 + Attaches(us) + Attaches(later) + Attaches(after) < TWO32
    requires forall i :: 0 <= i < |b.subs| ==> Respects(b.subs[i].handler)
    requires forall i :: 0 <= i < |us| ==> Polite(us[i], b.nextId)
    requires forall i :: 0 <= i < |later| ==> Polite(later[i], b.nextId)
    requires forall i :: 0 <= i < |after| && after[i].Attach? ==> Respects(after[i].handler)
    requires w.agent == NEW_AGENT
    ensures var p := MoveBetween(Subscribed(b, None, AgentHandler()), w, us, later);
      var dead := ApplyUses(p.bus, p.site, [Use<X>.Detach(b.nextId)] + after).1;
      && Bases(p.heir.log) == Raised(us) && Bases(p.site.agent.log) == Raised(later)
      && (Bases(p.heir.log) == Raised(us + later) <==> Raised(later) == [])
      && dead.agent.log == p.site.agent.log && dead.agent.notified == p.site.agent.notified
  {
    var k := AgentLives(b, w, us);
    LogIsWhatWasPublished(w.vm, NEW_AGENT, us);
    var (b1, w1) := ApplyUses(Subscribed(b, None, AgentHandler()), w, us);
    MovedOn(b1, w1.(agent := MovedFrom(w1.agent)), k, b.nextId, later, after);
    RaisedSplit(us, later);
  }

  lemma MovedOn<X(!new)>(b: Bus<Site<X>>, w: Site<X>, k: nat, id: u32, later: seq<Use<X>>, after: seq<Use<X>>)
    requires AgentAt(b.subs, k, id) && id < b.nextId && b.nextId + Attaches(later) + Attaches(after) < TWO32
    requires w.agent.log == []
    requires forall i :: 0 <= i < |later| ==> Polite(later[i], id)
    requires forall i :: 0 <= i < |after| && after[i].Attach? ==> Respects(after[i].handler)
    ensures var (b2, w2) := ApplyUses(b, w, later);
      var dead := ApplyUses(b2, w2, [Use<X>.Detach(id)] + after).1;
      Bases(w2.agent.log) == Raised(later) && dead.agent.log == w2.agent.log && dead.agent.notified == w2.agent.notified
  {
    var k' := AgentSeesEverything(b, w, later, k, id);
    LogIsWhatWasPublished(w.vm, w.agent, later);
    var (b2, w2) := ApplyUses(b, w, later);
    AgentLeaves(b2, w2, k', id, after);
  }

  ghost predicate AllGood(good: IntrospectionEvent -> bool, log: seq<IntrospectionEvent>) {
    forall i :: 0 <= i < |log| ==> good(log[i])
  }

  ghost predicate GivesGood(enrich: Enricher, good: IntrospectionEvent -> bool) {
    forall a, v, e {:trigger enrich(a, v, e)} :: good(enrich(a, v, e))
  }

  /** A property that enrichment gives every entry holds of the whole log. */
  lemma {:induction false} AllEntries<X>(
      enrich: Enricher, good: IntrospectionEvent -> bool, vm: VmView, a: Agent, us: seq<Use<X>>)
    requires GivesGood(enrich, good) && AllGood(good, a.log)
    ensures AllGood(good, After(enrich, vm, a, us).1.log)
    decreases |us|
  {
    if us != [] {
      match us[0] {
        case Raise(e) =>
          assert AllGood(good, Logged(a, enrich(a, vm, e)).log);
          AllEntries(enrich, good, vm, Logged(a, enrich(a, vm, e)), us[1..]);
        case MachineMoves(vm') => AllEntries(enrich, good, vm', a, us[1..]);
        case _ => AllEntries(enrich, good, vm, Configure(a, us[0]), us[1..]);
      }
    }
  }

  /** What callback number c was called with. */
  function Seen(notified: seq<(nat, IntrospectionEvent)>, c: nat): seq<IntrospectionEvent> {
    if notified == [] then []
    else
      var last := notified[|notified| - 1];
      Seen(notified[..|notified| - 1], c) + if last.0 == c then [last.1] else []
  }

  lemma {:induction false} SeenConcat(a: seq<(nat, IntrospectionEvent)>, b: seq<(nat, IntrospectionEvent)>, c: nat)
    ensures Seen(a + b, c) == Seen(a, c) + Seen(b, c)
    decreases |b|
  {
    if b == [] {
      assert a + b == a;
    } else {
      SeenConcat(a, b[..|b| - 1], c);
      assert (a + b)[..|a + b| - 1] == a + b[..|b| - 1];
    }
  }

  lemma {:induction false} SeenNotifications(n: nat, ie: IntrospectionEvent, c: nat)
    ensures Seen(Notifications(n, ie), c) == if c < n then [ie] else []
    decreases n
  {
    if n > 0 {
      SeenNotifications(n - 1, ie, c);
      assert Notifications(n, ie)[..|Notifications(n, ie)| - 1] == Notifications(n - 1, ie);
    }
  }

  lemma {:induction false} CallbackFollows<X>(enrich: Enricher, vm: VmView, a: Agent, us: seq<Use<X>>, c: nat)
    requires c < a.callbacks
    ensures var a' := After(enrich, vm, a, us).1;
      a.log <= a'.log && Seen(a'.notified, c) == Seen(a.notified, c) + a'.log[|a.log|..]
    decreases |us|
  {
    LogGrows(enrich, vm, a, us);
    if us != [] {
      match us[0] {
        case Raise(e) =>
          var ie := enrich(a, vm, e);
          var a1 := Logged(a, ie);
          CallbackFollows(enrich, vm, a1, us[1..], c);
          SeenLogged(a, ie, c);
          var log := After(enrich, vm, a1, us[1..]).1.log;
          assert log[|a.log|..] == [ie] + log[|a1.log|..];
        case MachineMoves(vm') => CallbackFollows(enrich, vm', a, us[1..], c);
        case _ => CallbackFollows(enrich, vm, Configure(a, us[0]), us[1..], c);
      }
    }
  }

  lemma SeenLogged(a: Agent, ie: IntrospectionEvent, c: nat)
    ensures Seen(Logged(a, ie).notified, c) == Seen(a.notified, c) + if c < a.callbacks then [ie] else []
  {
    SeenConcat(a.notified, Notifications(a.callbacks, ie), c);
    SeenNotifications(a.callbacks, ie, c);
  }

  /** A registered callback is called with exactly the events logged from now on, in order. */
  lemma CallbackSeesLog<X>(vm: VmView, a: Agent, us: seq<Use<X>>, c: nat)
    requires c < a.callbacks
    ensures var a' := Expected(vm, a, us).1;
      a.log <= a'.log && Seen(a'.notified, c) == Seen(a.notified, c) + a'.log[|a.log|..]
  {
    CallbackFollows(Enrich, vm, a, us, c);
  }

  /** The range that is being dumped after these uses, if any: as the latest switch says. */
  function Dumped<X>(us: seq<Use<X>>, before: Option<(u64, nat)>): Option<(u64, nat)> {
    if us == [] then before
    else match us[|us| - 1]
      case EnableDump(addr, size) => Some((addr, size))
      case DisableDump => None
      case _ => Dumped(us[..|us| - 1], before)
  }

  function DumpRange(a: Agent): Option<(u64, nat)> {
    if a.dumping then Some((a.dumpAddr, a.dumpSize)) else None
  }

  lemma {:induction false} DumpedStep<X>(u: Use<X>, us: seq<Use<X>>, a: Agent)
    ensures Dumped([u] + us, DumpRange(a)) == Dumped(us, DumpRange(Configure(a, u)))
    decreases |us|
  {
    var all := [u] + us;
    if us == [] {
      assert all[..0] == [];
    } else {
      assert all[|all| - 1] == us[|us| - 1] && all[..|all| - 1] == [u] + us[..|us| - 1];
      DumpedStep(u, us[..|us| - 1], a);
    }
  }

  lemma {:induction false} DumpFollows<X>(enrich: Enricher, vm: VmView, a: Agent, us: seq<Use<X>>)
    ensures DumpRange(After(enrich, vm, a, us).1) == Dumped(us, DumpRange(a))
    decreases |us|
  {
    if us != [] {
      assert us == [us[0]] + us[1..];
      DumpedStep(us[0], us[1..], a);
      match us[0] {
        case Raise(e) => DumpFollows(enrich, vm, Logged(a, enrich(a, vm, e)), us[1..]);
        case MachineMoves(vm') => DumpFollows(enrich, vm', a, us[1..]);
        case _ => DumpFollows(enrich, vm, Configure(a, us[0]), us[1..]);
      }
    }
  }

  /** After any uses the next event gets a dump exactly when the latest switch asks for a range that one region holds. */
  lemma DumpsAsSwitched<X>(vm: VmView, us: seq<Use<X>>, e: HvEvent)
    ensures var (vm', a) := Expected(vm, NEW_AGENT, us);
      var range, dump := Dumped(us, None), Enrich(a, vm', e).memDump;
      && (dump.Some? <==> range.Some? && range.value.1 > 0 && HeldByOne(vm'.banks, range.value.0, range.value.1))
      && (dump.Some? ==> |dump.value| == range.value.1)
      && (dump.Some? ==> forall k :: 0 <= k < range.value.1 ==> Maps(vm'.banks, range.value.0 + k, dump.value[k]))
  {
    DumpFollows(Enrich, vm, NEW_AGENT, us);
    var (vm', a) := Expected(vm, NEW_AGENT, us);
    DumpAttached(a, vm', e);
  }

  function Printable(): IntrospectionEvent -> bool {
    (ie: IntrospectionEvent) => AllPlain(ie.summary)
  }

  lemma EnrichPrintable()
    ensures GivesGood(Enrich, Printable())
  {
    var enrich: Enricher := Enrich;
    forall a, v, e {:trigger enrich(a, v, e)} ensures Printable()(enrich(a, v, e)) {
      PlainSummary(e, Enrich(a, v, e).snapshot);
    }
  }

  lemma PrintableLog(log: seq<IntrospectionEvent>)
    requires AllGood(Printable(), log)
    ensures PlainLog(log)
  {
    forall i | 0 <= i < |log| ensures AllPlain(log[i].summary) {
      assert Printable()(log[i]);
    }
  }

  /** A log the agent has built is printed as well-formed JSON from which it can be read back. */
  lemma AgentLogRoundTrip<X>(vm: VmView, us: seq<Use<X>>)
    ensures var log := Expected(vm, NEW_AGENT, us).1.log;
      var records := ReadLog(LogText(log));
      records.Some? && |records.value| == |log| && forall i :: 0 <= i < |log| ==> Tells(records.value[i], log[i])
  {
    PlainAgentLog(vm, us);
    LogRoundTrip(Expected(vm, NEW_AGENT, us).1.log);
  }

  lemma PlainAgentLog<X>(vm: VmView, us: seq<Use<X>>)
    ensures PlainLog(Expected(vm, NEW_AGENT, us).1.log)
  {
    EnrichPrintable();
    AllEntries(Enrich, Printable(), vm, NEW_AGENT, us);
    PrintableLog(Expected(vm, NEW_AGENT, us).1.log);
  }
}
