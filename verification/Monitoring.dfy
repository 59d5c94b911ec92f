/**
 * The run loop and its listeners on one bus: what a subscription to the trapper's dispatcher
 * receives of a run, and what an agent subscribed to it logs and prints.
 */
module Monitoring {
  import opened Words
  import opened Memory
  import opened Kvm
  import opened Events
  import opened EventBus
  import opened Devices
  import opened Loops
  import opened ExitLoop
  import opened Accounting
  import opened Text
  import opened Introspection
  import opened EventLog
  import opened VmiLog
  import opened SummaryReader

  /** The events published on the way from one bus to another. */
  function Fresh<W>(b: Bus<W>, b': Bus<W>): seq<HvEvent> {
    if b.events <= b'.events then b'.events[|b.events|..] else []
  }

  lemma FreshChain<W>(b: Bus<W>, b1: Bus<W>, b2: Bus<W>)
    requires b.events <= b1.events <= b2.events
    ensures b.events <= b2.events && Fresh(b, b2) == Fresh(b, b1) + Fresh(b1, b2)
  {
  }

  // ---------------------------------------------------------------------------------------------
  // What a step does to the bus.

  /** The bus is as it was, or one event has been published on it. */
  ghost predicate AtMostOne<W>(b: Bus<W>, b': Bus<W>) {
    b' == b || b' == Published(b, Latest(b'))
  }

  function Latest<W>(b: Bus<W>): HvEvent {
    if b.events == [] then HvEvent(GuestHalt, 0, 0, 0, NoPayload) else b.events[|b.events| - 1]
  }

  lemma AtMostOneFresh<W>(b: Bus<W>, b': Bus<W>)
    requires AtMostOne(b, b')
    ensures b'.subs == b.subs && b.events <= b'.events
    ensures Fresh(b, b') == if b' == b then [] else [Latest(b')]
  {
    if b' != b {
      assert b'.events == b.events + [Latest(b')];
    }
  }

  lemma DispatchPublishes<W>(rig: Rig<W>, m: Machine<W>)
    requires Ok(m)
    ensures AtMostOne(m.bus, DispatchExit(rig, m, m.cpu.exit).0.bus)
  {
  }

  lemma StepPublishes<W>(rig: Rig<W>, m: Machine<W>)
    requires Ok(m)
    ensures AtMostOne(m.bus, Step(rig, m).0.bus)
  {
    if Run(rig.kernel, m.cpu).1.Some? {
      DispatchPublishes(rig, AtExit(rig, m));
    }
  }

  // ---------------------------------------------------------------------------------------------
  // What a subscription receives of a run.

  /** Subscription k is a catch-all with this id. */
  ghost predicate CatchAll<W>(b: Bus<W>, k: nat, id: u32) {
    Ordered(b) && k < |b.subs| && b.subs[k].id == id && b.subs[k].filter == None
  }

  lemma PublishedReceived<W>(b: Bus<W>, e: HvEvent, k: nat, id: u32)
    requires CatchAll(b, k, id)
    ensures CatchAll(Published(b, e), k, id) && Received(Published(b, e).calls, id) == Received(b.calls, id) + [e]
  {
    OneCall(b.subs, e, k);
    ReceivedConcat(b.calls, CallsFor(b.subs, e), id);
  }

  /** From b to b' the subscription received exactly what was published. */
  ghost predicate Delivers<W>(b: Bus<W>, b': Bus<W>, k: nat, id: u32) {
    CatchAll(b', k, id) && b.events <= b'.events && Received(b'.calls, id) == Received(b.calls, id) + Fresh(b, b')
  }

  lemma StepDelivers<W>(rig: Rig<W>, m: Machine<W>, k: nat, id: u32)
    requires Ok(m) && CatchAll(m.bus, k, id)
    ensures Delivers(m.bus, Step(rig, m).0.bus, k, id)
  {
    var b' := Step(rig, m).0.bus;
    StepPublishes(rig, m);
    AtMostOneFresh(m.bus, b');
    if b' != m.bus {
      PublishedReceived(m.bus, Latest(b'), k, id);
    }
  }

  ghost predicate DeliversAt<W>(step: Stepper<Machine<W>>, k: nat, id: u32, m: Machine<W>) {
    Ok(step(m).0) && Delivers(m.bus, step(m).0.bus, k, id)
  }

  ghost predicate StepsDeliver<W(!new)>(step: Stepper<Machine<W>>, k: nat, id: u32) {
    forall m {:trigger DeliversAt(step, k, id, m)} :: Ok(m) && CatchAll(m.bus, k, id) ==> DeliversAt(step, k, id, m)
  }

  lemma {:induction false} RunDelivers<W(!new)>(step: Stepper<Machine<W>>, m: Machine<W>, n: nat, k: nat, id: u32)
    requires StepsDeliver(step, k, id) && Ok(m) && CatchAll(m.bus, k, id)
    ensures Delivers(m.bus, RunFor(step, m, n).0.bus, k, id)
    decreases n
  {
    assert DeliversAt(step, k, id, m);
    if n > 0 && step(m).1 == Continue {
      var m1 := step(m).0;
      RunDelivers(step, m1, n - 1, k, id);
      FreshChain(m.bus, m1.bus, RunFor(step, m1, n - 1).0.bus);
    }
  }

  lemma StepDeliversAt<W>(rig: Rig<W>, k: nat, id: u32, m: Machine<W>)
    requires Ok(m) && CatchAll(m.bus, k, id)
    ensures DeliversAt(Stepping(rig), k, id, m)
  {
    StepDelivers(rig, m, k, id);
  }

  /**
   * Over any run of any guest, whatever the wiring: a catch-all subscription to the trapper's
   * dispatcher is called with exactly the events the run publishes, once each and in order, and is
   * still there afterwards.
   */
  lemma RunIsReceived<W(!new)>(rig: Rig<W>, m: Machine<W>, n: nat, k: nat, id: u32)
    requires Ok(m) && CatchAll(m.bus, k, id)
    ensures var m' := RunFor(Stepping(rig), m, n).0;
      && CatchAll(m'.bus, k, id) && m.bus.events <= m'.bus.events
      && Received(m'.bus.calls, id) == Received(m.bus.calls, id) + Fresh(m.bus, m'.bus)
  {
    var step := Stepping(rig);
    forall x: Machine<W> {:trigger DeliversAt(step, k, id, x)} | Ok(x) && CatchAll(x.bus, k, id) ensures DeliversAt(step, k, id, x) {
      StepDeliversAt(rig, k, id, x);
    }
    RunDelivers(step, m, n, k, id);
  }

  // ---------------------------------------------------------------------------------------------
  // What an agent makes of a run. The captured state is the site of module VmiLog.

  /** The machine as the agent sees it when the vCPU is in a given state. */
  type Sight = Cpu -> VmView

  /** Device and CPUID callbacks have nothing to do with the agent. */
  ghost predicate LeaveAgent<X(!new)>(rig: Rig<Site<X>>) {
    && (rig.io.Some? ==>
          && (forall w: Site<X>, x: Exit {:trigger InReply(rig.io.value, w, x)} :: x.Io? ==> InReply(rig.io.value, w, x).0.agent == w.agent)
          && (forall w: Site<X>, x: Exit, v: u32 {:trigger OutEffect(rig.io.value, w, x, v)} ::
                x.Io? ==> OutEffect(rig.io.value, w, x, v).agent == w.agent))
    && (rig.mmio.Some? ==>
          && (forall w: Site<X>, x: Exit {:trigger ReadReply(rig.mmio.value, w, x)} :: x.Mmio? ==> ReadReply(rig.mmio.value, w, x).0.agent == w.agent)
          && (forall w: Site<X>, x: Exit, v: u64 {:trigger WriteEffect(rig.mmio.value, w, x, v)} ::
                x.Mmio? ==> WriteEffect(rig.mmio.value, w, x, v).agent == w.agent))
    && (rig.cpuid.Some? ==>
          forall w: Site<X>, leaf: u32, sub: u32 {:trigger LeafReply(rig.cpuid.value, w, leaf, sub)} ::
            LeafReply(rig.cpuid.value, w, leaf, sub).0.agent == w.agent)
  }

  /** Handlers find the machine that sight shows them. */
  ghost predicate Shows<X(!new)>(rig: Rig<Site<X>>, sight: Sight) {
    forall w: Site<X>, c: Cpu {:trigger rig.look(w, c)} :: rig.look(w, c) == w.(vm := sight(c))
  }

  ghost predicate Watched<X(!new)>(rig: Rig<Site<X>>, sight: Sight) {
    LeaveAgent(rig) && Shows(rig, sight)
  }

  /** One published event is one entry, made of the machine as the step leaves it; no event, no entry. */
  ghost predicate LogsOne<X>(m: Machine<Site<X>>, m': Machine<Site<X>>, sight: Sight) {
    && AtMostOne(m.bus, m'.bus)
    && m'.world.agent == if m'.bus == m.bus then m.world.agent else Handle(m.world.agent, sight(m'.cpu), Latest(m'.bus))
  }

  lemma EmitLogs<X(!new)>(
      rig: Rig<Site<X>>, sight: Sight, m: Machine<Site<X>>, kind: EventType, payload: Payload, wantRip: bool, k: nat, id: u32)
    requires Shows(rig, sight) && AgentAt(m.bus.subs, k, id)
    ensures LogsOne(m, Emit(rig, m, kind, payload, wantRip), sight)
  {
    if rig.bus {
      var (c, (t, rip)) := Stamped(rig.kernel, m.cpu, wantRip);
      var e := HvEvent(kind, rig.vcpuId, rip, t, payload);
      assert Emit(rig, m, kind, payload, wantRip) == Send(rig, m.(cpu := c), e);
      assert Published(m.bus, e).events == m.bus.events + [e];
      DeliverOnce(m.bus.subs, rig.look(m.world, c), e, k, id);
    }
  }

  /** The same after a device or CPUID callback. */
  lemma EmitLogsAfter<X(!new)>(rig: Rig<Site<X>>, sight: Sight, m: Machine<Site<X>>, m1: Machine<Site<X>>,
                               kind: EventType, payload: Payload, wantRip: bool, k: nat, id: u32)
    requires Shows(rig, sight) && AgentAt(m.bus.subs, k, id) && m1.bus == m.bus && m1.world.agent == m.world.agent
    ensures LogsOne(m, Emit(rig, m1, kind, payload, wantRip), sight)
  {
    EmitLogs(rig, sight, m1, kind, payload, wantRip, k, id);
  }

  lemma IoLogs<X(!new)>(rig: Rig<Site<X>>, sight: Sight, m: Machine<Site<X>>, k: nat, id: u32)
    requires Watched(rig, sight) && Ok(m) && m.cpu.exit.Io? && AgentAt(m.bus.subs, k, id)
    ensures LogsOne(m, IoExit(rig, m, m.cpu.exit).0, sight)
  {
    var x := m.cpu.exit;
    var m1 := HandledIo(rig, m, x);
    EmitLogsAfter(rig, sight, m, m1, if x.out then IoWrite else IoRead, IoEvent(x, m1.cpu.page), true, k, id);
  }

  lemma MmioLogs<X(!new)>(rig: Rig<Site<X>>, sight: Sight, m: Machine<Site<X>>, k: nat, id: u32)
    requires Watched(rig, sight) && Ok(m) && m.cpu.exit.Mmio? && AgentAt(m.bus.subs, k, id)
    ensures LogsOne(m, MmioExit(rig, m, m.cpu.exit).0, sight)
  {
    var x := m.cpu.exit;
    if rig.mmio.None? || MmioAccepted(x) {
      var m1 := HandledMmio(rig, m, x);
      EmitLogsAfter(rig, sight, m, m1, MemAccess, MmioEvent(x, m1.cpu.page), true, k, id);
    }
  }

  lemma CpuidLogs<X(!new)>(rig: Rig<Site<X>>, sight: Sight, m: Machine<Site<X>>, k: nat, id: u32)
    requires Watched(rig, sight) && Ok(m) && AgentAt(m.bus.subs, k, id)
    ensures LogsOne(m, HandledCpuid(rig, m).0, sight) && LogsOne(m, EmulationExit(rig, m).0, sight)
  {
    var (m1, ok) := HandledCpuid(rig, m);
    assert m1.bus == m.bus && m1.world.agent == m.world.agent;
    if ok && rig.bus {
      var (c, regs) := GetRegs(rig.kernel, m1.cpu);
      EmitLogsAfter(rig, sight, m, m1.(cpu := c), CpuidAccess, CpuidEvent(regs), true, k, id);
    }
  }

  lemma DispatchLogs<X(!new)>(rig: Rig<Site<X>>, sight: Sight, m: Machine<Site<X>>, k: nat, id: u32)
    requires Watched(rig, sight) && Ok(m) && AgentAt(m.bus.subs, k, id)
    ensures LogsOne(m, DispatchExit(rig, m, m.cpu.exit).0, sight)
  {
    match m.cpu.exit {
      case Hlt => EmitLogs(rig, sight, m, GuestHalt, NoPayload, true, k, id);
      case Shutdown => EmitLogs(rig, sight, m, GuestShutdown, DEFAULT_PAYLOAD, false, k, id);
      case Io(_, _, _, _, _) => IoLogs(rig, sight, m, k, id);
      case Mmio(_, _, _) => MmioLogs(rig, sight, m, k, id);
      case Unknown(_) => CpuidLogs(rig, sight, m, k, id);
      case InternalError(_) => CpuidLogs(rig, sight, m, k, id);
      case _ =>
    }
  }

  lemma StepLogs<X(!new)>(rig: Rig<Site<X>>, sight: Sight, m: Machine<Site<X>>, k: nat, id: u32)
    requires Watched(rig, sight) && Ok(m) && AgentAt(m.bus.subs, k, id)
    ensures LogsOne(m, Step(rig, m).0, sight)
  {
    if Run(rig.kernel, m.cpu).1.Some? {
      DispatchLogs(rig, sight, AtExit(rig, m), k, id);
    }
  }

  // ---------------------------------------------------------------------------------------------
  // Over whole runs, for any property that the new entries have.

  /** The log has grown by one entry for each of these events, and all of them are good. */
  ghost predicate Grew(good: IntrospectionEvent -> bool, log: seq<IntrospectionEvent>, log': seq<IntrospectionEvent>, events: seq<HvEvent>) {
    log <= log' && Bases(log'[|log|..]) == events && forall i :: |log| <= i < |log'| ==> good(log'[i])
  }

  lemma GrewChain(good: IntrospectionEvent -> bool, log: seq<IntrospectionEvent>, log1: seq<IntrospectionEvent>,
                  log2: seq<IntrospectionEvent>, events: seq<HvEvent>, events': seq<HvEvent>)
    requires Grew(good, log, log1, events) && Grew(good, log1, log2, events')
    ensures Grew(good, log, log2, events + events')
  {
    assert log2[|log|..] == log1[|log|..] + log2[|log1|..];
    assert Bases(log1[|log|..] + log2[|log1|..]) == Bases(log1[|log|..]) + Bases(log2[|log1|..]);
    forall i | |log| <= i < |log2| ensures good(log2[i]) {
      if i < |log1| { assert log2[i] == log1[i]; }
    }
  }

  ghost predicate LogsAt<X(!new)>(
      step: Stepper<Machine<Site<X>>>, good: IntrospectionEvent -> bool, k: nat, id: u32, m: Machine<Site<X>>) {
    var m' := step(m).0;
    && Ok(m') && AgentAt(m'.bus.subs, k, id) && m.bus.events <= m'.bus.events
    && Grew(good, m.world.agent.log, m'.world.agent.log, Fresh(m.bus, m'.bus))
  }

  ghost predicate StepsLog<X(!new)>(step: Stepper<Machine<Site<X>>>, good: IntrospectionEvent -> bool, k: nat, id: u32) {
    forall m {:trigger LogsAt(step, good, k, id, m)} :: Ok(m) && AgentAt(m.bus.subs, k, id) ==> LogsAt(step, good, k, id, m)
  }

  lemma {:induction false} RunLogs<X(!new)>(
      step: Stepper<Machine<Site<X>>>, good: IntrospectionEvent -> bool, m: Machine<Site<X>>, n: nat, k: nat, id: u32)
    requires StepsLog(step, good, k, id) && Ok(m) && AgentAt(m.bus.subs, k, id)
    ensures var m' := RunFor(step, m, n).0;
      m.bus.events <= m'.bus.events && Grew(good, m.world.agent.log, m'.world.agent.log, Fresh(m.bus, m'.bus))
    decreases n
  {
    assert LogsAt(step, good, k, id, m);
    if n > 0 && step(m).1 == Continue {
      var m1 := step(m).0;
      RunLogs(step, good, m1, n - 1, k, id);
      var m2 := RunFor(step, m1, n - 1).0;
      FreshChain(m.bus, m1.bus, m2.bus);
      GrewChain(good, m.world.agent.log, m1.world.agent.log, m2.world.agent.log, Fresh(m.bus, m1.bus), Fresh(m1.bus, m2.bus));
    }
  }

  /** The entries a step makes are good, given what it does to the bus and the agent. */
  lemma OneGrew<X>(good: IntrospectionEvent -> bool, m: Machine<Site<X>>, m': Machine<Site<X>>, sight: Sight)
    requires LogsOne(m, m', sight)
    requires m'.bus != m.bus ==> good(Enrich(m.world.agent, sight(m'.cpu), Latest(m'.bus)))
    ensures Grew(good, m.world.agent.log, m'.world.agent.log, Fresh(m.bus, m'.bus))
  {
    AtMostOneFresh(m.bus, m'.bus);
    var log, log' := m.world.agent.log, m'.world.agent.log;
    if m'.bus != m.bus {
      assert log'[|log|..] == [Enrich(m.world.agent, sight(m'.cpu), Latest(m'.bus))];
    } else {
      assert log'[|log|..] == [];
    }
  }

  // ---------------------------------------------------------------------------------------------
  // Printable entries, and entries that agree with their events.

  /** Registers can always be read. */
  ghost predicate Open(k: Kernel) {
    forall tick: nat, r :: k.regsReadable(tick, r)
  }

  /** The agent sees the registers of vCPU number id as they are. */
  ghost predicate SeesVcpu(sight: Sight, id: u32) {
    forall c {:trigger sight(c)} ::
      id < |sight(c).vcpus| && sight(c).vcpus[id] == VcpuView(Some(c.regs), Some(c.sregs))
  }

  /** The entry's register snapshot agrees with its event; a shutdown event reports no rip. */
  predicate RipAgrees(ie: IntrospectionEvent) {
    ie.base.kind != GuestShutdown ==> ie.snapshot.rip == ie.base.rip
  }

  /** What a step publishes has the vCPU's id and, but for a shutdown, its rip. */
  predicate Own<W>(rig: Rig<W>, m': Machine<W>, e: HvEvent) {
    e.vcpuId == rig.vcpuId && (e.kind != GuestShutdown ==> e.rip == m'.cpu.regs.rip)
  }

  lemma EmitOwn<W>(rig: Rig<W>, m: Machine<W>, kind: EventType, payload: Payload, wantRip: bool)
    requires Open(rig.kernel) && (wantRip || kind == GuestShutdown)
    ensures var m' := Emit(rig, m, kind, payload, wantRip); m'.bus != m.bus ==> Own(rig, m', Latest(m'.bus))
  {
    if rig.bus {
      var (c, (t, rip)) := Stamped(rig.kernel, m.cpu, wantRip);
      assert rig.kernel.regsReadable(m.cpu.tick + 1, m.cpu.regs);
      var e := HvEvent(kind, rig.vcpuId, rip, t, payload);
      assert Published(m.bus, e).events == m.bus.events + [e];
    }
  }

  lemma CpuidOwn<W>(rig: Rig<W>, m: Machine<W>)
    requires Ok(m) && Open(rig.kernel)
    ensures var m' := EmulationExit(rig, m).0; m'.bus != m.bus ==> Own(rig, m', Latest(m'.bus))
  {
    var (m1, ok) := HandledCpuid(rig, m);
    if ok && rig.bus {
      var (c, regs) := GetRegs(rig.kernel, m1.cpu);
      EmitOwn(rig, m1.(cpu := c), CpuidAccess, CpuidEvent(regs), true);
    }
  }

  lemma DispatchOwn<W>(rig: Rig<W>, m: Machine<W>)
    requires Ok(m) && Open(rig.kernel)
    ensures var m' := DispatchExit(rig, m, m.cpu.exit).0; m'.bus != m.bus ==> Own(rig, m', Latest(m'.bus))
  {
    var x := m.cpu.exit;
    match x {
      case Hlt => EmitOwn(rig, m, GuestHalt, NoPayload, true);
      case Shutdown => EmitOwn(rig, m, GuestShutdown, DEFAULT_PAYLOAD, false);
      case Io(_, _, _, _, _) =>
        var m1 := HandledIo(rig, m, x);
        EmitOwn(rig, m1, if x.out then IoWrite else IoRead, IoEvent(x, m1.cpu.page), true);
      case Mmio(_, _, _) =>
        if rig.mmio.None? || MmioAccepted(x) {
          var m1 := HandledMmio(rig, m, x);
          EmitOwn(rig, m1, MemAccess, MmioEvent(x, m1.cpu.page), true);
        }
      case InternalError(_) => CpuidOwn(rig, m);
      case _ =>
    }
  }

  lemma StepOwn<W>(rig: Rig<W>, m: Machine<W>)
    requires Ok(m) && Open(rig.kernel)
    ensures var m' := Step(rig, m).0; m'.bus != m.bus ==> Own(rig, m', Latest(m'.bus))
  {
    if Run(rig.kernel, m.cpu).1.Some? {
      DispatchOwn(rig, AtExit(rig, m));
    }
  }

  /** Every entry can be printed; with readable registers, every entry agrees with its event. */
  function Sound(open: bool): IntrospectionEvent -> bool {
    (ie: IntrospectionEvent) => AllPlain(ie.summary) && Legible(ie) && (open ==> RipAgrees(ie))
  }

  /** The summary alone gives back the event: its vCPU, the rip of the snapshot, the access. */
  predicate Legible(ie: IntrospectionEvent) {
    ReadLine(ie.summary) == Some(Report(ie.base.vcpuId, ie.snapshot.rip, WordOf(ie.base.kind, ie.base.payload), ie.base.payload))
  }

  lemma EntrySound<W>(rig: Rig<W>, m': Machine<W>, a: Agent, sight: Sight, e: HvEvent, open: bool)
    requires open ==> SeesVcpu(sight, rig.vcpuId) && Own(rig, m', e)
    ensures Sound(open)(Enrich(a, sight(m'.cpu), e))
  {
    PlainSummary(e, Enrich(a, sight(m'.cpu), e).snapshot);
    SummaryRead(e, Enrich(a, sight(m'.cpu), e).snapshot);
  }

  lemma StepLogsAt<X(!new)>(rig: Rig<Site<X>>, sight: Sight, k: nat, id: u32, m: Machine<Site<X>>, open: bool)
    requires Watched(rig, sight) && Ok(m) && AgentAt(m.bus.subs, k, id)
    requires open ==> Open(rig.kernel) && SeesVcpu(sight, rig.vcpuId)
    ensures LogsAt(Stepping(rig), Sound(open), k, id, m)
  {
    var m' := Step(rig, m).0;
    StepLogs(rig, sight, m, k, id);
    if open { StepOwn(rig, m); }
    if m'.bus != m.bus { EntrySound(rig, m', m.world.agent, sight, Latest(m'.bus), open); }
    OneGrew(Sound(open), m, m', sight);
    AtMostOneFresh(m.bus, m'.bus);
  }

  lemma RunLogsSoundly<X(!new)>(
      rig: Rig<Site<X>>, sight: Sight, m: Machine<Site<X>>, n: nat, k: nat, id: u32, open: bool)
    requires Watched(rig, sight) && Ok(m) && AgentAt(m.bus.subs, k, id)
    requires open ==> Open(rig.kernel) && SeesVcpu(sight, rig.vcpuId)
    ensures var m' := RunFor(Stepping(rig), m, n).0;
      m.bus.events <= m'.bus.events && Grew(Sound(open), m.world.agent.log, m'.world.agent.log, Fresh(m.bus, m'.bus))
  {
    var step, good := Stepping(rig), Sound(open);
    forall x: Machine<Site<X>> {:trigger LogsAt(step, good, k, id, x)} | Ok(x) && AgentAt(x.bus.subs, k, id)
      ensures LogsAt(step, good, k, id, x)
    {
      StepLogsAt(rig, sight, k, id, x, open);
    }
    RunLogs(step, good, m, n, k, id);
  }

  /**
   * Over any run of any guest with an agent subscribed to the trapper's dispatcher, whoever else
   * listens: the agent's log grows by exactly the events the run publishes, in order.
   */
  lemma RunIsLogged<X(!new)>(rig: Rig<Site<X>>, sight: Sight, m: Machine<Site<X>>, n: nat, k: nat, id: u32)
    requires Watched(rig, sight) && Ok(m) && AgentAt(m.bus.subs, k, id)
    ensures var m' := RunFor(Stepping(rig), m, n).0;
      && m.bus.events <= m'.bus.events && m.world.agent.log <= m'.world.agent.log
      && Bases(m'.world.agent.log) == Bases(m.world.agent.log) + Fresh(m.bus, m'.bus)
  {
    RunLogsSoundly(rig, sight, m, n, k, id, false);
    var log, log' := m.world.agent.log, RunFor(Stepping(rig), m, n).0.world.agent.log;
    BasesGrow(log, log');
  }

  lemma BasesGrow(log: seq<IntrospectionEvent>, log': seq<IntrospectionEvent>)
    requires log <= log'
    ensures Bases(log') == Bases(log) + Bases(log'[|log|..])
  {
    assert log' == log + log'[|log|..];
  }

  // ---------------------------------------------------------------------------------------------
  // And what it prints.

  /**
   * What a reader of the text finds for an event: its vCPU, but for a shutdown its rip, and, in the
   * words of the summary, what kind of access it was with every number of its payload.
   */
  predicate Reports(r: Record, e: HvEvent) {
    && r.vcpuId == e.vcpuId && (e.kind != GuestShutdown ==> r.rip == e.rip)
    && ReadLine(r.summary) == Some(Report(e.vcpuId, r.rip, WordOf(e.kind, e.payload), e.payload))
  }

  /** The text of the log is JSON from which a reader gets one record per event, in order, each reporting its event. */
  predicate Printed(log: seq<IntrospectionEvent>, events: seq<HvEvent>) {
    var records := ReadLog(LogText(log));
    && records.Some? && |records.value| == |events|
    && forall i :: 0 <= i < |events| ==> Reports(records.value[i], events[i])
  }

  lemma SoundPrinted(log: seq<IntrospectionEvent>, events: seq<HvEvent>)
    requires Grew(Sound(true), [], log, events)
    ensures Printed(log, events)
  {
    assert log[0..] == log;
    assert PlainLog(log) by {
      forall i | 0 <= i < |log| ensures AllPlain(log[i].summary) { assert Sound(true)(log[i]); }
    }
    LogRoundTrip(log);
    var records := RecordsOf(log);
    forall i | 0 <= i < |events| ensures Reports(records[i], events[i]) {
      assert Tells(records[i], log[i]);
      assert Sound(true)(log[i]) && Bases(log)[i] == log[i].base;
    }
  }

  /**
   * From the run loop to the file: of any run with a new agent subscribed that can read the
   * registers, the text the agent prints is JSON from which a reader gets one record per event of
   * the run, in order, each with the vCPU, the payload and (but for a shutdown, which reports none) the
   * rip that the trapper put into the event.
   */
  lemma RunIsPrinted<X(!new)>(rig: Rig<Site<X>>, sight: Sight, m: Machine<Site<X>>, n: nat, k: nat, id: u32)
    requires Watched(rig, sight) && Ok(m) && AgentAt(m.bus.subs, k, id) && m.world.agent.log == []
    requires Open(rig.kernel) && SeesVcpu(sight, rig.vcpuId)
    ensures var m' := RunFor(Stepping(rig), m, n).0; Printed(m'.world.agent.log, Fresh(m.bus, m'.bus))
  {
    RunLogsSoundly(rig, sight, m, n, k, id, true);
    var m' := RunFor(Stepping(rig), m, n).0;
    SoundPrinted(m'.world.agent.log, Fresh(m.bus, m'.bus));
  }
}
