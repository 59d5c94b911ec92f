/** The exit state machine: what one step and a run of the trapper do to the whole machine. */
module ExitLoop {
  import opened Words
  import opened Memory
  import opened Registers
  import opened Kvm
  import opened Events
  import opened EventBus
  import opened Devices
  import opened Loops

  datatype Stats = Stats(exits: u64, handled: u64, ins: u64, outs: u64, mmioReads: u64, mmioWrites: u64)

  /**
   * The trapper's wiring; a missing handler or dispatcher is None, or false. Event handlers may have
   * captured the VM by reference: look gives what they then find of the vCPU in the captured state.
   */
  datatype Rig<!W> = Rig(
    kernel: Kernel, vcpuId: u32, cpuid: Option<Leaves<W>>, io: Option<Ports<W>>, mmio: Option<MmioMap<W>>, bus: bool,
    look: (W, Cpu) -> W)

  /** Handlers that have captured nothing of the machine. */
  function NoLook<W>(): (W, Cpu) -> W {
    (w: W, c: Cpu) => w
  }

  datatype Machine<!W> = Machine(cpu: Cpu, world: W, bus: Bus<W>, stats: Stats)

  predicate Ok<W>(m: Machine<W>) {
    CpuOk(m.cpu)
  }

  /** The run page keeps its size and guest memory its shape. */
  predicate Steady<W>(m: Machine<W>, m': Machine<W>) {
    Ok(m') && |m'.cpu.page| == |m.cpu.page| && SameShape(m'.cpu.ram, m.cpu.ram)
  }

  /** The time of an event and, when wanted, the guest's rip; zero when the registers cannot be read. */
  function Stamped(k: Kernel, c: Cpu, wantRip: bool): (r: (Cpu, (int, u64)))
    ensures r.0 == c.(tick := r.0.tick)
  {
    var (c1, t) := Now(k, c);
    if !wantRip then (c1, (t, 0))
    else var (c2, regs) := GetRegs(k, c1); (c2, (t, if regs.Some? then regs.value.rip else 0))
  }

  function Send<W>(rig: Rig<W>, m: Machine<W>, e: HvEvent): Machine<W> {
    m.(world := Deliver(m.bus.subs, rig.look(m.world, m.cpu), e), bus := Published(m.bus, e))
  }

  /** Stamp an event, read rip when asked to, and publish; nothing without a dispatcher. */
  function Emit<W>(rig: Rig<W>, m: Machine<W>, kind: EventType, payload: Payload, wantRip: bool): (m': Machine<W>)
    ensures m'.stats == m.stats && m'.cpu == m.cpu.(tick := m'.cpu.tick)
  {
    if !rig.bus then m
    else
      var (c, (t, rip)) := Stamped(rig.kernel, m.cpu, wantRip);
      Send(rig, m.(cpu := c), HvEvent(kind, rig.vcpuId, rip, t, payload))
  }

  function IoEvent(x: Exit, page: seq<byte>): Payload
    requires x.Io? && InPage(x, |page|)
  {
    IoPayload(x.port, x.size, Le32(AccessBytes(x, page)), x.out)
  }

  function MmioEvent(x: Exit, page: seq<byte>): Payload
    requires x.Mmio? && InPage(x, |page|)
  {
    MmioPayload(x.addr, Wrap8(x.len), Le64(AccessBytes(x, page)), x.write)
  }

  function CpuidEvent(regs: Option<Regs>): Payload {
    if regs.None? then DEFAULT_PAYLOAD
    else var r := regs.value;
      CpuidPayload(Wrap32(r.rax), Wrap32(r.rcx), Wrap32(r.rax), Wrap32(r.rbx), Wrap32(r.rcx), Wrap32(r.rdx))
  }

  function HandledIo<W>(rig: Rig<W>, m: Machine<W>, x: Exit): (m': Machine<W>)
    requires Ok(m) && x.Io? && InPage(x, |m.cpu.page|)
    ensures m'.cpu == m.cpu.(page := m'.cpu.page) && |m'.cpu.page| == |m.cpu.page| && m'.bus == m.bus
  {
    if rig.io.None? then m
    else
      var (w, page) := HandleIo(rig.io.value, m.world, x, m.cpu.page);
      m.(world := w, cpu := m.cpu.(page := page), stats :=
        if x.out then m.stats.(outs := Wrap64(m.stats.outs + 1)) else m.stats.(ins := Wrap64(m.stats.ins + 1)))
  }

  function IoExit<W>(rig: Rig<W>, m: Machine<W>, x: Exit): (r: (Machine<W>, RunResult))
    requires Ok(m) && x.Io? && x == m.cpu.exit
    ensures Steady(m, r.0)
  {
    var m1 := HandledIo(rig, m, x);
    (Emit(rig, m1, if x.out then IoWrite else IoRead, IoEvent(x, m1.cpu.page), true), Continue)
  }

  function HandledMmio<W>(rig: Rig<W>, m: Machine<W>, x: Exit): (m': Machine<W>)
    requires Ok(m) && InPage(x, |m.cpu.page|) && (rig.mmio.Some? ==> MmioAccepted(x))
    ensures m'.cpu == m.cpu.(page := m'.cpu.page) && |m'.cpu.page| == |m.cpu.page| && m'.bus == m.bus
  {
    if rig.mmio.None? then m
    else
      var (w, page) := HandleMmio(rig.mmio.value, m.world, x, m.cpu.page);
      m.(world := w, cpu := m.cpu.(page := page), stats :=
        if x.write then m.stats.(mmioWrites := Wrap64(m.stats.mmioWrites + 1))
        else m.stats.(mmioReads := Wrap64(m.stats.mmioReads + 1)))
  }

  function MmioExit<W>(rig: Rig<W>, m: Machine<W>, x: Exit): (r: (Machine<W>, RunResult))
    requires Ok(m) && x.Mmio? && x == m.cpu.exit
    ensures Steady(m, r.0)
  {
    if rig.mmio.Some? && !MmioAccepted(x) then (m, Error)
    else
      var m1 := HandledMmio(rig, m, x);
      (Emit(rig, m1, MemAccess, MmioEvent(x, m1.cpu.page), true), Continue)
  }

  function HandledCpuid<W>(rig: Rig<W>, m: Machine<W>): (r: (Machine<W>, bool))
    ensures r.0.cpu == m.cpu.(regs := r.0.cpu.regs, tick := r.0.cpu.tick) && r.0.bus == m.bus
  {
    if rig.cpuid.None? then (m, true)
    else
      var (c, w, ok) := HandleCpuid(rig.kernel, rig.cpuid.value, m.world, m.cpu);
      (m.(cpu := c, world := w, stats := if ok then m.stats.(handled := Wrap64(m.stats.handled + 1)) else m.stats), ok)
  }

  /** The event is built from the registers as the handler left them. */
  function EmitCpuid<W>(rig: Rig<W>, m: Machine<W>): (m': Machine<W>)
    ensures m'.stats == m.stats && m'.cpu == m.cpu.(tick := m'.cpu.tick)
  {
    if !rig.bus then m
    else
      var (c, regs) := GetRegs(rig.kernel, m.cpu);
      Emit(rig, m.(cpu := c), CpuidAccess, CpuidEvent(regs), true)
  }

  function EmulationExit<W>(rig: Rig<W>, m: Machine<W>): (r: (Machine<W>, RunResult))
    requires Ok(m)
    ensures Steady(m, r.0)
  {
    var (m1, ok) := HandledCpuid(rig, m);
    if !ok then (m1, Error) else (EmitCpuid(rig, m1), Continue)
  }

  function UnknownExit<W>(rig: Rig<W>, m: Machine<W>, x: Exit): (r: (Machine<W>, RunResult))
    requires Ok(m) && x.Unknown?
    ensures Steady(m, r.0)
  {
    if x.hardwareReason != 0 then (m, Continue)
    else var (m1, ok) := HandledCpuid(rig, m); (m1, if ok then Continue else Error)
  }

  function InternalErrorExit<W>(rig: Rig<W>, m: Machine<W>, x: Exit): (r: (Machine<W>, RunResult))
    requires Ok(m) && x.InternalError?
    ensures Steady(m, r.0)
  {
    if x.suberror == KVM_INTERNAL_ERROR_EMULATION then EmulationExit(rig, m) else (m, Error)
  }

  /** A shutdown event is published with the payload it was default-initialised with. */
  function StopExit<W>(rig: Rig<W>, m: Machine<W>, x: Exit): (r: (Machine<W>, RunResult))
    requires Ok(m) && (x.Hlt? || x.Shutdown?)
    ensures Steady(m, r.0)
  {
    if x.Hlt? then (Emit(rig, m, GuestHalt, NoPayload, true), Halt)
    else (Emit(rig, m, GuestShutdown, DEFAULT_PAYLOAD, false), ShutDown)
  }

  function DispatchExit<W>(rig: Rig<W>, m: Machine<W>, x: Exit): (r: (Machine<W>, RunResult))
    requires Ok(m) && x == m.cpu.exit
    ensures Steady(m, r.0)
  {
    match x
    case Hlt => StopExit(rig, m, x)
    case Shutdown => StopExit(rig, m, x)
    case Io(_, _, _, _, _) => IoExit(rig, m, x)
    case Mmio(_, _, _) => MmioExit(rig, m, x)
    case Unknown(_) => UnknownExit(rig, m, x)
    case InternalError(_) => InternalErrorExit(rig, m, x)
    case _ => (m, Continue)
  }

  /** After a successful KVM_RUN, before the exit is dispatched. */
  function Counted<W>(m: Machine<W>, c: Cpu): Machine<W> {
    m.(cpu := c, stats := m.stats.(exits := Wrap64(m.stats.exits + 1)))
  }

  /** What follows a KVM_RUN that left the vCPU in state ran.0 and reported ran.1. */
  function Conclude<W>(rig: Rig<W>, m: Machine<W>, ran: (Cpu, Option<Exit>)): (r: (Machine<W>, RunResult))
    requires CpuOk(ran.0) && |ran.0.page| == |m.cpu.page| && SameShape(ran.0.ram, m.cpu.ram)
    requires ran.1.Some? ==> ran.1.value == ran.0.exit
    ensures Steady(m, r.0)
  {
    if ran.1.None? then (m.(cpu := ran.0), Error) else DispatchExit(rig, Counted(m, ran.0), ran.1.value)
  }

  function Step<W>(rig: Rig<W>, m: Machine<W>): (r: (Machine<W>, RunResult))
    requires Ok(m)
    ensures Steady(m, r.0)
  {
    Conclude(rig, m, Run(rig.kernel, m.cpu))
  }

  /** The step as a total function, for the loop. */
  function Stepping<W>(rig: Rig<W>): Stepper<Machine<W>> {
    (m: Machine<W>) => if Ok(m) then Step(rig, m) else (m, Error)
  }

  /** step is the step of this rig; said so that step itself stays abstract. */
  ghost predicate Implements<W(!new)>(step: Stepper<Machine<W>>, rig: Rig<W>) {
    forall m {:trigger Step(rig, m)} :: Ok(m) ==> step(m) == Step(rig, m)
  }

  lemma SteppingImplements<W(!new)>(rig: Rig<W>)
    ensures Implements(Stepping(rig), rig)
  {
  }

  lemma {:induction false} RunSteady<W>(rig: Rig<W>, m: Machine<W>, n: nat)
    requires Ok(m)
    ensures Steady(m, RunFor(Stepping(rig), m, n).0)
    decreases n
  {
    if n > 0 && Step(rig, m).1 == Continue {
      RunSteady(rig, Step(rig, m).0, n - 1);
    }
  }
}
