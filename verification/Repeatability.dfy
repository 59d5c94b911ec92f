/**
 * Repeatability: two runs from states that look alike to the guest go alike, step by step; and
 * restoring a snapshot makes the machine look as it did when the snapshot was taken.
 */
module Repeatability {
  import opened Words
  import opened Memory
  import opened Registers
  import opened Kvm
  import opened Events
  import opened Devices
  import opened Loops
  import opened ExitLoop
  import opened Accounting
  import VM = VirtualMachines

  /** A kernel and guest whose behaviour does not depend on the time of the call. */
  ghost predicate Deterministic(k: Kernel) {
    && (forall t: nat, r, s, ram, reply :: k.enter(t, r, s, ram, reply) == k.enter(0, r, s, ram, reply))
    && (forall t: nat, r :: k.regsReadable(t, r) == k.regsReadable(0, r))
    && (forall t: nat, r :: k.regsWritable(t, r) == k.regsWritable(0, r))
  }

  /** The bytes an IN or an MMIO read delivers. */
  function InBytes<W>(t: Ports<W>, w: W, x: Exit): seq<byte>
    requires x.Io?
  {
    LeBytes(InReply(t, w, x).1, AccessSize(x))
  }

  function ReadBytes<W>(t: MmioMap<W>, w: W, x: Exit): seq<byte>
    requires x.Mmio?
  {
    LeBytes(ReadReply(t, w, x).1, AccessSize(x))
  }

  /** What this access delivers does not depend on the state the callbacks share. */
  ghost predicate BlindIo<W(!new)>(t: Ports<W>, x: Exit) {
    x.Io? && !x.out ==> forall w, w' :: InBytes(t, w, x) == InBytes(t, w', x)
  }

  ghost predicate BlindMmio<W(!new)>(t: MmioMap<W>, x: Exit) {
    x.Mmio? && !x.write ==> forall w, w' :: ReadBytes(t, w, x) == ReadBytes(t, w', x)
  }

  ghost predicate BlindLeaves<W(!new)>(t: Option<Leaves<W>>) {
    t.Some? ==> forall w, w', leaf: u32, sub: u32 :: LeafReply(t.value, w, leaf, sub).1 == LeafReply(t.value, w', leaf, sub).1
  }

  ghost predicate BlindCpuid<W(!new)>(rig: Rig<W>) {
    BlindLeaves(rig.cpuid)
  }

  /** Port and MMIO handlers are present (without them stale page bytes would reach the guest). */
  ghost predicate Blind<W(!new)>(rig: Rig<W>, x: Exit) {
    rig.io.Some? && rig.mmio.Some? && BlindIo(rig.io.value, x) && (MmioAccepted(x) ==> BlindMmio(rig.mmio.value, x))
  }

  /** An exit on which the CPUID handler is called. */
  predicate AsksCpuid(x: Exit) {
    x == Unknown(0) || IsEmulation(x)
  }

  /** In both states of the callbacks the exit is answered alike; regs are the guest's registers at the exit. */
  predicate AnsweredAlike<W>(rig: Rig<W>, v: W, w: W, x: Exit, regs: Regs) {
    && rig.io.Some? && rig.mmio.Some?
    && (x.Io? && !x.out ==> InBytes(rig.io.value, v, x) == InBytes(rig.io.value, w, x))
    && (MmioAccepted(x) && !x.write ==> ReadBytes(rig.mmio.value, v, x) == ReadBytes(rig.mmio.value, w, x))
    && (rig.cpuid.Some? && AsksCpuid(x) && rig.kernel.regsReadable(0, regs) ==>
          LeafReply(rig.cpuid.value, v, Wrap32(regs.rax), Wrap32(regs.rcx)).1
            == LeafReply(rig.cpuid.value, w, Wrap32(regs.rax), Wrap32(regs.rcx)).1)
  }

  lemma BlindAnswersAlike<W(!new)>(rig: Rig<W>, v: W, w: W, x: Exit, regs: Regs)
    requires Blind(rig, x) && BlindCpuid(rig)
    ensures AnsweredAlike(rig, v, w, x, regs)
  {
  }

  /** The same to the guest: registers, memory, and what the kernel will complete the last exit with. */
  predicate Alike(a: Cpu, b: Cpu) {
    CpuOk(a) && CpuOk(b) && a.regs == b.regs && a.sregs == b.sregs && a.ram == b.ram && |a.page| == |b.page|
    && Reply(a) == Reply(b)
  }

  /** Alike at an exit: the same exit, and the same bytes if they come from the guest. */
  predicate AlikeAt(a: Cpu, b: Cpu) {
    CpuOk(a) && CpuOk(b) && a.regs == b.regs && a.sregs == b.sregs && a.ram == b.ram && |a.page| == |b.page|
    && a.exit == b.exit && (FromGuest(a.exit) ==> AccessBytes(a.exit, a.page) == AccessBytes(b.exit, b.page))
  }

  /** An event without its time. */
  function Untimed(e: HvEvent): HvEvent {
    e.(timestamp := 0)
  }

  /** From a to a' and from b to b' the same events were published, timestamps aside. */
  ghost predicate SameEvents(a: seq<HvEvent>, a': seq<HvEvent>, b: seq<HvEvent>, b': seq<HvEvent>) {
    SameGrowth(Untimed, a, a', b, b')
  }

  /** The same events and, unless there was an error, states alike to the guest again. */
  ghost predicate SameOutcome<W>(a: Machine<W>, a': Machine<W>, b: Machine<W>, b': Machine<W>, result: RunResult) {
    && SameEvents(a.bus.events, a'.bus.events, b.bus.events, b'.bus.events)
    && (result != Error ==> Alike(a'.cpu, b'.cpu))
  }

  /** The kernel does the same to alike states. */
  lemma RunAlike(k: Kernel, a: Cpu, b: Cpu)
    requires Deterministic(k) && Alike(a, b)
    ensures Run(k, a).1 == Run(k, b).1
    ensures if Run(k, a).1.Some? then AlikeAt(Run(k, a).0, Run(k, b).0) else Alike(Run(k, a).0, Run(k, b).0)
  {
    assert k.enter(a.tick, a.regs, a.sregs, a.ram, Reply(a)) == k.enter(b.tick, b.regs, b.sregs, b.ram, Reply(b));
    assert Enter(k, a) == Enter(k, b);
    var e := Enter(k, a);
    if e.outcome.Exited? && FromGuest(e.outcome.exit) {
      var x, data := e.outcome.exit, e.outcome.data;
      AccessFromKernel(x, a.page, data);
      AccessFromKernel(x, b.page, data);
    }
  }

  lemma AccessFromKernel(x: Exit, page: seq<byte>, data: seq<byte>)
    requires InPage(x, |page|) && AccessAt(x) + |data| <= |page| && AccessSize(x) <= |data|
    ensures AccessBytes(x, Overlay(page, AccessAt(x), data)) == data[..AccessSize(x)]
  {
  }

  lemma EmitAlike<W>(rig: Rig<W>, a: Machine<W>, b: Machine<W>, kind: EventType, payload: Payload, wantRip: bool, r: RunResult)
    requires Deterministic(rig.kernel) && Alike(a.cpu, b.cpu)
    ensures SameOutcome(a, Emit(rig, a, kind, payload, wantRip), b, Emit(rig, b, kind, payload, wantRip), r)
  {
    assert rig.kernel.regsReadable(a.cpu.tick + 1, a.cpu.regs) == rig.kernel.regsReadable(b.cpu.tick + 1, b.cpu.regs);
  }

  /** At alike exits that are answered alike. */
  predicate Meets<W>(rig: Rig<W>, a: Machine<W>, b: Machine<W>) {
    AlikeAt(a.cpu, b.cpu) && AnsweredAlike(rig, a.world, b.world, a.cpu.exit, a.cpu.regs)
  }

  lemma IoAlike<W(!new)>(rig: Rig<W>, a: Machine<W>, b: Machine<W>)
    requires Deterministic(rig.kernel) && Meets(rig, a, b) && a.cpu.exit.Io?
    ensures SameOutcome(a, IoExit(rig, a, a.cpu.exit).0, b, IoExit(rig, b, b.cpu.exit).0, Continue)
  {
    var x := a.cpu.exit;
    var a1, b1 := HandledIo(rig, a, x), HandledIo(rig, b, x);
    assert AccessBytes(x, a1.cpu.page) == AccessBytes(x, b1.cpu.page) by {
      if !x.out {
        OverlayRead(a.cpu.page, AccessAt(x), InBytes(rig.io.value, a.world, x));
        OverlayRead(b.cpu.page, AccessAt(x), InBytes(rig.io.value, b.world, x));
      }
    }
    EmitAlike(rig, a1, b1, if x.out then IoWrite else IoRead, IoEvent(x, a1.cpu.page), true, Continue);
  }

  lemma MmioAlike<W(!new)>(rig: Rig<W>, a: Machine<W>, b: Machine<W>)
    requires Deterministic(rig.kernel) && Meets(rig, a, b) && MmioAccepted(a.cpu.exit)
    ensures SameOutcome(a, MmioExit(rig, a, a.cpu.exit).0, b, MmioExit(rig, b, b.cpu.exit).0, Continue)
  {
    var x := a.cpu.exit;
    var a1, b1 := HandledMmio(rig, a, x), HandledMmio(rig, b, x);
    assert AccessBytes(x, a1.cpu.page) == AccessBytes(x, b1.cpu.page) by {
      if !x.write {
        OverlayRead(a.cpu.page, AccessAt(x), ReadBytes(rig.mmio.value, a.world, x));
        OverlayRead(b.cpu.page, AccessAt(x), ReadBytes(rig.mmio.value, b.world, x));
      }
    }
    EmitAlike(rig, a1, b1, MemAccess, MmioEvent(x, a1.cpu.page), true, Continue);
  }

  lemma CpuidAlike<W(!new)>(rig: Rig<W>, a: Machine<W>, b: Machine<W>)
    requires Deterministic(rig.kernel) && Meets(rig, a, b) && AsksCpuid(a.cpu.exit)
    ensures HandledCpuid(rig, a).1 == HandledCpuid(rig, b).1
    ensures SameOutcome(a, HandledCpuid(rig, a).0, b, HandledCpuid(rig, b).0, Continue)
  {
    if rig.cpuid.Some? {
      var t, k, leaf, sub := rig.cpuid.value, rig.kernel, Wrap32(a.cpu.regs.rax), Wrap32(a.cpu.regs.rcx);
      assert k.regsReadable(a.cpu.tick, a.cpu.regs) == k.regsReadable(0, a.cpu.regs) == k.regsReadable(b.cpu.tick, b.cpu.regs);
      var v := LeafReply(t, a.world, leaf, sub).1;
      var regs := a.cpu.regs.(rax := v.eax, rbx := v.ebx, rcx := v.ecx, rdx := v.edx);
      assert k.regsWritable(a.cpu.tick + 1, regs) == k.regsWritable(b.cpu.tick + 1, regs);
    }
  }

  lemma EmulationAlike<W(!new)>(rig: Rig<W>, a: Machine<W>, b: Machine<W>)
    requires Deterministic(rig.kernel) && Meets(rig, a, b) && IsEmulation(a.cpu.exit)
    ensures EmulationExit(rig, a).1 == EmulationExit(rig, b).1
    ensures SameOutcome(a, EmulationExit(rig, a).0, b, EmulationExit(rig, b).0, Continue)
  {
    CpuidAlike(rig, a, b);
    var a1, b1 := HandledCpuid(rig, a).0, HandledCpuid(rig, b).0;
    if HandledCpuid(rig, a).1 && rig.bus {
      assert rig.kernel.regsReadable(a1.cpu.tick, a1.cpu.regs) == rig.kernel.regsReadable(b1.cpu.tick, b1.cpu.regs);
      var (ca, ra) := GetRegs(rig.kernel, a1.cpu);
      var (cb, rb) := GetRegs(rig.kernel, b1.cpu);
      EmitAlike(rig, a1.(cpu := ca), b1.(cpu := cb), CpuidAccess, CpuidEvent(ra), true, Continue);
    }
  }

  lemma DispatchAlike<W(!new)>(rig: Rig<W>, a: Machine<W>, b: Machine<W>)
    requires Deterministic(rig.kernel) && Meets(rig, a, b)
    ensures var ra, rb := DispatchExit(rig, a, a.cpu.exit), DispatchExit(rig, b, b.cpu.exit);
      ra.1 == rb.1 && SameOutcome(a, ra.0, b, rb.0, ra.1)
  {
    match a.cpu.exit {
      case Hlt => EmitAlike(rig, a, b, GuestHalt, NoPayload, true, Halt);
      case Shutdown => EmitAlike(rig, a, b, GuestShutdown, DEFAULT_PAYLOAD, false, ShutDown);
      case Io(_, _, _, _, _) => IoAlike(rig, a, b);
      case Mmio(_, _, _) => if MmioAccepted(a.cpu.exit) { MmioAlike(rig, a, b); }
      case Unknown(_) => if AsksCpuid(a.cpu.exit) { CpuidAlike(rig, a, b); }
      case InternalError(_) => if AsksCpuid(a.cpu.exit) { EmulationAlike(rig, a, b); }
      case _ =>
    }
  }

  /** The exit of a step, if it has one, is answered without looking at shared callback state. */
  ghost predicate BlindStep<W(!new)>(rig: Rig<W>, m: Machine<W>)
    requires Ok(m)
  {
    Run(rig.kernel, m.cpu).1.Some? ==> Blind(rig, Run(rig.kernel, m.cpu).1.value)
  }

  /** The exit of a step, if it has one, is answered alike in the state of the callbacks and in w. */
  predicate StepAnsweredAlike<W>(rig: Rig<W>, m: Machine<W>, w: W)
    requires Ok(m)
  {
    var (c, x) := Run(rig.kernel, m.cpu);
    x.Some? ==> AnsweredAlike(rig, m.world, w, c.exit, c.regs)
  }

  lemma BlindStepAnsweredAlike<W(!new)>(rig: Rig<W>, m: Machine<W>, w: W)
    requires Ok(m) && BlindCpuid(rig) && BlindStep(rig, m)
    ensures StepAnsweredAlike(rig, m, w)
  {
    var (c, x) := Run(rig.kernel, m.cpu);
    if x.Some? {
      BlindAnswersAlike(rig, m.world, w, c.exit, c.regs);
    }
  }

  /** Steps from states alike to the guest that are answered alike go alike. */
  lemma StepAlike<W(!new)>(rig: Rig<W>, a: Machine<W>, b: Machine<W>)
    requires Deterministic(rig.kernel) && Alike(a.cpu, b.cpu) && StepAnsweredAlike(rig, a, b.world)
    ensures Step(rig, a).1 == Step(rig, b).1
    ensures SameOutcome(a, Step(rig, a).0, b, Step(rig, b).0, Step(rig, a).1)
  {
    RunAlike(rig.kernel, a.cpu, b.cpu);
    if Run(rig.kernel, a.cpu).1.Some? {
      DispatchAlike(rig, AtExit(rig, a), AtExit(rig, b));
    }
  }

  lemma CountsAlike<W(!new)>(rig: Rig<W>, a: Machine<W>, b: Machine<W>, c: Counter)
    requires Deterministic(rig.kernel) && Alike(a.cpu, b.cpu) && StepAnsweredAlike(rig, a, b.world)
    ensures Counts(rig, a, c) == Counts(rig, b, c)
  {
    RunAlike(rig.kernel, a.cpu, b.cpu);
    if Run(rig.kernel, a.cpu).1.Some? {
      var a1, b1 := AtExit(rig, a), AtExit(rig, b);
      if AsksCpuid(a1.cpu.exit) {
        CpuidAlike(rig, a1, b1);
        CpuidCount(rig, a1);
        CpuidCount(rig, b1);
      }
    }
  }

  ghost function BlindHere<W(!new)>(rig: Rig<W>): Machine<W> -> bool {
    (m: Machine<W>) => Ok(m) && BlindStep(rig, m)
  }

  /** Every exit of a run is answered without looking at shared callback state. */
  ghost predicate BlindRun<W(!new)>(rig: Rig<W>, m: Machine<W>, n: nat) {
    GoodRun(Stepping(rig), m, n, BlindHere(rig))
  }

  function AlikePair<W>(): Pairing<Machine<W>> {
    (a: Machine<W>, b: Machine<W>) => Alike(a.cpu, b.cpu)
  }

  function EventLog<W>(): Machine<W> -> seq<HvEvent> {
    (m: Machine<W>) => m.bus.events
  }

  lemma StepSimulates<W(!new)>(rig: Rig<W>, c: Counter)
    requires Deterministic(rig.kernel) && BlindCpuid(rig)
    ensures Simulates(Stepping(rig), AlikePair(), BlindHere(rig), Hits(rig, c), EventLog(), Untimed)
  {
    forall a: Machine<W>, b: Machine<W> {:trigger Stepping(rig)(a), Stepping(rig)(b)} |
        AlikePair<W>()(a, b) && BlindHere(rig)(a)
      ensures
        var sa, sb := Stepping(rig)(a), Stepping(rig)(b);
        && sa.1 == sb.1 && Hits(rig, c)(a) == Hits(rig, c)(b)
        && SameGrowth(Untimed, EventLog<W>()(a), EventLog<W>()(sa.0), EventLog<W>()(b), EventLog<W>()(sb.0))
        && (sa.1 != Error ==> AlikePair<W>()(sa.0, sb.0))
    {
      BlindStepAnsweredAlike(rig, a, b.world);
      StepAlike(rig, a, b);
      CountsAlike(rig, a, b, c);
    }
  }

  /**
   * Two runs from states alike to the guest, one of them blind: the same number of steps, the
   * same result, every counter advanced by the same amount, the same events but for their
   * timestamps, and states alike again.
   */
  lemma RunsAlike<W(!new)>(rig: Rig<W>, a: Machine<W>, b: Machine<W>, n: nat, c: Counter)
    requires Deterministic(rig.kernel) && BlindCpuid(rig) && Alike(a.cpu, b.cpu) && BlindRun(rig, a, n)
    ensures var ra, rb := RunFor(Stepping(rig), a, n), RunFor(Stepping(rig), b, n);
      ra.1 == rb.1 && ra.2 == rb.2 && Count(rig, a, n, c) == Count(rig, b, n, c)
      && SameOutcome(a, ra.0, b, rb.0, ra.1)
  {
    StepSimulates(rig, c);
    RunsSimulate(Stepping(rig), a, b, n, AlikePair(), BlindHere(rig), Hits(rig, c), EventLog(), Untimed);
  }

  // ---------------------------------------------------------------------------------------------
  // Snapshots.

  function Rewound<W>(rig: Rig<W>, m: Machine<W>, s: VM.Snapshot): Machine<W>
    requires VM.Copyable(s, m.cpu.ram)
  {
    m.(cpu := VM.Restore(rig.kernel, m.cpu, s))
  }

  function Snapshotted<W>(rig: Rig<W>, m: Machine<W>): Machine<W> {
    m.(cpu := VM.Take(rig.kernel, m.cpu).0)
  }

  /** The kernel lets the registers at the snapshot be read, and written back whenever it is restored. */
  ghost predicate Restorable(k: Kernel, c: Cpu) {
    && k.regsReadable(c.tick, c.regs) && k.sregsReadable(c.tick + 1, c.sregs)
    && (forall t: nat :: k.regsWritable(t, c.regs)) && (forall t: nat :: k.sregsWritable(t, c.sregs))
  }

  /** Not between an IN or an MMIO read and its completion. */
  predicate Settled(c: Cpu) {
    !ToGuest(c.exit)
  }

  /** A machine of the same page size and memory shape, wherever its runs have taken it. */
  predicate SameBody<W>(m: Machine<W>, m0: Machine<W>) {
    Ok(m) && |m.cpu.page| == |m0.cpu.page| && SameShape(m.cpu.ram, m0.cpu.ram)
  }

  /**
   * Restoring a snapshot makes a machine look to the guest exactly as at the snapshot if and only if
   * the kernel has the same reply to complete: a snapshot holds registers and memory, not the run page.
   */
  lemma RewoundAlike<W>(rig: Rig<W>, m0: Machine<W>, m: Machine<W>)
    requires Ok(m0) && SameBody(m, m0) && Restorable(rig.kernel, m0.cpu)
    ensures var s := VM.Take(rig.kernel, m0.cpu).1;
      VM.Fits(s, m.cpu.ram) &&
      (Alike(Snapshotted(rig, m0).cpu, Rewound(rig, m, s).cpu) <==> Reply(m0.cpu) == Reply(m.cpu))
  {
    var s := VM.Take(rig.kernel, m0.cpu).1;
    VM.RestoredFitting(s, m.cpu.ram);
    assert Rewound(rig, m, s).cpu.ram == m0.cpu.ram;
  }

  /**
   * Repeatability: take a snapshot and run; whenever later the machine has the same reply pending as
   * at the snapshot (none, when both are settled), restoring the snapshot and running again gives the
   * same result after the same number of steps, advances every counter by the same amount, publishes
   * the same events but for their timestamps, and ends in a state alike to the guest.
   */
  lemma Repeats<W(!new)>(rig: Rig<W>, m0: Machine<W>, m: Machine<W>, n: nat, c: Counter)
    requires Deterministic(rig.kernel) && BlindCpuid(rig) && Restorable(rig.kernel, m0.cpu)
    requires Ok(m0) && SameBody(m, m0) && Reply(m0.cpu) == Reply(m.cpu)
    requires BlindRun(rig, Snapshotted(rig, m0), n)
    ensures var s := VM.Take(rig.kernel, m0.cpu).1;
      VM.Fits(s, m.cpu.ram) &&
      var first, again := Snapshotted(rig, m0), Rewound(rig, m, s);
      var r1, r2 := RunFor(Stepping(rig), first, n), RunFor(Stepping(rig), again, n);
      && r1.1 == r2.1 && r1.2 == r2.2 && Count(rig, first, n, c) == Count(rig, again, n, c)
      && SameOutcome(first, r1.0, again, r2.0, r1.1)
  {
    RewoundAlike(rig, m0, m);
    RunsAlike(rig, Snapshotted(rig, m0), Rewound(rig, m, VM.Take(rig.kernel, m0.cpu).1), n, c);
  }

  function BodyOf<W>(m0: Machine<W>): Machine<W> -> bool {
    (m: Machine<W>) => SameBody(m, m0)
  }

  function StopsSettled<W>(): (Machine<W>, RunResult) -> bool {
    (m: Machine<W>, r: RunResult) => r == Halt || r == ShutDown ==> Settled(m.cpu)
  }

  lemma StepStopsSettled<W>(rig: Rig<W>, m: Machine<W>)
    requires Ok(m)
    ensures Steady(m, Step(rig, m).0)
    ensures Step(rig, m).1 == Halt || Step(rig, m).1 == ShutDown ==> Settled(Step(rig, m).0.cpu)
  {
  }

  /** A run keeps the machine's body, and one that ends in Halt or Shutdown leaves it settled. */
  lemma RunStopsSettled<W(!new)>(rig: Rig<W>, m: Machine<W>, n: nat)
    requires Ok(m)
    ensures var r := RunFor(Stepping(rig), m, n);
      SameBody(r.0, m) && (r.1 == Halt || r.1 == ShutDown ==> Settled(r.0.cpu))
  {
    assert StopsIn(Stepping(rig), BodyOf(m), StopsSettled()) by {
      forall x: Machine<W> {:trigger Stepping(rig)(x)} | BodyOf(m)(x)
        ensures BodyOf(m)(Stepping(rig)(x).0)
        ensures Stepping(rig)(x).1 != Continue ==> StopsSettled<W>()(Stepping(rig)(x).0, Stepping(rig)(x).1)
      {
        StepStopsSettled(rig, x);
      }
    }
    RunStopsIn(Stepping(rig), m, n, BodyOf(m), StopsSettled());
  }

  /** The property as the fuzzing loop uses it: after any run that ended in Halt or Shutdown. */
  lemma RepeatsAfterStop<W(!new)>(rig: Rig<W>, m0: Machine<W>, j: nat, n: nat, c: Counter)
    requires Deterministic(rig.kernel) && BlindCpuid(rig) && Restorable(rig.kernel, m0.cpu)
    requires Ok(m0) && Settled(m0.cpu) && BlindRun(rig, Snapshotted(rig, m0), n)
    requires RunFor(Stepping(rig), Snapshotted(rig, m0), j).1 in {Halt, ShutDown}
    ensures var s := VM.Take(rig.kernel, m0.cpu).1;
      var first := Snapshotted(rig, m0);
      var m := RunFor(Stepping(rig), first, j).0;
      VM.Fits(s, m.cpu.ram) &&
      var again := Rewound(rig, m, s);
      var r1, r2 := RunFor(Stepping(rig), first, n), RunFor(Stepping(rig), again, n);
      && r1.1 == r2.1 && r1.2 == r2.2 && Count(rig, first, n, c) == Count(rig, again, n, c)
      && SameOutcome(first, r1.0, again, r2.0, r1.1)
  {
    RunStopsSettled(rig, Snapshotted(rig, m0), j);
    Repeats(rig, m0, RunFor(Stepping(rig), Snapshotted(rig, m0), j).0, n, c);
  }
}
