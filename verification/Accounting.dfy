/** Exact accounting: every counter of the hypervisor against the exits of a run. */
module Accounting {
  import opened Words
  import opened Kvm
  import opened Devices
  import opened Loops
  import opened ExitLoop

  datatype Counter = Exits | CpuidsHandled | Ins | Outs | MmioReads | MmioWrites | Publications

  function Value<W>(m: Machine<W>, c: Counter): u64 {
    match c
    case Exits => m.stats.exits
    case CpuidsHandled => m.stats.handled
    case Ins => m.stats.ins
    case Outs => m.stats.outs
    case MmioReads => m.stats.mmioReads
    case MmioWrites => m.stats.mmioWrites
    case Publications => m.bus.published
  }

  /** The machine as the exit finds it. */
  function AtExit<W>(rig: Rig<W>, m: Machine<W>): Machine<W>
    requires Ok(m)
  {
    Counted(m, Run(rig.kernel, m.cpu).0)
  }

  /** A CPUID exit whose registers could be read and, with the answer in them, written. */
  predicate CpuidSucceeds<W>(rig: Rig<W>, m: Machine<W>) {
    rig.cpuid.None? ||
    (rig.kernel.regsReadable(m.cpu.tick, m.cpu.regs) &&
     var v := LeafReply(rig.cpuid.value, m.world, Wrap32(m.cpu.regs.rax), Wrap32(m.cpu.regs.rcx)).1;
     rig.kernel.regsWritable(m.cpu.tick + 1, m.cpu.regs.(rax := v.eax, rbx := v.ebx, rcx := v.ecx, rdx := v.edx)))
  }

  predicate IsEmulation(x: Exit) {
    x.InternalError? && x.suberror == KVM_INTERNAL_ERROR_EMULATION
  }

  /** Which exits a counter counts, said without the handlers; m is the machine at its exit. */
  predicate CountsExit<W>(rig: Rig<W>, m: Machine<W>, c: Counter) {
    var x := m.cpu.exit;
    match c
    case Exits => true
    case CpuidsHandled => rig.cpuid.Some? && (IsEmulation(x) || x == Unknown(0)) && CpuidSucceeds(rig, m)
    case Ins => rig.io.Some? && x.Io? && !x.out
    case Outs => rig.io.Some? && x.Io? && x.out
    case MmioReads => rig.mmio.Some? && MmioAccepted(x) && !x.write
    case MmioWrites => rig.mmio.Some? && MmioAccepted(x) && x.write
    case Publications =>
      rig.bus &&
      (x.Hlt? || x.Shutdown? || x.Io? || (x.Mmio? && (rig.mmio.None? || MmioAccepted(x))) ||
       (IsEmulation(x) && CpuidSucceeds(rig, m)))
  }

  /** Only a successful KVM_RUN has an exit to count. */
  predicate Counts<W>(rig: Rig<W>, m: Machine<W>, c: Counter)
    requires Ok(m)
  {
    Run(rig.kernel, m.cpu).1.Some? && CountsExit(rig, AtExit(rig, m), c)
  }

  /** How many steps of a run a counter counts. */
  function Count<W>(rig: Rig<W>, m: Machine<W>, n: nat, c: Counter): nat {
    Tally(Stepping(rig), m, n, Hits(rig, c))
  }

  function Hits<W>(rig: Rig<W>, c: Counter): Machine<W> -> bool {
    (m: Machine<W>) => Ok(m) && Counts(rig, m, c)
  }

  lemma CpuidCount<W>(rig: Rig<W>, m: Machine<W>)
    requires Ok(m)
    ensures HandledCpuid(rig, m).1 == CpuidSucceeds(rig, m)
    ensures HandledCpuid(rig, m).0.stats ==
      if rig.cpuid.Some? && CpuidSucceeds(rig, m) then m.stats.(handled := Wrap64(m.stats.handled + 1)) else m.stats
  {
  }

  /** The exits that are errors: an MMIO length the handler refuses, a fault other than emulation, a CPUID that failed. */
  predicate FailsExit<W>(rig: Rig<W>, m: Machine<W>) {
    var x := m.cpu.exit;
    || (rig.mmio.Some? && x.Mmio? && !(1 <= x.len % 256 <= 8))
    || (x.InternalError? && x.suberror != 1)
    || ((x == Unknown(0) || x == InternalError(1)) && !CpuidSucceeds(rig, m))
  }

  /** Exits that nothing reacts to. */
  predicate IgnoredExit(x: Exit) {
    x.Intr? || x.Other? || (x.Unknown? && x.hardwareReason != 0)
  }

  /**
   * What each exit makes of the run: HLT halts it, a shutdown shuts it down, FailsExit are its errors,
   * and everything else continues; an exit nobody reacts to leaves the machine as it is.
   */
  lemma ExitResult<W>(rig: Rig<W>, m: Machine<W>)
    requires Ok(m)
    ensures var r := DispatchExit(rig, m, m.cpu.exit);
      && (r.1 == Halt <==> m.cpu.exit == Hlt)
      && (r.1 == ShutDown <==> m.cpu.exit == Shutdown)
      && (r.1 == Error <==> FailsExit(rig, m))
      && (IgnoredExit(m.cpu.exit) ==> r == (m, Continue))
  {
    CpuidCount(rig, m);
  }

  /**
   * What one KVM_RUN makes of the run, against the kernel's answer: EINTR is an exit that continues, any
   * other failed call an error before anything is dispatched, and an exit has the result ExitResult gives it.
   */
  lemma StepResult<W>(rig: Rig<W>, m: Machine<W>)
    requires Ok(m)
    ensures var o, r := Enter(rig.kernel, m.cpu).outcome, Step(rig, m);
      && (o.Failed? ==> r.1 == (if o.errno == 4 then Continue else Error))
      && (o.Failed? && o.errno != 4 ==> r.0 == m.(cpu := r.0.cpu))
      && (o.Exited? ==>
            && (r.1 == Halt <==> o.exit == Hlt)
            && (r.1 == ShutDown <==> o.exit == Shutdown)
            && (r.1 == Error <==> FailsExit(rig, AtExit(rig, m))))
  {
    if Run(rig.kernel, m.cpu).1.Some? {
      ExitResult(rig, AtExit(rig, m));
    }
  }

  lemma WrapNone(v: u64)
    ensures Wrap64(v + 0) == v
  {
  }

  lemma IoCounts<W>(rig: Rig<W>, m: Machine<W>, c: Counter)
    requires Ok(m) && m.cpu.exit.Io?
    ensures var x := m.cpu.exit;
      Value(IoExit(rig, m, x).0, c) == Wrap64(Value(m, c) + One(
        match c
        case Ins => rig.io.Some? && !x.out
        case Outs => rig.io.Some? && x.out
        case Publications => rig.bus
        case _ => false))
  {
    WrapNone(Value(m, c));
  }

  lemma MmioCounts<W>(rig: Rig<W>, m: Machine<W>, c: Counter)
    requires Ok(m) && m.cpu.exit.Mmio?
    ensures var x := m.cpu.exit;
      Value(MmioExit(rig, m, x).0, c) == Wrap64(Value(m, c) + One(
        match c
        case MmioReads => rig.mmio.Some? && MmioAccepted(x) && !x.write
        case MmioWrites => rig.mmio.Some? && MmioAccepted(x) && x.write
        case Publications => rig.bus && (rig.mmio.None? || MmioAccepted(x))
        case _ => false))
  {
    WrapNone(Value(m, c));
  }

  lemma CpuidCounts<W>(rig: Rig<W>, m: Machine<W>, c: Counter)
    requires Ok(m)
    ensures Value(HandledCpuid(rig, m).0, c) ==
      Wrap64(Value(m, c) + One(c == CpuidsHandled && rig.cpuid.Some? && CpuidSucceeds(rig, m)))
    ensures Value(EmulationExit(rig, m).0, c) == Wrap64(Value(m, c) + One(
        match c
        case CpuidsHandled => rig.cpuid.Some? && CpuidSucceeds(rig, m)
        case Publications => rig.bus && CpuidSucceeds(rig, m)
        case _ => false))
  {
    CpuidCount(rig, m);
    WrapNone(Value(m, c));
  }

  lemma StopCounts<W>(rig: Rig<W>, m: Machine<W>, c: Counter)
    requires Ok(m) && (m.cpu.exit.Hlt? || m.cpu.exit.Shutdown?)
    ensures Value(DispatchExit(rig, m, m.cpu.exit).0, c) == Wrap64(Value(m, c) + One(c == Publications && rig.bus))
  {
    WrapNone(Value(m, c));
  }

  lemma DispatchCounts<W>(rig: Rig<W>, m: Machine<W>, c: Counter)
    requires Ok(m) && m.cpu.exit != NoExit
    ensures Value(DispatchExit(rig, m, m.cpu.exit).0, c) == Wrap64(Value(m, c) + One(c != Exits && CountsExit(rig, m, c)))
  {
    WrapNone(Value(m, c));
    match m.cpu.exit {
      case Hlt => StopCounts(rig, m, c);
      case Shutdown => StopCounts(rig, m, c);
      case Io(_, _, _, _, _) => IoCounts(rig, m, c);
      case Mmio(_, _, _) => MmioCounts(rig, m, c);
      case Unknown(_) => FaultCounts(rig, m, c);
      case InternalError(_) => FaultCounts(rig, m, c);
      case _ =>
    }
  }

  lemma FaultCounts<W>(rig: Rig<W>, m: Machine<W>, c: Counter)
    requires Ok(m) && (m.cpu.exit.Unknown? || m.cpu.exit.InternalError?)
    ensures Value(DispatchExit(rig, m, m.cpu.exit).0, c) == Wrap64(Value(m, c) + One(c != Exits && CountsExit(rig, m, c)))
  {
    WrapNone(Value(m, c));
    CpuidCounts(rig, m, c);
  }

  lemma CountedValue<W>(m: Machine<W>, cpu: Cpu, c: Counter)
    ensures Value(Counted(m, cpu), c) == if c == Exits then Wrap64(Value(m, c) + 1) else Value(m, c)
  {
  }

  /** A machine at its exit: that exit is counted already, what it is of is not. */
  lemma ExitCounts<W>(rig: Rig<W>, m: Machine<W>, cpu: Cpu, c: Counter)
    requires CpuOk(cpu) && cpu.exit != NoExit
    ensures var m1 := Counted(m, cpu);
      Value(DispatchExit(rig, m1, cpu.exit).0, c) == Wrap64(Value(m, c) + One(CountsExit(rig, m1, c)))
  {
    var m1 := Counted(m, cpu);
    CountedValue(m, cpu, c);
    DispatchCounts(rig, m1, c);
    WrapNone(Value(m1, c));
  }

  lemma StepCounts<W>(rig: Rig<W>, m: Machine<W>, c: Counter)
    requires Ok(m)
    ensures Value(Step(rig, m).0, c) == Wrap64(Value(m, c) + One(Counts(rig, m, c)))
  {
    var ran := Run(rig.kernel, m.cpu);
    if ran.1.Some? {
      ExitCounts(rig, m, ran.0, c);
    } else {
      WrapNone(Value(m, c));
    }
  }

  function Good<W>(): Machine<W> -> bool {
    (m: Machine<W>) => Ok(m)
  }

  function Reads<W>(c: Counter): Machine<W> -> u64 {
    (m: Machine<W>) => Value(m, c)
  }

  lemma StepAdvances<W>(rig: Rig<W>, c: Counter, m: Machine<W>)
    requires Ok(m)
    ensures AdvancesAt(Stepping(rig), Good(), Hits(rig, c), Reads(c), m)
  {
    StepCounts(rig, m, c);
  }

  lemma StepsAdvance<W(!new)>(rig: Rig<W>, c: Counter)
    ensures Advances(Stepping(rig), Good(), Hits(rig, c), Reads(c))
  {
    var step, ok, hit, value := Stepping(rig), Good<W>(), Hits(rig, c), Reads<W>(c);
    forall x: Machine<W> {:trigger AdvancesAt(step, ok, hit, value, x)} | ok(x) ensures AdvancesAt(step, ok, hit, value, x) {
      StepAdvances(rig, c, x);
    }
  }

  /**
   * For every wiring, kernel, guest and run, each counter grows (modulo 2^64) by exactly the
   * number of exits it is there to count: successful KVM_RUN calls (interrupted ones included),
   * IN and OUT exits, accepted MMIO reads and writes, CPUID exits handled, and events published.
   */
  lemma RunCounts<W(!new)>(rig: Rig<W>, m: Machine<W>, n: nat, c: Counter)
    requires Ok(m)
    ensures Value(RunFor(Stepping(rig), m, n).0, c) == Wrap64(Value(m, c) + Count(rig, m, n, c))
  {
    StepsAdvance(rig, c);
    RunCountsAs(Stepping(rig), Hits(rig, c), m, n, c);
  }

  lemma RunCountsAs<W(!new)>(step: Stepper<Machine<W>>, hit: Machine<W> -> bool, m: Machine<W>, n: nat, c: Counter)
    requires Ok(m) && Advances(step, Good(), hit, Reads(c))
    ensures Value(RunFor(step, m, n).0, c) == Wrap64(Value(m, c) + Tally(step, m, n, hit))
  {
    CounterCountsHits(step, m, n, Good(), hit, Reads(c));
  }
}
