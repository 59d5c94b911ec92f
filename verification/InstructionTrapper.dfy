/** InstructionTrapper: the run loop over the heap objects, each method refining module ExitLoop. */
module InstructionTrappers {
  import opened Words
  import opened Memory
  import opened Kvm
  import opened VCpus
  import opened Events
  import opened EventBus
  import opened EventDispatchers
  import opened Devices
  import opened Handlers
  import opened Loops
  import opened ExitLoop

  class InstructionTrapper<W(!new)> {
    const vcpu: VCpu
    const cpuid: CpuidHandler?<W>
    const io: IoPortHandler?<W>
    const mmio: MmioHandler?<W>
    const dispatch: EventDispatcher?<W>
    const world: Cell<W>
    const look: (W, Cpu) -> W
    var exitCount: u64

    ghost predicate Valid()
      reads this, vcpu, vcpu.kvm
    {
      && vcpu.Valid()
      && (cpuid != null ==> cpuid.world == world)
      && (io != null ==> io.world == world)
      && (mmio != null ==> mmio.world == world)
      && (dispatch != null ==> dispatch.world == world)
    }

    ghost function Wiring(): Rig<W>
      reads cpuid, io, mmio
    {
      Rig(vcpu.kernel, vcpu.id,
          if cpuid == null then None else Some(cpuid.Table()),
          if io == null then None else Some(io.Table()),
          if mmio == null then None else Some(mmio.Table()),
          dispatch != null, look)
    }

    ghost function Counters(): Stats
      reads this, cpuid, io, mmio
    {
      Stats(exitCount, if cpuid == null then 0 else cpuid.handledCount,
            if io == null then 0 else io.inCount, if io == null then 0 else io.outCount,
            if mmio == null then 0 else mmio.readCount, if mmio == null then 0 else mmio.writeCount)
    }

    ghost function BusState(): Bus<W>
      reads dispatch
    {
      if dispatch == null then NewBus() else dispatch.State()
    }

    ghost function State(): Machine<W>
      reads this, cpuid, io, mmio, dispatch, world, vcpu, vcpu.page, vcpu.kvm, vcpu.kvm.memory
    {
      Machine(vcpu.State(), world.state, BusState(), Counters())
    }

    constructor (vcpu: VCpu, cpuid: CpuidHandler?<W>, io: IoPortHandler?<W>, mmio: MmioHandler?<W>,
                 dispatch: EventDispatcher?<W>, world: Cell<W>, look: (W, Cpu) -> W)
      requires vcpu.Valid()
      requires (cpuid != null ==> cpuid.world == world) && (io != null ==> io.world == world)
      requires (mmio != null ==> mmio.world == world) && (dispatch != null ==> dispatch.world == world)
      ensures Valid() && exitCount == 0
      ensures this.vcpu == vcpu && this.cpuid == cpuid && this.io == io && this.mmio == mmio
      ensures this.dispatch == dispatch && this.world == world && this.look == look
    {
      this.vcpu, this.cpuid, this.io, this.mmio := vcpu, cpuid, io, mmio;
      this.dispatch, this.world, this.look := dispatch, world, look;
      exitCount := 0;
    }

    /** The time of an event and, when wanted, the guest's rip. */
    method Stamp(wantRip: bool) returns (t: int, rip: u64)
      requires Valid()
      modifies vcpu`tick
      ensures Valid()
      ensures vcpu.State() == Stamped(vcpu.kernel, old(vcpu.State()), wantRip).0
      ensures (t, rip) == Stamped(vcpu.kernel, old(vcpu.State()), wantRip).1
    {
      rip := 0;
      t := vcpu.Now();
      if wantRip {
        var regs := vcpu.GetRegs();
        rip := if regs.Some? then regs.value.rip else 0;
      }
    }

    /** Publish to handlers that find the machine as it is now. */
    method SendEvent(e: HvEvent)
      requires Valid() && dispatch != null
      modifies dispatch, world
      ensures Valid() && State() == Send(Wiring(), old(State()), e)
    {
      world.state := look(world.state, vcpu.State());
      dispatch.Publish(e);
    }

    method Publish(kind: EventType, payload: Payload, wantRip: bool)
      requires Valid()
      modifies vcpu`tick, dispatch, world
      ensures Valid() && State() == Emit(Wiring(), old(State()), kind, payload, wantRip)
    {
      if dispatch != null {
        var t, rip := Stamp(wantRip);
        SendEvent(HvEvent(kind, vcpu.id, rip, t, payload));
      }
    }

    method CallIo() returns (ok: bool)
      requires Valid() && vcpu.exit.Io?
      modifies vcpu.page, io, world
      ensures ok && Valid() && Wiring() == old(Wiring())
      ensures State() == HandledIo(Wiring(), old(State()), vcpu.exit)
    {
      ok := true;
      if io != null {
        ok := io.Handle(vcpu);
      }
    }

    method HandleIoExit() returns (r: RunResult)
      requires Valid() && vcpu.exit.Io?
      modifies vcpu`tick, vcpu.page, io, dispatch, world
      ensures Valid() && Wiring() == old(Wiring())
      ensures (State(), r) == IoExit(Wiring(), old(State()), vcpu.exit)
    {
      var ok := CallIo();
      if !ok {
        return Error;
      }
      PublishIo(vcpu.exit);
      return Continue;
    }

    /** The event re-reads the access from the run page. */
    method PublishIo(x: Exit)
      requires Valid() && x.Io? && x == vcpu.exit
      modifies vcpu`tick, dispatch, world
      ensures Valid() && State() == Emit(Wiring(), old(State()), if x.out then IoWrite else IoRead, IoEvent(x, old(vcpu.page[..])), true)
    {
      Publish(if x.out then IoWrite else IoRead, IoEvent(x, vcpu.page[..]), true);
    }

    method CallMmio() returns (ok: bool)
      requires Valid() && vcpu.exit.Mmio?
      modifies vcpu.page, mmio, world
      ensures Valid() && Wiring() == old(Wiring())
      ensures ok == (mmio == null || MmioAccepted(vcpu.exit))
      ensures State() == if ok then HandledMmio(Wiring(), old(State()), vcpu.exit) else old(State())
    {
      ok := true;
      if mmio != null {
        ok := mmio.Handle(vcpu);
      }
    }

    method HandleMmioExit() returns (r: RunResult)
      requires Valid() && vcpu.exit.Mmio?
      modifies vcpu`tick, vcpu.page, mmio, dispatch, world
      ensures Valid() && Wiring() == old(Wiring())
      ensures (State(), r) == MmioExit(Wiring(), old(State()), vcpu.exit)
    {
      var ok := CallMmio();
      if !ok {
        return Error;
      }
      PublishMmio(vcpu.exit);
      return Continue;
    }

    method PublishMmio(x: Exit)
      requires Valid() && x.Mmio? && x == vcpu.exit
      modifies vcpu`tick, dispatch, world
      ensures Valid() && State() == Emit(Wiring(), old(State()), MemAccess, MmioEvent(x, old(vcpu.page[..])), true)
    {
      Publish(MemAccess, MmioEvent(x, vcpu.page[..]), true);
    }

    method CallCpuid() returns (ok: bool)
      requires Valid()
      modifies vcpu, cpuid, world
      ensures Valid() && Wiring() == old(Wiring())
      ensures (State(), ok) == HandledCpuid(Wiring(), old(State()))
    {
      ok := true;
      if cpuid != null {
        ok := cpuid.Handle(vcpu);
      }
    }

    method PublishCpuid()
      requires Valid()
      modifies vcpu`tick, dispatch, world
      ensures Valid() && State() == EmitCpuid(Wiring(), old(State()))
    {
      if dispatch != null {
        var regs := vcpu.GetRegs();
        Publish(CpuidAccess, CpuidEvent(regs), true);
      }
    }

    method HandleEmulationExit() returns (r: RunResult)
      requires Valid()
      modifies vcpu, cpuid, dispatch, world
      ensures Valid() && Wiring() == old(Wiring())
      ensures (State(), r) == EmulationExit(Wiring(), old(State()))
    {
      var ok := CallCpuid();
      if !ok {
        return Error;
      }
      PublishCpuid();
      return Continue;
    }

    method HandleUnknownExit() returns (r: RunResult)
      requires Valid() && vcpu.exit.Unknown?
      modifies vcpu, cpuid, world
      ensures Valid() && Wiring() == old(Wiring())
      ensures (State(), r) == UnknownExit(Wiring(), old(State()), old(vcpu.exit))
    {
      if vcpu.exit.hardwareReason == 0 {
        var ok := CallCpuid();
        if !ok {
          return Error;
        }
      }
      return Continue;
    }

    method HandleInternalError() returns (r: RunResult)
      requires Valid() && vcpu.exit.InternalError?
      modifies vcpu, cpuid, dispatch, world
      ensures Valid() && Wiring() == old(Wiring())
      ensures (State(), r) == InternalErrorExit(Wiring(), old(State()), old(vcpu.exit))
    {
      if vcpu.exit.suberror == KVM_INTERNAL_ERROR_EMULATION {
        r := HandleEmulationExit();
      } else {
        return Error;
      }
    }

    method HandleStop() returns (r: RunResult)
      requires Valid() && (vcpu.exit.Hlt? || vcpu.exit.Shutdown?)
      modifies vcpu`tick, dispatch, world
      ensures Valid() && Wiring() == old(Wiring())
      ensures (State(), r) == StopExit(Wiring(), old(State()), vcpu.exit)
    {
      if vcpu.exit.Hlt? {
        Publish(GuestHalt, NoPayload, true);
        return Halt;
      } else {
        Publish(GuestShutdown, DEFAULT_PAYLOAD, false);
        return ShutDown;
      }
    }

    method Dispatch(x: Exit) returns (r: RunResult)
      requires Valid() && x == vcpu.exit
      modifies vcpu, vcpu.page, cpuid, io, mmio, dispatch, world
      ensures Valid() && Wiring() == old(Wiring())
      ensures (State(), r) == DispatchExit(Wiring(), old(State()), x)
    {
      if x.Io? || x.Mmio? {
        r := DispatchDevice(x);
      } else {
        r := DispatchOther(x);
      }
    }

    /** Port and MMIO accesses. */
    method DispatchDevice(x: Exit) returns (r: RunResult)
      requires Valid() && x == vcpu.exit && (x.Io? || x.Mmio?)
      modifies vcpu`tick, vcpu.page, io, mmio, dispatch, world
      ensures Valid() && Wiring() == old(Wiring())
      ensures (State(), r) == DispatchExit(Wiring(), old(State()), x)
    {
      if x.Io? {
        r := HandleIoExit();
      } else {
        r := HandleMmioExit();
      }
    }

    method DispatchOther(x: Exit) returns (r: RunResult)
      requires Valid() && x == vcpu.exit && !x.Io? && !x.Mmio?
      modifies vcpu, cpuid, dispatch, world
      ensures Valid() && Wiring() == old(Wiring())
      ensures (State(), r) == DispatchExit(Wiring(), old(State()), x)
    {
      if x.Hlt? || x.Shutdown? {
        r := HandleStop();
      } else {
        r := DispatchFault(x);
      }
    }

    /** The exits that concern neither a device nor the end of the run. */
    method DispatchFault(x: Exit) returns (r: RunResult)
      requires Valid() && x == vcpu.exit && !x.Hlt? && !x.Shutdown? && !x.Io? && !x.Mmio?
      modifies vcpu, cpuid, dispatch, world
      ensures Valid() && Wiring() == old(Wiring())
      ensures (State(), r) == DispatchExit(Wiring(), old(State()), x)
    {
      if x.Unknown? {
        r := HandleUnknownExit();
      } else if x.InternalError? {
        r := HandleInternalError();
      } else {
        return Continue;
      }
    }

    method Enter() returns (x: Option<Exit>)
      requires Valid()
      modifies vcpu, vcpu.page, vcpu.kvm.memory
      ensures Valid() && (x.Some? ==> x.value == vcpu.exit)
      ensures State() == old(State()).(cpu := vcpu.State())
      ensures (vcpu.State(), x) == Run(vcpu.kernel, old(vcpu.State()))
    {
      x := vcpu.Run();
    }

    /** Count the exit, if there was one, and dispatch it; m is the machine before the KVM_RUN. */
    method Conclude(x: Option<Exit>, ghost m: Machine<W>) returns (r: RunResult)
      requires Valid() && State() == m.(cpu := vcpu.State()) && (x.Some? ==> x.value == vcpu.exit)
      requires |vcpu.State().page| == |m.cpu.page| && SameShape(vcpu.State().ram, m.cpu.ram)
      modifies this`exitCount, vcpu, vcpu.page, cpuid, io, mmio, dispatch, world
      ensures Valid() && Wiring() == old(Wiring())
      ensures (State(), r) == ExitLoop.Conclude(Wiring(), m, (old(vcpu.State()), x))
    {
      if x.None? {
        return Error;
      }
      exitCount := Wrap64(exitCount + 1);
      r := Dispatch(x.value);
    }

    /** step: one KVM_RUN and its exit. */
    method Step() returns (r: RunResult)
      requires Valid()
      modifies this`exitCount, vcpu, vcpu.page, vcpu.kvm.memory, cpuid, io, mmio, dispatch, world
      ensures Valid() && Wiring() == old(Wiring())
      ensures (State(), r) == ExitLoop.Step(Wiring(), old(State()))
    {
      ghost var m := State();
      var x := Enter();
      r := Conclude(x, m);
    }

    method StepAs(ghost step: Stepper<Machine<W>>) returns (r: RunResult)
      requires Valid() && Implements(step, Wiring())
      modifies this`exitCount, vcpu, vcpu.page, vcpu.kvm.memory, cpuid, io, mmio, dispatch, world
      ensures Valid() && Wiring() == old(Wiring())
      ensures (State(), r) == step(old(State()))
    {
      r := Step();
    }

    /** The loop for any step that is this trapper's; bound is the limit, or where an unlimited loop stops. */
    method Loop(limit: u64, ghost bound: nat, ghost step: Stepper<Machine<W>>) returns (r: RunResult)
      requires Valid() && Implements(step, Wiring())
      requires if limit == 0 then StopsAt(step, State(), bound) else bound == limit
      modifies this`exitCount, vcpu, vcpu.page, vcpu.kvm.memory, cpuid, io, mmio, dispatch, world
      ensures Valid() && Wiring() == old(Wiring())
      ensures var run := RunFor(step, old(State()), bound); State() == run.0 && r == run.1
    {
      ghost var whole := RunFor(step, State(), bound);
      var iterations: nat := 0;
      while limit == 0 || iterations < limit
        invariant iterations <= bound
        invariant Valid() && Wiring() == old(Wiring())
        invariant OnTheWay(step, whole, State(), bound - iterations, iterations)
        decreases bound - iterations
      {
        OneTurn(step, whole, State(), bound - iterations, iterations);
        r := StepAs(step);
        if r != Continue {
          return;
        }
        iterations := iterations + 1;
      }
      OneTurn(step, whole, State(), bound - iterations, iterations);
      return Continue;
    }

    /**
     * runLoop: at most `limit` steps, or any number when it is zero. The unlimited loop is the one
     * of a guest that stops, at its step `stop`.
     */
    method RunLoop(limit: u64, ghost stop: nat) returns (r: RunResult)
      requires Valid()
      requires limit == 0 ==> StopsAt(Stepping(Wiring()), State(), stop)
      modifies this`exitCount, vcpu, vcpu.page, vcpu.kvm.memory, cpuid, io, mmio, dispatch, world
      ensures Valid() && Wiring() == old(Wiring())
      ensures var run := RunFor(Stepping(Wiring()), old(State()), if limit == 0 then stop else limit);
        State() == run.0 && r == run.1
    {
      SteppingImplements(Wiring());
      r := Loop(limit, if limit == 0 then stop else limit, Stepping(Wiring()));
    }
  }
}
