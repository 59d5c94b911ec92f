/** Agreement between what a device said, what the guest gets and what the published event reports. */
module EventValues {
  import opened Words
  import opened Memory
  import opened Kvm
  import opened Events
  import opened EventBus
  import opened Devices
  import opened Loops
  import opened ExitLoop

  /** Exactly one event was published on the way from m to m', and it is e. */
  predicate OneEvent<W>(m: Machine<W>, m': Machine<W>, e: HvEvent) {
    m'.bus.events == m.bus.events + [e]
  }

  function LastEvent<W>(m: Machine<W>): HvEvent {
    if m.bus.events == [] then HvEvent(GuestHalt, 0, 0, 0, NoPayload) else m.bus.events[|m.bus.events| - 1]
  }

  /** e was made at this tick: it names the vCPU, the time and, the registers being readable, the guest's rip. */
  predicate MadeAt<W>(rig: Rig<W>, c: Cpu, tick: nat, e: HvEvent) {
    && e.vcpuId == rig.vcpuId
    && e.timestamp == rig.kernel.clock(tick)
    && e.rip == if rig.kernel.regsReadable(tick + 1, c.regs) then c.regs.rip else 0
  }

  predicate OnlyAccessChanged(x: Exit, page: seq<byte>, page': seq<byte>) {
    |page'| == |page| &&
    forall i :: 0 <= i < |page| && !(AccessAt(x) <= i < AccessAt(x) + AccessSize(x)) ==> page'[i] == page[i]
  }

  /**
   * OUT: the callback registered for the port, if any, is given the value decoded from the page, the
   * event carries that value, the subscribers see the callback's effect, and the page is not touched.
   */
  lemma OutAgreement<W>(rig: Rig<W>, m: Machine<W>, x: Exit)
    requires Ok(m) && x == m.cpu.exit && x.Io? && x.out && rig.io.Some? && rig.bus
    ensures var m' := DispatchExit(rig, m, x).0;
      var e, t := LastEvent(m'), rig.io.value;
      var v := LeValue(m.cpu.page[x.offset..x.offset + Min(x.size, 4)]);
      && OneEvent(m, m', e) && MadeAt(rig, m.cpu, m.cpu.tick, e) && e.kind == IoWrite && v < TWO32
      && e.payload == IoPayload(x.port, x.size, v, true)
      && m'.world == Deliver(m.bus.subs, rig.look(
           if x.port in t.onOut then t.onOut[x.port](m.world, OutContext(x.port, x.size, v, x.count)) else m.world, m'.cpu), e)
      && m'.cpu.page == m.cpu.page
  {
    PortCallbacks(rig.io.value, m.world, x, m.cpu.page);
  }

  /**
   * IN: the event carries the callback's reply reduced to the size of the access, which is what
   * the guest is given; an unregistered port gives all ones; no other byte of the page changes.
   */
  lemma InAgreement<W>(rig: Rig<W>, m: Machine<W>, x: Exit)
    requires Ok(m) && x == m.cpu.exit && x.Io? && !x.out && rig.io.Some? && rig.bus
    ensures var m' := DispatchExit(rig, m, x).0;
      var e, t, n := LastEvent(m'), rig.io.value, Min(x.size, 4);
      var (w, reply) :=
        if x.port in t.onIn then t.onIn[x.port](m.world, InContext(x.port, x.size, x.count)) else (m.world, 0xFFFF_FFFF);
      && OneEvent(m, m', e) && MadeAt(rig, m.cpu, m.cpu.tick, e) && e.kind == IoRead
      && e.payload.IoPayload? && e.payload == IoPayload(x.port, x.size, e.payload.ioValue, false)
      && e.payload.ioValue == reply % Pow256(n)
      && Reply(m'.cpu) == LeBytes(reply, n) && LeValue(Reply(m'.cpu)) == e.payload.ioValue
      && (x.port !in t.onIn ==> e.payload.ioValue == Pow256(n) - 1)
      && m'.world == Deliver(m.bus.subs, rig.look(w, m'.cpu), e)
      && OnlyAccessChanged(x, m.cpu.page, m'.cpu.page)
  {
    var reply := InReply(rig.io.value, m.world, x).1;
    AnsweredValue(x, m.cpu.page, reply);
    OverlayRead(m.cpu.page, AccessAt(x), LeBytes(reply, AccessSize(x)));
    if x.port !in rig.io.value.onIn {
      UnregisteredPort(rig.io.value, m.world, x, m.cpu.page);
    }
  }

  /** MMIO writes: callback, event and subscribers get the value decoded from the page. */
  lemma WriteAgreement<W>(rig: Rig<W>, m: Machine<W>, x: Exit)
    requires Ok(m) && x == m.cpu.exit && x.Mmio? && x.write && 1 <= x.len % 256 <= 8 && rig.mmio.Some? && rig.bus
    ensures var m' := DispatchExit(rig, m, x).0;
      var e, t, n := LastEvent(m'), rig.mmio.value, x.len % 256;
      var v := LeValue(m.cpu.page[40..40 + n]);
      && OneEvent(m, m', e) && MadeAt(rig, m.cpu, m.cpu.tick, e) && e.kind == MemAccess && v < TWO64
      && e.payload == MmioPayload(x.addr, n, v, true)
      && m'.world == Deliver(m.bus.subs, rig.look(
           if x.addr in t.onWrite then t.onWrite[x.addr](m.world, WriteContext(x.addr, n, v)) else m.world, m'.cpu), e)
      && m'.cpu.page == m.cpu.page
  {
    RegisterCallbacks(rig.mmio.value, m.world, x, m.cpu.page);
  }

  /** MMIO reads: event, guest and callback agree, all ones for a register nobody provides. */
  lemma ReadAgreement<W>(rig: Rig<W>, m: Machine<W>, x: Exit)
    requires Ok(m) && x == m.cpu.exit && x.Mmio? && !x.write && 1 <= x.len % 256 <= 8 && rig.mmio.Some? && rig.bus
    ensures var m' := DispatchExit(rig, m, x).0;
      var e, t, n := LastEvent(m'), rig.mmio.value, x.len % 256;
      var (w, reply) :=
        if x.addr in t.onRead then t.onRead[x.addr](m.world, ReadContext(x.addr, n)) else (m.world, 0xFFFF_FFFF_FFFF_FFFF);
      && OneEvent(m, m', e) && MadeAt(rig, m.cpu, m.cpu.tick, e) && e.kind == MemAccess
      && e.payload.MmioPayload? && e.payload == MmioPayload(x.addr, n, e.payload.mmioValue, false)
      && e.payload.mmioValue == reply % Pow256(n)
      && Reply(m'.cpu) == LeBytes(reply, n) && LeValue(Reply(m'.cpu)) == e.payload.mmioValue
      && (x.addr !in t.onRead ==> e.payload.mmioValue == Pow256(n) - 1)
      && m'.world == Deliver(m.bus.subs, rig.look(w, m'.cpu), e)
      && OnlyAccessChanged(x, m.cpu.page, m'.cpu.page)
  {
    var reply := ReadReply(rig.mmio.value, m.world, x).1;
    AnsweredValue(x, m.cpu.page, reply);
    OverlayRead(m.cpu.page, AccessAt(x), LeBytes(reply, AccessSize(x)));
    if x.addr !in rig.mmio.value.onRead {
      UnregisteredRegister(rig.mmio.value, m.world, x, m.cpu.page);
    }
  }

  /** Without a handler an access is only reported, with whatever its bytes in the page are, and answered by nobody. */
  lemma UnattendedAccess<W>(rig: Rig<W>, m: Machine<W>, x: Exit)
    requires Ok(m) && x == m.cpu.exit && rig.bus && ((x.Io? && rig.io.None?) || (x.Mmio? && rig.mmio.None?))
    ensures var m' := DispatchExit(rig, m, x).0;
      var e, v := LastEvent(m'), LeValue(AccessBytes(x, m.cpu.page));
      && OneEvent(m, m', e) && MadeAt(rig, m.cpu, m.cpu.tick, e) && v < TWO64 && (x.Io? ==> v < TWO32)
      && e.kind == (if x.Mmio? then MemAccess else if x.out then IoWrite else IoRead)
      && e.payload == (if x.Io? then IoPayload(x.port, x.size, v, x.out) else MmioPayload(x.addr, x.len % 256, v, x.write))
      && m'.world == Deliver(m.bus.subs, rig.look(m.world, m'.cpu), e)
      && m'.cpu.page == m.cpu.page
  {
    LeBound(AccessBytes(x, m.cpu.page), AccessSize(x));
  }

  /** A CPUID event shows the registers it finds; when they cannot be read it carries the all-zero payload it was made with. */
  lemma CpuidReport<W>(rig: Rig<W>, m: Machine<W>)
    requires rig.bus
    ensures var m', r := EmitCpuid(rig, m), m.cpu.regs;
      var e := LastEvent(m');
      && OneEvent(m, m', e) && MadeAt(rig, m.cpu, m.cpu.tick + 1, e) && e.kind == CpuidAccess
      && e.payload ==
        (if rig.kernel.regsReadable(m.cpu.tick, r)
         then CpuidPayload(r.rax % TWO32, r.rcx % TWO32, r.rax % TWO32, r.rbx % TWO32, r.rcx % TWO32, r.rdx % TWO32)
         else CpuidPayload(0, 0, 0, 0, 0, 0))
      && m'.world == Deliver(m.bus.subs, rig.look(m.world, m'.cpu), e)
  {
  }

  /**
   * A CPUID event reports the answer twice: with a handler present its leaf and subleaf are the
   * EAX and ECX that were injected, not the ones that were asked for. When the registers cannot
   * be read back the event carries the all-zero payload it was made with.
   */
  lemma CpuidEventShowsAnswer<W>(rig: Rig<W>, m: Machine<W>)
    requires Ok(m) && rig.cpuid.Some? && rig.bus
    requires m.cpu.exit == InternalError(1) && DispatchExit(rig, m, m.cpu.exit).1 == Continue
    ensures var m', t := DispatchExit(rig, m, m.cpu.exit).0, rig.cpuid.value;
      var e, tick, leaf, sub := LastEvent(m'), m.cpu.tick, m.cpu.regs.rax % TWO32, m.cpu.regs.rcx % TWO32;
      var (w, v) := if leaf in t.callbacks then t.callbacks[leaf](m.world, leaf, sub) else (m.world, t.host(leaf, sub));
      && OneEvent(m, m', e) && MadeAt(rig, m'.cpu, tick + 3, e) && e.kind == CpuidAccess
      && m'.cpu.regs == m.cpu.regs.(rax := v.eax, rbx := v.ebx, rcx := v.ecx, rdx := v.edx)
      && e.payload ==
        (if rig.kernel.regsReadable(tick + 2, m'.cpu.regs) then CpuidPayload(v.eax, v.ecx, v.eax, v.ebx, v.ecx, v.edx)
         else CpuidPayload(0, 0, 0, 0, 0, 0))
      && m'.world == Deliver(m.bus.subs, rig.look(w, m'.cpu), e)
  {
    LeafCallbacks(rig.kernel, rig.cpuid.value, m.world, m.cpu);
    var m1 := HandledCpuid(rig, m).0;
    CpuidReport(rig, m1);
    var v := LeafReply(rig.cpuid.value, m.world, m.cpu.regs.rax % TWO32, m.cpu.regs.rcx % TWO32).1;
    assert m1.cpu == m.cpu.(regs := m.cpu.regs.(rax := v.eax, rbx := v.ebx, rcx := v.ecx, rdx := v.edx), tick := m.cpu.tick + 2);
    SmallWords(v);
  }

  lemma SmallWords(v: LeafResult)
    ensures v.eax % TWO32 == v.eax && v.ebx % TWO32 == v.ebx && v.ecx % TWO32 == v.ecx && v.edx % TWO32 == v.edx
  {
  }

  /** Without a CPUID handler nothing is injected, and the event shows the registers as the guest left them. */
  lemma UnattendedCpuid<W>(rig: Rig<W>, m: Machine<W>)
    requires Ok(m) && rig.cpuid.None? && rig.bus && m.cpu.exit == InternalError(1)
    ensures var m', r := DispatchExit(rig, m, m.cpu.exit).0, m.cpu.regs;
      var e, tick := LastEvent(m'), m.cpu.tick;
      && OneEvent(m, m', e) && MadeAt(rig, m.cpu, tick + 1, e) && e.kind == CpuidAccess && m'.cpu.regs == r
      && e.payload ==
        (if rig.kernel.regsReadable(tick, r)
         then CpuidPayload(r.rax % TWO32, r.rcx % TWO32, r.rax % TWO32, r.rbx % TWO32, r.rcx % TWO32, r.rdx % TWO32)
         else CpuidPayload(0, 0, 0, 0, 0, 0))
      && m'.world == Deliver(m.bus.subs, rig.look(m.world, m'.cpu), e)
  {
    CpuidReport(rig, m);
  }

  /** A halt event carries no payload; a shutdown event an all-zero CPUID payload and no rip. */
  lemma StopPayload<W>(rig: Rig<W>, m: Machine<W>, x: Exit)
    requires Ok(m) && x == m.cpu.exit && (x.Hlt? || x.Shutdown?) && rig.bus
    ensures var m' := DispatchExit(rig, m, x).0;
      var e := LastEvent(m');
      && OneEvent(m, m', e) && e.vcpuId == rig.vcpuId && e.timestamp == rig.kernel.clock(m.cpu.tick)
      && (x.Hlt? ==> MadeAt(rig, m.cpu, m.cpu.tick, e) && e.kind == GuestHalt && e.payload == NoPayload)
      && (x.Shutdown? ==> e.kind == GuestShutdown && e.rip == 0 && e.payload == CpuidPayload(0, 0, 0, 0, 0, 0))
      && m'.world == Deliver(m.bus.subs, rig.look(m.world, m'.cpu), e)
      && m'.cpu == m.cpu.(tick := m'.cpu.tick)
  {
  }
}
