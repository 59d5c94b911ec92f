/**
 * The processor state a load leaves the vCPU in, read by the rules of the Intel SDM, volume 3A:
 * segment descriptors (section 3.4.5) and the code-segment descriptor in 64-bit mode (section 5.2.1).
 */
module LoadedState {
  import opened Words
  import opened Memory
  import opened Registers
  import opened Kvm
  import opened Paging
  import opened PageTables
  import opened GuestLoader
  import opened LoaderLaws

  /** A usable code or data segment of privilege level 0 that starts at linear address 0. */
  predicate FlatSegment(g: Segment) {
    g.s == 1 && g.present == 1 && g.unusable == 0 && g.dpl == 0 && g.selector % 4 == 0 && g.base == 0
  }

  /** Bit 3 of the type marks code, bit 1 readable code or writable data. */
  predicate IsCode(g: Segment) { Bit(g.kind, 8) }

  predicate ReadOrWrite(g: Segment) { Bit(g.kind, 2) }

  /** Byte limits scaled by 4 KiB: the whole 4 GiB. */
  predicate FullLimit(g: Segment) { g.g == 1 && g.limit == 0xFFFF_FFFF }

  /** Protection and paging on, PAE, and IA-32e mode both enabled and active; AM, WP, NE, ET and MP besides. */
  predicate LongModeOn(s: Sregs) {
    && s.cr0 == 0x8000_0000 + 0x4_0000 + 0x1_0000 + 0x20 + 0x10 + 0x2 + 0x1
    && Bit(s.cr0, 0x8000_0000) && Bit(s.cr0, 0x1)
    && s.cr4 == 0x20 && Bit(s.cr4, 0x20)
    && s.efer == 0x100 + 0x400
  }

  /** In IA-32e mode a code segment with L set and D clear runs 64-bit code. */
  predicate Code64(g: Segment) {
    FlatSegment(g) && IsCode(g) && ReadOrWrite(g) && FullLimit(g) && g.l == 1 && g.db == 0
  }

  predicate WritableData(g: Segment) {
    FlatSegment(g) && !IsCode(g) && ReadOrWrite(g) && FullLimit(g) && g.l == 0
  }

  /** 64-bit mode, with flat writable data in all five data segments. */
  predicate In64BitMode(s: Sregs) {
    && LongModeOn(s) && Code64(s.cs)
    && WritableData(s.ss) && WritableData(s.ds) && WritableData(s.es) && WritableData(s.fs) && WritableData(s.gs)
  }

  /** Only the reserved flag that is always set: interrupts off, direction up, no single step. */
  predicate FlagsClear(r: Regs) {
    r.rflags == 2 && Bit(r.rflags, 2) && !Bit(r.rflags, 0x200) && !Bit(r.rflags, 0x400) && !Bit(r.rflags, 0x100)
  }

  predicate OthersZero(r: Regs) {
    && r.rax == 0 && r.rbx == 0 && r.rcx == 0 && r.rdx == 0 && r.rsi == 0 && r.rdi == 0 && r.rbp == 0
    && r.r8 == 0 && r.r9 == 0 && r.r10 == 0 && r.r11 == 0 && r.r12 == 0 && r.r13 == 0 && r.r14 == 0 && r.r15 == 0
  }

  /** The stack grows down from 2 MiB: the eight bytes below translate to themselves, present and writable. */
  predicate StackMapped(physLimit: nat, mem: seq<byte>, s: Sregs, rsp: u64) {
    rsp == 0x20_0000 && Translate(physLimit, mem, s, rsp - 8) == Mapped(rsp - 8, true, false, 0x20_0000)
  }

  /** Everything a flat guest can rely on at its first instruction. */
  predicate Entered64(c: Cpu, physLimit: nat, entry: u64) {
    && |c.ram| == 1
    && In64BitMode(c.sregs) && c.sregs.cr3 == 0x2000
    && FlagsClear(c.regs) && OthersZero(c.regs) && c.regs.rip == entry
    && StackMapped(physLimit, c.ram[0], c.sregs, c.regs.rsp)
  }

  lemma LongSegments()
    ensures Code64(CODE64) && WritableData(DATA64)
  {
  }

  lemma LongSregsMode(s: Sregs)
    ensures In64BitMode(LongSregs(s, TABLES)) && LongSregs(s, TABLES).rest == s.rest
  {
    LongSegments();
  }

  lemma LongRegsEntry(rip: u64)
    ensures FlagsClear(LongRegs(rip)) && OthersZero(LongRegs(rip)) && LongRegs(rip).rip == rip
  {
  }

  /** A flat load that succeeds leaves the vCPU in 64-bit mode at the entry point, with a stack it can push on. */
  lemma FlatEntry(p: Params, image: seq<byte>, env: Environment, physLimit: nat)
    requires p.mode.FlatBinary? && Loadable(p, image) && LoadOutcome(p, image, env) == None && physLimit >= TWO32
    ensures LeftBy(p, image, env).cpu.Some? && Entered64(LeftBy(p, image, env).cpu.value, physLimit, p.entryPoint)
  {
    LoadedGuestTranslates(p, image, env, physLimit, 0x1F_FFF8);
    LoadedLeft(p, image, env);
    SetupIgnoresRam(env.kernel, ResetState(env, []), [LoadedRam(p, image)], LoadTarget(p));
    LoadedSregs(p, env, [LoadedRam(p, image)]);
    LongSregsMode(env.sregs);
    LongRegsEntry(p.entryPoint);
  }

  /** The stack is mapped whatever the size of memory, but backed by it exactly from 2 MiB on. */
  lemma StackBacked(p: Params, image: seq<byte>, env: Environment, physLimit: nat)
    requires p.mode.FlatBinary? && Loadable(p, image) && LoadOutcome(p, image, env) == None && physLimit >= TWO32
    ensures LeftBy(p, image, env).cpu.Some? && |LeftBy(p, image, env).cpu.value.ram| == 1
    ensures var c := LeftBy(p, image, env).cpu.value;
      (forall la: u64 :: c.regs.rsp - 8 <= la < c.regs.rsp ==> ReadLinear(physLimit, c.ram[0], c.sregs, la).Some?)
      <==> 0x20_0000 <= p.memorySize
  {
    FlatEntry(p, image, env, physLimit);
    LoadedLeft(p, image, env);
    SetupIgnoresRam(env.kernel, ResetState(env, []), [LoadedRam(p, image)], LoadTarget(p));
    LoadedSregs(p, env, [LoadedRam(p, image)]);
    var c := LeftBy(p, image, env).cpu.value;
    forall la: u64 | 0x1F_FFF8 <= la < 0x20_0000
      ensures ReadLinear(physLimit, c.ram[0], c.sregs, la).Some? <==> la < p.memorySize
    {
      LoadedGuestTranslates(p, image, env, physLimit, la);
    }
    assert ReadLinear(physLimit, c.ram[0], c.sregs, 0x1F_FFFF).Some? <==> 0x1F_FFFF < p.memorySize;
  }

  // ---------------------------------------------------------------------------------------------
  // Real mode.

  /** A 64 KiB segment whose base is its selector times 16, which is 0; writable, 16-bit. */
  predicate Real64K(g: Segment) {
    && g.selector == 0 && g.base == 0 && g.limit == 0xFFFF && g.g == 0
    && g.s == 1 && g.present == 1 && g.dpl == 0 && g.db == 0 && g.l == 0 && !IsCode(g) && ReadOrWrite(g)
  }

  /** Real-address mode: PE is off, every other control bit and all other state as the vCPU was reset. */
  predicate InRealMode(s: Sregs, reset: Sregs) {
    && !Bit(s.cr0, 1) && s.cr0 / 2 == reset.cr0 / 2
    && (s.cr3, s.cr4, s.efer, s.rest) == (reset.cr3, reset.cr4, reset.efer, reset.rest)
    && Real64K(s.cs) && Real64K(s.ds) && Real64K(s.es) && Real64K(s.fs) && Real64K(s.gs) && Real64K(s.ss)
  }

  /** What real-mode code finds at its first instruction: only 16 bits of the entry point remain. */
  predicate Entered16(c: Cpu, reset: Sregs, entry: u64) {
    && InRealMode(c.sregs, reset)
    && FlagsClear(c.regs) && OthersZero(c.regs) && c.regs.rsp == 0xFFF0 && c.regs.rip == entry % 0x1_0000
  }

  lemma RealSregsMode(s: Sregs)
    ensures InRealMode(RealSregs(s), s)
  {
    ClearPe(s.cr0);
  }

  lemma RealEntry(p: Params, image: seq<byte>, env: Environment)
    requires p.mode.RealMode16? && Loadable(p, image) && PlaceOutcome(p, image, env) == None
    ensures LeftBy(p, image, env).cpu.Some? && Entered16(LeftBy(p, image, env).cpu.value, env.sregs, p.entryPoint)
  {
    LoadedLeft(p, image, env);
    SetupIgnoresRam(env.kernel, ResetState(env, []), [LoadedRam(p, image)], LoadTarget(p));
    LoadedSregs(p, env, [LoadedRam(p, image)]);
    RealSregsMode(env.sregs);
  }

  // ---------------------------------------------------------------------------------------------
  // When it succeeds.

  /** The three register calls of the setup, in their order, against the kernel. */
  predicate KernelAccepts(k: Kernel, sregs: Sregs, t: Target) {
    k.sregsReadable(0, sregs) && k.sregsWritable(1, TargetSregs(t, sregs)) && k.regsWritable(2, TargetRegs(t))
  }

  predicate HostProvides(env: Environment) {
    env.mmapErrno.None? && env.ioctlErrno.None? && env.vcpuErrno.None?
  }

  predicate InBounds(at: u64, length: nat, size: nat) {
    (at + length) % TWO64 <= size
  }

  function EntryTarget(mode: Mode, entry: u64): Target {
    match mode
    case RealMode16 => Real(entry % 0x1_0000)
    case FlatBinary => Long(entry, 0x2000)
  }

  /**
   * A load succeeds exactly when the host gives the memory and the vCPU, the end of the image (in 64
   * bits) is inside that memory, a flat guest has room for its tables, and the kernel takes the registers.
   */
  lemma LoadSucceeds(p: Params, image: seq<byte>, env: Environment)
    ensures LoadOutcome(p, image, env) == None <==>
      && image != [] && HostProvides(env) && InBounds(p.loadAddress, |image|, p.memorySize)
      && (p.mode.FlatBinary? ==> 0x2000 < p.memorySize)
      && KernelAccepts(env.kernel, env.sregs, EntryTarget(p.mode, p.entryPoint))
  {
  }

  /** Otherwise it reports the first thing that went wrong, in the order of its steps. */
  lemma LoadReports(p: Params, image: seq<byte>, env: Environment, n: int)
    ensures var error := LoadOutcome(p, image, env);
      var mapped := image != [] && env.mmapErrno.None? && env.ioctlErrno.None?;
      var placed := mapped && InBounds(p.loadAddress, |image|, p.memorySize);
      var created := placed && env.vcpuErrno.None?;
      && (error == Some(NoImage) <==> image == [])
      && (error == Some(RegionRefused(n)) <==>
            image != [] && (env.mmapErrno == Some(n) || (env.mmapErrno.None? && env.ioctlErrno == Some(n))))
      && (error == Some(ImageTooLarge) <==> mapped && !placed)
      && (error == Some(VcpuRefused(n)) <==> placed && env.vcpuErrno == Some(n))
      && (error == Some(NoTableRegion) <==> created && p.mode.FlatBinary? && p.memorySize <= 0x2000)
  {
  }

  /** A setup that fails leaves the general registers alone, and the special ones too unless only the last call failed. */
  lemma FailedSetup(k: Kernel, c: Cpu, t: Target)
    requires Setup(k, c, t).1 != None
    ensures var (c', error) := Setup(k, c, t);
      && c'.regs == c.regs && c' == c.(sregs := c'.sregs, tick := c'.tick)
      && (error == Some(SregsUnreadable) <==> !k.sregsReadable(c.tick, c.sregs))
      && (c'.sregs != c.sregs ==> error == Some(RegsRefused))
      && (error == Some(RegsRefused) ==> c'.sregs == TargetSregs(t, c.sregs) && !k.regsWritable(c.tick + 2, TargetRegs(t)))
      && (error == Some(SregsRefused) ==> !k.sregsWritable(c.tick + 1, TargetSregs(t, c.sregs)))
      && error in {Some(SregsUnreadable), Some(SregsRefused), Some(RegsRefused)}
  {
  }
}
