/** GuestLoader: image and page tables into guest RAM, initial vCPU state for real and for long mode. */
module GuestLoader {
  import opened Words
  import opened Memory
  import opened Registers
  import opened Kvm
  import opened VCpus
  import opened Regions
  import opened VirtualMachines
  import opened PageTables

  datatype Mode = FlatBinary | RealMode16

  datatype Params = Params(mode: Mode, loadAddress: u64, entryPoint: u64, memorySize: nat)

  /** NoImage and NoTableRegion are reported as ENONET, ImageTooLarge as ENOMEM. */
  datatype LoadError =
    | NoImage
    | RegionRefused(errno: int)
    | ImageTooLarge
    | VcpuRefused(errno: int)
    | NoTableRegion
    | SregsUnreadable
    | SregsRefused
    | RegsRefused

  const TABLES: nat := 0x2000
  const TABLES_END: nat := 0x5000

  // ---------------------------------------------------------------------------------------------
  // vCPU state.

  function RealSegment(seg: Segment, selector: u16): Segment {
    seg.(selector := selector, base := selector * 16, limit := 0xFFFF, kind := 3, present := 1, dpl := 0, db := 0, s := 1, l := 0, g := 0)
  }

  function RealSregs(s: Sregs): Sregs {
    s.(cs := RealSegment(s.cs, 0), ds := RealSegment(s.ds, 0), es := RealSegment(s.es, 0), fs := RealSegment(s.fs, 0),
       gs := RealSegment(s.gs, 0), ss := RealSegment(s.ss, 0), cr0 := s.cr0 - s.cr0 % 2)
  }

  function RealRegs(ip: u16): Regs {
    ZERO_REGS.(rip := ip, rsp := 0xFFF0, rflags := 2)
  }

  const CODE64 := ZERO_SEGMENT.(selector := 0x08, limit := 0xFFFF_FFFF, kind := 11, present := 1, l := 1, s := 1, g := 1)
  const DATA64 := ZERO_SEGMENT.(selector := 0x10, limit := 0xFFFF_FFFF, kind := 3, present := 1, db := 1, s := 1, g := 1)

  function LongSregs(s: Sregs, cr3: u64): Sregs {
    s.(cs := CODE64, ds := DATA64, es := DATA64, fs := DATA64, gs := DATA64, ss := DATA64,
       cr0 := 0x8005_0033, cr3 := cr3, cr4 := 0x20, efer := 0x500)
  }

  function LongRegs(rip: u64): Regs {
    ZERO_REGS.(rip := rip, rsp := 0x20_0000, rflags := 2)
  }

  datatype Target = Real(ip: u16) | Long(rip: u64, cr3: u64)

  function TargetSregs(t: Target, s: Sregs): Sregs {
    if t.Real? then RealSregs(s) else LongSregs(s, t.cr3)
  }

  function TargetRegs(t: Target): Regs {
    if t.Real? then RealRegs(t.ip) else LongRegs(t.rip)
  }

  /** Read the special registers, write them back adjusted, then write the general ones; stop at the first failure. */
  function Setup(k: Kernel, c: Cpu, t: Target): (Cpu, Option<LoadError>) {
    var (c1, sregs) := GetSregs(k, c);
    if sregs.None? then (c1, Some(SregsUnreadable))
    else
      var (c2, ok) := SetSregs(k, c1, TargetSregs(t, sregs.value));
      if !ok then (c2, Some(SregsRefused))
      else
        var (c3, ok') := SetRegs(k, c2, TargetRegs(t));
        (c3, if ok' then None else Some(RegsRefused))
  }

  /** Whether the setup succeeds does not depend on guest memory. */
  lemma SetupIgnoresRam(k: Kernel, c: Cpu, ram: seq<seq<byte>>, t: Target)
    ensures Setup(k, c.(ram := ram), t).1 == Setup(k, c, t).1
  {
  }

  method SetupVCpu(vcpu: VCpu, t: Target) returns (error: Option<LoadError>)
    requires vcpu.Valid()
    modifies vcpu
    ensures vcpu.Valid()
    ensures (vcpu.State(), error) == Setup(vcpu.kernel, old(vcpu.State()), t)
  {
    var sregs := vcpu.GetSregs();
    if sregs.None? {
      return Some(SregsUnreadable);
    }
    var ok := vcpu.SetSregs(TargetSregs(t, sregs.value));
    if !ok {
      return Some(SregsRefused);
    }
    ok := vcpu.SetRegs(TargetRegs(t));
    error := if ok then None else Some(RegsRefused);
  }

  // ---------------------------------------------------------------------------------------------
  // Page tables in place.

  lemma TableByteAt(base: nat, q: nat, k: nat)
    requires 8 * q <= k < 8 * q + 8
    ensures TableByte(base, k) == LeBytes(TableEntry(base, q), 8)[k - 8 * q]
  {
    DivModUnique(k, 8, q, k - 8 * q);
  }

  lemma TableByteZero(base: nat, k: nat)
    requires 8 <= k < 0x1000 || 0x1008 <= k < 0x2000
    ensures TableByte(base, k) == 0
  {
    LeBytesZero(8);
  }

  /** The ranges the table code stores to, in order, with the tables at this offset of their region. */
  function TableStores(off: nat): seq<(nat, nat)> {
    [(off, 0x1000), (off + 0x1000, 0x1000), (off + 0x2000, 0x1000), (off, 8), (off + 0x1000, 8)]
    + seq(512, i requires i >= 0 => (off + 0x2000 + 8 * i, 8))
  }

  predicate StoresWithin(stores: seq<(nat, nat)>, size: nat) {
    forall i :: 0 <= i < |stores| ==> stores[i].0 + stores[i].1 <= size
  }

  /** All stores of the table code lie in the region exactly when all three pages do. */
  lemma StoresFit(off: nat, size: nat)
    ensures StoresWithin(TableStores(off), size) <==> off + TABLES_SIZE <= size
  {
    assert TableStores(off)[2] == (off + 0x2000, 0x1000);
  }

  /** What a flat load with this much memory stores as tables: nothing when no region covers their base. */
  function LoadStores(memorySize: nat): seq<(nat, nat)> {
    if TABLES < memorySize then TableStores(TABLES) else []
  }

  /** The loader checks only the base: its table stores stay inside guest memory for these sizes and no others. */
  lemma LoadStoresFit(memorySize: nat)
    ensures StoresWithin(LoadStores(memorySize), memorySize) <==> memorySize <= TABLES || TABLES_END <= memorySize
  {
    StoresFit(TABLES, memorySize);
  }

  /** The PML4 and PDPT: one entry each, everything else cleared, and the PD cleared. */
  method FillRoots(host: array<byte>, off: nat, base: nat) returns (ghost stores: seq<(nat, nat)>)
    requires off + TABLES_SIZE <= host.Length
    modifies host
    ensures forall k :: 0 <= k < 0x2000 ==> host[off + k] == TableByte(base, k)
    ensures forall j :: 0 <= j < host.Length && !(off <= j < off + TABLES_SIZE) ==> host[j] == old(host[j])
    ensures stores == TableStores(off)[..5]
  {
    ClearTables(host, off);
    ghost var zero := host[..];
    CopyInto(host, off, LeBytes(BitOr(base + 0x1000, 0x03), 8));
    ghost var one := host[..];
    CopyInto(host, off + 0x1000, LeBytes(BitOr(base + 0x2000, 0x03), 8));
    stores := [(off, 0x1000), (off + 0x1000, 0x1000), (off + 0x2000, 0x1000), (off, 8), (off + 0x1000, 8)];
    forall k | 0 <= k < 0x2000 ensures host[off + k] == TableByte(base, k) {
      if k < 8 {
        TableByteAt(base, 0, k);
        assert host[..][off + k] == one[off + k];
      } else if 0x1000 <= k < 0x1008 {
        TableByteAt(base, 512, k);
        assert host[..][off + k] == LeBytes(TableEntry(base, 512), 8)[k - 0x1000];
      } else {
        TableByteZero(base, k);
        assert host[..][off + k] == one[off + k] == zero[off + k] == 0;
      }
    }
    assert forall j :: 0 <= j < host.Length && !(off <= j < off + TABLES_SIZE) ==> host[..][j] == one[j] == zero[j] == old(host[j]);
  }

  lemma ClearedOn(mem: seq<byte>, at: nat, n: nat, more: nat)
    requires at + n + more <= |mem|
    ensures Overlay(Overlay(mem, at, Zeros(n)), at + n, Zeros(more)) == Overlay(mem, at, Zeros(n + more))
  {
  }

  /** The three pages, one after the other. */
  method ClearTables(host: array<byte>, off: nat)
    requires off + TABLES_SIZE <= host.Length
    modifies host
    ensures host[..] == Overlay(old(host[..]), off, Zeros(TABLES_SIZE))
  {
    Clear(host, off, 0x1000);
    Clear(host, off + 0x1000, 0x1000);
    Clear(host, off + 0x2000, 0x1000);
    ClearedOn(old(host[..]), off, 0x1000, 0x1000);
    ClearedOn(old(host[..]), off, 0x2000, 0x1000);
  }

  /** The 512 large-page entries of the PD, in order; nothing is stored anywhere else. */
  method FillTables(host: array<byte>, off: nat, base: nat) returns (ghost stores: seq<(nat, nat)>)
    requires off + TABLES_SIZE <= host.Length
    modifies host
    ensures host[..] == Overlay(old(host[..]), off, TableBytes(base))
    ensures stores == TableStores(off)
  {
    stores := FillRoots(host, off, base);
    assert FilledTo(host[..], off, base, 0x2000) && SameOutside(old(host[..]), host[..], off);
    for i := 0 to 512
      invariant FilledTo(host[..], off, base, 0x2000 + 8 * i)
      invariant SameOutside(old(host[..]), host[..], off)
      invariant stores == TableStores(off)[..5 + i]
    {
      FillEntry(host, off, base, i);
      stores := stores + [(off + 0x2000 + 8 * i, 8)];
    }
    FilledAll(old(host[..]), host[..], off, base);
    assert TableStores(off)[..5 + 512] == TableStores(off);
  }

  /** The first n bytes at off are those of the tables. */
  predicate FilledTo(mem: seq<byte>, off: nat, base: nat, n: nat) {
    off + n <= |mem| && forall k :: 0 <= k < n ==> mem[off + k] == TableByte(base, k)
  }

  /** Nothing but the place of the tables has changed. */
  predicate SameOutside(before: seq<byte>, after: seq<byte>, off: nat) {
    |after| == |before| && forall j :: 0 <= j < |after| && !(off <= j < off + TABLES_SIZE) ==> after[j] == before[j]
  }

  /** Large-page entry i. */
  method FillEntry(host: array<byte>, off: nat, base: nat, i: nat)
    requires i < 512 && off + TABLES_SIZE <= host.Length && FilledTo(host[..], off, base, 0x2000 + 8 * i)
    modifies host
    ensures FilledTo(host[..], off, base, 0x2000 + 8 * (i + 1)) && SameOutside(old(host[..]), host[..], off)
  {
    EntryStored(host[..], off, base, 1024 + i);
    CopyInto(host, off + 0x2000 + 8 * i, LeBytes(BitOr(Shl(i, 21), 0x83), 8));
  }

  lemma EntryStored(mem: seq<byte>, off: nat, base: nat, q: nat)
    requires FilledTo(mem, off, base, 8 * q) && off + 8 * q + 8 <= |mem|
    ensures FilledTo(Overlay(mem, off + 8 * q, LeBytes(TableEntry(base, q), 8)), off, base, 8 * q + 8)
  {
    var after := Overlay(mem, off + 8 * q, LeBytes(TableEntry(base, q), 8));
    forall k | 0 <= k < 8 * q + 8 ensures after[off + k] == TableByte(base, k) {
      if k >= 8 * q {
        TableByteAt(base, q, k);
      } else {
        assert after[off + k] == mem[off + k];
      }
    }
  }

  lemma FilledAll(before: seq<byte>, after: seq<byte>, off: nat, base: nat)
    requires FilledTo(after, off, base, TABLES_SIZE) && SameOutside(before, after, off)
    ensures after == Overlay(before, off, TableBytes(base))
  {
    var o := Overlay(before, off, TableBytes(base));
    forall j | 0 <= j < |after| ensures after[j] == o[j] {
      if off <= j < off + TABLES_SIZE {
        assert after[off + (j - off)] == TableByte(base, j - off);
      }
    }
  }

  predicate Covers(r: MemoryRegion, base: nat)
    reads r
  {
    r.gpa <= base < r.gpa + r.size
  }

  /** The index of the first region that covers an address, or the number of regions. */
  method FindRegion(vm: VirtualMachine, base: nat) returns (k: nat)
    requires vm.Valid()
    ensures k <= |vm.regions|
    ensures k < |vm.regions| ==> Covers(vm.regions[k], base)
    ensures forall j :: 0 <= j < k ==> !Covers(vm.regions[j], base)
  {
    k := 0;
    while k < |vm.regions|
      invariant k <= |vm.regions|
      invariant forall j :: 0 <= j < k ==> !Covers(vm.regions[j], base)
    {
      if vm.regions[k].gpa <= base < vm.regions[k].gpa + vm.regions[k].size {
        return;
      }
      k := k + 1;
    }
  }

  /**
   * The tables go into the first region that covers their base, over exactly their 12 KiB;
   * if no region does, nothing changes. The caller provides room for all three pages.
   */
  method BuildIdentityPageTables(vm: VirtualMachine, base: nat) returns (error: Option<LoadError>, ghost k: nat)
    requires vm.Valid()
    requires forall i :: 0 <= i < |vm.regions| && Covers(vm.regions[i], base) ==>
      base + TABLES_SIZE <= vm.regions[i].gpa + vm.regions[i].size
    modifies vm.kvm.memory
    ensures vm.Valid()
    ensures k <= |vm.regions| && forall j :: 0 <= j < k ==> !Covers(vm.regions[j], base)
    ensures error == if k < |vm.regions| then None else Some(NoTableRegion)
    ensures k < |vm.regions| ==> Covers(vm.regions[k], base)
    ensures vm.Ram() == if k < |vm.regions|
      then old(vm.Ram())[k := Overlay(old(vm.Ram())[k], base - vm.regions[k].gpa, TableBytes(base))]
      else old(vm.Ram())
  {
    var i := FindRegion(vm, base);
    k := i;
    if i == |vm.regions| {
      return Some(NoTableRegion), k;
    }
    var region := vm.regions[i];
    ghost var stores := FillTables(vm.kvm.memory[i], base - region.gpa, base);
    assert vm.Ram() == old(vm.Ram())[i := Overlay(old(vm.Ram())[i], base - region.gpa, TableBytes(base))];
    error := None;
  }

  // ---------------------------------------------------------------------------------------------
  // Loading.

  predicate Fitting(p: Params, image: seq<byte>) {
    p.loadAddress + |image| <= p.memorySize && (p.mode.FlatBinary? ==> TABLES_END <= p.memorySize)
  }

  /** The end of the image as the loader computes it, in 64 bits. */
  function ImageEnd(p: Params, image: seq<byte>): u64 {
    Wrap64(p.loadAddress + |image|)
  }

  /** The sum does not wrap, or wraps to something that is refused all the same. */
  predicate Checkable(p: Params, image: seq<byte>) {
    p.loadAddress + |image| < TWO64 || ImageEnd(p, image) > p.memorySize
  }

  /** The loader's check lets only images through that fit, for these images and no others. */
  lemma CheckExact(p: Params, image: seq<byte>)
    requires p.memorySize < TWO64
    ensures (ImageEnd(p, image) <= p.memorySize ==> p.loadAddress + |image| <= p.memorySize) <==> Checkable(p, image)
  {
  }

  /** An image that is not among them: two bytes at the last address end, in 64 bits, at 1. */
  lemma WrappingImage(p: Params, image: seq<byte>)
    requires p.loadAddress == TWO64 - 1 && |image| == 2 && 1 <= p.memorySize < TWO64
    ensures !Checkable(p, image) && ImageEnd(p, image) == 1 <= p.memorySize < p.loadAddress + |image|
  {
  }

  function LoadedByte(p: Params, image: seq<byte>, a: nat): byte {
    if p.mode.FlatBinary? && TABLES <= a < TABLES_END then TableByte(TABLES, a - TABLES)
    else if p.loadAddress <= a < p.loadAddress + |image| then image[a - p.loadAddress]
    else 0
  }

  /** Guest RAM after a load: zeroes, then the image, then the tables in flat mode. */
  function LoadedRam(p: Params, image: seq<byte>): (ram: seq<byte>)
    requires Fitting(p, image)
    ensures |ram| == p.memorySize
    ensures forall a :: 0 <= a < p.memorySize ==> ram[a] == LoadedByte(p, image, a)
  {
    var ram := Overlay(Zeros(p.memorySize), p.loadAddress, image);
    if p.mode.FlatBinary? then Overlay(ram, TABLES, TableBytes(TABLES)) else ram
  }

  function LoadTarget(p: Params): Target {
    if p.mode.RealMode16? then Real(p.entryPoint % 0x1_0000) else Long(p.entryPoint, TABLES)
  }

  /** What the kernel answers during a load, and the state a new vCPU is reset to. */
  datatype Environment = Environment(
    kernel: Kernel, mmapErrno: Option<int>, ioctlErrno: Option<int>, vcpuErrno: Option<int>,
    pageSize: nat, regs: Regs, sregs: Sregs)

  function ResetState(env: Environment, ram: seq<seq<byte>>): Cpu {
    Cpu(env.regs, env.sregs, ram, NoExit, Zeros(env.pageSize), 0)
  }

  /** The first error a load meets, in the order the loader checks; only load refuses an empty image. */
  function LoadOutcome(p: Params, image: seq<byte>, env: Environment): Option<LoadError> {
    if image == [] then Some(NoImage) else PlaceOutcome(p, image, env)
  }

  function PlaceOutcome(p: Params, image: seq<byte>, env: Environment): Option<LoadError> {
    if env.mmapErrno.Some? then Some(RegionRefused(env.mmapErrno.value))
    else if env.ioctlErrno.Some? then Some(RegionRefused(env.ioctlErrno.value))
    else if ImageEnd(p, image) > p.memorySize then Some(ImageTooLarge)
    else if env.vcpuErrno.Some? then Some(VcpuRefused(env.vcpuErrno.value))
    else if p.mode.FlatBinary? && p.memorySize <= TABLES then Some(NoTableRegion)
    else Setup(env.kernel, ResetState(env, []), LoadTarget(p)).1
  }

  /** Guest memory, and the state of the one vCPU if there is one. */
  datatype Left = Left(ram: seq<seq<byte>>, cpu: Option<Cpu>)

  /** Room for the tables, or none at all. */
  predicate RoomForTables(p: Params) {
    p.mode.FlatBinary? ==> p.memorySize <= TABLES || TABLES_END <= p.memorySize
  }

  /** The parameters with which the loader stays inside guest memory (CheckExact, LoadStoresFit). */
  predicate Loadable(p: Params, image: seq<byte>) {
    p.memorySize < TWO64 && Checkable(p, image) && RoomForTables(p)
  }

  function Imaged(p: Params, image: seq<byte>): seq<byte>
    requires p.loadAddress + |image| <= p.memorySize
  {
    Overlay(Zeros(p.memorySize), p.loadAddress, image)
  }

  /** What there is once the image is in place and the rest has been attempted. */
  function Booted(p: Params, image: seq<byte>, env: Environment): Left
    requires p.loadAddress + |image| <= p.memorySize && RoomForTables(p)
  {
    if env.vcpuErrno.Some? then Left([Imaged(p, image)], None)
    else if p.mode.FlatBinary? && p.memorySize <= TABLES then
      Left([Imaged(p, image)], Some(ResetState(env, [Imaged(p, image)])))
    else
      var ram := [LoadedRam(p, image)];
      Left(ram, Some(Setup(env.kernel, ResetState(env, ram), LoadTarget(p)).0))
  }

  /** What a load leaves behind, whether it succeeds or not. */
  function LeftBy(p: Params, image: seq<byte>, env: Environment): Left
    requires Loadable(p, image)
  {
    if env.mmapErrno.Some? || env.ioctlErrno.Some? then Left([], None)
    else if ImageEnd(p, image) > p.memorySize then Left([Zeros(p.memorySize)], None)
    else CheckExact(p, image); Booted(p, image, env)
  }

  /** A load that reports no error has left its image, its tables and a vCPU in the target state. */
  lemma LoadedLeft(p: Params, image: seq<byte>, env: Environment)
    requires Loadable(p, image) && PlaceOutcome(p, image, env) == None
    ensures Fitting(p, image)
    ensures LeftBy(p, image, env) ==
      var ram := [LoadedRam(p, image)];
      Left(ram, Some(Setup(env.kernel, ResetState(env, ram), LoadTarget(p)).0))
  {
    CheckExact(p, image);
  }

  /**
   * load on a VM without regions or vCPUs. Excluded are exactly the parameters with which the
   * loader would write outside guest memory. All of guest memory is region 0, in slot 0.
   */
  method Load(vm: VirtualMachine, p: Params, image: seq<byte>, env: Environment) returns (error: Option<LoadError>)
    requires vm.Valid() && vm.regions == [] && vm.vcpus == [] && MMIO_END <= env.pageSize && Loadable(p, image)
    modifies vm, vm.kvm, vm.os
    ensures vm.Valid() && |vm.vcpus| <= 1
    ensures error == LoadOutcome(p, image, env)
    ensures Left(vm.Ram(), if vm.vcpus == [] then None else Some(vm.vcpus[0].State())) ==
      if image == [] then Left([], None) else LeftBy(p, image, env)
    ensures |vm.regions| == |vm.Ram()| <= 1 && forall r :: r in vm.regions ==> r.gpa == 0 && r.slot == 0
  {
    if image == [] {
      return Some(NoImage);
    }
    error := Place(vm, p, image, env);
  }

  /** What load and loadBytes have in common: the region, the check, and everything after it. */
  method Place(vm: VirtualMachine, p: Params, image: seq<byte>, env: Environment) returns (error: Option<LoadError>)
    requires vm.Valid() && vm.regions == [] && vm.vcpus == [] && MMIO_END <= env.pageSize && Loadable(p, image)
    modifies vm, vm.kvm, vm.os
    ensures vm.Valid() && |vm.vcpus| <= 1
    ensures error == PlaceOutcome(p, image, env)
    ensures Left(vm.Ram(), if vm.vcpus == [] then None else Some(vm.vcpus[0].State())) == LeftBy(p, image, env)
    ensures |vm.regions| == |vm.Ram()| <= 1 && forall r :: r in vm.regions ==> r.gpa == 0 && r.slot == 0
  {
    var region, errno := vm.AddMemoryRegion(0, p.memorySize, env.mmapErrno, env.ioctlErrno, false);
    if region == null {
      return Some(RegionRefused(errno));
    }
    assert region.View() == vm.Views()[0];
    assert vm.regions == [region] && vm.Ram() == [Zeros(p.memorySize)];
    error := PlaceIn(vm, region, p, image, env);
  }

  /** The check of the image against its region, and everything after it. */
  method PlaceIn(vm: VirtualMachine, region: MemoryRegion, p: Params, image: seq<byte>, env: Environment)
    returns (error: Option<LoadError>)
    requires vm.Valid() && vm.regions == [region] && vm.vcpus == [] && MMIO_END <= env.pageSize && Loadable(p, image)
    requires region.gpa == 0 && region.size == p.memorySize && vm.Ram() == [Zeros(p.memorySize)]
    requires env.mmapErrno.None? && env.ioctlErrno.None?
    modifies vm`vcpus, vm.kvm.memory
    ensures vm.Valid() && |vm.vcpus| <= 1 && error == PlaceOutcome(p, image, env)
    ensures Left(vm.Ram(), if vm.vcpus == [] then None else Some(vm.vcpus[0].State())) == LeftBy(p, image, env)
  {
    CheckExact(p, image);
    if Wrap64(p.loadAddress + |image|) > region.size {
      return Some(ImageTooLarge);
    }
    assert vm.regions[0] == region;
    region.Write(p.loadAddress, image);
    assert vm.Ram() == [Imaged(p, image)];
    error := Boot(vm, p, image, env);
    SameSetup(p, image, env);
  }

  lemma SameSetup(p: Params, image: seq<byte>, env: Environment)
    ensures Fitting(p, image) ==>
      Setup(env.kernel, ResetState(env, [LoadedRam(p, image)]), LoadTarget(p)).1
        == Setup(env.kernel, ResetState(env, []), LoadTarget(p)).1
  {
    if Fitting(p, image) {
      SetupIgnoresRam(env.kernel, ResetState(env, []), [LoadedRam(p, image)], LoadTarget(p));
    }
  }

  /** In flat mode, the tables. */
  method FillRam(vm: VirtualMachine, p: Params, image: seq<byte>) returns (error: Option<LoadError>)
    requires vm.Valid() && |vm.regions| == 1 && vm.regions[0].gpa == 0 && vm.regions[0].size == p.memorySize
    requires p.loadAddress + |image| <= p.memorySize && vm.Ram() == [Imaged(p, image)] && RoomForTables(p)
    modifies vm.kvm.memory
    ensures vm.Valid()
    ensures error == if p.mode.FlatBinary? && p.memorySize <= TABLES then Some(NoTableRegion) else None
    ensures error == None ==> Fitting(p, image) && vm.Ram() == [LoadedRam(p, image)]
    ensures error != None ==> vm.Ram() == old(vm.Ram())
  {
    error := None;
    if p.mode.FlatBinary? {
      ghost var k;
      error, k := BuildIdentityPageTables(vm, TABLES);
      assert Covers(vm.regions[0], TABLES) <==> TABLES < p.memorySize;
    }
  }

  /** Everything after the image is in place: vCPU, tables, registers. */
  method Boot(vm: VirtualMachine, p: Params, image: seq<byte>, env: Environment) returns (error: Option<LoadError>)
    requires vm.Valid() && |vm.regions| == 1 && vm.vcpus == [] && MMIO_END <= env.pageSize
    requires vm.regions[0].gpa == 0 && vm.regions[0].size == p.memorySize
    requires p.loadAddress + |image| <= p.memorySize && vm.Ram() == [Imaged(p, image)] && RoomForTables(p)
    modifies vm`vcpus, vm.kvm.memory
    ensures vm.Valid() && |vm.vcpus| <= 1
    ensures Left(vm.Ram(), if vm.vcpus == [] then None else Some(vm.vcpus[0].State())) == Booted(p, image, env)
    ensures error == BootOutcome(p, image, env)
  {
    var vcpu := vm.AddVCpu(env.kernel, 0, env.pageSize, env.regs, env.sregs, env.vcpuErrno);
    if vcpu == null {
      return Some(VcpuRefused(env.vcpuErrno.value));
    }
    assert vcpu == vm.vcpus[0];
    error := FillRam(vm, p, image);
    assert vcpu.State() == ResetState(env, vm.Ram());
    if error != None {
      return;
    }
    error := SetupVCpu(vcpu, LoadTarget(p));
  }

  /** The error of that part. */
  function BootOutcome(p: Params, image: seq<byte>, env: Environment): Option<LoadError>
    requires p.loadAddress + |image| <= p.memorySize && RoomForTables(p)
  {
    if env.vcpuErrno.Some? then Some(VcpuRefused(env.vcpuErrno.value))
    else if p.mode.FlatBinary? && p.memorySize <= TABLES then Some(NoTableRegion)
    else Setup(env.kernel, ResetState(env, [LoadedRam(p, image)]), LoadTarget(p)).1
  }

  /** loadBytes: the same in real mode, entered at the load address; empty code is accepted. */
  method LoadBytes(vm: VirtualMachine, code: seq<byte>, loadAddress: u64, memorySize: nat, env: Environment)
    returns (error: Option<LoadError>)
    requires vm.Valid() && vm.regions == [] && vm.vcpus == [] && MMIO_END <= env.pageSize
    requires Loadable(Params(RealMode16, loadAddress, loadAddress, memorySize), code)
    modifies vm, vm.kvm, vm.os
    ensures vm.Valid() && |vm.vcpus| <= 1
    ensures var p := Params(RealMode16, loadAddress, loadAddress, memorySize);
      && error == PlaceOutcome(p, code, env)
      && Left(vm.Ram(), if vm.vcpus == [] then None else Some(vm.vcpus[0].State())) == LeftBy(p, code, env)
    ensures |vm.regions| == |vm.Ram()| <= 1 && forall r :: r in vm.regions ==> r.gpa == 0 && r.slot == 0
  {
    error := Place(vm, Params(RealMode16, loadAddress, loadAddress, memorySize), code, env);
  }
}
