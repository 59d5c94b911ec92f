/** VirtualMachine: slot allocation, and snapshot and restore of vCPU 0 and guest memory. */
module VirtualMachines {
  import opened Words
  import opened Memory
  import opened Registers
  import opened Kvm
  import opened VCpus
  import opened Regions

  datatype Snapshot = Snapshot(regs: Regs, sregs: Sregs, regions: seq<seq<byte>>)

  // ---------------------------------------------------------------------------------------------
  // Snapshot and restore on the state of vCPU 0.

  /** A register file that cannot be read is recorded as zero. */
  function Take(k: Kernel, c: Cpu): (Cpu, Snapshot) {
    var (c1, regs) := GetRegs(k, c);
    var (c2, sregs) := GetSregs(k, c1);
    (c2, Snapshot(if regs.Some? then regs.value else ZERO_REGS,
                  if sregs.Some? then sregs.value else ZERO_SREGS, c.ram))
  }

  /** Every buffer of the snapshot has the length of the region it is copied back over. */
  predicate Fits(s: Snapshot, ram: seq<seq<byte>>) {
    |s.regions| <= |ram| && forall i :: 0 <= i < |s.regions| ==> |s.regions[i]| == |ram[i]|
  }

  /** Each region takes its size from its buffer, whichever VM the snapshot is of: no copy reads past a buffer. */
  predicate Copyable(s: Snapshot, ram: seq<seq<byte>>) {
    forall i :: 0 <= i < |ram| && i < |s.regions| && s.regions[i] != [] ==> |ram[i]| <= |s.regions[i]|
  }

  function RestoredRegion(s: Snapshot, i: nat, current: seq<byte>): (r: seq<byte>)
    requires i < |s.regions| && s.regions[i] != [] ==> |current| <= |s.regions[i]|
    ensures |r| == |current|
  {
    if i >= |s.regions| || s.regions[i] == [] then current else s.regions[i][..|current|]
  }

  function RestoredRam(s: Snapshot, ram: seq<seq<byte>>): (r: seq<seq<byte>>)
    requires Copyable(s, ram)
    ensures SameShape(r, ram) && forall i :: 0 <= i < |ram| ==> r[i] == RestoredRegion(s, i, ram[i])
  {
    seq(|ram|, i requires 0 <= i < |ram| => RestoredRegion(s, i, ram[i]))
  }

  /** A snapshot of any VM: a byte comes from its region's buffer, if the snapshot has one, and otherwise stays. */
  lemma RestoredBytes(s: Snapshot, ram: seq<seq<byte>>, i: nat, a: nat)
    requires Copyable(s, ram) && i < |ram| && a < |ram[i]|
    ensures var r := RestoredRam(s, ram);
      SameShape(r, ram) && r[i][a] == if i < |s.regions| && s.regions[i] != [] then s.regions[i][a] else ram[i][a]
  {
    assert RestoredRam(s, ram)[i] == RestoredRegion(s, i, ram[i]);
  }

  /** Buffers of the right sizes replace their regions. */
  lemma RestoredFitting(s: Snapshot, ram: seq<seq<byte>>)
    requires Fits(s, ram)
    ensures Copyable(s, ram) && RestoredRam(s, ram) == s.regions + ram[|s.regions|..]
  {
    forall i | 0 <= i < |ram| ensures RestoredRam(s, ram)[i] == (s.regions + ram[|s.regions|..])[i] {
      if i < |s.regions| {
        assert s.regions[i][..|ram[i]|] == s.regions[i];
      }
    }
  }

  /** A register file that cannot be written stays as it is; memory is restored all the same. */
  function Restore(k: Kernel, c: Cpu, s: Snapshot): (r: Cpu)
    requires Copyable(s, c.ram)
    ensures SameShape(r.ram, c.ram) && r.exit == c.exit && r.page == c.page && r.ram == RestoredRam(s, c.ram)
  {
    var c1 := SetRegs(k, c, s.regs).0;
    var c2 := SetSregs(k, c1, s.sregs).0;
    c2.(ram := RestoredRam(s, c.ram))
  }

  /** Anything that can happen to a VM between a snapshot and its restore. */
  datatype Change =
    | AddRegion(size: nat)
    | RefusedRegion
    | Execute
    | WriteRegs(regs: Regs)
    | WriteSregs(sregs: Sregs)
    | Poke(region: nat, at: nat, data: seq<byte>)
    | Rewind(to: Snapshot)

  predicate Enabled(c: Cpu, x: Change) {
    match x
    case Execute => CpuOk(c)
    case Poke(i, at, data) => i < |c.ram| && at + |data| <= |c.ram[i]|
    case Rewind(s) => Copyable(s, c.ram)
    case _ => true
  }

  function Apply(k: Kernel, c: Cpu, x: Change): Cpu
    requires Enabled(c, x)
  {
    match x
    case AddRegion(size) => c.(ram := c.ram + [Zeros(size)])
    case RefusedRegion => c
    case Execute => Run(k, c).0
    case WriteRegs(regs) => SetRegs(k, c, regs).0
    case WriteSregs(sregs) => SetSregs(k, c, sregs).0
    case Poke(i, at, data) => c.(ram := c.ram[i := Overlay(c.ram[i], at, data)])
    case Rewind(s) => Restore(k, c, s)
  }

  predicate AllEnabled(k: Kernel, c: Cpu, xs: seq<Change>)
    decreases |xs|
  {
    xs == [] || (Enabled(c, xs[0]) && AllEnabled(k, Apply(k, c, xs[0]), xs[1..]))
  }

  function ApplyAll(k: Kernel, c: Cpu, xs: seq<Change>): Cpu
    requires AllEnabled(k, c, xs)
    decreases |xs|
  {
    if xs == [] then c else ApplyAll(k, Apply(k, c, xs[0]), xs[1..])
  }

  /** Regions are append-only and keep their sizes, so a snapshot that fits goes on fitting. */
  lemma {:induction false} StaysFitting(k: Kernel, c: Cpu, xs: seq<Change>, s: Snapshot)
    requires AllEnabled(k, c, xs) && Fits(s, c.ram)
    ensures Fits(s, ApplyAll(k, c, xs).ram)
    decreases |xs|
  {
    if xs != [] {
      StaysFitting(k, Apply(k, c, xs[0]), xs[1..], s);
    }
  }

  /**
   * Snapshot round trip: whatever happens between taking a snapshot and restoring it, every copy
   * is in bounds, every snapshotted region is back byte for byte, regions added later are left
   * alone, and each register file is the recorded one exactly when the kernel accepts it; the
   * recorded one is the one at the snapshot exactly when the kernel could read it (or it was zero).
   */
  lemma SnapshotRoundTrip(k: Kernel, c: Cpu, xs: seq<Change>)
    requires AllEnabled(k, Take(k, c).0, xs)
    ensures var s := Take(k, c).1;
      var d := ApplyAll(k, Take(k, c).0, xs);
      && Fits(s, d.ram)
      && var r := Restore(k, d, s);
      && r.ram == c.ram + d.ram[|c.ram|..]
      && r.regs == (if k.regsWritable(d.tick, s.regs) then s.regs else d.regs)
      && r.sregs == (if k.sregsWritable(d.tick + 1, s.sregs) then s.sregs else d.sregs)
      && (s.regs == c.regs <==> k.regsReadable(c.tick, c.regs) || c.regs == ZERO_REGS)
      && (s.sregs == c.sregs <==> k.sregsReadable(c.tick + 1, c.sregs) || c.sregs == ZERO_SREGS)
  {
    StaysFitting(k, Take(k, c).0, xs, Take(k, c).1);
    RestoredFitting(Take(k, c).1, ApplyAll(k, Take(k, c).0, xs).ram);
  }

  // ---------------------------------------------------------------------------------------------
  // The class.

  class VirtualMachine {
    const kvm: KvmVm
    const os: Host
    const fd: int
    var nextSlot: u32
    var regions: seq<MemoryRegion>
    var vcpus: seq<VCpu>

    ghost predicate Valid()
      reads this, kvm, regions, vcpus
    {
      && RegionsOk()
      && (forall j :: 0 <= j < |vcpus| ==> vcpus[j].kvm == kvm && vcpus[j].Valid())
    }

    /** Region i owns buffer i of the kernel's memory and holds slot i; the next slot is the number of regions. */
    ghost predicate RegionsOk()
      reads this, kvm, regions
    {
      && |regions| == |kvm.memory|
      && Distinct(regions) && Distinct(kvm.memory)
      && (forall i :: 0 <= i < |regions| ==>
            regions[i].host == kvm.memory[i] && regions[i].size == kvm.memory[i].Length && regions[i].slot == Wrap32(i))
      && nextSlot == Wrap32(|regions|)
    }

    ghost function Views(): (v: seq<Region<array<byte>>>)
      reads this, regions
      ensures |v| == |regions| && forall i :: 0 <= i < |v| ==> v[i] == regions[i].View()
    {
      seq(|regions|, i requires 0 <= i < |regions| reads this, regions => regions[i].View())
    }

    ghost function Ram(): seq<seq<byte>>
      reads kvm, kvm.memory
    {
      Contents(kvm.memory)
    }

    constructor (os: Host, fd: int)
      ensures Valid() && fresh(kvm) && this.os == os && this.fd == fd
      ensures regions == [] && vcpus == [] && kvm.memory == []
    {
      this.os, this.fd := os, fd;
      kvm := new KvmVm();
      nextSlot, regions, vcpus := 0, [], [];
    }

    /** The vector grows: every element is move-constructed into new storage and the old one destroyed. */
    method Relocate()
      requires RegionsOk()
      modifies this`regions, regions, os
      ensures RegionsOk() && fresh(regions)
      ensures Views() == old(Views()) && os.maps == old(os.maps)
    {
      var from := regions;
      var moved: seq<MemoryRegion> := [];
      for i := 0 to |from|
        invariant regions == from && |moved| == i && fresh(moved) && Distinct(moved)
        invariant forall j :: 0 <= j < i ==> moved[j].View() == old(from[j].View())
        invariant forall j :: i <= j < |from| ==> from[j].View() == old(from[j].View())
        invariant os.maps == old(os.maps)
      {
        var r := new MemoryRegion.MoveFrom(from[i]);
        from[i].Destruct(os);
        moved := moved + [r];
      }
      forall j | 0 <= j < |moved| ensures moved[j].slot == old(from[j].slot) &&
          moved[j].size == old(from[j].size) && moved[j].host == old(from[j].host) {
        assert moved[j].View() == old(from[j].View());
      }
      regions := moved;
    }

    /** push_back of a region just created: it is moved into the vector and the temporary destroyed. */
    method Append(made: MemoryRegion) returns (region: MemoryRegion)
      requires RegionsOk() && made !in regions
      requires made.host != null && made.host !in kvm.memory && made.host.Length == made.size && made.slot == nextSlot
      modifies this`regions, this`nextSlot, kvm, os, made
      ensures RegionsOk() && fresh(region)
      ensures regions == old(regions) + [region] && region.View() == old(made.View())
      ensures Views() == old(Views()) + [old(made.View())]
      ensures kvm.memory == old(kvm.memory) + [old(made.host)] && os.maps == old(os.maps)
    {
      region := new MemoryRegion.MoveFrom(made);
      assert region.host == old(made.host) && region.size == old(made.size) && region.slot == old(made.slot) by {
        assert region.View() == old(made.View());
      }
      made.Destruct(os);
      Push(region);
    }

    method Push(region: MemoryRegion)
      requires RegionsOk() && region !in regions
      requires region.host != null && region.host !in kvm.memory && region.host.Length == region.size && region.slot == nextSlot
      modifies this`regions, this`nextSlot, kvm
      ensures RegionsOk() && regions == old(regions) + [region]
      ensures Views() == old(Views()) + [region.View()]
      ensures kvm.memory == old(kvm.memory) + [region.host]
    {
      ghost var views := Views();
      WrapNext32(|regions|);
      kvm.memory := kvm.memory + [region.host];
      regions := regions + [region];
      nextSlot := Wrap32(nextSlot + 1);
      assert Views() == views + [region.View()];
    }

    /**
     * A new region takes the next slot and zeroed memory; a refused one changes neither the
     * regions nor the slot counter. No mapping that was owned before is ever unmapped.
     */
    method AddMemoryRegion(gpa: u64, size: nat, mmapErrno: Option<int>, ioctlErrno: Option<int>, reallocate: bool)
      returns (region: MemoryRegion?, errno: int)
      requires Valid()
      modifies this`regions, this`nextSlot, kvm, os, regions
      ensures Valid()
      ensures region == null <==> mmapErrno.Some? || ioctlErrno.Some?
      ensures region == null ==>
        && errno == (if mmapErrno.Some? then mmapErrno.value else ioctlErrno.value)
        && regions == old(regions) && Views() == old(Views()) && nextSlot == old(nextSlot) && kvm.memory == old(kvm.memory)
      ensures mmapErrno.Some? ==> os.maps == old(os.maps)
      ensures mmapErrno.None? && ioctlErrno.Some? ==>
        exists h: array<byte> :: (fresh(h) && os.maps == Unmapping(h, size, Mapping(h, size, old(os.maps))))
      ensures region != null ==>
        && |regions| == |old(regions)| + 1 && region == regions[|regions| - 1]
        && region.host != null && fresh(region.host) && region.host[..] == Zeros(size)
        && Views() == old(Views()) + [Region(fd, old(nextSlot), gpa, size, Some(region.host))]
        && kvm.memory == old(kvm.memory) + [region.host]
        && os.maps == Registering(region.host, fd, old(nextSlot), Mapping(region.host, size, old(os.maps)))
    {
      var made;
      made, errno := MemoryRegion.Create(os, fd, nextSlot, gpa, size, mmapErrno, ioctlErrno);
      if made == null {
        return null, errno;
      }
      if reallocate {
        Relocate();
      }
      region := Append(made);
    }

    method AddVCpu(kernel: Kernel, id: u32, pageSize: nat, regs: Regs, sregs: Sregs, errno: Option<int>)
      returns (vcpu: VCpu?)
      requires Valid() && MMIO_END <= pageSize
      modifies this`vcpus
      ensures Valid()
      ensures vcpu == null <==> errno.Some?
      ensures vcpu == null ==> vcpus == old(vcpus)
      ensures vcpu != null ==>
        && fresh(vcpu) && fresh(vcpu.page) && vcpus == old(vcpus) + [vcpu] && vcpu.kernel == kernel && vcpu.id == id
        && vcpu.State() == Cpu(regs, sregs, Ram(), NoExit, Zeros(pageSize), 0)
    {
      if errno.Some? {
        return null;
      }
      vcpu := new VCpu(kernel, kvm, id, pageSize, regs, sregs);
      vcpus := vcpus + [vcpu];
    }

    method TakeSnapshot() returns (s: Snapshot)
      requires Valid() && |vcpus| > 0
      modifies vcpus[0]
      ensures Valid()
      ensures (vcpus[0].State(), s) == Take(vcpus[0].kernel, old(vcpus[0].State()))
    {
      var vcpu := vcpus[0];
      var regs := vcpu.GetRegs();
      var sregs := vcpu.GetSregs();
      var copies: seq<seq<byte>> := [];
      for i := 0 to |regions|
        invariant |copies| == i
        invariant forall j :: 0 <= j < i ==> copies[j] == kvm.memory[j][..]
      {
        if regions[i].host == null {
          copies := copies + [[]];
        } else {
          copies := copies + [regions[i].host[..regions[i].size]];
        }
      }
      assert copies == Contents(kvm.memory);
      s := Snapshot(if regs.Some? then regs.value else ZERO_REGS,
                    if sregs.Some? then sregs.value else ZERO_SREGS, copies);
    }

    method RestoreSnapshot(s: Snapshot)
      requires Valid() && |vcpus| > 0
      requires Copyable(s, Ram())
      modifies vcpus[0], kvm.memory
      ensures Valid()
      ensures vcpus[0].State() == Restore(vcpus[0].kernel, old(vcpus[0].State()), s)
    {
      var vcpu := vcpus[0];
      ghost var c := vcpu.State();
      var okRegs := vcpu.SetRegs(s.regs);
      var okSregs := vcpu.SetSregs(s.sregs);
      RestoreRam(s);
    }

    method RestoreRam(s: Snapshot)
      requires Valid() && Copyable(s, Ram())
      modifies kvm.memory
      ensures Valid()
      ensures Ram() == RestoredRam(s, old(Ram()))
    {
      ghost var ram := Ram();
      for i := 0 to |regions|
        invariant forall j :: 0 <= j < i ==> kvm.memory[j][..] == RestoredRegion(s, j, ram[j])
        invariant forall j :: i <= j < |regions| ==> kvm.memory[j][..] == ram[j]
      {
        var region := regions[i];
        if region.host == null || i >= |s.regions| || s.regions[i] == [] {
          continue;
        }
        assert |ram[i]| == region.size;
        CopyInto(region.host, 0, s.regions[i][..region.size]);
        assert Overlay(ram[i], 0, s.regions[i][..region.size]) == s.regions[i][..region.size];
      }
      assert Ram() == RestoredRam(s, ram);
    }
  }

  /** Slots are never shared while there are at most 2^32 regions. */
  lemma SlotsUnique(vm: VirtualMachine)
    requires vm.RegionsOk() && |vm.regions| <= TWO32
    ensures forall i, j :: 0 <= i < j < |vm.regions| ==> vm.regions[i].slot != vm.regions[j].slot
    ensures |vm.regions| < TWO32 ==> forall i :: 0 <= i < |vm.regions| ==> vm.regions[i].slot != vm.nextSlot
  {
    forall i | 0 <= i < |vm.regions| ensures vm.regions[i].slot == i {
      assert vm.regions[i].slot == Wrap32(i);
    }
  }
}
