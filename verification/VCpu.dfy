/** The vCPU wrapper: each call is one kernel call of module Kvm on the state of this vCPU. */
module VCpus {
  import opened Words
  import opened Memory
  import opened Registers
  import opened Kvm

  /** The kernel's side of one VM: the host buffers registered as guest memory, slot by slot. */
  class KvmVm {
    var memory: seq<array<byte>>

    constructor ()
      ensures memory == []
    {
      memory := [];
    }
  }

  class VCpu {
    const kernel: Kernel
    const kvm: KvmVm
    const id: u32
    const page: array<byte>
    var regs: Regs
    var sregs: Sregs
    var exit: Exit
    var tick: nat

    ghost predicate Valid()
      reads this, kvm
    {
      && InPage(exit, page.Length)
      && page !in kvm.memory
      && Distinct(kvm.memory)
    }

    function State(): Cpu
      reads this, kvm, kvm.memory, page
    {
      Cpu(regs, sregs, Contents(kvm.memory), exit, page[..], tick)
    }

    constructor (kernel: Kernel, kvm: KvmVm, id: u32, pageSize: nat, regs: Regs, sregs: Sregs)
      requires Distinct(kvm.memory) && MMIO_END <= pageSize
      ensures Valid() && fresh(page)
      ensures this.kernel == kernel && this.kvm == kvm && this.id == id
      ensures State() == Cpu(regs, sregs, Contents(kvm.memory), NoExit, Zeros(pageSize), 0)
    {
      this.kernel, this.kvm, this.id := kernel, kvm, id;
      this.page := new byte[pageSize](_ => 0);
      this.regs, this.sregs, this.exit, this.tick := regs, sregs, NoExit, 0;
    }

    method GetRegs() returns (r: Option<Regs>)
      requires Valid()
      modifies this`tick
      ensures Valid()
      ensures (State(), r) == Kvm.GetRegs(kernel, old(State()))
    {
      r := if kernel.regsReadable(tick, regs) then Some(regs) else None;
      tick := tick + 1;
    }

    method SetRegs(regs: Regs) returns (ok: bool)
      requires Valid()
      modifies this`tick, this`regs
      ensures Valid()
      ensures (State(), ok) == Kvm.SetRegs(kernel, old(State()), regs)
    {
      ok := kernel.regsWritable(tick, regs);
      if ok {
        this.regs := regs;
      }
      tick := tick + 1;
    }

    method GetSregs() returns (r: Option<Sregs>)
      requires Valid()
      modifies this`tick
      ensures Valid()
      ensures (State(), r) == Kvm.GetSregs(kernel, old(State()))
    {
      r := if kernel.sregsReadable(tick, sregs) then Some(sregs) else None;
      tick := tick + 1;
    }

    method SetSregs(sregs: Sregs) returns (ok: bool)
      requires Valid()
      modifies this`tick, this`sregs
      ensures Valid()
      ensures (State(), ok) == Kvm.SetSregs(kernel, old(State()), sregs)
    {
      ok := kernel.sregsWritable(tick, sregs);
      if ok {
        this.sregs := sregs;
      }
      tick := tick + 1;
    }

    method Now() returns (t: int)
      requires Valid()
      modifies this`tick
      ensures Valid()
      ensures (State(), t) == Kvm.Now(kernel, old(State()))
    {
      t := kernel.clock(tick);
      tick := tick + 1;
    }

    /** The guest ran: its registers and memory are what the kernel says. */
    method Advance(e: Entry)
      requires Valid() && SameShape(e.ram, Contents(kvm.memory))
      modifies this`regs, this`sregs, this`tick, kvm.memory
      ensures Valid()
      ensures State() == old(State()).(regs := e.regs, sregs := e.sregs, ram := e.ram, tick := old(tick) + 1)
    {
      StoreAll(kvm.memory, e.ram);
      regs, sregs, tick := e.regs, e.sregs, tick + 1;
    }

    /** The kernel describes the exit in the run page. */
    method Report(x: Exit, data: seq<byte>)
      requires Valid() && InPage(x, page.Length) && AccessAt(x) + |data| <= page.Length
      modifies this`exit, page
      ensures Valid()
      ensures State() == old(State()).(exit := x, page := Overlay(old(page[..]), AccessAt(x), data))
    {
      CopyInto(page, AccessAt(x), data);
      exit := x;
    }

    method Run() returns (r: Option<Exit>)
      requires Valid()
      modifies this, page, kvm.memory
      ensures Valid()
      ensures (State(), r) == Kvm.Run(kernel, old(State()))
    {
      var before := Cpu(regs, sregs, Contents(kvm.memory), exit, page[..], tick);
      var e := Enter(kernel, before);
      Advance(e);
      match e.outcome {
        case Exited(x, data) =>
          Report(x, data);
          r := Some(x);
        case Failed(errno) =>
          if errno == EINTR {
            exit := Intr;
            r := Some(Intr);
          } else {
            r := None;
          }
      }
    }
  }
}
