/** IoPortHandler, MmioHandler and CpuidHandler: callback tables and counters updated in place. */
module Handlers {
  import opened Words
  import opened Memory
  import opened Kvm
  import opened VCpus
  import opened EventDispatchers
  import opened Devices

  /** Write a reply over the access in the run page. */
  method Answer(vcpu: VCpu, value: nat)
    requires vcpu.Valid()
    modifies vcpu.page
    ensures vcpu.Valid()
    ensures vcpu.State() == old(vcpu.State()).(page := Answered(vcpu.exit, old(vcpu.page[..]), value))
  {
    CopyInto(vcpu.page, AccessAt(vcpu.exit), LeBytes(value, AccessSize(vcpu.exit)));
  }

  class IoPortHandler<W> {
    const world: Cell<W>
    var inCallbacks: map<u16, InCallback<W>>
    var outCallbacks: map<u16, OutCallback<W>>
    var inCount: u64
    var outCount: u64

    ghost function Table(): Ports<W>
      reads this
    {
      Ports(inCallbacks, outCallbacks)
    }

    constructor (world: Cell<W>)
      ensures this.world == world && Table() == Ports(map[], map[]) && inCount == outCount == 0
    {
      this.world := world;
      inCallbacks, outCallbacks, inCount, outCount := map[], map[], 0, 0;
    }

    method RegisterInPort(port: u16, cb: InCallback<W>)
      modifies this`inCallbacks
      ensures Table() == old(Table()).(onIn := old(inCallbacks)[port := cb])
    {
      inCallbacks := inCallbacks[port := cb];
    }

    method RegisterOutPort(port: u16, cb: OutCallback<W>)
      modifies this`outCallbacks
      ensures Table() == old(Table()).(onOut := old(outCallbacks)[port := cb])
    {
      outCallbacks := outCallbacks[port := cb];
    }

    method HandleOut(x: Exit, value: u32)
      requires x.Io?
      modifies this`outCount, world
      ensures world.state == OutEffect(Table(), old(world.state), x, value)
      ensures outCount == Wrap64(old(outCount) + 1)
    {
      if x.port in outCallbacks {
        world.state := outCallbacks[x.port](world.state, OutContext(x.port, x.size, value, x.count));
      }
      outCount := Wrap64(outCount + 1);
    }

    method HandleIn(x: Exit) returns (result: u32)
      requires x.Io?
      modifies this`inCount, world
      ensures (world.state, result) == InReply(Table(), old(world.state), x)
      ensures inCount == Wrap64(old(inCount) + 1)
    {
      result := 0xFFFF_FFFF;
      if x.port in inCallbacks {
        var (w, v) := inCallbacks[x.port](world.state, InContext(x.port, x.size, x.count));
        world.state, result := w, v;
      }
      inCount := Wrap64(inCount + 1);
    }

    method Handle(vcpu: VCpu) returns (ok: bool)
      requires vcpu.Valid() && vcpu.exit.Io?
      modifies this`inCount, this`outCount, world, vcpu.page
      ensures ok && vcpu.Valid()
      ensures (world.state, vcpu.State()) ==
        var r := HandleIo(Table(), old(world.state), vcpu.exit, old(vcpu.page[..]));
        (r.0, old(vcpu.State()).(page := r.1))
      ensures inCount == if vcpu.exit.out then old(inCount) else Wrap64(old(inCount) + 1)
      ensures outCount == if vcpu.exit.out then Wrap64(old(outCount) + 1) else old(outCount)
    {
      var x := vcpu.exit;
      if x.out {
        HandleOut(x, Le32(AccessBytes(x, vcpu.page[..])));
      } else {
        var result := HandleIn(x);
        Answer(vcpu, result);
      }
      return true;
    }
  }

  class MmioHandler<W> {
    const world: Cell<W>
    var readCallbacks: map<u64, ReadCallback<W>>
    var writeCallbacks: map<u64, WriteCallback<W>>
    var readCount: u64
    var writeCount: u64

    ghost function Table(): MmioMap<W>
      reads this
    {
      MmioMap(readCallbacks, writeCallbacks)
    }

    constructor (world: Cell<W>)
      ensures this.world == world && Table() == MmioMap(map[], map[]) && readCount == writeCount == 0
    {
      this.world := world;
      readCallbacks, writeCallbacks, readCount, writeCount := map[], map[], 0, 0;
    }

    method RegisterRead(addr: u64, cb: ReadCallback<W>)
      modifies this`readCallbacks
      ensures Table() == old(Table()).(onRead := old(readCallbacks)[addr := cb])
    {
      readCallbacks := readCallbacks[addr := cb];
    }

    method RegisterWrite(addr: u64, cb: WriteCallback<W>)
      modifies this`writeCallbacks
      ensures Table() == old(Table()).(onWrite := old(writeCallbacks)[addr := cb])
    {
      writeCallbacks := writeCallbacks[addr := cb];
    }

    method HandleWrite(x: Exit, value: u64)
      requires x.Mmio?
      modifies this`writeCount, world
      ensures world.state == WriteEffect(Table(), old(world.state), x, value)
      ensures writeCount == Wrap64(old(writeCount) + 1)
    {
      if x.addr in writeCallbacks {
        world.state := writeCallbacks[x.addr](world.state, WriteContext(x.addr, Wrap8(x.len), value));
      }
      writeCount := Wrap64(writeCount + 1);
    }

    method HandleRead(x: Exit) returns (value: u64)
      requires x.Mmio?
      modifies this`readCount, world
      ensures (world.state, value) == ReadReply(Table(), old(world.state), x)
      ensures readCount == Wrap64(old(readCount) + 1)
    {
      value := 0xFFFF_FFFF_FFFF_FFFF;
      if x.addr in readCallbacks {
        var (w, v) := readCallbacks[x.addr](world.state, ReadContext(x.addr, Wrap8(x.len)));
        world.state, value := w, v;
      }
      readCount := Wrap64(readCount + 1);
    }

    /** The length is narrowed to 8 bits before it is checked; a refused access changes nothing. */
    method Handle(vcpu: VCpu) returns (ok: bool)
      requires vcpu.Valid() && vcpu.exit.Mmio?
      modifies this`readCount, this`writeCount, world, vcpu.page
      ensures vcpu.Valid()
      ensures ok <==> MmioAccepted(vcpu.exit)
      ensures (world.state, vcpu.State()) ==
        if !ok then (old(world.state), old(vcpu.State()))
        else
          var r := HandleMmio(Table(), old(world.state), vcpu.exit, old(vcpu.page[..]));
          (r.0, old(vcpu.State()).(page := r.1))
      ensures readCount == if ok && !vcpu.exit.write then Wrap64(old(readCount) + 1) else old(readCount)
      ensures writeCount == if ok && vcpu.exit.write then Wrap64(old(writeCount) + 1) else old(writeCount)
    {
      var x := vcpu.exit;
      var size := Wrap8(x.len);
      if size == 0 || size > 8 {
        return false;
      }
      if x.write {
        HandleWrite(x, Le64(AccessBytes(x, vcpu.page[..])));
      } else {
        var value := HandleRead(x);
        Answer(vcpu, value);
      }
      return true;
    }
  }

  class CpuidHandler<W> {
    const world: Cell<W>
    const host: (u32, u32) -> LeafResult
    var leafCallbacks: map<u32, LeafCallback<W>>
    var handledCount: u64

    ghost function Table(): Leaves<W>
      reads this
    {
      Leaves(leafCallbacks, host)
    }

    constructor (world: Cell<W>, host: (u32, u32) -> LeafResult)
      ensures this.world == world && Table() == Leaves(map[], host) && handledCount == 0
    {
      this.world, this.host, leafCallbacks, handledCount := world, host, map[], 0;
    }

    method RegisterLeaf(leaf: u32, cb: LeafCallback<W>)
      modifies this`leafCallbacks
      ensures Table() == old(Table()).(callbacks := old(leafCallbacks)[leaf := cb])
    {
      leafCallbacks := leafCallbacks[leaf := cb];
    }

    method Handle(vcpu: VCpu) returns (ok: bool)
      requires vcpu.Valid()
      modifies this`handledCount, world, vcpu
      ensures vcpu.Valid()
      ensures (vcpu.State(), world.state, ok) ==
        HandleCpuid(vcpu.kernel, Table(), old(world.state), old(vcpu.State()))
      ensures handledCount == if ok then Wrap64(old(handledCount) + 1) else old(handledCount)
    {
      var regs := vcpu.GetRegs();
      if regs.None? {
        return false;
      }
      var leaf, subleaf := Wrap32(regs.value.rax), Wrap32(regs.value.rcx);
      var result: LeafResult;
      if leaf in leafCallbacks {
        var (w, v) := leafCallbacks[leaf](world.state, leaf, subleaf);
        world.state, result := w, v;
      } else {
        result := host(leaf, subleaf);
      }
      ok := vcpu.SetRegs(regs.value.(rax := result.eax, rbx := result.ebx, rcx := result.ecx, rdx := result.edx));
      if ok {
        handledCount := Wrap64(handledCount + 1);
      }
    }
  }
}
