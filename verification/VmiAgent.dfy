/** VmiAgent: the agent of module VmiLog over a VirtualMachine, with its log and switches updated in place. */
module VmiAgents {
  import opened Words
  import opened Memory
  import opened Registers
  import opened Kvm
  import opened VirtualMachines
  import opened Events
  import opened EventDispatchers
  import opened Text
  import opened Introspection
  import opened GuestPhysical
  import opened EventLog
  import opened VmiLog

  type Callback<!W> = (W, IntrospectionEvent) -> W

  /** The callbacks run one after the other, in the order of registration. */
  function Notify<W>(callbacks: seq<Callback<W>>, w: W, ie: IntrospectionEvent): W {
    if callbacks == [] then w else Notify(callbacks[1..], callbacks[0](w, ie), ie)
  }

  /** Callbacks are called in the order they were registered: a later one finds what the earlier ones did. */
  lemma {:induction false} NotifiedInOrder<W>(callbacks: seq<Callback<W>>, last: Callback<W>, w: W, ie: IntrospectionEvent)
    ensures Notify(callbacks + [last], w, ie) == last(Notify(callbacks, w, ie), ie)
    decreases |callbacks|
  {
    if callbacks == [] {
      assert (callbacks + [last])[1..] == [];
    } else {
      assert (callbacks + [last])[1..] == callbacks[1..] + [last];
      NotifiedInOrder(callbacks[1..], last, callbacks[0](w, ie), ie);
    }
  }

  // ---------------------------------------------------------------------------------------------
  // Reading the machine.

  /** What reading the registers of a vCPU gives at a tick. */
  function RegsView(k: Kernel, tick: nat, regs: Regs, sregs: Sregs): VcpuView {
    VcpuView(if k.regsReadable(tick, regs) then Some(regs) else None,
             if k.sregsReadable(tick + 1, sregs) then Some(sregs) else None)
  }

  /** The VM can be read: region ends fit 64 bits, as KVM demands when it registers them. */
  ghost predicate Observable(vm: VirtualMachine)
    reads vm, vm.kvm, vm.regions, vm.vcpus
  {
    vm.Valid() && forall i :: 0 <= i < |vm.regions| ==> vm.regions[i].gpa + vm.regions[i].size < TWO64
  }

  ghost function Banks(vm: VirtualMachine): (b: seq<Bank>)
    requires vm.RegionsOk()
    reads vm, vm.kvm, vm.regions, vm.kvm.memory
    ensures |b| == |vm.regions|
    ensures forall i :: 0 <= i < |b| ==> b[i] == Bank(vm.regions[i].gpa, vm.kvm.memory[i][..])
  {
    seq(|vm.regions|, i requires 0 <= i < |vm.regions| && |vm.regions| == |vm.kvm.memory|
      reads vm, vm.kvm, vm.regions, vm.kvm.memory => Bank(vm.regions[i].gpa, vm.kvm.memory[i][..]))
  }

  ghost function VcpuViews(vm: VirtualMachine): (v: seq<VcpuView>)
    reads vm, vm.vcpus
    ensures |v| == |vm.vcpus|
    ensures forall j :: 0 <= j < |v| ==>
      v[j] == RegsView(vm.vcpus[j].kernel, vm.vcpus[j].tick, vm.vcpus[j].regs, vm.vcpus[j].sregs)
  {
    seq(|vm.vcpus|, j requires 0 <= j < |vm.vcpus| reads vm, vm.vcpus =>
      RegsView(vm.vcpus[j].kernel, vm.vcpus[j].tick, vm.vcpus[j].regs, vm.vcpus[j].sregs))
  }

  /** The machine as the agent finds it when it handles an event of vCPU `index`. */
  ghost function View(vm: VirtualMachine, index: nat): VmView
    requires vm.RegionsOk()
    reads vm, vm.kvm, vm.regions, vm.kvm.memory, vm.vcpus
  {
    VmView(VcpuViews(vm), Banks(vm), if index < |vm.vcpus| then vm.vcpus[index].kernel.clock(vm.vcpus[index].tick + 2) else 0)
  }

  /** readGuestPhysMemory; excluded are exactly the ranges for which it would read outside guest memory (ReadableExactly). */
  method ReadGuestPhysMemory(vm: VirtualMachine, addr: u64, size: nat) returns (r: seq<byte>)
    requires Observable(vm) && Readable(Banks(vm), addr, size)
    ensures r == ReadPhys(Banks(vm), addr, size)
  {
    ghost var banks := Banks(vm);
    assert banks[0..] == banks;
    for i := 0 to |vm.regions|
      invariant ReadPhys(banks, addr, size) == ReadPhys(banks[i..], addr, size)
    {
      var region := vm.regions[i];
      assert banks[i] == Bank(region.gpa, region.host[..]);
      TestIsRight(banks, i, addr, size);
      ReadStep(banks, i, addr, size);
      if InRange(region.gpa, region.size, addr, size) {
        return region.host[addr - region.gpa..addr - region.gpa + size];
      }
    }
    return [];
  }

  /** snapshotRegisters. */
  method SnapshotRegisters(vm: VirtualMachine, index: nat) returns (s: Option<GuestSnapshot>)
    requires Observable(vm)
    modifies if index < |vm.vcpus| then {vm.vcpus[index]} else {}
    ensures Observable(vm) && s == Capture(old(View(vm, index)), index)
  {
    if index >= |vm.vcpus| {
      return None;
    }
    var vcpu := vm.vcpus[index];
    assert vcpu.Valid();
    ghost var c := vcpu.State();
    var regs := vcpu.GetRegs();
    var sregs := vcpu.GetSregs();
    if regs.None? || sregs.None? {
      return None;
    }
    var now := vcpu.Now();
    s := Some(SnapshotOf(regs.value, sregs.value, now));
  }

  // ---------------------------------------------------------------------------------------------
  // The agent.

  const NO_VM := VmView([], [], 0)

  class VmiAgent<W> {
    const vm: VirtualMachine?
    const world: Cell<W>
    var callbacks: seq<Callback<W>>
    var eventLog: seq<IntrospectionEvent>
    var memDumpEnabled: bool
    var memDumpAddr: u64
    var memDumpSize: nat
    ghost var notified: seq<(nat, IntrospectionEvent)>

    ghost function State(): Agent
      reads this
    {
      Agent(eventLog, |callbacks|, notified, memDumpEnabled, memDumpAddr, memDumpSize)
    }

    constructor (vm: VirtualMachine?, world: Cell<W>)
      ensures this.vm == vm && this.world == world && callbacks == [] && State() == NEW_AGENT
    {
      this.vm, this.world := vm, world;
      callbacks, eventLog, notified := [], [], [];
      memDumpEnabled, memDumpAddr, memDumpSize := false, 0, 0;
    }

    method OnEvent(cb: Callback<W>)
      modifies this`callbacks
      ensures callbacks == old(callbacks) + [cb]
      ensures State() == Configure(old(State()), Use<int>.OnEvent)
    {
      callbacks := callbacks + [cb];
    }

    method EnableMemoryDump(addr: u64, size: nat)
      modifies this`memDumpEnabled, this`memDumpAddr, this`memDumpSize
      ensures State() == Configure(old(State()), Use<int>.EnableDump(addr, size))
    {
      memDumpEnabled, memDumpAddr, memDumpSize := true, addr, size;
    }

    method DisableMemoryDump()
      modifies this`memDumpEnabled
      ensures State() == Configure(old(State()), Use<int>.DisableDump)
    {
      memDumpEnabled := false;
    }

    /** The callback loop. */
    method CallBack(ie: IntrospectionEvent)
      modifies this`notified, world
      ensures world.state == Notify(callbacks, old(world.state), ie)
      ensures State() == old(State()).(notified := old(notified) + Notifications(|callbacks|, ie))
    {
      for i := 0 to |callbacks|
        invariant Notify(callbacks, old(world.state), ie) == Notify(callbacks[i..], world.state, ie)
        invariant notified == old(notified) + Notifications(i, ie)
      {
        assert callbacks[i..][0] == callbacks[i] && callbacks[i..][1..] == callbacks[i + 1..];
        world.state := callbacks[i](world.state, ie);
        notified := notified + [(i, ie)];
      }
    }

    /** Enrich one event from the machine as it is now. */
    method Prepare(e: HvEvent, ghost v: VmView) returns (ie: IntrospectionEvent)
      requires vm != null ==> Observable(vm) && v == View(vm, e.vcpuId)
      requires vm == null ==> v == NO_VM
      requires vm != null && memDumpEnabled ==> Readable(Banks(vm), memDumpAddr, memDumpSize)
      modifies if vm != null && e.vcpuId < |vm.vcpus| then {vm.vcpus[e.vcpuId]} else {}
      ensures vm != null ==> Observable(vm)
      ensures ie == Enrich(State(), v, e)
    {
      var snapshot: GuestSnapshot, memDump: Option<seq<byte>> := NO_SNAPSHOT, None;
      if vm != null {
        ghost var banks := Banks(vm);
        var captured := SnapshotRegisters(vm, e.vcpuId);
        if captured.Some? {
          snapshot := captured.value;
        }
        if memDumpEnabled {
          var dump := ReadGuestPhysMemory(vm, memDumpAddr, memDumpSize);
          assert banks == Banks(vm);
          if dump != [] {
            memDump := Some(dump);
          }
        }
      }
      ie := IntrospectionEvent(e, snapshot, memDump, Summary(e, snapshot));
    }

    /** handleHvEvent: one entry in the log, one call of every callback. */
    method HandleHvEvent(e: HvEvent)
      requires vm != null ==> Observable(vm)
      requires vm != null && memDumpEnabled ==> Readable(Banks(vm), memDumpAddr, memDumpSize)
      modifies this`eventLog, this`notified, world, if vm != null && e.vcpuId < |vm.vcpus| then {vm.vcpus[e.vcpuId]} else {}
      ensures vm != null ==> Observable(vm)
      ensures State() == Handle(old(State()), if vm == null then NO_VM else old(View(vm, e.vcpuId)), e)
      ensures world.state == Notify(callbacks, old(world.state), eventLog[|old(eventLog)|])
    {
      ghost var v := if vm == null then NO_VM else View(vm, e.vcpuId);
      var ie := Prepare(e, v);
      Record(ie);
    }

    /** Append to the log, then call back. */
    method Record(ie: IntrospectionEvent)
      modifies this`eventLog, this`notified, world
      ensures State() == Logged(old(State()), ie)
      ensures world.state == Notify(callbacks, old(world.state), ie)
    {
      eventLog := eventLog + [ie];
      CallBack(ie);
    }

    /** One piece of text to the stream; rest is what is still to be written. */
    static method Put(out: string, piece: string, ghost rest: string) returns (out': string)
      ensures out' == out + piece && out' + rest == out + (piece + rest)
    {
      out' := out + piece;
    }

    static method PutEntry(out: string, e: IntrospectionEvent, last: bool, ghost rest: string) returns (out': string)
      ensures out' + rest == out + EntryThen(e, last, rest)
    {
      ghost var r5 := "\n  }" + ((if last then "" else ",") + ("\n" + rest));
      out' := Put(out, "  {\n", TimeThen(e, r5));
      out' := PutNumber(out', "timestamp", Millis(e.snapshot.timestamp), VcpuThen(e, r5));
      out' := PutNumber(out', "vcpu_id", e.base.vcpuId, RipThen(e, r5));
      out' := PutString(out', "rip", "0x" + Hex(e.snapshot.rip), ",\n" + SummaryThen(e, r5));
      out' := Put(out', ",\n", SummaryThen(e, r5));
      out' := PutString(out', "summary", e.summary, DumpThen(e, r5));
      if e.memDump.Some? {
        ghost var r6 := Key("mem_dump") + ("\"" + (HexBytes(e.memDump.value) + ("\"" + r5)));
        out' := Put(out', ",\n", r6);
        out' := PutString(out', "mem_dump", HexBytes(e.memDump.value), r5);
      }
      out' := Put(out', "\n  }", (if last then "" else ",") + ("\n" + rest));
      out' := Put(out', if last then "" else ",", "\n" + rest);
      out' := Put(out', "\n", rest);
    }

    static method PutNumber(out: string, name: string, n: int, ghost rest: string) returns (out': string)
      ensures out' + rest == out + (Key(name) + (Signed(n) + (",\n" + rest)))
    {
      out' := Put(out, Key(name), Signed(n) + (",\n" + rest));
      out' := Put(out', Signed(n), ",\n" + rest);
      out' := Put(out', ",\n", rest);
    }

    static method PutString(out: string, name: string, value: string, ghost rest: string) returns (out': string)
      ensures out' + rest == out + (Key(name) + ("\"" + (value + ("\"" + rest))))
    {
      out' := Put(out, Key(name), "\"" + (value + ("\"" + rest)));
      out' := Put(out', "\"", value + ("\"" + rest));
      out' := Put(out', value, "\"" + rest);
      out' := Put(out', "\"", rest);
    }

    static lemma EntriesStep(log: seq<IntrospectionEvent>, i: nat, rest: string)
      requires i < |log|
      ensures EntriesThen(log[i..], rest) == EntryThen(log[i], i + 1 == |log|, EntriesThen(log[i + 1..], rest))
    {
      assert log[i..][0] == log[i] && log[i..][1..] == log[i + 1..];
    }

    static method PutEntries(out: string, log: seq<IntrospectionEvent>, ghost rest: string) returns (out': string)
      ensures out' + rest == out + EntriesThen(log, rest)
    {
      out' := out;
      for i := 0 to |log|
        invariant out' + EntriesThen(log[i..], rest) == out + EntriesThen(log, rest)
      {
        EntriesStep(log, i, rest);
        out' := PutEntry(out', log[i], i + 1 == |log|, EntriesThen(log[i + 1..], rest));
      }
      assert EntriesThen(log[|log|..], rest) == rest;
    }

    /** dumpEventLog: what the file holds afterwards, if it could be opened. */
    method DumpEventLog(writable: bool) returns (file: Option<string>)
      ensures file == if writable then Some(LogText(eventLog)) else None
    {
      if !writable {
        return None;
      }
      var out := PutEntries("[\n", eventLog, "]\n");
      file := Some(out + "]\n");
    }
  }
}
