/** The demo program: its fuzz loop over the heap objects. */
module Demo {
  import opened Words
  import opened Memory
  import opened VirtualMachines
  import opened Loops
  import opened ExitLoop
  import opened InstructionTrappers
  import opened Fuzzing

  ghost predicate Wired<W(!new)>(vm: VirtualMachine, trapper: InstructionTrapper<W>)
    reads vm, vm.kvm, vm.regions, vm.vcpus, trapper, trapper.vcpu, trapper.vcpu.kvm
  {
    vm.Valid() && trapper.Valid() && |vm.vcpus| > 0 && vm.vcpus[0] == trapper.vcpu
  }

  /** Inject the input byte through the host mapping of region 0. */
  method Poke<W(!new)>(vm: VirtualMachine, trapper: InstructionTrapper<W>, b: byte)
    requires Wired(vm, trapper) && Pokeable(vm.Ram())
    modifies vm.kvm.memory
    ensures Wired(vm, trapper)
    ensures trapper.State() == old(trapper.State()).(cpu := old(trapper.State()).cpu.(ram := Poked(old(vm.Ram()), b)))
  {
    assert |vm.Ram()[0]| == vm.kvm.memory[0].Length;
    CopyInto(vm.regions[0].host, FUZZ_AT, [b]);
    assert trapper.State().cpu.ram == Poked(old(vm.Ram()), b);
  }

  method Rewind<W(!new)>(vm: VirtualMachine, trapper: InstructionTrapper<W>, s: Snapshot)
    requires Wired(vm, trapper) && Fuzzable(s, trapper.State())
    modifies trapper.vcpu, vm.kvm.memory
    ensures Wired(vm, trapper) && trapper.Wiring() == old(trapper.Wiring())
    ensures trapper.State() == Repeatability.Rewound(trapper.Wiring(), old(trapper.State()), s)
  {
    vm.RestoreSnapshot(s);
  }

  /** Everything an iteration does before it runs the guest. */
  method Prepare<W(!new)>(vm: VirtualMachine, trapper: InstructionTrapper<W>, s: Snapshot, i: nat)
    requires Wired(vm, trapper) && Fuzzable(s, trapper.State())
    modifies trapper.vcpu, vm.kvm.memory
    ensures Wired(vm, trapper) && trapper.Wiring() == old(trapper.Wiring())
    ensures trapper.State() == Prepared(trapper.Wiring(), s, old(trapper.State()), i)
  {
    if i > 0 {
      Rewind(vm, trapper, s);
    }
    Poke(vm, trapper, FUZZ_INPUT[i % 3]);
  }

  /** One iteration: prepare, then runLoop without a limit, which stops at step n. */
  method Iterate<W(!new)>(vm: VirtualMachine, trapper: InstructionTrapper<W>, s: Snapshot, i: nat, ghost n: nat)
    returns (r: RunResult)
    requires Wired(vm, trapper) && Fuzzable(s, trapper.State())
    requires StopsAt(Stepping(trapper.Wiring()), Preparing(trapper.Wiring(), s)(trapper.State(), i), n)
    modifies trapper`exitCount, trapper.vcpu, trapper.vcpu.page, vm.kvm.memory,
      trapper.cpuid, trapper.io, trapper.mmio, trapper.dispatch, trapper.world
    ensures Wired(vm, trapper) && trapper.Wiring() == old(trapper.Wiring()) && Fuzzable(s, trapper.State())
    ensures var run := RunFor(Stepping(trapper.Wiring()), Preparing(trapper.Wiring(), s)(old(trapper.State()), i), n);
      trapper.State() == run.0 && r == run.1
  {
    Prepare(vm, trapper, s, i);
    SteppingImplements(trapper.Wiring());
    RunFuzzable(trapper.Wiring(), s, trapper.State(), n);
    r := RunPrepared(vm, trapper, n, Stepping(trapper.Wiring()));
  }

  /** A run keeps the page and the shape of memory. */
  lemma RunFuzzable<W>(rig: Rig<W>, s: Snapshot, m: Machine<W>, n: nat)
    requires Fuzzable(s, m)
    ensures Fuzzable(s, RunFor(Stepping(rig), m, n).0)
  {
    RunSteady(rig, m, n);
  }

  method RunPrepared<W(!new)>(vm: VirtualMachine, trapper: InstructionTrapper<W>, ghost n: nat,
                              ghost step: Stepper<Machine<W>>) returns (r: RunResult)
    requires Wired(vm, trapper)
    requires Implements(step, trapper.Wiring()) && StopsAt(step, trapper.State(), n)
    modifies trapper`exitCount, trapper.vcpu, trapper.vcpu.page, vm.kvm.memory,
      trapper.cpuid, trapper.io, trapper.mmio, trapper.dispatch, trapper.world
    ensures Wired(vm, trapper) && trapper.Wiring() == old(trapper.Wiring())
    ensures var run := RunFor(step, old(trapper.State()), n); trapper.State() == run.0 && r == run.1
  {
    r := trapper.Loop(0, n, step);
  }

  /**
   * The fuzz loop: the machine ends as the iteration specification says, and the loop gives up
   * exactly at the first run that ends in an error. The guest is one whose runs stop, run j at
   * its step lens[j].
   */
  method FuzzLoop<W(!new)>(vm: VirtualMachine, trapper: InstructionTrapper<W>, s: Snapshot, iterations: nat, ghost lens: seq<nat>)
    returns (completed: bool)
    requires Wired(vm, trapper) && Fuzzable(s, trapper.State()) && |lens| == iterations
    requires FuzzStops(trapper.Wiring(), s, trapper.State(), lens)
    modifies trapper`exitCount, trapper.vcpu, trapper.vcpu.page, vm.kvm.memory,
      trapper.cpuid, trapper.io, trapper.mmio, trapper.dispatch, trapper.world
    ensures Wired(vm, trapper) && trapper.Wiring() == old(trapper.Wiring())
    ensures trapper.State() == Finish(Preparing(trapper.Wiring(), s), Stepping(trapper.Wiring()), old(trapper.State()), 0, lens)
    ensures completed == Completes(Preparing(trapper.Wiring(), s), Stepping(trapper.Wiring()), old(trapper.State()), 0, lens)
  {
    ghost var prepare, step := Preparing(trapper.Wiring(), s), Stepping(trapper.Wiring());
    ghost var end := Finish(prepare, step, trapper.State(), 0, lens);
    ghost var all := Completes(prepare, step, trapper.State(), 0, lens);
    ghost var left := lens;
    for i := 0 to iterations
      invariant |left| == iterations - i
      invariant Wired(vm, trapper) && trapper.Wiring() == old(trapper.Wiring()) && Fuzzable(s, trapper.State())
      invariant prepare == Preparing(trapper.Wiring(), s) && step == Stepping(trapper.Wiring())
      invariant AllStop(prepare, step, trapper.State(), i, left)
      invariant end == Finish(prepare, step, trapper.State(), i, left)
      invariant all == Completes(prepare, step, trapper.State(), i, left)
    {
      var r := Iterate(vm, trapper, s, i, left[0]);
      if r == Error {
        return false;
      }
      left := left[1..];
    }
    return true;
  }
}
