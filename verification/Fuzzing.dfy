/** The snapshot/fuzz iteration of the demo program: what every iteration starts from, and that equal inputs give equal runs. */
module Fuzzing {
  import opened Words
  import opened Memory
  import opened Kvm
  import opened Loops
  import opened ExitLoop
  import opened Accounting
  import opened Repeatability
  import opened Dialogues
  import opened Reruns
  import opened EventBus
  import VM = VirtualMachines

  const FUZZ_INPUT: seq<byte> := [0x41, 0x42, 0x43]
  const FUZZ_AT: nat := 0x2000

  predicate Pokeable(ram: seq<seq<byte>>) {
    |ram| > 0 && FUZZ_AT < |ram[0]|
  }

  /** Memory with the input byte injected at guest-physical 0x2000. */
  function Poked(ram: seq<seq<byte>>, b: byte): seq<seq<byte>>
    requires Pokeable(ram)
  {
    ram[0 := Overlay(ram[0], FUZZ_AT, [b])]
  }

  /** What iteration i does before it runs the guest: restore (except the first time), then inject. */
  function Prepared<W>(rig: Rig<W>, s: VM.Snapshot, m: Machine<W>, i: nat): Machine<W>
    requires VM.Fits(s, m.cpu.ram) && Pokeable(m.cpu.ram)
  {
    var m1 := if i > 0 then Rewound(rig, m, s) else m;
    m1.(cpu := m1.cpu.(ram := Poked(m1.cpu.ram, FUZZ_INPUT[i % 3])))
  }

  predicate Fuzzable<W>(s: VM.Snapshot, m: Machine<W>) {
    Ok(m) && VM.Fits(s, m.cpu.ram) && Pokeable(m.cpu.ram)
  }

  function Preparing<W>(rig: Rig<W>, s: VM.Snapshot): Preparation<Machine<W>> {
    (m: Machine<W>, i: nat) => if Fuzzable(s, m) then Prepared(rig, s, m, i) else m
  }

  /** The inputs, cyclically. */
  function Input(i: nat): byte {
    if i % 3 == 0 then 0x41 else if i % 3 == 1 then 0x42 else 0x43
  }

  /** Exactly the snapshot, but for the byte at 0x2000 of region 0, which is the input. */
  predicate CleanStart(s: VM.Snapshot, c: Cpu, i: nat) {
    && c.regs == s.regs && c.sregs == s.sregs && SameShape(c.ram, s.regions)
    && forall r, a :: 0 <= r < |c.ram| && 0 <= a < |c.ram[r]| ==>
         c.ram[r][a] == if r == 0 && a == 0x2000 then Input(i) else s.regions[r][a]
  }

  /** The kernel accepts the snapshot's registers, its memory is that of the machine, no access is pending. */
  ghost predicate Armed<W>(rig: Rig<W>, s: VM.Snapshot, m: Machine<W>) {
    && Fuzzable(s, m) && SameShape(m.cpu.ram, s.regions) && Settled(m.cpu)
    && (forall t: nat :: rig.kernel.regsWritable(t, s.regs))
    && (forall t: nat :: rig.kernel.sregsWritable(t, s.sregs))
  }

  predicate AtSnapshot(s: VM.Snapshot, c: Cpu) {
    c.regs == s.regs && c.sregs == s.sregs && c.ram == s.regions
  }

  /** Nothing but the snapshot is left by a restore that the kernel accepts. */
  lemma PreparedClean<W>(rig: Rig<W>, s: VM.Snapshot, m: Machine<W>, i: nat)
    requires Armed(rig, s, m) && (i == 0 ==> AtSnapshot(s, m.cpu))
    ensures var start := Prepared(rig, s, m, i);
      CleanStart(s, start.cpu, i) && Settled(start.cpu) && SameBody(start, m) && Armed(rig, s, start)
  {
    if i > 0 {
      VM.RestoredFitting(s, m.cpu.ram);
      assert Rewound(rig, m, s).cpu.ram == s.regions;
    }
  }

  /** A run that stops without error leaves the machine armed for the next iteration. */
  lemma StoppedArmed<W(!new)>(rig: Rig<W>, s: VM.Snapshot, m: Machine<W>, n: nat)
    requires Armed(rig, s, m) && StopsAt(Stepping(rig), m, n) && RunFor(Stepping(rig), m, n).1 != Error
    ensures Armed(rig, s, RunFor(Stepping(rig), m, n).0) && SameBody(RunFor(Stepping(rig), m, n).0, m)
  {
    RunStopsSettled(rig, m, n);
  }

  ghost function ArmedFor<W>(rig: Rig<W>, s: VM.Snapshot, m0: Machine<W>): (Machine<W>, nat) -> bool {
    (m: Machine<W>, i: nat) => Armed(rig, s, m) && SameBody(m, m0) && (i == 0 ==> AtSnapshot(s, m.cpu))
  }

  ghost function CleanFor<W>(rig: Rig<W>, s: VM.Snapshot, m0: Machine<W>): (Machine<W>, nat) -> bool {
    (m: Machine<W>, i: nat) => Armed(rig, s, m) && SameBody(m, m0) && CleanStart(s, m.cpu, i)
  }

  lemma FuzzIterates<W(!new)>(rig: Rig<W>, s: VM.Snapshot, m0: Machine<W>)
    ensures Iterates(Preparing(rig, s), Stepping(rig), ArmedFor(rig, s, m0), CleanFor(rig, s, m0))
  {
    forall m: Machine<W>, i: nat {:trigger Preparing(rig, s)(m, i)} | ArmedFor(rig, s, m0)(m, i)
      ensures CleanFor(rig, s, m0)(Preparing(rig, s)(m, i), i)
    {
      PreparedClean(rig, s, m, i);
      assert SameBody(m, m0) && Preparing(rig, s)(m, i) == Prepared(rig, s, m, i);
      assert SameBody(Preparing(rig, s)(m, i), m0);
    }
    forall m: Machine<W>, i: nat, n: nat {:trigger CleanFor(rig, s, m0)(m, i), StopsAt(Stepping(rig), m, n)} |
        CleanFor(rig, s, m0)(m, i) && StopsAt(Stepping(rig), m, n) && RunFor(Stepping(rig), m, n).1 != Error
      ensures ArmedFor(rig, s, m0)(RunFor(Stepping(rig), m, n).0, i + 1)
    {
      StoppedArmed(rig, s, m, n);
      assert SameBody(RunFor(Stepping(rig), m, n).0, m0);
    }
  }

  /** The starting states of the fuzz iterations. */
  function FuzzStarts<W>(rig: Rig<W>, s: VM.Snapshot, m: Machine<W>, lens: seq<nat>): seq<Machine<W>> {
    Starts(Preparing(rig, s), Stepping(rig), m, 0, lens)
  }

  predicate FuzzStops<W>(rig: Rig<W>, s: VM.Snapshot, m: Machine<W>, lens: seq<nat>) {
    AllStop(Preparing(rig, s), Stepping(rig), m, 0, lens)
  }

  /**
   * For any number of iterations, run j starts from exactly the snapshot's registers and memory
   * with only byte 0x2000 replaced by the j-th input (cyclically): nothing that earlier runs
   * wrote survives, and no access of an earlier run is still pending.
   */
  lemma EveryStartClean<W(!new)>(rig: Rig<W>, s: VM.Snapshot, m: Machine<W>, lens: seq<nat>, j: nat)
    requires Armed(rig, s, m) && AtSnapshot(s, m.cpu) && FuzzStops(rig, s, m, lens)
    requires j < |FuzzStarts(rig, s, m, lens)|
    ensures |FuzzStarts(rig, s, m, lens)| <= |lens|
    ensures var start := FuzzStarts(rig, s, m, lens)[j];
      && CleanStart(s, start.cpu, j) && Settled(start.cpu) && SameBody(start, m)
      && StopsAt(Stepping(rig), start, lens[j])
  {
    FuzzIterates(rig, s, m);
    assert SameBody(m, m);
    assert ArmedFor(rig, s, m)(m, 0);
    EveryStart(Preparing(rig, s), Stepping(rig), ArmedFor(rig, s, m), CleanFor(rig, s, m), m, 0, lens, j);
    assert CleanFor(rig, s, m)(FuzzStarts(rig, s, m, lens)[j], j);
  }

  lemma CleanAlike(s: VM.Snapshot, a: Cpu, b: Cpu, j: nat, k: nat)
    requires CleanStart(s, a, j) && CleanStart(s, b, k) && j % 3 == k % 3
    requires CpuOk(a) && CpuOk(b) && Settled(a) && Settled(b) && |a.page| == |b.page|
    ensures Alike(a, b)
  {
    forall r | 0 <= r < |a.ram| ensures a.ram[r] == b.ram[r] {
      assert forall i :: 0 <= i < |a.ram[r]| ==> a.ram[r][i] == b.ram[r][i];
    }
    assert a.ram == b.ram;
  }

  /**
   * Iterations with the same input behave the same: if run j is blind to shared callback state,
   * run k with k congruent to j modulo 3 takes the same number of steps to the same result,
   * advances every counter by the same amount and publishes the same events, timestamps aside.
   */
  lemma SameInputSameRun<W(!new)>(rig: Rig<W>, s: VM.Snapshot, m: Machine<W>, lens: seq<nat>, j: nat, k: nat, c: Counter)
    requires Deterministic(rig.kernel) && BlindCpuid(rig)
    requires Armed(rig, s, m) && AtSnapshot(s, m.cpu) && FuzzStops(rig, s, m, lens)
    requires j < |FuzzStarts(rig, s, m, lens)| <= |lens| && k < |FuzzStarts(rig, s, m, lens)| && j % 3 == k % 3
    requires BlindRun(rig, FuzzStarts(rig, s, m, lens)[j], lens[j])
    ensures var a, b := FuzzStarts(rig, s, m, lens)[j], FuzzStarts(rig, s, m, lens)[k];
      var ra, rb := RunFor(Stepping(rig), a, lens[j]), RunFor(Stepping(rig), b, lens[k]);
      && lens[j] == lens[k] && ra.1 == rb.1
      && Count(rig, a, lens[j], c) == Count(rig, b, lens[k], c)
      && SameOutcome(a, ra.0, b, rb.0, ra.1)
  {
    EveryStartClean(rig, s, m, lens, j);
    EveryStartClean(rig, s, m, lens, k);
    var a, b := FuzzStarts(rig, s, m, lens)[j], FuzzStarts(rig, s, m, lens)[k];
    CleanAlike(s, a.cpu, b.cpu, j, k);
    RunsAlike(rig, a, b, lens[j], c);
    StopUnique(Stepping(rig), b, lens[j], lens[k]);
  }

  /** The accesses of the iterations before iteration j. */
  function EarlierAccesses<W>(
      kernel: Kernel, id: u32, t: Tables<W>, s: VM.Snapshot, m: Machine<W>, lens: seq<nat>, j: nat): seq<Access> {
    EarlierTrail(Preparing(RigOf(kernel, id, t), s), Stepping(RigOf(kernel, id, t)), m, 0, lens, j, Made(kernel, t))
  }

  /** What the callbacks remember when iteration j starts. */
  function WorldAtStart<W>(
      kernel: Kernel, id: u32, t: Tables<W>, s: VM.Snapshot, m: Machine<W>, lens: seq<nat>, j: nat): W {
    WorldAfter(React(t), m.world, EarlierAccesses(kernel, id, t, s, m, lens, j))
  }

  lemma PreparingKeepsWorld<W(!new)>(kernel: Kernel, id: u32, t: Tables<W>, s: VM.Snapshot)
    ensures KeepsWorld(Talk(kernel, id, t), Preparing(RigOf(kernel, id, t), s), Quiet())
  {
  }

  /** The callbacks' state is what the earlier iterations' accesses made of it; restores do not touch it. */
  lemma StartWorld<W(!new)>(kernel: Kernel, id: u32, t: Tables<W>, s: VM.Snapshot, m: Machine<W>, lens: seq<nat>, j: nat)
    requires Ok(m) && Inert(m.bus.subs) && j < |FuzzStarts(RigOf(kernel, id, t), s, m, lens)|
    ensures var start := FuzzStarts(RigOf(kernel, id, t), s, m, lens)[j];
      Inert(start.bus.subs) && start.world == WorldAtStart(kernel, id, t, s, m, lens, j)
  {
    StepsAnswer(kernel, id, t);
    PreparingKeepsWorld(kernel, id, t, s);
    StartsAnswer(Talk(kernel, id, t), Preparing(RigOf(kernel, id, t), s), m, 0, lens, j, Quiet());
  }

  /**
   * Exactly when they do, for callbacks of any kind: two iterations with the same input are the
   * same run if, and (when CPUID answers show in the events) only if, the callbacks answer the
   * accesses of the one alike in the states that the iterations before each have left them in.
   */
  lemma SameInputExactly<W(!new)>(
      kernel: Kernel, id: u32, t: Tables<W>, s: VM.Snapshot, m: Machine<W>, lens: seq<nat>, j: nat, k: nat)
    requires Deterministic(kernel) && Inert(m.bus.subs)
    requires var rig := RigOf(kernel, id, t);
      && Armed(rig, s, m) && AtSnapshot(s, m.cpu) && FuzzStops(rig, s, m, lens)
      && j < |FuzzStarts(rig, s, m, lens)| && k < |FuzzStarts(rig, s, m, lens)| <= |lens| && j % 3 == k % 3
    ensures var rig := RigOf(kernel, id, t);
      var a, b := FuzzStarts(rig, s, m, lens)[j], FuzzStarts(rig, s, m, lens)[k];
      var agree := RepliesAgree(t, WorldAtStart(kernel, id, t, s, m, lens, j), WorldAtStart(kernel, id, t, s, m, lens, k),
                                Accesses(kernel, id, t, a, lens[j]));
      && (agree ==> SameRun(rig, a, b, lens[j]) && lens[j] == lens[k])
      && (Telling(kernel, t) && SameRun(rig, a, b, lens[j]) ==> agree)
  {
    var rig := RigOf(kernel, id, t);
    EveryStartClean(rig, s, m, lens, j);
    EveryStartClean(rig, s, m, lens, k);
    StartWorld(kernel, id, t, s, m, lens, j);
    StartWorld(kernel, id, t, s, m, lens, k);
    var a, b := FuzzStarts(rig, s, m, lens)[j], FuzzStarts(rig, s, m, lens)[k];
    CleanAlike(s, a.cpu, b.cpu, j, k);
    SameRunExactly(kernel, id, t, a, b, lens[j], Exits);
    if SameRun(rig, a, b, lens[j]) {
      StopUnique(Stepping(rig), b, lens[j], lens[k]);
    }
  }
}
