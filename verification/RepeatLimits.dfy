/**
 * Which callbacks make every guest repeatable: exactly those that, asked the same questions a
 * second time, give the same answers. State-free callbacks do; so do all that never change state.
 */
module RepeatLimits {
  import opened Words
  import opened Memory
  import opened Registers
  import opened Kvm
  import opened Events
  import opened EventBus
  import opened Devices
  import opened Loops
  import opened ExitLoop
  import opened Accounting
  import opened Repeatability
  import opened Dialogues
  import opened Reruns
  import VM = VirtualMachines

  // ---------------------------------------------------------------------------------------------
  // Enough: callbacks whose answers never depend on what they remember.

  /** Every access any guest can make is answered without looking at shared state. */
  ghost predicate StateFree<W(!new)>(t: Tables<W>) {
    && (forall x: Exit :: BlindIo(t.io, x))
    && (forall x: Exit :: MmioAccepted(x) ==> BlindMmio(t.mmio, x))
    && BlindLeaves(t.cpuid)
  }

  lemma StateFreeStep<W(!new)>(k: Kernel, id: u32, t: Tables<W>, m: Machine<W>)
    requires StateFree(t) && Ok(m)
    ensures BlindStep(RigOf(k, id, t), m)
  {
    var r := Run(k, m.cpu).1;
    if r.Some? {
      assert BlindIo(t.io, r.value) && (MmioAccepted(r.value) ==> BlindMmio(t.mmio, r.value));
    }
  }

  lemma StateFreeRun<W(!new)>(k: Kernel, id: u32, t: Tables<W>, m: Machine<W>, n: nat)
    requires StateFree(t) && Ok(m)
    ensures BlindRun(RigOf(k, id, t), m, n)
  {
    var rig := RigOf(k, id, t);
    var step, ok, good := Stepping(rig), Good<W>(), BlindHere(rig);
    forall x: Machine<W> {:trigger step(x)} | ok(x) ensures ok(step(x).0) {
      assert Steady(x, Step(rig, x).0);
    }
    forall x: Machine<W> {:trigger good(x)} | ok(x) ensures good(x) {
      StateFreeStep(k, id, t, x);
    }
    AlwaysGood(step, m, n, ok, good);
  }

  /** With state-free callbacks every run repeats, whatever the guest and whoever listens, from wherever the snapshot is restored. */
  lemma StateFreeRepeats<W(!new)>(
      k: Kernel, id: u32, t: Tables<W>, m0: Machine<W>, m: Machine<W>, n: nat, c: Counter)
    requires StateFree(t) && Deterministic(k) && Restorable(k, m0.cpu)
    requires Ok(m0) && SameBody(m, m0) && Reply(m0.cpu) == Reply(m.cpu)
    ensures var rig, s := RigOf(k, id, t), VM.Take(k, m0.cpu).1;
      VM.Fits(s, m.cpu.ram) &&
      var first, again := Snapshotted(rig, m0), Rewound(rig, m, s);
      var r1, r2 := RunFor(Stepping(rig), first, n), RunFor(Stepping(rig), again, n);
      && r1.1 == r2.1 && r1.2 == r2.2 && Count(rig, first, n, c) == Count(rig, again, n, c)
      && SameOutcome(first, r1.0, again, r2.0, r1.1)
  {
    var rig := RigOf(k, id, t);
    StateFreeRun(k, id, t, Snapshotted(rig, m0), n);
    Repeats(rig, m0, m, n, c);
  }

  // ---------------------------------------------------------------------------------------------
  // Not enough: a snapshot restored while a read is pending.

  /** A guest that reads register 0 and halts once it has its reply. */
  function Waiting(r: Regs, sregs: Sregs, ram: seq<seq<byte>>, reply: seq<byte>): Entry {
    Entry(r, sregs, ram, Exited(if reply == [] then Mmio(0, 1, false) else Hlt, []))
  }

  function WaitingKernel(): Kernel {
    Kernel((tick: nat, r: Regs, sregs: Sregs, ram: seq<seq<byte>>, reply: seq<byte>) => Waiting(r, sregs, ram, reply),
           (tick: nat, r: Regs) => true, (tick: nat, r: Regs) => true,
           (tick: nat, sregs: Sregs) => true, (tick: nat, sregs: Sregs) => true, (tick: nat) => tick)
  }

  lemma WaitingStep<W>(id: u32, t: Tables<W>, m: Machine<W>)
    requires Ok(m)
    ensures var r := Step(RigOf(WaitingKernel(), id, t), m);
      if Reply(m.cpu) == [] then r.1 == Continue && |Reply(r.0.cpu)| == 1 else r.1 == Halt
  {
  }

  /**
   * With any callbacks, state-free ones included: a run of one step, restored while its read is
   * still pending, goes on instead of starting again. The first run continues, the second halts.
   */
  lemma PendingReadDiffers<W(!new)>(id: u32, t: Tables<W>, m0: Machine<W>)
    requires Ok(m0) && Settled(m0.cpu)
    ensures Deterministic(WaitingKernel()) && Restorable(WaitingKernel(), m0.cpu)
    ensures var rig, s := RigOf(WaitingKernel(), id, t), VM.Take(WaitingKernel(), m0.cpu).1;
      var first := Snapshotted(rig, m0);
      var m := Step(rig, first).0;
      VM.Fits(s, m.cpu.ram) && Step(rig, first).1 == Continue && Step(rig, Rewound(rig, m, s)).1 == Halt
  {
    var rig := RigOf(WaitingKernel(), id, t);
    var first := Snapshotted(rig, m0);
    WaitingStep(id, t, first);
    RewoundAlike(rig, m0, Step(rig, first).0);
    WaitingStep(id, t, Rewound(rig, Step(rig, first).0, VM.Take(WaitingKernel(), m0.cpu).1));
  }

  // ---------------------------------------------------------------------------------------------
  // Exactly enough.

  /** An access that guests can make with these tables. */
  predicate Askable<W>(t: Tables<W>, a: Access) {
    Proper(a) && (a.Query? ==> t.cpuid.Some?)
  }

  predicate AllAskable<W>(t: Tables<W>, s: seq<Access>) {
    forall i :: 0 <= i < |s| ==> Askable(t, s[i])
  }

  /** From state w0 the callbacks, asked anything, answer it a second time as they did the first. */
  ghost predicate AnswersTwice<W>(t: Tables<W>, w0: W) {
    forall s: seq<Access> :: AllAskable(t, s) ==> RepliesAgree(t, w0, WorldAfter(React(t), w0, s), s)
  }

  /** Any deterministic guest, started with the callbacks in state w0, repeats its run after a restore. */
  ghost predicate EveryGuestRepeats<W(!new)>(t: Tables<W>, w0: W) {
    forall k: Kernel, id: u32, m0: Machine<W>, j: nat :: FirstRun(k, id, t, m0, j) && m0.world == w0 ==>
      SameRun(RigOf(k, id, t), Snapshotted(RigOf(k, id, t), m0), Again(k, id, t, m0, j), j)
  }

  lemma MadeAskable<W>(k: Kernel, t: Tables<W>, m: Machine<W>)
    ensures AllAskable(t, Made(k, t)(m))
  {
  }

  lemma {:induction false} TrailAskable<W>(k: Kernel, t: Tables<W>, step: Stepper<Machine<W>>, m: Machine<W>, n: nat)
    ensures AllAskable(t, Trail(step, m, n, Made(k, t)))
    decreases n
  {
    if n > 0 {
      MadeAskable(k, t, m);
      if step(m).1 == Continue {
        TrailAskable(k, t, step, step(m).0, n - 1);
      }
    }
  }

  // A guest for any dialogue. It keeps its place on a tape in memory, one mark for every access made.

  function Tape(n: nat, i: nat): seq<byte> {
    seq(n, j => if j < i then 1 else 0)
  }

  function Marks(tape: seq<byte>): nat {
    if tape == [] || tape[0] == 0 then 0 else 1 + Marks(tape[1..])
  }

  lemma {:induction false} MarksOfTape(n: nat, i: nat)
    requires i <= n
    ensures Marks(Tape(n, i)) == i
    decreases i
  {
    if i > 0 {
      assert Tape(n, i)[1..] == Tape(n - 1, i - 1);
      MarksOfTape(n - 1, i - 1);
    }
  }

  /** Make the access that is due, or halt after the last. */
  function Recite(s: seq<Access>, r: Regs, sregs: Sregs, ram: seq<seq<byte>>): Entry {
    var i := if |ram| == 1 then Marks(ram[0]) else |s|;
    if i >= |s| then Entry(r, sregs, ram, Exited(Hlt, []))
    else match s[i]
      case Move(x, data) => Entry(r, sregs, [Tape(|s|, i + 1)], Exited(x, data))
      case Query(leaf, subleaf) =>
        Entry(r.(rax := leaf, rcx := subleaf), sregs, [Tape(|s|, i + 1)], Exited(InternalError(KVM_INTERNAL_ERROR_EMULATION), []))
  }

  function Reciter(s: seq<Access>): Kernel {
    Kernel((tick: nat, r: Regs, sregs: Sregs, ram: seq<seq<byte>>, reply: seq<byte>) => Recite(s, r, sregs, ram),
           (tick: nat, r: Regs) => true, (tick: nat, r: Regs) => true,
           (tick: nat, sregs: Sregs) => true, (tick: nat, sregs: Sregs) => true, (tick: nat) => tick)
  }

  lemma ReciterFrank<W>(s: seq<Access>, t: Tables<W>)
    requires AllAskable(t, s)
    ensures Frank(Reciter(s)) && Deterministic(Reciter(s))
  {
    var k := Reciter(s);
    forall tick: nat, r, sregs, ram, reply | k.enter(tick, r, sregs, ram, reply).outcome.Exited?
      ensures k.enter(tick, r, sregs, ram, reply).outcome.exit != Unknown(0)
    {
      var i := if |ram| == 1 then Marks(ram[0]) else |s|;
      if i < |s| {
        assert Askable(t, s[i]);
      }
    }
  }

  const PAGE: nat := 64

  /** The guest is about to make access number i. */
  predicate At<W>(s: seq<Access>, m: Machine<W>, i: nat) {
    Ok(m) && i <= |s| && m.cpu.ram == [Tape(|s|, i)] && |m.cpu.page| >= PAGE
  }

  lemma RecitesExit<W>(s: seq<Access>, t: Tables<W>, c: Cpu, i: nat)
    requires AllAskable(t, s) && i < |s| && CpuOk(c) && c.ram == [Tape(|s|, i)] && |c.page| >= PAGE
    ensures var (c', x) := Run(Reciter(s), c);
      && x.Some? && c'.ram == [Tape(|s|, i + 1)] && MadeAt(Reciter(s), t, c') == [s[i]]
      && (c'.exit.Io? || MmioAccepted(c'.exit) || IsEmulation(c'.exit))
  {
    MarksOfTape(|s|, i);
    assert Askable(t, s[i]);
    var e := Recite(s, c.regs, c.sregs, c.ram);
    assert Possible(e, c);
    if s[i].Move? && FromGuest(s[i].x) {
      OverlayRead(c.page, AccessAt(s[i].x), s[i].data);
    }
  }

  /** Dispatching an exit does not touch guest memory. */
  lemma DispatchKeepsRam<W>(rig: Rig<W>, m: Machine<W>)
    requires Ok(m)
    ensures DispatchExit(rig, m, m.cpu.exit).0.cpu.ram == m.cpu.ram
  {
  }

  lemma RecitesOne<W>(s: seq<Access>, id: u32, t: Tables<W>, m: Machine<W>, i: nat)
    requires AllAskable(t, s) && i < |s| && At(s, m, i)
    ensures var r := Stepping(RigOf(Reciter(s), id, t))(m);
      r.1 == Continue && At(s, r.0, i + 1) && Made(Reciter(s), t)(m) == [s[i]]
  {
    var rig := RigOf(Reciter(s), id, t);
    ReciterFrank(s, t);
    RecitesExit(s, t, m.cpu, i);
    DispatchKeepsRam(rig, AtExit(rig, m));
    RecitesOn(rig, AtExit(rig, m));
  }

  lemma RecitesOn<W>(rig: Rig<W>, m: Machine<W>)
    requires Ok(m) && (m.cpu.exit.Io? || MmioAccepted(m.cpu.exit) || IsEmulation(m.cpu.exit))
    requires Frank(rig.kernel)
    ensures DispatchExit(rig, m, m.cpu.exit).1 == Continue
  {
    if IsEmulation(m.cpu.exit) {
      CpuidCount(rig, m);
      assert CpuidSucceeds(rig, m);
      assert EmulationExit(rig, m).1 == Continue;
    }
  }

  lemma RecitesHalt<W>(s: seq<Access>, id: u32, t: Tables<W>, m: Machine<W>)
    requires At(s, m, |s|)
    ensures Stepping(RigOf(Reciter(s), id, t))(m).1 == Halt && Made(Reciter(s), t)(m) == []
  {
    MarksOfTape(|s|, |s|);
  }

  /** At its place i the guest makes the access that is due and goes on, or halts after the last. */
  predicate RecitesAt<W>(s: seq<Access>, step: Stepper<Machine<W>>, made: Machine<W> -> seq<Access>, m: Machine<W>, i: nat) {
    if i < |s| then step(m).1 == Continue && At(s, step(m).0, i + 1) && made(m) == [s[i]]
    else step(m).1 == Halt && made(m) == []
  }

  ghost predicate Recites<W(!new)>(s: seq<Access>, step: Stepper<Machine<W>>, made: Machine<W> -> seq<Access>) {
    forall m: Machine<W>, i: nat {:trigger RecitesAt(s, step, made, m, i)} :: At(s, m, i) ==> RecitesAt(s, step, made, m, i)
  }

  lemma ReciterAt<W>(s: seq<Access>, id: u32, t: Tables<W>, m: Machine<W>, i: nat)
    requires AllAskable(t, s) && At(s, m, i)
    ensures RecitesAt(s, Stepping(RigOf(Reciter(s), id, t)), Made(Reciter(s), t), m, i)
  {
    if i < |s| { RecitesOne(s, id, t, m, i); } else { RecitesHalt(s, id, t, m); }
  }

  lemma ReciterRecites<W(!new)>(s: seq<Access>, id: u32, t: Tables<W>)
    requires AllAskable(t, s)
    ensures Recites(s, Stepping(RigOf(Reciter(s), id, t)), Made(Reciter(s), t))
  {
    var step, made := Stepping(RigOf(Reciter(s), id, t)), Made(Reciter(s), t);
    forall m: Machine<W>, i: nat {:trigger RecitesAt(s, step, made, m, i)} | At(s, m, i)
      ensures RecitesAt(s, step, made, m, i)
    {
      ReciterAt(s, id, t, m, i);
    }
  }

  /** From its place i on, the guest makes the rest of the accesses and halts. */
  lemma {:induction false} RecitesAll<W(!new)>(
      s: seq<Access>, step: Stepper<Machine<W>>, made: Machine<W> -> seq<Access>, m: Machine<W>, i: nat)
    requires Recites(s, step, made) && At(s, m, i)
    ensures RunFor(step, m, |s| - i + 1).1 == Halt && Trail(step, m, |s| - i + 1, made) == s[i..]
    decreases |s| - i
  {
    assert RecitesAt(s, step, made, m, i);
    if i < |s| {
      RecitesAll(s, step, made, step(m).0, i + 1);
      assert s[i..] == [s[i]] + s[i + 1..];
    }
  }

  /** A machine with that guest, before its first KVM_RUN, nobody listening. */
  function Idle<W>(s: seq<Access>, w: W): Machine<W> {
    Machine(Cpu(ZERO_REGS, ZERO_SREGS, [Tape(|s|, 0)], NoExit, Zeros(PAGE), 0), w, NewBus(), Stats(0, 0, 0, 0, 0, 0))
  }

  lemma IdleReady<W(!new)>(k: Kernel, id: u32, t: Tables<W>, s: seq<Access>, w0: W)
    requires k == Reciter(s)
    ensures var m0 := Idle(s, w0);
      Restorable(k, m0.cpu) && Ok(m0) && Settled(m0.cpu) && Inert(m0.bus.subs) && At(s, Snapshotted(RigOf(k, id, t), m0), 0)
  {
  }

  lemma RecitesFromStart<W(!new)>(s: seq<Access>, step: Stepper<Machine<W>>, made: Machine<W> -> seq<Access>, m: Machine<W>)
    requires Recites(s, step, made) && At(s, m, 0)
    ensures RunFor(step, m, |s| + 1).1 == Halt && Trail(step, m, |s| + 1, made) == s
  {
    RecitesAll(s, step, made, m, 0);
    assert s[0..] == s;
  }

  lemma RecitesWhole<W(!new)>(k: Kernel, id: u32, t: Tables<W>, s: seq<Access>, m: Machine<W>)
    requires k == Reciter(s) && AllAskable(t, s) && At(s, m, 0)
    ensures RunFor(Stepping(RigOf(k, id, t)), m, |s| + 1).1 == Halt && Accesses(k, id, t, m, |s| + 1) == s
  {
    ReciterRecites(s, id, t);
    RecitesFromStart(s, Stepping(RigOf(k, id, t)), Made(k, t), m);
  }

  lemma GuestForDialogue<W(!new)>(k: Kernel, t: Tables<W>, s: seq<Access>, m0: Machine<W>, first: Machine<W>)
    requires AllAskable(t, s) && k == Reciter(s) && first == Snapshotted(RigOf(k, 0, t), m0) && At(s, first, 0)
    requires Restorable(k, m0.cpu) && Ok(m0) && Settled(m0.cpu) && Inert(m0.bus.subs)
    ensures FirstRun(k, 0, t, m0, |s| + 1) && Telling(k, t) && Accesses(k, 0, t, first, |s| + 1) == s
  {
    ReciterFrank(s, t);
    RecitesWhole(k, 0, t, s, first);
  }

  lemma Sufficient<W(!new)>(t: Tables<W>, w0: W, k: Kernel, id: u32, m0: Machine<W>, j: nat)
    requires AnswersTwice(t, w0) && FirstRun(k, id, t, m0, j) && m0.world == w0
    ensures SameRun(RigOf(k, id, t), Snapshotted(RigOf(k, id, t), m0), Again(k, id, t, m0, j), j)
  {
    var rig := RigOf(k, id, t);
    TrailAskable(k, t, Stepping(rig), Snapshotted(rig, m0), j);
    RerunExactly(k, id, t, m0, j, Exits);
  }

  lemma Necessary<W(!new)>(t: Tables<W>, w0: W, s: seq<Access>)
    requires EveryGuestRepeats(t, w0) && AllAskable(t, s)
    ensures RepliesAgree(t, w0, WorldAfter(React(t), w0, s), s)
  {
    var k, m0 := Reciter(s), Idle(s, w0);
    IdleReady(k, 0, t, s, w0);
    GuestForDialogue(k, t, s, m0, Snapshotted(RigOf(k, 0, t), m0));
    RerunExactly(k, 0, t, m0, |s| + 1, Exits);
  }

  /**
   * For all callbacks and every state w0 of what they remember: every deterministic guest, with
   * listeners that leave that state alone, repeats its run after a restore if and only if the
   * callbacks, from w0, answer any questions a second time as they did the first.
   */
  lemma EveryGuestRepeatsExactly<W(!new)>(t: Tables<W>, w0: W)
    ensures EveryGuestRepeats(t, w0) <==> AnswersTwice(t, w0)
  {
    if AnswersTwice(t, w0) {
      forall k: Kernel, id: u32, m0: Machine<W>, j: nat | FirstRun(k, id, t, m0, j) && m0.world == w0
        ensures SameRun(RigOf(k, id, t), Snapshotted(RigOf(k, id, t), m0), Again(k, id, t, m0, j), j)
      {
        Sufficient(t, w0, k, id, m0, j);
      }
    }
    if EveryGuestRepeats(t, w0) {
      forall s: seq<Access> | AllAskable(t, s) ensures RepliesAgree(t, w0, WorldAfter(React(t), w0, s), s) {
        Necessary(t, w0, s);
      }
    }
  }

  // ---------------------------------------------------------------------------------------------
  // Answers that do not show.

  /** A guest that asks for CPUID leaf 0 by an exit of unknown kind, which publishes nothing, and halts. */
  function Asking(r: Regs, sregs: Sregs, ram: seq<seq<byte>>): Entry {
    if r.rip == 0 then Entry(r.(rip := 1, rax := 0), sregs, ram, Exited(Unknown(0), []))
    else Entry(r, sregs, ram, Exited(Hlt, []))
  }

  function AskingKernel(): Kernel {
    Kernel((tick: nat, r: Regs, sregs: Sregs, ram: seq<seq<byte>>, reply: seq<byte>) => Asking(r, sregs, ram),
           (tick: nat, r: Regs) => true, (tick: nat, r: Regs) => true,
           (tick: nat, sregs: Sregs) => true, (tick: nat, sregs: Sregs) => true, (tick: nat) => tick)
  }

  /** A leaf that answers 0 and 1 in turn. */
  function Alternating(flag: bool, leaf: u32, subleaf: u32): (bool, LeafResult) {
    (!flag, LeafResult(if flag then 1 else 0, 0, 0, 0))
  }

  function AlternatingLeaf(): Tables<bool> {
    Tables(Some(Leaves(map[0 := Alternating], (leaf: u32, subleaf: u32) => LeafResult(0, 0, 0, 0))), Ports(map[], map[]), MmioMap(map[], map[]))
  }

  lemma AskingStep(m: Machine<bool>)
    requires Ok(m) && m.cpu.regs.rip == 0
    ensures var r := Stepping(RigOf(AskingKernel(), 0, AlternatingLeaf()))(m);
      r.1 == Continue && Ok(r.0) && r.0.cpu.regs.rip == 1 && r.0.bus == m.bus
  {
  }

  lemma AskingMakes(m: Machine<bool>)
    requires Ok(m) && m.cpu.regs.rip == 0
    ensures |Made(AskingKernel(), AlternatingLeaf())(m)| == 1 && Made(AskingKernel(), AlternatingLeaf())(m)[0].Query?
      && Made(AskingKernel(), AlternatingLeaf())(m)[0].leaf == 0
  {
  }

  lemma HaltingStep(m: Machine<bool>)
    requires Ok(m) && m.cpu.regs.rip == 1
    ensures var r := Stepping(RigOf(AskingKernel(), 0, AlternatingLeaf()))(m);
      && r.1 == Halt && Made(AskingKernel(), AlternatingLeaf())(m) == []
      && |r.0.bus.events| == |m.bus.events| + 1 && m.bus.events <= r.0.bus.events
      && Untimed(r.0.bus.events[|m.bus.events|]) == HvEvent(GuestHalt, 0, 1, 0, NoPayload)
  {
  }

  /** Halted after two steps and one event. */
  predicate Halted<W>(m: Machine<W>, r: (Machine<W>, RunResult, nat)) {
    && r.1 == Halt && r.2 == 2 && m.bus.events <= r.0.bus.events && |r.0.bus.events| == |m.bus.events| + 1
    && Untimed(r.0.bus.events[|m.bus.events|]) == HvEvent(GuestHalt, 0, 1, 0, NoPayload)
  }

  /** What its run comes to, whatever the leaf answers. */
  lemma AskingRun(k: Kernel, t: Tables<bool>, m: Machine<bool>)
    requires k == AskingKernel() && t == AlternatingLeaf() && Ok(m) && m.cpu.regs.rip == 0
    ensures Halted(m, RunFor(Stepping(RigOf(k, 0, t)), m, 2))
    ensures var s := Accesses(k, 0, t, m, 2); |s| == 1 && s[0].Query? && s[0].leaf == 0
  {
    var step := Stepping(RigOf(k, 0, t));
    AskingStep(m);
    AskingMakes(m);
    HaltingStep(step(m).0);
    TwoSteps(step, Made(k, t), m);
  }

  lemma HaltedAlike<W>(a: Machine<W>, ra: (Machine<W>, RunResult, nat), b: Machine<W>, rb: (Machine<W>, RunResult, nat))
    requires Halted(a, ra) && Halted(b, rb)
    ensures ra.1 == rb.1 && ra.2 == rb.2 && SameEvents(a.bus.events, ra.0.bus.events, b.bus.events, rb.0.bus.events)
  {
  }

  lemma TwoSteps<M, A>(step: Stepper<M>, made: M -> seq<A>, m: M)
    requires step(m).1 == Continue && step(step(m).0).1 != Continue
    ensures RunFor(step, m, 2) == (step(step(m).0).0, step(step(m).0).1, 2)
    ensures Trail(step, m, 2, made) == made(m) + made(step(m).0)
  {
    assert RunFor(step, step(m).0, 1) == (step(step(m).0).0, step(step(m).0).1, 1);
    assert Trail(step, step(m).0, 1, made) == made(step(m).0);
  }

  lemma AlternatingDiffers(flag: bool, a: Access)
    requires a.Query? && a.leaf == 0
    ensures !RepliesAgree(AlternatingLeaf(), flag, !flag, [a]) && WorldAfter(React(AlternatingLeaf()), flag, [a]) == !flag
  {
    OneAnswer(AlternatingLeaf(), flag, a);
    OneAnswer(AlternatingLeaf(), !flag, a);
  }

  lemma AskingFirst(k: Kernel, t: Tables<bool>, m0: Machine<bool>)
    requires k == AskingKernel() && t == AlternatingLeaf()
    requires Ok(m0) && Settled(m0.cpu) && m0.cpu.regs.rip == 0 && m0.bus.subs == []
    ensures FirstRun(k, 0, t, m0, 2) && Ok(Snapshotted(RigOf(k, 0, t), m0)) && Snapshotted(RigOf(k, 0, t), m0).cpu.regs.rip == 0
  {
    AskingRun(k, t, Snapshotted(RigOf(k, 0, t), m0));
  }

  lemma AskingAgain(k: Kernel, t: Tables<bool>, m0: Machine<bool>)
    requires k == AskingKernel() && t == AlternatingLeaf() && FirstRun(k, 0, t, m0, 2) && m0.cpu.regs.rip == 0
    ensures SameRun(RigOf(k, 0, t), Snapshotted(RigOf(k, 0, t), m0), Again(k, 0, t, m0, 2), 2)
  {
    var rig, first, again := RigOf(k, 0, t), Snapshotted(RigOf(k, 0, t), m0), Again(k, 0, t, m0, 2);
    AgainState(k, 0, t, m0, 2);
    AskingRun(k, t, first);
    AskingRun(k, t, again);
    HaltedAlike(first, RunFor(Stepping(rig), first, 2), again, RunFor(Stepping(rig), again, 2));
  }

  /**
   * Why the converse needs CPUID answers to show: here the run after the restore is the same run,
   * though its one question is answered differently.
   */
  lemma SilentCpuid(k: Kernel, t: Tables<bool>, m0: Machine<bool>)
    requires k == AskingKernel() && t == AlternatingLeaf()
    requires Ok(m0) && Settled(m0.cpu) && m0.cpu.regs.rip == 0 && m0.bus.subs == []
    ensures FirstRun(k, 0, t, m0, 2)
    ensures SameRun(RigOf(k, 0, t), Snapshotted(RigOf(k, 0, t), m0), Again(k, 0, t, m0, 2), 2)
    ensures var s := Accesses(k, 0, t, Snapshotted(RigOf(k, 0, t), m0), 2);
      !RepliesAgree(t, m0.world, WorldAfter(React(t), m0.world, s), s)
  {
    AskingFirst(k, t, m0);
    AskingAgain(k, t, m0);
    AskingAnswers(k, t, Snapshotted(RigOf(k, 0, t), m0));
  }

  lemma AskingAnswers(k: Kernel, t: Tables<bool>, m: Machine<bool>)
    requires k == AskingKernel() && t == AlternatingLeaf() && Ok(m) && m.cpu.regs.rip == 0
    ensures var s := Accesses(k, 0, t, m, 2); !RepliesAgree(t, m.world, WorldAfter(React(t), m.world, s), s)
  {
    AskingRun(k, t, m);
    var s := Accesses(k, 0, t, m, 2);
    assert s == [s[0]];
    AlternatingDiffers(m.world, s[0]);
  }

  // ---------------------------------------------------------------------------------------------
  // And then not only the second run repeats.

  function Times(s: seq<Access>, q: nat): seq<Access> {
    if q == 0 then [] else Times(s, q - 1) + s
  }

  lemma {:induction false} TimesAskable<W>(t: Tables<W>, s: seq<Access>, q: nat)
    requires AllAskable(t, s)
    ensures AllAskable(t, Times(s, q))
    decreases q
  {
    if q > 0 {
      TimesAskable(t, s, q - 1);
    }
  }

  lemma {:induction false} TimesFirst(s: seq<Access>, q: nat)
    requires q > 0
    ensures Times(s, q) == s + Times(s, q - 1)
    decreases q
  {
    if q > 1 {
      TimesFirst(s, q - 1);
      assert s + Times(s, q - 2) + s == s + (Times(s, q - 2) + s);
    } else {
      assert Times(s, 1) == s;
    }
  }

  /** Callbacks that answer everything twice answer it alike however often it was asked before. */
  lemma AnswersEveryTime<W>(t: Tables<W>, w0: W, s: seq<Access>, q: nat)
    requires AnswersTwice(t, w0) && AllAskable(t, s)
    ensures RepliesAgree(t, w0, WorldAfter(React(t), w0, Times(s, q)), s)
  {
    if q > 0 {
      var u := Times(s, q);
      TimesAskable(t, s, q);
      TimesFirst(s, q);
      AlikeSplit(React(t), w0, WorldAfter(React(t), w0, u), s, Times(s, q - 1));
    }
  }

  /** The start of run number q: the snapshot, restored after each of the runs before. */
  ghost function StartOf<W>(k: Kernel, id: u32, t: Tables<W>, m0: Machine<W>, j: nat, q: nat): Machine<W> {
    var rig := RigOf(k, id, t);
    if q == 0 then Snapshotted(rig, m0)
    else Restoring(rig, RunFor(Stepping(rig), StartOf(k, id, t, m0, j, q - 1), j).0, VM.Take(k, m0.cpu).1)
  }

  function Restoring<W>(rig: Rig<W>, m: Machine<W>, s: VM.Snapshot): Machine<W> {
    if VM.Copyable(s, m.cpu.ram) then Rewound(rig, m, s) else m
  }

  /** Alike to the guest, with callbacks that have answered its accesses q times. */
  ghost predicate AfterRuns<W(!new)>(t: Tables<W>, first: Machine<W>, m: Machine<W>, s: seq<Access>, q: nat) {
    Alike(first.cpu, m.cpu) && Inert(m.bus.subs) && m.world == WorldAfter(React(t), first.world, Times(s, q))
  }

  lemma NextRun<W(!new)>(k: Kernel, id: u32, t: Tables<W>, m0: Machine<W>, j: nat, m: Machine<W>, s: seq<Access>, q: nat)
    requires FirstRun(k, id, t, m0, j) && AnswersTwice(t, m0.world) && s == Accesses(k, id, t, Snapshotted(RigOf(k, id, t), m0), j)
    requires AfterRuns(t, Snapshotted(RigOf(k, id, t), m0), m, s, q)
    ensures var rig := RigOf(k, id, t);
      && SameRun(rig, Snapshotted(rig, m0), m, j)
      && AfterRuns(t, Snapshotted(rig, m0), Restoring(rig, RunFor(Stepping(rig), m, j).0, VM.Take(k, m0.cpu).1), s, q + 1)
  {
    var rig := RigOf(k, id, t);
    var first := Snapshotted(rig, m0);
    TrailAskable(k, t, Stepping(rig), first, j);
    AnswersEveryTime(t, m0.world, s, q);
    SameRunExactly(k, id, t, first, m, j, Exits);
    RunLeaves(k, id, t, m, j);
    RunStopsSettled(rig, m, j);
    RewoundAlike(rig, m0, RunFor(Stepping(rig), m, j).0);
    DialogueSplit(React(t), m0.world, Times(s, q), s);
  }

  lemma {:induction false} StartOfRun<W(!new)>(k: Kernel, id: u32, t: Tables<W>, m0: Machine<W>, j: nat, q: nat)
    requires FirstRun(k, id, t, m0, j) && AnswersTwice(t, m0.world)
    ensures var first := Snapshotted(RigOf(k, id, t), m0);
      AfterRuns(t, first, StartOf(k, id, t, m0, j, q), Accesses(k, id, t, first, j), q)
    decreases q
  {
    if q > 0 {
      StartOfRun(k, id, t, m0, j, q - 1);
      NextRun(k, id, t, m0, j, StartOf(k, id, t, m0, j, q - 1), Accesses(k, id, t, Snapshotted(RigOf(k, id, t), m0), j), q - 1);
    }
  }

  /** When the second run always repeats the first, so does every later one, however many restores come before it. */
  lemma EveryRerunRepeats<W(!new)>(k: Kernel, id: u32, t: Tables<W>, m0: Machine<W>, j: nat, q: nat)
    requires FirstRun(k, id, t, m0, j) && EveryGuestRepeats(t, m0.world)
    ensures SameRun(RigOf(k, id, t), Snapshotted(RigOf(k, id, t), m0), StartOf(k, id, t, m0, j, q), j)
  {
    EveryGuestRepeatsExactly(t, m0.world);
    StartOfRun(k, id, t, m0, j, q);
    NextRun(k, id, t, m0, j, StartOf(k, id, t, m0, j, q), Accesses(k, id, t, Snapshotted(RigOf(k, id, t), m0), j), q);
  }

  // ---------------------------------------------------------------------------------------------
  // Callbacks that never change state.

  ghost predicate ReadOnly<W(!new)>(t: Tables<W>) {
    forall w: W, a: Access {:trigger Answering(t, w, a)} :: Answering(t, w, a).0 == w
  }

  lemma {:induction false} ReadOnlyWorld<W(!new)>(t: Tables<W>, w: W, s: seq<Access>)
    requires ReadOnly(t)
    ensures WorldAfter(React(t), w, s) == w
  {
    if s != [] {
      assert React(t)(w, s[0]) == Answering(t, w, s[0]);
      ReadOnlyWorld(t, w, s[1..]);
    }
  }

  lemma ReadOnlyAnswersTwice<W(!new)>(t: Tables<W>, w0: W)
    requires ReadOnly(t)
    ensures AnswersTwice(t, w0)
  {
    forall s: seq<Access> | AllAskable(t, s) ensures RepliesAgree(t, w0, WorldAfter(React(t), w0, s), s) {
      ReadOnlyWorld(t, w0, s);
    }
  }

  /** One register that reports a flag nothing ever changes. */
  function FlagRegister(): Tables<bool> {
    Tables(None, Ports(map[], map[]), MmioMap(map[0 := ReadFlag], map[]))
  }

  function ReadFlag(flag: bool, x: ReadContext): (bool, u64) {
    (flag, if flag then 1 else 0)
  }

  lemma DifferentReads<W(!new)>(t: Tables<W>, x: Exit, v: W, w: W)
    requires MmioAccepted(x) && !x.write && ReadBytes(t.mmio, v, x) != ReadBytes(t.mmio, w, x)
    ensures !StateFree(t)
  {
    assert !BlindMmio(t.mmio, x);
  }

  const FLAG_READ: Exit := Mmio(0, 1, false)

  lemma FlagReads(flag: bool)
    ensures ReadBytes(FlagRegister().mmio, flag, FLAG_READ) == [if flag then 1 else 0]
  {
    assert ReadReply(FlagRegister().mmio, flag, FLAG_READ).1 == if flag then 1 else 0;
    assert AccessSize(FLAG_READ) == 1;
  }

  lemma FlagNotStateFree()
    ensures !StateFree(FlagRegister())
  {
    FlagReads(false);
    FlagReads(true);
    DifferentReads(FlagRegister(), FLAG_READ, false, true);
  }

  lemma FlagReadOnly()
    ensures ReadOnly(FlagRegister())
  {
  }

  /** So state-free callbacks are not necessary. */
  lemma NotStateFreeStillRepeats(w0: bool)
    ensures !StateFree(FlagRegister()) && EveryGuestRepeats(FlagRegister(), w0)
  {
    FlagNotStateFree();
    FlagReadOnly();
    ReadOnlyAnswersTwice(FlagRegister(), w0);
    EveryGuestRepeatsExactly(FlagRegister(), w0);
  }
}
