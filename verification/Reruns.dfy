/**
 * When a run repeats: a run is a dialogue between the guest, which makes accesses, and the
 * callbacks, which answer them; running again repeats the run exactly when the callbacks, in the
 * state the first run left them in, answer its accesses as they did.
 */
module Reruns {
  import opened Words
  import opened Memory
  import opened Kvm
  import opened Events
  import opened EventBus
  import opened Devices
  import opened Loops
  import opened ExitLoop
  import opened EventValues
  import opened Accounting
  import opened Repeatability
  import opened Dialogues
  import VM = VirtualMachines

  /** What the callbacks are asked: a port or MMIO access with the bytes the guest sends, or a CPUID leaf. */
  datatype Access = Move(x: Exit, data: seq<byte>) | Query(leaf: u32, subleaf: u32)

  datatype Answer = Bytes(bytes: seq<byte>) | Values(values: LeafResult)

  /** The callback tables; ports and MMIO have handlers, and there is a dispatcher. */
  datatype Tables<!W> = Tables(cpuid: Option<Leaves<W>>, io: Ports<W>, mmio: MmioMap<W>)

  function RigOf<W>(k: Kernel, id: u32, t: Tables<W>): Rig<W> {
    Rig(k, id, t.cpuid, Some(t.io), Some(t.mmio), true, NoLook())
  }

  /** Where a port access has its data does not matter to the callbacks. */
  function Placed(x: Exit): Exit {
    if x.Io? then x.(offset := MMIO_END) else x
  }

  predicate Proper(a: Access) {
    a.Move? ==> (a.x.Io? || MmioAccepted(a.x)) && Placed(a.x) == a.x && |a.data| == if FromGuest(a.x) then AccessSize(a.x) else 0
  }

  /** The callbacks' part of the dialogue. */
  function Answering<W>(t: Tables<W>, w: W, a: Access): (W, Answer) {
    if !Proper(a) then (w, Bytes([]))
    else match a
      case Move(x, data) =>
        if x.Io? && x.out then (OutEffect(t.io, w, x, Le32(data)), Bytes([]))
        else if x.Io? then var (w', v) := InReply(t.io, w, x); (w', Bytes(LeBytes(v, AccessSize(x))))
        else if x.write then (WriteEffect(t.mmio, w, x, Le64(data)), Bytes([]))
        else var (w', v) := ReadReply(t.mmio, w, x); (w', Bytes(LeBytes(v, AccessSize(x))))
      case Query(leaf, subleaf) =>
        if t.cpuid.None? then (w, Bytes([]))
        else var (w', v) := LeafReply(t.cpuid.value, w, leaf, subleaf); (w', Values(v))
  }

  function React<W>(t: Tables<W>): Reaction<W, Access, Answer> {
    (w: W, a: Access) => Answering(t, w, a)
  }

  /** The access of an exit, if it makes one. */
  function MadeAt<W>(k: Kernel, t: Tables<W>, c: Cpu): seq<Access>
    requires CpuOk(c)
  {
    if c.exit.Io? || MmioAccepted(c.exit) then
      [Move(Placed(c.exit), if FromGuest(c.exit) then AccessBytes(c.exit, c.page) else [])]
    else if t.cpuid.Some? && AsksCpuid(c.exit) && k.regsReadable(c.tick, c.regs) then
      [Query(Wrap32(c.regs.rax), Wrap32(c.regs.rcx))]
    else []
  }

  function Made<W>(k: Kernel, t: Tables<W>): Machine<W> -> seq<Access> {
    (m: Machine<W>) => if Ok(m) && Run(k, m.cpu).1.Some? then MadeAt(k, t, Run(k, m.cpu).0) else []
  }

  /** All accesses of a run, in order. */
  function Accesses<W>(k: Kernel, id: u32, t: Tables<W>, m: Machine<W>, n: nat): seq<Access> {
    Trail(Stepping(RigOf(k, id, t)), m, n, Made(k, t))
  }

  function WorldOf<W>(): Machine<W> -> W {
    (m: Machine<W>) => m.world
  }

  function Talk<W>(k: Kernel, id: u32, t: Tables<W>): Dialogue<Machine<W>, W, Access, Answer, HvEvent> {
    Dialogue(Stepping(RigOf(k, id, t)), WorldOf(), Made(k, t), React(t), EventLog(), Untimed)
  }

  ghost function Quiet<W(!new)>(): Machine<W> -> bool {
    (m: Machine<W>) => Ok(m) && Inert(m.bus.subs)
  }

  // ---------------------------------------------------------------------------------------------
  // A step changes the callbacks' state by answering its access.

  lemma OneAnswer<W>(t: Tables<W>, w: W, a: Access)
    ensures WorldAfter(React(t), w, [a]) == Answering(t, w, a).0
    ensures Replies(React(t), w, [a]) == [Answering(t, w, a).1]
  {
    assert [a][1..] == [];
  }

  /** Publishing with nobody listening who cares: one event, and nothing else. */
  lemma EmitQuiet<W(!new)>(rig: Rig<W>, m: Machine<W>, kind: EventType, payload: Payload, wantRip: bool)
    requires Inert(m.bus.subs) && rig.look == NoLook()
    ensures var m' := Emit(rig, m, kind, payload, wantRip);
      m'.world == m.world && m'.bus.subs == m.bus.subs && m.bus.events <= m'.bus.events
  {
    if rig.bus {
      var (c, (time, rip)) := Stamped(rig.kernel, m.cpu, wantRip);
      InertDelivery(m.bus.subs, m.world, HvEvent(kind, rig.vcpuId, rip, time, payload));
    }
  }

  /** From m to m' the callbacks answered s, nobody (un)subscribed, and events were only added. */
  ghost predicate Answered<W>(t: Tables<W>, m: Machine<W>, m': Machine<W>, s: seq<Access>) {
    m'.world == WorldAfter(React(t), m.world, s) && m'.bus.subs == m.bus.subs && m.bus.events <= m'.bus.events
  }

  lemma IoAnswered<W(!new)>(k: Kernel, id: u32, t: Tables<W>, m: Machine<W>)
    requires Ok(m) && m.cpu.exit.Io? && Inert(m.bus.subs)
    ensures Answered(t, m, IoExit(RigOf(k, id, t), m, m.cpu.exit).0, MadeAt(k, t, m.cpu))
  {
    var rig, x := RigOf(k, id, t), m.cpu.exit;
    OneAnswer(t, m.world, MadeAt(k, t, m.cpu)[0]);
    var m1 := HandledIo(rig, m, x);
    EmitQuiet(rig, m1, if x.out then IoWrite else IoRead, IoEvent(x, m1.cpu.page), true);
  }

  lemma MmioAnswered<W(!new)>(k: Kernel, id: u32, t: Tables<W>, m: Machine<W>)
    requires Ok(m) && m.cpu.exit.Mmio? && Inert(m.bus.subs)
    ensures Answered(t, m, MmioExit(RigOf(k, id, t), m, m.cpu.exit).0, MadeAt(k, t, m.cpu))
  {
    var rig, x := RigOf(k, id, t), m.cpu.exit;
    if MmioAccepted(x) {
      OneAnswer(t, m.world, MadeAt(k, t, m.cpu)[0]);
      var m1 := HandledMmio(rig, m, x);
      EmitQuiet(rig, m1, MemAccess, MmioEvent(x, m1.cpu.page), true);
    }
  }

  lemma CpuidAnswered<W(!new)>(k: Kernel, id: u32, t: Tables<W>, m: Machine<W>)
    requires Ok(m) && AsksCpuid(m.cpu.exit) && Inert(m.bus.subs)
    ensures Answered(t, m, HandledCpuid(RigOf(k, id, t), m).0, MadeAt(k, t, m.cpu))
    ensures Answered(t, m, EmulationExit(RigOf(k, id, t), m).0, MadeAt(k, t, m.cpu))
  {
    var rig := RigOf(k, id, t);
    if MadeAt(k, t, m.cpu) != [] {
      OneAnswer(t, m.world, MadeAt(k, t, m.cpu)[0]);
    }
    var (m1, ok) := HandledCpuid(rig, m);
    if ok {
      var (c, regs) := GetRegs(k, m1.cpu);
      EmitQuiet(rig, m1.(cpu := c), CpuidAccess, CpuidEvent(regs), true);
    }
  }

  lemma DispatchAnswered<W(!new)>(k: Kernel, id: u32, t: Tables<W>, m: Machine<W>)
    requires Ok(m) && Inert(m.bus.subs)
    ensures Answered(t, m, DispatchExit(RigOf(k, id, t), m, m.cpu.exit).0, MadeAt(k, t, m.cpu))
  {
    var rig := RigOf(k, id, t);
    match m.cpu.exit {
      case Hlt => EmitQuiet(rig, m, GuestHalt, NoPayload, true);
      case Shutdown => EmitQuiet(rig, m, GuestShutdown, DEFAULT_PAYLOAD, false);
      case Io(_, _, _, _, _) => IoAnswered(k, id, t, m);
      case Mmio(_, _, _) => MmioAnswered(k, id, t, m);
      case Unknown(_) => if AsksCpuid(m.cpu.exit) { CpuidAnswered(k, id, t, m); }
      case InternalError(_) => if AsksCpuid(m.cpu.exit) { CpuidAnswered(k, id, t, m); }
      case _ =>
    }
  }

  lemma StepAnswered<W(!new)>(k: Kernel, id: u32, t: Tables<W>, m: Machine<W>)
    requires Ok(m) && Inert(m.bus.subs)
    ensures Answered(t, m, Step(RigOf(k, id, t), m).0, Made(k, t)(m))
  {
    if Run(k, m.cpu).1.Some? {
      DispatchAnswered(k, id, t, AtExit(RigOf(k, id, t), m));
    }
  }

  lemma StepIsAnswered<W(!new)>(k: Kernel, id: u32, t: Tables<W>, m: Machine<W>)
    requires Quiet<W>()(m)
    ensures StepAnswers(Talk(k, id, t), Quiet(), m)
  {
    StepAnswered(k, id, t, m);
  }

  lemma StepsAnswer<W(!new)>(k: Kernel, id: u32, t: Tables<W>)
    ensures Answers(Talk(k, id, t), Quiet())
  {
    var d, ok := Talk(k, id, t), Quiet<W>();
    forall x: Machine<W> {:trigger StepAnswers(d, ok, x)} | ok(x) ensures StepAnswers(d, ok, x) {
      StepIsAnswered(k, id, t, x);
    }
  }

  // ---------------------------------------------------------------------------------------------
  // From states alike to the guest: the same access; and alike steps, if it is answered alike.

  lemma MadeAlike<W>(k: Kernel, t: Tables<W>, a: Machine<W>, b: Machine<W>)
    requires Deterministic(k) && Alike(a.cpu, b.cpu)
    ensures Made(k, t)(a) == Made(k, t)(b)
  {
    RunAlike(k, a.cpu, b.cpu);
    var ca, cb := Run(k, a.cpu).0, Run(k, b.cpu).0;
    assert k.regsReadable(ca.tick, ca.regs) == k.regsReadable(0, ca.regs) == k.regsReadable(cb.tick, ca.regs);
  }

  /** The answers to the access of an exit agree exactly when the exit is answered alike. */
  lemma RepliesDecide<W>(k: Kernel, id: u32, t: Tables<W>, c: Cpu, v: W, w: W)
    requires Deterministic(k) && CpuOk(c)
    ensures var s := MadeAt(k, t, c);
      Replies(React(t), v, s) == Replies(React(t), w, s) <==> AnsweredAlike(RigOf(k, id, t), v, w, c.exit, c.regs)
  {
    assert k.regsReadable(c.tick, c.regs) == k.regsReadable(0, c.regs);
    var s := MadeAt(k, t, c);
    if s != [] {
      OneAnswer(t, v, s[0]);
      OneAnswer(t, w, s[0]);
    }
  }

  lemma StepRepliesDecide<W>(k: Kernel, id: u32, t: Tables<W>, a: Machine<W>, b: Machine<W>)
    requires Deterministic(k) && Ok(a)
    ensures StepRepliesAlike(Talk(k, id, t), a, b) <==> StepAnsweredAlike(RigOf(k, id, t), a, b.world)
  {
    if Run(k, a.cpu).1.Some? {
      RepliesDecide(k, id, t, Run(k, a.cpu).0, a.world, b.world);
    }
  }

  lemma StepIsFollowed<W(!new)>(k: Kernel, id: u32, t: Tables<W>, c: Counter, x: Machine<W>, y: Machine<W>)
    requires Deterministic(k) && Alike(x.cpu, y.cpu)
    ensures StepFollows(Talk(k, id, t), AlikePair(), Hits(RigOf(k, id, t), c), x, y)
  {
    MadeAlike(k, t, x, y);
    StepRepliesDecide(k, id, t, x, y);
    if StepAnsweredAlike(RigOf(k, id, t), x, y.world) {
      StepAlike(RigOf(k, id, t), x, y);
      CountsAlike(RigOf(k, id, t), x, y, c);
    }
  }

  lemma StepsFollow<W(!new)>(k: Kernel, id: u32, t: Tables<W>, c: Counter)
    requires Deterministic(k)
    ensures Follows(Talk(k, id, t), AlikePair(), Hits(RigOf(k, id, t), c))
  {
    var d, rel, hit := Talk(k, id, t), AlikePair<W>(), Hits(RigOf(k, id, t), c);
    forall x: Machine<W>, y: Machine<W> {:trigger StepFollows(d, rel, hit, x, y)} |
        rel(x, y)
      ensures StepFollows(d, rel, hit, x, y)
    {
      StepIsFollowed(k, id, t, c, x, y);
    }
  }

  // ---------------------------------------------------------------------------------------------
  // Different answers show in the events.

  /**
   * CPUID answers show in the events: they are always the same, or every CPUID exit is one that
   * publishes an event and the registers can be read and written.
   */
  ghost predicate Telling<W(!new)>(k: Kernel, t: Tables<W>) {
    BlindLeaves(t.cpuid) || Frank(k)
  }

  ghost predicate Frank(k: Kernel) {
    && (forall tick: nat, r :: k.regsReadable(tick, r))
    && (forall tick: nat, r :: k.regsWritable(tick, r))
    && (forall tick: nat, r, s, ram, reply ::
          k.enter(tick, r, s, ram, reply).outcome.Exited? ==> k.enter(tick, r, s, ram, reply).outcome.exit != Unknown(0))
  }

  lemma SameBytesSameValue(a: seq<byte>, b: seq<byte>)
    requires |a| == |b| && LeValue(a) == LeValue(b)
    ensures a == b
  {
    LeBytesOfValue(a);
    LeBytesOfValue(b);
  }

  /** Both added exactly one event, with different payloads. */
  predicate Disagree<W>(a: Machine<W>, a': Machine<W>, b: Machine<W>, b': Machine<W>) {
    OneEvent(a, a', LastEvent(a')) && OneEvent(b, b', LastEvent(b')) && LastEvent(a').payload != LastEvent(b').payload
  }

  lemma IoDisagree<W>(rig: Rig<W>, a: Machine<W>, b: Machine<W>)
    requires rig.io.Some? && rig.bus && Ok(a) && Ok(b) && a.cpu.exit == b.cpu.exit && a.cpu.exit.Io? && !a.cpu.exit.out
    requires InBytes(rig.io.value, a.world, a.cpu.exit) != InBytes(rig.io.value, b.world, a.cpu.exit)
    ensures Disagree(a, IoExit(rig, a, a.cpu.exit).0, b, IoExit(rig, b, b.cpu.exit).0)
  {
    var t, x := rig.io.value, a.cpu.exit;
    InAgreement(rig, a, x);
    InAgreement(rig, b, x);
    if LeValue(InBytes(t, a.world, x)) == LeValue(InBytes(t, b.world, x)) {
      SameBytesSameValue(InBytes(t, a.world, x), InBytes(t, b.world, x));
    }
  }

  lemma MmioDisagree<W>(rig: Rig<W>, a: Machine<W>, b: Machine<W>)
    requires rig.mmio.Some? && rig.bus && Ok(a) && Ok(b) && a.cpu.exit == b.cpu.exit
    requires MmioAccepted(a.cpu.exit) && !a.cpu.exit.write
    requires ReadBytes(rig.mmio.value, a.world, a.cpu.exit) != ReadBytes(rig.mmio.value, b.world, a.cpu.exit)
    ensures Disagree(a, MmioExit(rig, a, a.cpu.exit).0, b, MmioExit(rig, b, b.cpu.exit).0)
  {
    var t, x := rig.mmio.value, a.cpu.exit;
    ReadAgreement(rig, a, x);
    ReadAgreement(rig, b, x);
    if LeValue(ReadBytes(t, a.world, x)) == LeValue(ReadBytes(t, b.world, x)) {
      SameBytesSameValue(ReadBytes(t, a.world, x), ReadBytes(t, b.world, x));
    }
  }

  lemma CpuidDisagree<W>(rig: Rig<W>, a: Machine<W>, b: Machine<W>)
    requires rig.cpuid.Some? && rig.bus && Frank(rig.kernel) && Ok(a) && Ok(b) && a.cpu.regs == b.cpu.regs
    requires a.cpu.exit == b.cpu.exit == InternalError(KVM_INTERNAL_ERROR_EMULATION)
    requires LeafReply(rig.cpuid.value, a.world, Wrap32(a.cpu.regs.rax), Wrap32(a.cpu.regs.rcx)).1
          != LeafReply(rig.cpuid.value, b.world, Wrap32(a.cpu.regs.rax), Wrap32(a.cpu.regs.rcx)).1
    ensures Disagree(a, EmulationExit(rig, a).0, b, EmulationExit(rig, b).0)
  {
    CpuidEventShowsAnswer(rig, a);
    CpuidEventShowsAnswer(rig, b);
  }

  lemma DispatchDisagree<W(!new)>(k: Kernel, id: u32, t: Tables<W>, a: Machine<W>, b: Machine<W>)
    requires Telling(k, t) && AlikeAt(a.cpu, b.cpu) && (Frank(k) ==> a.cpu.exit != Unknown(0))
    requires !AnsweredAlike(RigOf(k, id, t), a.world, b.world, a.cpu.exit, a.cpu.regs)
    ensures var rig := RigOf(k, id, t);
      Disagree(a, DispatchExit(rig, a, a.cpu.exit).0, b, DispatchExit(rig, b, b.cpu.exit).0)
  {
    var rig := RigOf(k, id, t);
    if a.cpu.exit.Io? {
      IoDisagree(rig, a, b);
    } else if a.cpu.exit.Mmio? {
      MmioDisagree(rig, a, b);
    } else {
      CpuidDisagree(rig, a, b);
    }
  }

  lemma FrankExit(k: Kernel, c: Cpu)
    requires Frank(k) && CpuOk(c) && Run(k, c).1.Some?
    ensures Run(k, c).0.exit != Unknown(0)
  {
    assert k.enter(c.tick, c.regs, c.sregs, c.ram, Reply(c)).outcome.Exited? ==>
      k.enter(c.tick, c.regs, c.sregs, c.ram, Reply(c)).outcome.exit != Unknown(0);
  }

  lemma StepDisagree<W(!new)>(k: Kernel, id: u32, t: Tables<W>, a: Machine<W>, b: Machine<W>)
    requires Deterministic(k) && Telling(k, t) && Alike(a.cpu, b.cpu) && !StepAnsweredAlike(RigOf(k, id, t), a, b.world)
    ensures var rig := RigOf(k, id, t); Disagree(a, Step(rig, a).0, b, Step(rig, b).0)
  {
    var rig := RigOf(k, id, t);
    RunAlike(k, a.cpu, b.cpu);
    if Frank(k) { FrankExit(k, a.cpu); }
    DispatchDisagree(k, id, t, AtExit(rig, a), AtExit(rig, b));
  }

  lemma DisagreeParts<W>(a: Machine<W>, a': Machine<W>, b: Machine<W>, b': Machine<W>)
    requires Disagree(a, a', b, b')
    ensures a.bus.events <= a'.bus.events && b.bus.events <= b'.bus.events
    ensures Parted(Untimed, a.bus.events, a'.bus.events, b.bus.events, b'.bus.events)
  {
    assert Untimed(LastEvent(a')).payload != Untimed(LastEvent(b')).payload;
  }

  lemma StepParts<W(!new)>(k: Kernel, id: u32, t: Tables<W>, x: Machine<W>, y: Machine<W>)
    requires Deterministic(k) && Telling(k, t) && Alike(x.cpu, y.cpu)
    ensures StepTells(Talk(k, id, t), x, y)
  {
    if !StepRepliesAlike(Talk(k, id, t), x, y) {
      StepRepliesDecide(k, id, t, x, y);
      StepDisagree(k, id, t, x, y);
      DisagreeParts(x, Step(RigOf(k, id, t), x).0, y, Step(RigOf(k, id, t), y).0);
    }
  }

  lemma StepsTell<W(!new)>(k: Kernel, id: u32, t: Tables<W>)
    requires Deterministic(k) && Telling(k, t)
    ensures Tells(Talk(k, id, t), AlikePair())
  {
    var d, rel := Talk(k, id, t), AlikePair<W>();
    forall x: Machine<W>, y: Machine<W> {:trigger StepTells(d, x, y)} | rel(x, y) ensures StepTells(d, x, y) {
      StepParts(k, id, t, x, y);
    }
  }

  // ---------------------------------------------------------------------------------------------
  // Runs.

  /** The same result after the same number of steps with the same events, timestamps aside. */
  ghost predicate SameRun<W>(rig: Rig<W>, a: Machine<W>, b: Machine<W>, n: nat) {
    var ra, rb := RunFor(Stepping(rig), a, n), RunFor(Stepping(rig), b, n);
    ra.1 == rb.1 && ra.2 == rb.2 && SameEvents(a.bus.events, ra.0.bus.events, b.bus.events, rb.0.bus.events)
  }

  ghost predicate RepliesAgree<W>(t: Tables<W>, v: W, w: W, s: seq<Access>) {
    Replies(React(t), v, s) == Replies(React(t), w, s)
  }

  /**
   * Two runs of a deterministic guest from states alike to it, whatever the callbacks remember in
   * each: if the callbacks would answer the accesses of the first alike in both states, the runs are
   * the same, count the same, and end alike; and only if, when CPUID answers show in the events.
   */
  lemma SameRunExactly<W(!new)>(k: Kernel, id: u32, t: Tables<W>, a: Machine<W>, b: Machine<W>, n: nat, c: Counter)
    requires Deterministic(k) && Alike(a.cpu, b.cpu) && Inert(a.bus.subs) && Inert(b.bus.subs)
    ensures var rig, s := RigOf(k, id, t), Accesses(k, id, t, a, n);
      var ra, rb := RunFor(Stepping(rig), a, n), RunFor(Stepping(rig), b, n);
      && (RepliesAgree(t, a.world, b.world, s) ==>
            && SameRun(rig, a, b, n) && SameOutcome(a, ra.0, b, rb.0, ra.1)
            && Count(rig, a, n, c) == Count(rig, b, n, c) && Accesses(k, id, t, b, n) == s)
      && (Telling(k, t) && SameRun(rig, a, b, n) ==> RepliesAgree(t, a.world, b.world, s))
  {
    var d, ok, rel, hit := Talk(k, id, t), Quiet<W>(), AlikePair<W>(), Hits(RigOf(k, id, t), c);
    StepsAnswer(k, id, t);
    StepsFollow(k, id, t, c);
    if RunRepliesAlike(d, a, b, n) {
      RunsFollow(d, a, b, n, ok, rel, hit);
    } else if Telling(k, t) {
      StepsTell(k, id, t);
      RunsPart(d, a, b, n, ok, rel, hit);
    }
  }

  /** What a run leaves the callbacks' state as. */
  lemma RunLeaves<W(!new)>(k: Kernel, id: u32, t: Tables<W>, m: Machine<W>, n: nat)
    requires Ok(m) && Inert(m.bus.subs)
    ensures var r := RunFor(Stepping(RigOf(k, id, t)), m, n);
      r.0.world == WorldAfter(React(t), m.world, Accesses(k, id, t, m, n)) && Inert(r.0.bus.subs)
  {
    StepsAnswer(k, id, t);
    RunAnswers(Talk(k, id, t), m, n, Quiet());
  }

  /** The first run from the snapshot of m0 stops, after j steps, in Halt or Shutdown. */
  ghost predicate FirstRun<W(!new)>(k: Kernel, id: u32, t: Tables<W>, m0: Machine<W>, j: nat) {
    && Deterministic(k) && Restorable(k, m0.cpu) && Ok(m0) && Settled(m0.cpu) && Inert(m0.bus.subs)
    && RunFor(Stepping(RigOf(k, id, t)), Snapshotted(RigOf(k, id, t), m0), j).1 in {Halt, ShutDown}
  }

  /** The machine after that run, with the snapshot restored. */
  ghost function Again<W(!new)>(k: Kernel, id: u32, t: Tables<W>, m0: Machine<W>, j: nat): Machine<W>
    requires FirstRun(k, id, t, m0, j)
  {
    var rig := RigOf(k, id, t);
    var end := RunFor(Stepping(rig), Snapshotted(rig, m0), j).0;
    RunStopsSettled(rig, Snapshotted(rig, m0), j);
    RewoundAlike(rig, m0, end);
    Rewound(rig, end, VM.Take(k, m0.cpu).1)
  }

  lemma AgainState<W(!new)>(k: Kernel, id: u32, t: Tables<W>, m0: Machine<W>, j: nat)
    requires FirstRun(k, id, t, m0, j)
    ensures var rig := RigOf(k, id, t);
      var again, end := Again(k, id, t, m0, j), RunFor(Stepping(rig), Snapshotted(rig, m0), j).0;
      Alike(Snapshotted(rig, m0).cpu, again.cpu) && again.world == end.world && again.bus == end.bus
  {
    var rig := RigOf(k, id, t);
    RunStopsSettled(rig, Snapshotted(rig, m0), j);
    RewoundAlike(rig, m0, RunFor(Stepping(rig), Snapshotted(rig, m0), j).0);
  }

  /**
   * Running again after a restore, for every deterministic guest and all callbacks: the second run
   * repeats the first if, and (when CPUID answers show in the events) only if, the callbacks in
   * the state the first run left them in answer its accesses as they did in the first run.
   */
  lemma RerunExactly<W(!new)>(k: Kernel, id: u32, t: Tables<W>, m0: Machine<W>, j: nat, c: Counter)
    requires FirstRun(k, id, t, m0, j)
    ensures var rig := RigOf(k, id, t);
      var first, again := Snapshotted(rig, m0), Again(k, id, t, m0, j);
      var s := Accesses(k, id, t, first, j);
      var agree := RepliesAgree(t, m0.world, WorldAfter(React(t), m0.world, s), s);
      && (agree ==> SameRun(rig, first, again, j) && Count(rig, first, j, c) == Count(rig, again, j, c))
      && (Telling(k, t) && SameRun(rig, first, again, j) ==> agree)
  {
    var rig := RigOf(k, id, t);
    var first, again := Snapshotted(rig, m0), Again(k, id, t, m0, j);
    RunLeaves(k, id, t, first, j);
    AgainState(k, id, t, m0, j);
    SameRunExactly(k, id, t, first, again, j, c);
  }
}
