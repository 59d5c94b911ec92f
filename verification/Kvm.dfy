/**
 * The kernel as the environment of the hypervisor, and the vCPU wrapper around it. The kernel is
 * a record of functions of the time of the call, so that nothing is assumed about two calls
 * giving the same answer; a deterministic kernel is one that ignores the time.
 */
module Kvm {
  import opened Words
  import opened Memory
  import opened Registers

  /** What the exit fields of the shared run page say; NoExit before the first KVM_RUN. */
  datatype Exit =
    | NoExit
    | Unknown(hardwareReason: u64)
    | Io(out: bool, size: byte, port: u16, count: u32, offset: nat)
    | Hlt
    | Mmio(addr: u64, len: u32, write: bool)
    | Shutdown
    | Intr
    | InternalError(suberror: u32)
    | Other(reason: u32)

  const EINTR: int := 4
  const KVM_INTERNAL_ERROR_EMULATION: u32 := 1

  /** Offset of mmio.data in the run page, and the end of that field; port data lies beyond it. */
  const MMIO_DATA: nat := 40
  const MMIO_END: nat := 48

  /** data holds the bytes the kernel stores at the place of the access; the page is otherwise stale. */
  datatype Outcome = Exited(exit: Exit, data: seq<byte>) | Failed(errno: int)

  datatype Entry = Entry(regs: Regs, sregs: Sregs, ram: seq<seq<byte>>, outcome: Outcome)

  datatype Kernel = Kernel(
    enter: (nat, Regs, Sregs, seq<seq<byte>>, seq<byte>) -> Entry,
    regsReadable: (nat, Regs) -> bool,
    regsWritable: (nat, Regs) -> bool,
    sregsReadable: (nat, Sregs) -> bool,
    sregsWritable: (nat, Sregs) -> bool,
    clock: nat -> int)

  /** vCPU registers, guest RAM, the run page, and the number of kernel calls made so far. */
  datatype Cpu = Cpu(regs: Regs, sregs: Sregs, ram: seq<seq<byte>>, exit: Exit, page: seq<byte>, tick: nat)

  function AccessAt(x: Exit): nat {
    if x.Io? then x.offset else MMIO_DATA
  }

  /** Bytes of the access that the handlers and the trapper move: at most 4 for ports, 8 for MMIO. */
  function AccessSize(x: Exit): nat {
    match x
    case Io(_, size, _, _, _) => Min(size, 4)
    case Mmio(_, len, _) => Min(Wrap8(len), 8)
    case _ => 0
  }

  predicate FromGuest(x: Exit) {
    (x.Io? && x.out) || (x.Mmio? && x.write)
  }

  predicate ToGuest(x: Exit) {
    (x.Io? && !x.out) || (x.Mmio? && !x.write)
  }

  predicate InPage(x: Exit, pageSize: nat) {
    MMIO_END <= pageSize && (x.Io? ==> MMIO_END <= x.offset && x.offset + AccessSize(x) <= pageSize)
  }

  predicate CpuOk(c: Cpu) {
    InPage(c.exit, |c.page|)
  }

  /** The bytes at the place of the access. */
  function AccessBytes(x: Exit, page: seq<byte>): (b: seq<byte>)
    requires InPage(x, |page|)
    ensures |b| == AccessSize(x)
  {
    page[AccessAt(x)..AccessAt(x) + AccessSize(x)]
  }

  /** What the kernel takes back from the page to complete the previous exit when it is re-entered. */
  function Reply(c: Cpu): seq<byte>
    requires CpuOk(c)
  {
    if ToGuest(c.exit) then AccessBytes(c.exit, c.page) else []
  }

  /** What KVM can answer: RAM keeps its shape, accesses lie in the page and writes carry their bytes. */
  predicate Possible(e: Entry, c: Cpu) {
    && SameShape(e.ram, c.ram)
    && (e.outcome.Exited? ==>
          var x, data := e.outcome.exit, e.outcome.data;
          && x != NoExit
          && InPage(x, |c.page|)
          && AccessAt(x) + |data| <= |c.page|
          && (x.Mmio? ==> |data| <= 8)
          && (FromGuest(x) ==> AccessSize(x) <= |data|)
          && (!x.Io? && !x.Mmio? ==> data == []))
  }

  /** One KVM_RUN; an answer KVM cannot give counts as a failed call. */
  function Enter(k: Kernel, c: Cpu): (e: Entry)
    requires CpuOk(c)
    ensures Possible(e, c)
  {
    var e := k.enter(c.tick, c.regs, c.sregs, c.ram, Reply(c));
    if Possible(e, c) then e else Entry(c.regs, c.sregs, c.ram, Failed(0))
  }

  /** VCpu::run: EINTR is an exit like any other, every other failure is an error. */
  function Run(k: Kernel, c: Cpu): (r: (Cpu, Option<Exit>))
    requires CpuOk(c)
    ensures CpuOk(r.0) && |r.0.page| == |c.page| && SameShape(r.0.ram, c.ram)
    ensures r.1.Some? ==> r.1.value == r.0.exit && r.0.exit != NoExit
  {
    var e := Enter(k, c);
    var c' := c.(regs := e.regs, sregs := e.sregs, ram := e.ram, tick := c.tick + 1);
    match e.outcome
    case Exited(x, data) => (c'.(exit := x, page := Overlay(c.page, AccessAt(x), data)), Some(x))
    case Failed(errno) => if errno == EINTR then (c'.(exit := Intr), Some(Intr)) else (c', None)
  }

  /**
   * A run against the kernel's answer: registers and memory are the kernel's; an exit is reported with its
   * bytes, and only those, laid over the page; an interrupted call reports Intr and leaves the page alone;
   * any other failure reports nothing and leaves exit and page alone.
   */
  lemma RunOutcome(k: Kernel, c: Cpu)
    requires CpuOk(c)
    ensures var e, r := Enter(k, c), Run(k, c);
      && (r.0.regs, r.0.sregs, r.0.ram, r.0.tick) == (e.regs, e.sregs, e.ram, c.tick + 1)
      && r.1 == (match e.outcome
                 case Exited(x, _) => Some(x)
                 case Failed(errno) => if errno == 4 then Some(Intr) else None)
      && r.0.exit == (if r.1.Some? then r.1.value else c.exit)
      && forall i :: 0 <= i < |c.page| ==>
           r.0.page[i] ==
             if e.outcome.Exited? && AccessAt(r.0.exit) <= i < AccessAt(r.0.exit) + |e.outcome.data|
             then e.outcome.data[i - AccessAt(r.0.exit)] else c.page[i]
  {
  }

  function GetRegs(k: Kernel, c: Cpu): (Cpu, Option<Regs>) {
    (c.(tick := c.tick + 1), if k.regsReadable(c.tick, c.regs) then Some(c.regs) else None)
  }

  function SetRegs(k: Kernel, c: Cpu, regs: Regs): (Cpu, bool) {
    if k.regsWritable(c.tick, regs) then (c.(regs := regs, tick := c.tick + 1), true)
    else (c.(tick := c.tick + 1), false)
  }

  function GetSregs(k: Kernel, c: Cpu): (Cpu, Option<Sregs>) {
    (c.(tick := c.tick + 1), if k.sregsReadable(c.tick, c.sregs) then Some(c.sregs) else None)
  }

  function SetSregs(k: Kernel, c: Cpu, sregs: Sregs): (Cpu, bool) {
    if k.sregsWritable(c.tick, sregs) then (c.(sregs := sregs, tick := c.tick + 1), true)
    else (c.(tick := c.tick + 1), false)
  }

  function Now(k: Kernel, c: Cpu): (Cpu, int) {
    (c.(tick := c.tick + 1), k.clock(c.tick))
  }
}
