/** The agent's enriched events and their one-line summaries. */
module Introspection {
  import opened Words
  import opened Memory
  import opened Registers
  import opened Events
  import opened Text

  /** timestamp is in nanoseconds. */
  datatype GuestSnapshot = GuestSnapshot(
    rip: u64, rsp: u64, rax: u64, rbx: u64, rcx: u64, rdx: u64, rsi: u64, rdi: u64,
    r8: u64, r9: u64, r10: u64, r11: u64, r12: u64, r13: u64, r14: u64, r15: u64,
    rflags: u64, cr0: u64, cr3: u64, cr4: u64, timestamp: int)

  const NO_SNAPSHOT := GuestSnapshot(0, 0, 0, 0, 0, 0, 0, 0, 0, 0, 0, 0, 0, 0, 0, 0, 0, 0, 0, 0, 0)

  function SnapshotOf(r: Regs, s: Sregs, timestamp: int): GuestSnapshot {
    GuestSnapshot(r.rip, r.rsp, r.rax, r.rbx, r.rcx, r.rdx, r.rsi, r.rdi,
                  r.r8, r.r9, r.r10, r.r11, r.r12, r.r13, r.r14, r.r15,
                  r.rflags, s.cr0, s.cr3, s.cr4, timestamp)
  }

  /** The snapshot shows these registers, each under its own name. */
  predicate Pictures(p: GuestSnapshot, r: Regs, s: Sregs) {
    && p.rip == r.rip && p.rsp == r.rsp && p.rflags == r.rflags
    && p.rax == r.rax && p.rbx == r.rbx && p.rcx == r.rcx && p.rdx == r.rdx && p.rsi == r.rsi && p.rdi == r.rdi
    && p.r8 == r.r8 && p.r9 == r.r9 && p.r10 == r.r10 && p.r11 == r.r11
    && p.r12 == r.r12 && p.r13 == r.r13 && p.r14 == r.r14 && p.r15 == r.r15
    && p.cr0 == s.cr0 && p.cr3 == s.cr3 && p.cr4 == s.cr4
  }

  datatype IntrospectionEvent = IntrospectionEvent(
    base: HvEvent, snapshot: GuestSnapshot, memDump: Option<seq<byte>>, summary: string)

  function PayloadText(kind: EventType, p: Payload): string {
    match p
    case CpuidPayload(leaf, subleaf, eax, ebx, ecx, edx) =>
      "CPUID leaf=0x" + HexUpper(leaf) + " sub=0x" + HexUpper(subleaf) + " => EAX=0x" + HexUpper(eax)
      + " EBX=0x" + HexUpper(ebx) + " ECX=0x" + HexUpper(ecx) + " EDX=0x" + HexUpper(edx)
    case IoPayload(port, size, value, isWrite) =>
      (if isWrite then "OUT" else "IN") + " port=0x" + HexUpper(port)
      + " size=" + Dec(size) + "B" + " value=0x" + HexUpper(value)
    case MsrPayload(index, value, isWrite) =>
      (if isWrite then "WRMSR" else "RDMSR") + " index=0x" + HexUpper(index) + " value=0x" + HexUpper(value)
    case MmioPayload(gpa, size, value, isWrite) =>
      (if isWrite then "MMIO-WR" else "MMIO-RD") + " gpa=0x" + HexUpper(gpa)
      + " size=" + Dec(size) + "B" + " value=0x" + HexUpper(value)
    case NoPayload =>
      if kind == GuestHalt then "HLT" else if kind == GuestShutdown then "SHUTDOWN" else "EVENT"
  }

  /** VmiAgent::buildSummary. */
  function Summary(e: HvEvent, s: GuestSnapshot): string {
    "[VCPU" + HexUpper(e.vcpuId) + "] RIP=0x" + HexUpper(s.rip) + " | " + PayloadText(e.kind, e.payload)
  }

  lemma PlainField(before: string, name: string, n: nat)
    requires AllPlain(before) && AllPlain(name)
    ensures AllPlain(before + name + HexUpper(n))
  {
    PlainDigits(n, true);
  }

  lemma PlainSized(before: string, size: nat, value: nat)
    requires AllPlain(before)
    ensures AllPlain(before + " size=" + Dec(size) + "B" + " value=0x" + HexUpper(value))
  {
    PlainDigits(size, true);
    PlainDigits(value, true);
  }

  lemma PlainCpuid(kind: EventType, p: Payload)
    requires p.CpuidPayload?
    ensures AllPlain(PayloadText(kind, p))
  {
    PlainDigits(p.leaf, true);
    var t0 := "CPUID leaf=0x" + HexUpper(p.leaf);
    var t1 := t0 + " sub=0x" + HexUpper(p.subleaf);
    PlainField(t0, " sub=0x", p.subleaf);
    var t2 := t1 + " => EAX=0x" + HexUpper(p.eax);
    PlainField(t1, " => EAX=0x", p.eax);
    var t3 := t2 + " EBX=0x" + HexUpper(p.ebx);
    PlainField(t2, " EBX=0x", p.ebx);
    var t4 := t3 + " ECX=0x" + HexUpper(p.ecx);
    PlainField(t3, " ECX=0x", p.ecx);
    PlainField(t4, " EDX=0x", p.edx);
  }

  lemma PlainPayload(kind: EventType, p: Payload)
    ensures AllPlain(PayloadText(kind, p))
  {
    match p {
      case CpuidPayload(_, _, _, _, _, _) =>
        PlainCpuid(kind, p);
      case IoPayload(port, size, value, isWrite) =>
        var t0 := if isWrite then "OUT" else "IN";
        PlainField(t0, " port=0x", port);
        PlainSized(t0 + " port=0x" + HexUpper(port), size, value);
      case MsrPayload(index, value, isWrite) =>
        var t0 := if isWrite then "WRMSR" else "RDMSR";
        PlainField(t0, " index=0x", index);
        PlainField(t0 + " index=0x" + HexUpper(index), " value=0x", value);
      case MmioPayload(gpa, size, value, isWrite) =>
        var t0 := if isWrite then "MMIO-WR" else "MMIO-RD";
        PlainField(t0, " gpa=0x", gpa);
        PlainSized(t0 + " gpa=0x" + HexUpper(gpa), size, value);
      case NoPayload =>
    }
  }

  /** No summary ever needs escaping in a JSON string. */
  lemma PlainSummary(e: HvEvent, s: GuestSnapshot)
    ensures AllPlain(Summary(e, s))
  {
    PlainField("", "[VCPU", e.vcpuId);
    var t0 := "[VCPU" + HexUpper(e.vcpuId);
    assert "" + "[VCPU" == "[VCPU";
    PlainField(t0, "] RIP=0x", s.rip);
    PlainPayload(e.kind, e.payload);
  }

  /** A shutdown as the trapper publishes it, with the default payload, is summarised as a CPUID access. */
  lemma ShutdownReadsAsCpuid()
    ensures "CPUID leaf=0x" <= PayloadText(GuestShutdown, DEFAULT_PAYLOAD)
    ensures PayloadText(GuestShutdown, NoPayload) == "SHUTDOWN"
  {
  }
}
