/** The general-purpose and special registers that the hypervisor reads and writes. */
module Registers {
  import opened Words

  datatype Regs = Regs(
    rax: u64, rbx: u64, rcx: u64, rdx: u64, rsi: u64, rdi: u64, rsp: u64, rbp: u64,
    r8: u64, r9: u64, r10: u64, r11: u64, r12: u64, r13: u64, r14: u64, r15: u64,
    rip: u64, rflags: u64)

  datatype Segment = Segment(
    base: u64, limit: u32, selector: u16, kind: byte, present: byte, dpl: byte,
    db: byte, s: byte, l: byte, g: byte, avl: byte, unusable: byte)

  /** rest stands for the descriptor tables, TR, LDT and the APIC state, which are only carried along. */
  datatype Sregs = Sregs(
    cs: Segment, ds: Segment, es: Segment, fs: Segment, gs: Segment, ss: Segment,
    cr0: u64, cr3: u64, cr4: u64, efer: u64, rest: seq<byte>)

  const ZERO_REGS := Regs(0, 0, 0, 0, 0, 0, 0, 0, 0, 0, 0, 0, 0, 0, 0, 0, 0, 0)
  const ZERO_SEGMENT := Segment(0, 0, 0, 0, 0, 0, 0, 0, 0, 0, 0, 0)
  const ZERO_SREGS := Sregs(ZERO_SEGMENT, ZERO_SEGMENT, ZERO_SEGMENT, ZERO_SEGMENT, ZERO_SEGMENT, ZERO_SEGMENT, 0, 0, 0, 0, [])
}
