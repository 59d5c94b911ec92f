/** The event records the hypervisor publishes. */
module Events {
  import opened Words

  datatype EventType =
    CpuidAccess | IoRead | IoWrite | MsrRead | MsrWrite | MemAccess | GuestHalt | GuestShutdown

  datatype Payload =
    | CpuidPayload(leaf: u32, subleaf: u32, eax: u32, ebx: u32, ecx: u32, edx: u32)
    | IoPayload(port: u16, ioSize: byte, ioValue: u32, ioWrite: bool)
    | MsrPayload(index: u32, msrValue: u64, msrWrite: bool)
    | MmioPayload(gpa: u64, mmioSize: byte, mmioValue: u64, mmioWrite: bool)
    | NoPayload

  /** A payload that is never assigned is the first alternative, all zero. */
  const DEFAULT_PAYLOAD := CpuidPayload(0, 0, 0, 0, 0, 0)

  datatype HvEvent = HvEvent(kind: EventType, vcpuId: u32, rip: u64, timestamp: int, payload: Payload)
}
