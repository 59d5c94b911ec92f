# minBp: a verified model of the hypervisor

minBp is a small user-space hypervisor over the Linux KVM API. This project models the parts of it
that are its own logic and proves what they promise.

- **The kernel** (`Kvm`, `VCpu`) is the environment: a record of functions of the time of the call, so a
  kernel may answer the same call differently every time. KVM_RUN takes registers, guest memory and the
  reply to the previous exit, and gives new ones and an exit; it writes only the bytes of the access into
  the shared run page, everything else there is stale. Register ioctls succeed or fail. An answer KVM cannot
  give (memory of another shape, data outside the page) counts as a failed KVM_RUN.
- **Dialogues** (`Dialogues`, `Reruns`): a run seen as accesses of the guest and answers of the callbacks.
- **Callbacks** (device callbacks, CPUID leaves, event handlers, introspection callbacks) are functions on
  a type `W`, the state that C++ closures capture by reference; `Cell<W>` is that variable. A handler that
  captured the VM finds there the vCPU as it is when it is called (`look`, in `ExitLoop.Rig`).
- **Guest memory** is a byte array per region (`Memory`, `Regions`, `VirtualMachine`).
- **Paging** follows section 4.5 (4-level paging) of the Intel SDM, volume 3A, over the bytes in memory,
  reserved bits included. **JSON** follows sections 2 to 7 of RFC 8259.
- Counters wrap at 2^64, ids and slots at 2^32, as the C++ types do.

Each class method is proved against a function on values; the theorems are about those functions.

## Main results

1. **Page tables.** After a flat load the processor's walk over the final bytes of RAM, from the CR3 that was
   set, is the identity on exactly the first gigabyte and not present everywhere else, for all 2^64 linear
   addresses (`LoaderLaws.LoadedGuestTranslates`, `PageTables.IdentityWalk`). The guest sees its own image at its
   load address if and only if the image ends within that gigabyte and, where it reaches into the 12 KiB of the
   tables, says what the tables say (`LoaderLaws.GuestSeesImage`); the default load address 0 lets an image of more
   than 8 KiB be damaged (`LoaderLaws.DefaultLoadDamages`). The vCPU is in 64-bit mode with a stack it can push on
   (`LoadedState.FlatEntry`), or in real mode (`LoadedState.RealEntry`), and a load succeeds under exactly the conditions
   of `LoadedState.LoadSucceeds`.
2. **Repeatability.** The repository's README promises complete VM state and repeatable execution; what callbacks
   remember is not in a snapshot. So:
   - When no reply to the guest depends on what callbacks remember, restoring a snapshot and running again gives the
     same result, the same number of steps, the same counter increments and the same events, timestamps aside
     (`Repeatability.Repeats`).
   - In general a run repeats after a restore exactly when the callbacks, in the state the first run left them in,
     answer its accesses as they did; only CPUID answers that no event shows are an exception (`Reruns.RerunExactly`,
     `RepeatLimits.SilentCpuid`).
   - Every deterministic guest repeats if and only if the callbacks answer any questions a second time as they did the
     first (`RepeatLimits.EveryGuestRepeatsExactly`), and then every later run repeats too
     (`RepeatLimits.EveryRerunRepeats`). State-free callbacks are enough for that but not necessary
     (`RepeatLimits.NotStateFreeStillRepeats`).
   - On the demo's own MMIO device a run repeats if and only if each of its status reads stays within the low four
     bytes or the run's number of input writes does not show in it, and follows an input write of the same run or finds
     the last value unchanged (`DemoRerun.DemoRepeatsExactly`). The repository's guest, which reads two bytes, repeats
     (`DemoRerun.SimpleGuestRepeats`). A run with an eight-byte status read never does, unless its number of input
     writes is a multiple of 2^32 (`DemoRerun.RerunDiffers`).
   - A restored machine looks to the guest as at the snapshot if and only if the same reply is pending
     (`Repeatability.RewoundAlike`): restored while a read is pending, a guest goes on instead of starting again
     (`RepeatLimits.PendingReadDiffers`).
3. **Fuzzing.** Every iteration starts from exactly the snapshot with one byte replaced (`Fuzzing.EveryStartClean`).
   Iterations with the same input behave the same when no reply depends on what callbacks remember
   (`Fuzzing.SameInputSameRun`), and in general exactly when the callbacks answer the later one as they did the earlier
   one (`Fuzzing.SameInputExactly`).
4. **Exits.** The result of every exit, and of every KVM_RUN, said without the handlers (`Accounting.ExitResult`,
   `Accounting.StepResult`), exact accounting for every wiring and run (`Accounting.RunCounts`), composition of bounded
   runs (`Loops`), agreement of registered callback, guest, event and subscribers on every access (`EventValues`).
5. **Bus and log.** Each subscriber gets exactly its inbox (`EventBus.EachSubscriberGetsItsInbox`), the agent's log is
   exactly what was published while it lived (`VmiLog.AgentLifetime`) unless it was moved (`VmiLog.MovedAgent`), the JSON
   text of any log is well-formed and can be read back (`EventLog.LogRoundTrip`). Over any run a subscription to the
   trapper's dispatcher receives exactly the events of the run (`Monitoring.RunIsReceived`), an agent subscribed there
   logs exactly those (`Monitoring.RunIsLogged`), and the text it prints reads back as one record per event, with its
   vCPU, rip and, out of the words of its summary (`SummaryReader.SummaryRead`), its payload (`Monitoring.RunIsPrinted`).
6. **Resources.** Exactly-once release of host mappings, each after its slot is cleared, under moves of regions
   (`Regions.ReleasedExactlyOnce`) and of whole VMs with their vCPUs (`VmLifetimes.VmsReleaseEverything`),
   guest-physical reads against a flat map, and the MSR filter.

Where code and documentation disagree the model follows the code: an unregistered IN delivers all ones in every byte
of the access (include/hv/IoPortHandler.h says 0xFF), a shutdown event carries an all-zero CPUID payload and so is
summarised as a CPUID access, a CPUID event reports the answer in place of the leaf that was asked for, and the demo's
callback for CPUID leaf 1, said to mask one bit, answers with zeroes.

## Model

| member | source | states |
|---|---|---|
| Words.LeValueOfBytes | src/MmioHandler.cpp:49-50 | copying n little-endian bytes of a value out and reading them back gives the value modulo 256^n |
| Words.LeBytesOfValue | src/MmioHandler.cpp:31-32 | copying bytes into a zeroed little-endian integer loses nothing |
| Words.OrDisjoint | src/GuestLoader.cpp:216-222 | OR of an aligned address and flags below the alignment is their sum |
| Memory.CopyInto | src/MemoryRegion.cpp:93-98 | a bounded copy overlays exactly its range and nothing else |
| Regions.MemoryRegion.Create | src/MemoryRegion.cpp:13-39 | zeroed memory of the given size, registered under descriptor and slot, on success; a mapping that cannot be registered is unmapped at once; a failed mmap maps nothing |
| Regions.MemoryRegion.Destruct | src/MemoryRegion.cpp:50-61 | clears the slot and then unmaps what is owned, with its length; nothing for a moved-from object |
| Regions.MemoryRegion.MoveFrom | src/MemoryRegion.cpp:63-70 | the new object is the old one; the source keeps everything but the mapping |
| Regions.MemoryRegion.MoveAssign | src/MemoryRegion.cpp:72-91 | the target's slot is cleared, its mapping released and the source's taken over; self-assignment changes nothing |
| Regions.MemoryRegion.Write | src/MemoryRegion.cpp:93-98 | the region becomes its old contents overlaid by the data |
| Memory.OverlayRead | src/MemoryRegion.cpp:93-105 | reading the range that was written gives the data written |
| Regions.RunKeeps | src/MemoryRegion.cpp:13-91 | every sequence of creations, moves, self-assignments and destructions keeps: one owner per mapping, no release while owned, no leak, lengths and registrations remembered |
| Regions.ReleasedExactlyOnce | src/MemoryRegion.cpp:13-91 | from an empty program each mapping has at most one owner, is never unmapped while owned or twice, and is unmapped exactly once with its own length when no objects are left; the slot a mapping was registered under is cleared right before, and no other slot ever |
| VirtualMachines.VirtualMachine.Relocate | src/VirtualMachine.cpp:64 | growing the vector moves every region to new storage, keeps all their values and unmaps nothing |
| VirtualMachines.VirtualMachine.AddMemoryRegion | src/VirtualMachine.cpp:55-67 | region i holds slot i and the next slot is the number of regions, for successes and failures, with and without reallocation; failures change neither; a success releases no mapping, a failed registration only the one it made |
| VmLifetimes.AssignIsDropAndMove | src/VirtualMachine.cpp:37-53 | assigning over a VM is destroying it and constructing it anew from the source |
| VmLifetimes.VmsReleaseEverything | src/VirtualMachine.cpp:19-79 | after any creations of VMs, additions of regions and vCPUs (failed ones included), moves, assignments and destructions: a VM with its descriptor has region i registered under it and slot i, a moved-from one has no regions or vCPUs, no descriptor (of a VM or vCPU) is closed while held or twice, and when no VM is left every descriptor has been closed and every mapping unmapped exactly once |
| VirtualMachines.SlotsUnique | src/VirtualMachine.cpp:57-65 | slots are never shared, and the next one is new |
| VirtualMachines.VirtualMachine.AddVCpu | src/VirtualMachine.cpp:69-79 | a created vCPU is appended over the VM's memory, a refused one changes nothing |
| VirtualMachines.VirtualMachine.TakeSnapshot | src/VirtualMachine.cpp:146-164 | registers of vCPU 0 (zero when unreadable) and a copy of every region |
| VirtualMachines.VirtualMachine.RestoreSnapshot | src/VirtualMachine.cpp:166-191 | registers written when the kernel accepts them, every snapshotted region overwritten in place with as much of its buffer as it takes, whichever VM the snapshot is of; later regions and the run page untouched |
| VirtualMachines.StaysFitting | src/VirtualMachine.cpp:182-190 | regions are append-only with fixed sizes, so every later restore copies in bounds |
| VirtualMachines.SnapshotRoundTrip | src/VirtualMachine.cpp:146-191 | after any runs, register writes, pokes, added regions and other restores, a restore brings back every snapshotted region byte for byte, leaves later regions alone, and brings back each register file exactly when the kernel can read and write it |
| VirtualMachines.RestoredBytes | src/VirtualMachine.cpp:182-190 | restoring a snapshot of any VM: each byte comes from the buffer of its region's index, and stays where the snapshot has none |
| PageTables.IdentityWalk | src/GuestLoader.cpp:207-222 | over memory that holds the three tables the 4-level walk maps every address below 2^30 to itself, present, writable, supervisor, and finds a non-present entry for every other 48-bit address |
| PageTables.EntryValues | src/GuestLoader.cpp:216-222 | the 1536 table words are the addresses plus their flags |
| GuestLoader.FillTables | src/GuestLoader.cpp:207-222 | clearing, two root entries and the 512-iteration loop overlay exactly the 12 KiB of tables, byte for byte; the list of all stores made |
| GuestLoader.LoadStoresFit | src/GuestLoader.cpp:191-222 | all table stores of a flat load lie in guest memory if and only if it has at most 0x2000 or at least 0x5000 bytes; only the base is checked |
| GuestLoader.CheckExact | src/GuestLoader.cpp:27-34 | the 64-bit check lets only images through that fit, if and only if the end of the image does not wrap to within guest memory |
| GuestLoader.WrappingImage | src/GuestLoader.cpp:27-34 | two bytes at address 2^64 - 1 pass the check and do not fit |
| GuestLoader.BuildIdentityPageTables | src/GuestLoader.cpp:191-228 | the tables go into the first region that covers their base; without one nothing changes and the error is reported |
| GuestLoader.SetupVCpu | src/GuestLoader.cpp:89-189 | special registers are read, adjusted and written, then general ones; stops at the first failure with the state reached; what the state means is in LoadedState |
| GuestLoader.LoadedRam | src/GuestLoader.cpp:27-34 | RAM after a load is, byte by byte, the tables in their range (flat mode), else the image in its range, else zero |
| GuestLoader.Load | src/GuestLoader.cpp:11-61 | which error is reported, in the loader's order, and for each what guest memory and which vCPU state it leaves: nothing, zeroed memory, the image, the image and a reset vCPU, or image, tables and the vCPU as far as its setup got; one region in slot 0 |
| GuestLoader.LoadedLeft | src/GuestLoader.cpp:11-61 | a load without an error has left exactly the loaded RAM and one vCPU in the target state |
| GuestLoader.LoadBytes | src/GuestLoader.cpp:63-87 | the same for raw code in real mode, entered at the load address; empty code is accepted |
| LoaderLaws.TablesDecide | src/GuestLoader.cpp:173-176 | with the control registers that are set, translation of every 64-bit address is settled by the three table pages alone |
| LoaderLaws.IdentityMapped | src/GuestLoader.cpp:50-59 | after a flat load of any image, every 64-bit linear address maps to itself below 1 GiB and is not present (or not canonical) elsewhere |
| LoaderLaws.LoadedGuestTranslates | src/GuestLoader.cpp:11-61 | the same end to end, through the registers and memory that a successful load leaves in the vCPU |
| LoaderLaws.ImageInRam | src/GuestLoader.cpp:27-59 | a byte of the image survives the load if and only if it is clear of the tables or equal to what they have there |
| LoaderLaws.GuestSeesImage | src/GuestLoader.cpp:33-59 | the guest reads its whole image at its load address through its page tables if and only if the image ends within the first gigabyte and agrees with the tables where it reaches into them |
| LoaderLaws.TablesOverwriteImage | src/GuestLoader.cpp:50-59 | an image over the start of the tables keeps its byte there if and only if that is 0x03 |
| LoaderLaws.DefaultLoadDamages | include/hv/GuestLoader.h:27-34 | with the default parameters a 12 KiB image with 0xFF at 0x2000 is loaded and not seen by the guest |
| LoaderLaws.RealModeEntry | src/GuestLoader.cpp:86-132 | the fetch address is the load address if and only if that is below 64 KiB, and then the first code byte is fetched; otherwise a zero is; CR0 loses only PE |
| LoadedState.FlatEntry | src/GuestLoader.cpp:134-189 | a flat load that succeeds leaves the vCPU in 64-bit mode by the rules of the SDM (long mode active; CS present, code, L set, D clear, base 0; flat writable data in the other five), at the entry point, interrupts off, all other registers zero, with the eight bytes below RSP mapped present and writable |
| LoadedState.StackBacked | src/GuestLoader.cpp:183-188 | that stack is backed by guest memory if and only if the memory has at least 2 MiB |
| LoadedState.RealEntry | src/GuestLoader.cpp:89-132 | a real-mode load that succeeds leaves PE clear and every other control bit as reset, all six segments 64 KiB at base 0, RSP 0xFFF0, RFLAGS 2, and 16 bits of the entry point in IP |
| LoadedState.LoadSucceeds | src/GuestLoader.cpp:11-61 | a load succeeds if and only if there is an image, the host gives memory and vCPU, the 64-bit end of the image is inside the memory, the base of the tables too, and the kernel takes the registers |
| LoadedState.LoadReports | src/GuestLoader.cpp:11-61 | otherwise each error is reported exactly when its step is the first to fail |
| LoadedState.FailedSetup | src/GuestLoader.cpp:89-189 | a failed setup never changes the general registers, and the special ones only when the last call was the one refused |
| VCpus.VCpu.Run | src/VCpu.cpp:81-92 | one KVM_RUN on registers, memory and page; EINTR is an exit, every other failure an error |
| Kvm.RunOutcome | src/VCpu.cpp:81-92 | against the kernel: its registers and memory, its exit with only its own bytes laid over the run page; EINTR reports Intr, any other failure nothing |
| VCpus.VCpu.GetRegs | src/VCpu.cpp:94-102 | the registers, or nothing when the kernel refuses |
| VCpus.VCpu.SetRegs | src/VCpu.cpp:104-111 | the registers are replaced exactly when the kernel accepts them |
| Handlers.IoPortHandler.Handle | src/IoPortHandler.cpp:17-56 | callback state, page and counters after an IN or OUT exit; what these are is Devices.PortCallbacks |
| Handlers.MmioHandler.Handle | src/MmioHandler.cpp:18-54 | narrowed lengths 1 to 8 are accepted, others change nothing; callback state, page and counters after an access |
| Handlers.CpuidHandler.Handle | src/CpuidHandler.cpp:12-46 | registers rewritten by the leaf callback or the host, counted only when read and written back |
| Devices.PortCallbacks | src/IoPortHandler.cpp:17-56 | the callback registered for the port, if any, is given port, size, count and for OUT the value decoded from the page; OUT leaves the page, IN replaces exactly its bytes by the reply, all ones without a callback |
| Devices.RegisterCallbacks | src/MmioHandler.cpp:18-54 | the same for MMIO accesses of 1 to 8 bytes, with address and narrowed length |
| Devices.LeafCallbacks | src/CpuidHandler.cpp:12-46 | the callback of leaf EAX, or else the host, is asked that leaf with subleaf ECX; its answer goes into the four registers when the kernel lets them be read and written; failed writes leave the registers but keep what the callback did |
| Devices.UnregisteredPort | src/IoPortHandler.cpp:42-50 | an unregistered port delivers all ones in every byte of the access |
| Devices.UnregisteredRegister | src/MmioHandler.cpp:43-50 | so does an unregistered MMIO register |
| EventValues.OutAgreement | src/InstructionTrapper.cpp:101-131 | an OUT exit gives the registered callback the value decoded from the page, publishes one event with vCPU, time, rip and that value, to subscribers that find the callback's effect; the page is untouched |
| EventValues.InAgreement | src/InstructionTrapper.cpp:101-131 | event value, bytes for the guest and the registered callback's reply agree modulo 256^size, all ones when there is none; subscribers find the callback's effect; only the access changes in the page |
| EventValues.WriteAgreement | src/InstructionTrapper.cpp:151-181 | the same as OUT for MMIO writes of 1 to 8 bytes |
| EventValues.ReadAgreement | src/InstructionTrapper.cpp:151-181 | the same as IN for MMIO reads of 1 to 8 bytes |
| EventValues.CpuidEventShowsAnswer | src/InstructionTrapper.cpp:186-202 | the callback of the leaf, or the host, is asked EAX and ECX and its answer injected; the event's leaf and subleaf are the injected EAX and ECX, all zero when the registers cannot be read back |
| EventValues.StopPayload | src/InstructionTrapper.cpp:71-100 | the halt event has no payload, the shutdown event an all-zero CPUID payload and no rip; nothing else happens |
| EventValues.UnattendedAccess | src/InstructionTrapper.cpp:101-181 | without a handler an access is reported with the bytes in the page and changes nothing |
| EventValues.UnattendedCpuid | src/InstructionTrapper.cpp:182-217 | without a CPUID handler the event shows the registers the guest left, and nothing is injected |
| Accounting.ExitResult | src/InstructionTrapper.cpp:69-223 | Halt exactly on HLT, Shutdown exactly on a shutdown, Error exactly on an MMIO length outside 1 to 8 with a handler, an internal error other than emulation, or a failed CPUID; everything else continues, and interrupts, other reasons and unknown hardware reasons leave the machine as it is |
| Accounting.StepResult | src/InstructionTrapper.cpp:48-58 | the same for one KVM_RUN against the kernel's answer: an interrupted call continues, any other failed one is an error and nothing is dispatched |
| InstructionTrappers.InstructionTrapper.Dispatch | src/InstructionTrapper.cpp:60-223 | handlers, events and result for every exit reason and every set of missing handlers; the results are Accounting.ExitResult, the events and replies those of EventValues |
| InstructionTrappers.InstructionTrapper.Step | src/InstructionTrapper.cpp:48-58 | one KVM_RUN, counted when it succeeds, and its exit |
| InstructionTrappers.InstructionTrapper.RunLoop | src/InstructionTrapper.cpp:32-46 | the state and result of the bounded run, or of the unlimited run of a guest that stops |
| Loops.ContinueUsesLimit | src/InstructionTrapper.cpp:35-45 | Continue is returned only after exactly the limit's number of steps |
| Loops.RunsCompose | src/InstructionTrapper.cpp:32-46 | a run of a that continues followed by a run of b is the run of a+b |
| Loops.LargerLimit | src/InstructionTrapper.cpp:32-46 | when the first non-Continue step is number k every limit of at least k gives the same run |
| Loops.StopUnique | src/InstructionTrapper.cpp:37-42 | the step at which a run stops is determined |
| Loops.RunsForever | src/InstructionTrapper.cpp:32-46 | the unlimited loop never returns if and only if every bounded one returns Continue |
| Loops.LoopIsItsRuns | src/main.cpp:252-284 | an iteration loop is its runs: each prepared from the end of the one before, which was no error; it ends where the last run ends and stops short exactly when that is an error |
| Accounting.RunCounts | src/InstructionTrapper.cpp:48-223 | over every run and wiring each counter grows modulo 2^64 by exactly the exits it stands for: successful KVM_RUN calls, IN, OUT, accepted MMIO reads and writes, handled CPUIDs, published events |
| Repeatability.StepAlike | src/InstructionTrapper.cpp:48-223 | from states alike to the guest, a step that the callbacks answer alike has the same result and the same event but for its time, and leaves alike states unless it failed |
| Repeatability.RunsAlike | src/InstructionTrapper.cpp:32-223 | the same for whole runs blind to callback state, failed ones included, with equal step counts and equal increments of every counter |
| Repeatability.RewoundAlike | src/VirtualMachine.cpp:166-191 | a restored machine is alike to the one the snapshot was taken of if and only if the same reply is pending |
| Repeatability.Repeats | src/VirtualMachine.cpp:146-191 | a run after a restore with the same reply pending, on a deterministic kernel and blind to callback state, repeats the run from the snapshot: result, steps, counters, events without timestamps, guest-visible state |
| Repeatability.RunStopsSettled | src/InstructionTrapper.cpp:71-100 | a run that ends in Halt or Shutdown leaves no access pending and the memory shape unchanged |
| Repeatability.RepeatsAfterStop | src/main.cpp:252-267 | the same after any first run that ended in Halt or Shutdown |
| RepeatLimits.StateFreeRepeats | src/VirtualMachine.cpp:146-191 | with state-free callbacks every run of every deterministic guest repeats |
| RepeatLimits.PendingReadDiffers | src/VirtualMachine.cpp:166-191 | restored while a read is pending, a guest that halts on its reply halts at once where its first run continued, whatever the callbacks |
| RepeatLimits.EveryGuestRepeatsExactly | src/VirtualMachine.cpp:146-191 | for any callbacks and state of theirs: every deterministic guest repeats its run after a restore if and only if the callbacks answer every sequence of accesses a second time as they did the first |
| RepeatLimits.EveryRerunRepeats | src/main.cpp:252-267 | and then so does every later run, after any number of runs and restores |
| RepeatLimits.NotStateFreeStillRepeats | src/VirtualMachine.cpp:166-191 | a callback that depends on state nothing changes is not state-free, and every guest repeats with it |
| Dialogues.RunsFollow | src/InstructionTrapper.cpp:32-46 | any two runs that make the same accesses from related states go alike while they are answered alike |
| Dialogues.RunsPart | src/InstructionTrapper.cpp:32-46 | and record different things as soon as they are not |
| Dialogues.StartsAnswer | src/main.cpp:252-267 | each iteration finds the callbacks as the accesses of the earlier iterations leave them |
| Reruns.SameRunExactly | src/InstructionTrapper.cpp:32-223 | two runs of a deterministic guest with callbacks in any two states are the same if, and when CPUID answers show in the events only if, both states answer the accesses of the first run alike |
| Reruns.RunLeaves | src/InstructionTrapper.cpp:101-217 | a run changes what the callbacks remember by answering its accesses, in order, and in no other way |
| Reruns.RerunExactly | src/VirtualMachine.cpp:146-191 | a run repeats after a restore if, and when CPUID answers show in the events only if, the callbacks in the state it left them in answer its accesses as they did |
| RepeatLimits.SilentCpuid | src/InstructionTrapper.cpp:132-146 | without that condition the converse fails: an exit of unknown kind asks the CPUID handler and publishes nothing, so runs answered differently can be the same |
| Fuzzing.PreparedClean | src/main.cpp:255-263 | restore and injection leave exactly the snapshot with one byte replaced |
| Fuzzing.EveryStartClean | src/main.cpp:252-267 | for any number of iterations, when the kernel accepts the registers, run j starts from the snapshot's registers and memory with only byte 0x2000 replaced by input j mod 3, no access pending |
| Fuzzing.SameInputExactly | src/main.cpp:250-267 | two iterations with the same input are the same run exactly when the callbacks answer the accesses of the one alike in the states that the accesses of the iterations before each leave them in |
| Fuzzing.SameInputSameRun | src/main.cpp:250-267 | iterations with the same input, blind to callback state, take the same steps to the same result with the same counters and events |
| Demo.FuzzLoop | src/main.cpp:252-284 | the loop over the heap objects ends in the state of the iteration specification and gives up exactly at the first error |
| Demo.Poke | src/main.cpp:261-263 | one byte of region 0 is replaced |
| DemoDevice.Status | src/main.cpp:159-165 | the OR of count and value is their combination, count in the upper half |
| DemoDevice.DeviceRemembers | src/main.cpp:152-157 | over any interleaving of MMIO exits (of any length) and restores the device holds the number of accepted input writes and the last of them |
| DemoDevice.StatusRead | src/main.cpp:159-165 | a status read of size z delivers ((n mod 2^32) * 2^32 + last mod 2^32) mod 256^z to guest and event, whatever was restored |
| DemoDevice.MagicRead | src/main.cpp:146-150 | a read of the magic register delivers the letters OIMM, lowest byte first, as far as it reaches, to guest and event |
| DemoDevice.ReadShows | src/main.cpp:159-165 | two status reads of size z are equal if and only if the last values agree up to min(z, 4) bytes and, beyond four, the counts up to z - 4 |
| DemoRerun.DemoBlind | src/main.cpp:146-165 | exactly the reads of the status register depend on device state |
| DemoRerun.DemoAnswers | src/main.cpp:127-144 | port 0x60 delivers 0x1A, other ports all ones; leaf 1 is answered with zeroes, every other leaf by the host |
| DemoRerun.DemoIsWired | src/main.cpp:126-165 | the demo's port and CPUID callbacks have nothing to do with its device |
| DemoRerun.DemoRepeatsExactly | src/main.cpp:146-165 | for every deterministic guest: a run that stops, with N input writes, repeats after a restore if and only if every status read of size z has z at most 4 or N divisible by 256^(z-4), and comes after an input write of the run, or there is none, or the last one equals the value before the run modulo 256^min(z,4) |
| DemoRerun.SimpleGuestRepeats | guests/simpleGuest.asm:5-18 | a run with the accesses of the repository's guest repeats, whatever the device has seen before |
| DemoRerun.RerunDiffers | src/main.cpp:152-165 | a run with a status read of z > 4 bytes and a number of input writes not divisible by 256^(z-4) never repeats |
| DemoRerun.WideGuestDiffers | guests/simpleGuest.asm:5-18 | a run with the accesses of the repository's guest, but a status read of eight bytes, never repeats |
| DemoRerun.BothGuestsExist | guests/simpleGuest.asm:5-18 | there are deterministic guests that make these accesses and halt |
| EventBus.WithoutKeeps | src/EventDispatcher.cpp:21-27 | unsubscribing removes the id and keeps the others in order |
| EventBus.PrefixFacts | src/EventDispatcher.cpp:7-19 | ids are non-zero, below the next id and increasing along the list after any use of the bus |
| EventBus.EachSubscriberGetsItsInbox | src/EventDispatcher.cpp:7-39 | over any interleaving a subscription is called for exactly the events of its kind (all of them without a filter) published while it was subscribed, once each, in order |
| EventBus.OneSubscription | src/EventDispatcher.cpp:32-38 | a handler for one kind is called for that kind and no other, one without a filter for every event |
| EventBus.ServedInOrder | src/EventDispatcher.cpp:32-38 | earlier subscriptions are served first, later ones find what they did |
| EventBus.DeliveryIsTheCalls | src/EventDispatcher.cpp:29-39 | publishing changes captured state exactly as the recorded invocations do, in order |
| EventBus.PublishedEvents | src/EventDispatcher.cpp:31 | the published count is the number of publications modulo 2^64 |
| EventDispatchers.EventDispatcher.Subscribe | src/EventDispatcher.cpp:7-19 | a fresh id and one more subscription at the end |
| EventDispatchers.EventDispatcher.Unsubscribe | src/EventDispatcher.cpp:21-27 | the list without that id |
| EventDispatchers.EventDispatcher.Publish | src/EventDispatcher.cpp:29-39 | count, handlers called in list order as OneSubscription and ServedInOrder say, nothing else changed |
| GuestPhysical.ReadsFlatMemory | src/VmiAgent.cpp:51-73 | a non-empty range is answered exactly when one region holds it, with the bytes of the flat address map, which for disjoint regions has no others there |
| GuestPhysical.ReadableExactly | src/VmiAgent.cpp:58-70 | the agent copies from within a region if and only if the end of the range does not wrap, or wraps without a region passing the 64-bit test |
| GuestPhysical.WrappingRead | src/VmiAgent.cpp:58-70 | 2^64 - 8 bytes at 0x10 pass the test of a page at 0 and do not lie in it |
| GuestPhysical.OrderDoesNotMatter | src/VmiAgent.cpp:58-70 | for disjoint regions the answer does not depend on their order |
| VmiAgents.ReadGuestPhysMemory | src/VmiAgent.cpp:51-73 | the loop over the regions computes that read |
| VmiAgents.SnapshotRegisters | src/VmiAgent.cpp:75-119 | the registers of a vCPU, or nothing when it does not exist or cannot be read |
| VmiLog.Captured | src/VmiAgent.cpp:75-119 | a snapshot is taken exactly when the vCPU exists and all its registers can be read, and shows each register under its own name |
| VmiLog.EntrySnapshot | src/VmiAgent.cpp:121-129 | a log entry keeps its event and shows the vCPU the event names, zeroes when it cannot be captured |
| VmiAgents.VmiAgent.HandleHvEvent | src/VmiAgent.cpp:121-148 | one enriched entry from the machine as it is, then every callback once in order |
| VmiAgents.NotifiedInOrder | src/VmiAgent.cpp:144-147 | callbacks are called in order of registration, later ones find what the earlier did |
| VmiAgents.VmiAgent.DumpEventLog | src/VmiAgent.cpp:203-237 | the file holds exactly the log's text, or nothing when it cannot be opened |
| VmiLog.DumpAttached | src/VmiAgent.cpp:131-138 | a dump is attached exactly when dumping is on and the non-empty range lies in one region, and it holds those bytes |
| VmiLog.DumpsAsSwitched | src/VmiAgent.cpp:39-49 | after any uses of bus, machine and switches, the next entry has a dump exactly when the latest switch asks for a range that one region holds, and it holds those bytes |
| VmiLog.AgentSeesEverything | src/VmiAgent.cpp:13-24 | while subscribed the agent handles each published event exactly once, in order, whoever else uses the bus |
| VmiLog.AgentLife | src/VmiAgent.cpp:13-32 | from its construction on its log is exactly the published events |
| VmiLog.AgentLifetime | src/VmiAgent.cpp:13-32 | from construction to destruction its log is exactly the published events; once destroyed it is reached by nothing that happens on the bus, and calls no callback |
| VmiLog.MovedAgent | include/hv/VmiAgent.h:74-75 | after a move the subscription still serves the object moved from; the log of the one moved to holds what was published in all if and only if nothing was published since; destroying either cuts the other off |
| Monitoring.RunIsReceived | src/EventDispatcher.cpp:29-39 | over any run of any guest and wiring, a catch-all subscription to the trapper's dispatcher is called with exactly the events of the run, once each and in order |
| Monitoring.RunIsLogged | src/VmiAgent.cpp:121-148 | over any run of any guest with the agent subscribed to the trapper's dispatcher, its log grows by exactly the events of the run, in order |
| Monitoring.RunIsPrinted | src/VmiAgent.cpp:203-237 | the text printed of a run is JSON with one record per event, from which a reader gets the event's vCPU, payload and, but for a shutdown, the rip the trapper put into the event, when registers can be read |
| VmiLog.LogIsWhatWasPublished | src/VmiAgent.cpp:142 | the log is append-only and in order of publication |
| VmiLog.CallbackSeesLog | src/VmiAgent.cpp:144-147 | a callback is called with exactly the events logged after its registration |
| VmiLog.AgentLogRoundTrip | src/VmiAgent.cpp:121-237 | any log an agent can build is printed as JSON from which it is recovered |
| Introspection.PlainSummary | src/VmiAgent.cpp:150-201 | no summary ever needs escaping |
| SummaryReader.SummaryRead | src/VmiAgent.cpp:150-201 | a reader that splits at spaces and knows the words gets back from any summary the vCPU, the rip, the kind of access or event, and every number of the payload |
| Introspection.ShutdownReadsAsCpuid | src/VmiAgent.cpp:161-197 | a shutdown event with the default payload is summarised as a CPUID access |
| Text.DigitsRoundTrip | src/VmiAgent.cpp:218-220 | every printed number reads back |
| Text.DigitCase | src/VmiAgent.cpp:152-155 | hexadecimal is in the case asked for throughout, without leading zeros |
| Text.HexBytesRoundTrip | src/VmiAgent.cpp:226-229 | every dumped byte reads back |
| EventLog.WellFormed | src/VmiAgent.cpp:211-236 | the text of any log is one well-formed JSON array with one object per event |
| EventLog.LogRoundTrip | src/VmiAgent.cpp:203-237 | a JSON reader recovers the timestamp truncated to milliseconds, vCPU id, rip, summary and every dumped byte of every event, in order |
| EventLog.TextDeterminesRecords | src/VmiAgent.cpp:203-237 | logs with different records have different texts |
| MsrHandlers.MsrHandler.CollectIndices | src/MsrHandler.cpp:25-39 | no duplicates, and exactly the union of read and write registrations, in whatever order the maps are walked, read registrations first |
| MsrHandlers.MsrHandler.InstallFilter | src/MsrHandler.cpp:23-73 | one range per index for reads and writes of that one MSR, the first ones up to the maximum; every registered MSR has a range if and only if they fit, and no other MSR ever does; no call when nothing is registered |

## Left out

- GuestLoader.Load: parameters with which the loader writes outside guest memory are excluded, exactly those that GuestLoader.CheckExact and GuestLoader.LoadStoresFit name; such a write has no result to state. The VM is required to be new, as its header demands.
- GuestLoader.LoadBytes: the same; an image whose end wraps to within guest memory is excluded.
- GuestLoader.BuildIdentityPageTables: a covering region without room for three pages is excluded; the stores would leave it (GuestLoader.StoresFit).
- Regions.MemoryRegion.Write: offset and length are required to be in bounds, as the source asserts.
- VirtualMachines.VirtualMachine.RestoreSnapshot: a buffer shorter than its region is excluded, since the copy would read past it; VirtualMachines.SnapshotRoundTrip shows that this never happens on the VM a snapshot was taken from.
- InstructionTrappers.InstructionTrapper.RunLoop: an unlimited loop is modelled for a guest that stops; a guest that runs forever (Loops.RunsForever) has no final state.
- Demo.FuzzLoop: the same for every run of the loop.
- VmiAgents.ReadGuestPhysMemory: ranges for which the agent reads outside guest memory are excluded, exactly those that GuestPhysical.ReadableExactly names.
- VmiAgents.VmiAgent.HandleHvEvent: the same for the dumped range, when dumping is on.
- EventBus.EachSubscriberGetsItsInbox: fewer than 2^32 subscriptions; handlers do not call back into the bus.
- DemoDevice.StatusRead: event subscribers leave the device alone; the same in DemoRerun and Reruns.
- Reruns.SameRunExactly: the "only if" needs CPUID answers to show in the events: an exit of unknown kind asks the CPUID handler and publishes nothing (RepeatLimits.SilentCpuid).
- VmiLog.AgentLife: the subscription of the agent is modelled on values, with its handler as a function, because a handler on the heap cannot call a method; other subscribers leave the agent and the machine alone.
- VmiLog.MovedAgent: move construction; move assignment over an agent that has a subscription of its own is not modelled.
- Monitoring.RunIsLogged: what the agent sees of the VM is a function of the vCPU's state at the event (`Sight`): its own register reads take no kernel time of the run, and other vCPUs do not change of themselves; device callbacks and other subscribers leave the agent alone. The same in Monitoring.RunIsPrinted.
- Repeatability.Repeats: FPU, MSR, interrupt and other vCPU state is not part of the snapshot and is assumed not to matter to the guest; port and MMIO handlers are present, since without them stale page bytes reach the guest; the kernel accepts the snapshot's registers.
- VmLifetimes.VmsReleaseEverything: moves of whole VMs are on values, not on the heap objects; a vector that was moved from is empty, as it is in practice; a vCPU's run page goes with its descriptor. Nothing is claimed about a cleared slot reaching the kernel: a VM closes its descriptor before its regions are destroyed.
- KvmSystem and the ioctl, mmap and descriptor calls behind VCpu: thin wrappers around the kernel.
- REP string I/O beyond its first element, which the handler does not move.
- MsrHandler::handle, which the trapper never reaches, and the kernel's reading of filter bitmaps.
- The demo's CPUID table, console output, signals, file reading, IRQ chip, PIT and single-step: kernel calls and I/O.
- Escapes of surrogates in the JSON reader (a pair of them is one character beyond U+FFFF); the writer never produces escapes.
