/** What a loaded guest sees: the theorems about the RAM and registers that GuestLoader leaves behind. */
module LoaderLaws {
  import opened Words
  import opened Memory
  import opened Registers
  import opened Paging
  import opened PageTables
  import opened GuestLoader

  /** A successful flat load leaves exactly these special registers. */
  lemma LoadedSregs(p: Params, env: Environment, ram: seq<seq<byte>>)
    requires Setup(env.kernel, ResetState(env, ram), LoadTarget(p)).1 == None
    ensures var c := Setup(env.kernel, ResetState(env, ram), LoadTarget(p)).0;
      c.sregs == TargetSregs(LoadTarget(p), env.sregs) && c.regs == TargetRegs(LoadTarget(p)) && c.ram == ram
  {
  }

  /** The control registers select 4-level paging without execute-disable. */
  lemma LongModeBits()
    ensures Bit(0x8005_0033, 0x8000_0000) && Bit(0x8005_0033, 1) && Bit(0x20, 0x20)
    ensures Bit(0x500, 0x100) && Bit(0x500, 0x400) && !Bit(0x500, 0x800)
  {
  }

  lemma LongModeActive(s: Sregs, physLimit: nat, mem: seq<byte>, la: u64)
    ensures Translate(physLimit, mem, LongSregs(s, TABLES), la) ==
      if Canonical(la) then Walk(Machine(physLimit, false), mem, TABLES, la) else NonCanonical
  {
    LongModeBits();
  }

  lemma HighIndex(la: u64)
    requires la >= 0xFFFF_8000_0000_0000
    ensures (la / 0x80_0000_0000) % 512 != 0
  {
    var i := la / 0x80_0000_0000;
    assert 0x1FF_FF00 <= i < 0x200_0000;
  }

  /** Identity below 1 GiB, nothing anywhere else. */
  function IdentityMap(la: u64): Translation {
    if !Canonical(la) then NonCanonical
    else if la < 0x4000_0000 then Mapped(la, true, false, 0x20_0000)
    else if la < 0x80_0000_0000 then NotPresent(3)
    else NotPresent(4)
  }

  /** The translation is settled by the three table pages alone, whatever the rest of RAM holds. */
  lemma TablesDecide(ram: seq<byte>, s: Sregs, physLimit: nat, la: u64)
    requires HoldsTables(ram, TABLES) && physLimit >= TWO32
    ensures Translate(physLimit, ram, LongSregs(s, TABLES), la) == IdentityMap(la)
  {
    LongModeActive(s, physLimit, ram, la);
    if Canonical(la) {
      CanonicalWalk(Machine(physLimit, false), ram, la);
    }
  }

  lemma CanonicalWalk(m: Machine, ram: seq<byte>, la: u64)
    requires HoldsTables(ram, TABLES) && m.physLimit >= TWO32 && Canonical(la)
    ensures Walk(m, ram, TABLES, la) == IdentityMap(la)
  {
    if la < 0x8000_0000_0000 {
      IdentityWalk(m, ram, TABLES, la);
    } else {
      HighIndex(la);
      HighWalk(m, ram, TABLES, la);
    }
  }

  lemma TablesLoaded(p: Params, image: seq<byte>)
    requires p.mode.FlatBinary? && Fitting(p, image)
    ensures HoldsTables(LoadedRam(p, image), TABLES)
  {
    var ram := LoadedRam(p, image);
    forall k | 0 <= k < TABLES_SIZE ensures ram[TABLES + k] == TableByte(TABLES, k) {
      assert ram[TABLES + k] == LoadedByte(p, image, TABLES + k);
    }
  }

  /**
   * After a flat load the processor is in 4-level paging and, for every 64-bit linear address,
   * maps it to itself (present, writable) exactly when it is below 1 GiB; every other canonical
   * address meets a non-present entry. Nothing is assumed about the image, which may have been
   * loaded over the place of the tables.
   */
  lemma IdentityMapped(p: Params, image: seq<byte>, s: Sregs, physLimit: nat, la: u64)
    requires p.mode.FlatBinary? && Fitting(p, image) && physLimit >= TWO32
    ensures Translate(physLimit, LoadedRam(p, image), LongSregs(s, TABLES), la) == IdentityMap(la)
  {
    TablesLoaded(p, image);
    TablesDecide(LoadedRam(p, image), s, physLimit, la);
  }

  /**
   * End to end: whenever load succeeds in flat mode, the vCPU it leaves translates through the
   * CR3 it was given and the memory it was given, and does so as the identity below 1 GiB only.
   */
  lemma LoadedGuestTranslates(p: Params, image: seq<byte>, env: Environment, physLimit: nat, la: u64)
    requires p.mode.FlatBinary? && Loadable(p, image) && LoadOutcome(p, image, env) == None && physLimit >= TWO32
    ensures LeftBy(p, image, env).cpu.Some?
    ensures var c := LeftBy(p, image, env).cpu.value;
      |c.ram| == 1 && c.ram == LeftBy(p, image, env).ram && c.regs.rip == p.entryPoint
      && Translate(physLimit, c.ram[0], c.sregs, la) == IdentityMap(la)
  {
    LoadedLeft(p, image, env);
    SetupIgnoresRam(env.kernel, ResetState(env, []), [LoadedRam(p, image)], LoadTarget(p));
    LoadedSregs(p, env, [LoadedRam(p, image)]);
    IdentityMapped(p, image, env.sregs, physLimit, la);
  }

  /** ram is, byte for byte, guest memory after the load. */
  ghost predicate LoadedInto(p: Params, image: seq<byte>, ram: seq<byte>) {
    |ram| == p.memorySize && forall a {:trigger LoadedByte(p, image, a)} :: 0 <= a < |ram| ==> ram[a] == LoadedByte(p, image, a)
  }

  lemma LoadedRamIs(p: Params, image: seq<byte>)
    requires Fitting(p, image)
    ensures LoadedInto(p, image, LoadedRam(p, image))
  {
    var ram := LoadedRam(p, image);
    forall a {:trigger LoadedByte(p, image, a)} | 0 <= a < |ram| ensures ram[a] == LoadedByte(p, image, a) {}
  }

  /** The guest finds byte b at a linear address. */
  predicate Visible(ram: seq<byte>, s: Sregs, physLimit: nat, la: u64, b: byte) {
    ReadLinear(physLimit, ram, LongSregs(s, TABLES), la) == Some(b)
  }

  lemma VisibleByte(ram: seq<byte>, s: Sregs, physLimit: nat, la: u64, b: byte)
    requires HoldsTables(ram, TABLES) && physLimit >= TWO32 && la < |ram|
    ensures Visible(ram, s, physLimit, la, b) <==> la < 0x4000_0000 && ram[la] == b
  {
    TablesDecide(ram, s, physLimit, la);
    ReadMapped(physLimit, ram, LongSregs(s, TABLES), la);
  }

  lemma ReadMapped(physLimit: nat, ram: seq<byte>, sregs: Sregs, la: u64)
    requires Translate(physLimit, ram, sregs, la) == IdentityMap(la) && la < |ram|
    ensures ReadLinear(physLimit, ram, sregs, la) == if la < 0x4000_0000 then Some(ram[la]) else None
  {
  }

  /** Byte i of the image is not where the tables go, or is what the tables have there anyway. */
  predicate Spared(p: Params, image: seq<byte>, i: nat)
    requires i < |image|
  {
    var a := p.loadAddress + i;
    p.mode.FlatBinary? && TABLES <= a < TABLES_END ==> image[i] == TableByte(TABLES, a - TABLES)
  }

  /** A byte of the image survives the load exactly when the tables spare it. */
  lemma ImageInRam(p: Params, image: seq<byte>, i: nat)
    requires Fitting(p, image) && i < |image|
    ensures LoadedRam(p, image)[p.loadAddress + i] == image[i] <==> Spared(p, image, i)
  {
    LoadedRamIs(p, image);
    assert LoadedRam(p, image)[p.loadAddress + i] == LoadedByte(p, image, p.loadAddress + i);
  }

  lemma VisibleImageByte(p: Params, image: seq<byte>, s: Sregs, physLimit: nat, i: nat)
    requires p.mode.FlatBinary? && Fitting(p, image) && physLimit >= TWO32 && p.memorySize <= TWO64 && i < |image|
    ensures Visible(LoadedRam(p, image), s, physLimit, p.loadAddress + i, image[i]) <==>
      p.loadAddress + i < 0x4000_0000 && Spared(p, image, i)
  {
    TablesLoaded(p, image);
    VisibleByte(LoadedRam(p, image), s, physLimit, p.loadAddress + i, image[i]);
    ImageInRam(p, image, i);
  }

  /**
   * Through its page tables the guest finds every byte of its image at the address it was loaded at
   * if and only if the image ends within the first gigabyte and, where it reaches into the 12 KiB of
   * the tables, says what the tables say. (An empty image is never loaded.)
   */
  lemma GuestSeesImage(p: Params, image: seq<byte>, s: Sregs, physLimit: nat)
    requires p.mode.FlatBinary? && Fitting(p, image) && image != [] && physLimit >= TWO32 && p.memorySize <= TWO64
    ensures (forall i :: 0 <= i < |image| ==> Visible(LoadedRam(p, image), s, physLimit, p.loadAddress + i, image[i])) <==>
      p.loadAddress + |image| <= 0x4000_0000 && (forall i :: 0 <= i < |image| ==> Spared(p, image, i))
  {
    var ram := LoadedRam(p, image);
    forall i | 0 <= i < |image|
      ensures Visible(ram, s, physLimit, p.loadAddress + i, image[i]) <==>
        p.loadAddress + i < 0x4000_0000 && Spared(p, image, i)
    {
      VisibleImageByte(p, image, s, physLimit, i);
    }
    var last := |image| - 1;
    assert Visible(ram, s, physLimit, p.loadAddress + last, image[last]) <==>
      p.loadAddress + last < 0x4000_0000 && Spared(p, image, last);
  }

  /** The defaults of the load parameters: a flat image at address 0 in 4 MiB. */
  const DEFAULT_PARAMS := Params(FlatBinary, 0, 0, 0x40_0000)

  lemma FirstTableByte()
    ensures TableByte(TABLES, 0) == 0x03
  {
    EntryValues(TABLES, 0);
    assert LeBytes(TableEntry(TABLES, 0), 8)[0] == TableEntry(TABLES, 0) % 256;
  }

  /** An image over the start of the tables loses its byte there, unless that byte is 0x03. */
  lemma TablesOverwriteImage(p: Params, image: seq<byte>, s: Sregs, physLimit: nat, i: nat)
    requires p.mode.FlatBinary? && Fitting(p, image) && physLimit >= TWO32 && p.memorySize <= TWO64
    requires i < |image| && p.loadAddress + i == TABLES
    ensures Visible(LoadedRam(p, image), s, physLimit, TABLES, image[i]) <==> image[i] == 0x03
  {
    FirstTableByte();
    VisibleImageByte(p, image, s, physLimit, i);
  }

  /** So with those defaults a 12 KiB image that has another byte there is damaged, though it ends far below 1 GiB. */
  lemma DefaultLoadDamages(p: Params, image: seq<byte>, s: Sregs, physLimit: nat)
    requires p == DEFAULT_PARAMS && |image| == 0x3000 && image[0x2000] == 0xFF && physLimit >= TWO32
    ensures Fitting(p, image) && !Visible(LoadedRam(p, image), s, physLimit, 0x2000, image[0x2000])
  {
    assert Fitting(p, image);
    TablesOverwriteImage(p, image, s, physLimit, 0x2000);
  }

  /** The address of the first instruction in real mode. */
  function FetchAddress(regs: Regs, sregs: Sregs): nat {
    sregs.cs.base + regs.rip
  }

  /**
   * loadBytes starts the guest at its first byte if and only if the code is loaded in the first
   * 64 KiB: the IP keeps only 16 bits of the load address. Otherwise the fetch finds cleared
   * memory, so the byte fetched is the first byte of the code, if at all, because that is zero.
   * CR0 loses only PE.
   */
  lemma RealModeEntry(s: Sregs, code: seq<byte>, loadAddress: u64, memorySize: nat, physLimit: nat)
    requires loadAddress + |code| <= memorySize && code != [] && !Bit(s.cr0, 0x8000_0000)
    ensures var p := Params(RealMode16, loadAddress, loadAddress, memorySize);
      var regs, sregs := TargetRegs(LoadTarget(p)), TargetSregs(LoadTarget(p), s);
      var fetched := ReadLinear(physLimit, LoadedRam(p, code), sregs, FetchAddress(regs, sregs));
      && (FetchAddress(regs, sregs) == loadAddress <==> loadAddress < 0x1_0000)
      && fetched == Some(if loadAddress < 0x1_0000 then code[0] else 0)
      && (fetched == Some(code[0]) <==> loadAddress < 0x1_0000 || code[0] == 0)
      && !Bit(sregs.cr0, 1) && sregs.cr0 / 2 == s.cr0 / 2
  {
    var p := Params(RealMode16, loadAddress, loadAddress, memorySize);
    var at := loadAddress % 0x1_0000;
    assert LoadedRam(p, code)[at] == LoadedByte(p, code, at);
    ClearPe(s.cr0);
  }

  lemma ClearPe(x: u64)
    ensures (x - x % 2) / 2 == x / 2
    ensures (x - x % 2) / 0x8000_0000 == x / 0x8000_0000
  {
  }
}
