/**
 * Linear-address translation as the processor performs it: 4-level paging of section 4.5 of the
 * Intel SDM, volume 3A, over little-endian page-table bytes in guest RAM.
 */
module Paging {
  import opened Words
  import opened Memory
  import opened Registers

  datatype Translation =
    | Mapped(pa: nat, writable: bool, user: bool, pageSize: nat)
    | NotPresent(level: nat)
    | ReservedBit(level: nat)
    | OutsideRam(level: nat)
    | NonCanonical
    | LegacyPaging

  /** physLimit is 2 to the power MAXPHYADDR; noExecute is EFER.NXE. */
  datatype Machine = Machine(physLimit: nat, noExecute: bool)

  datatype Fetched = Good(entry: nat) | Stop(why: Translation)

  predicate Bit(x: nat, weight: nat)
    requires weight > 0
  {
    (x / weight) % 2 == 1
  }

  /** Bits 51:12 of an entry or of CR3, as an address. */
  function Frame(entry: nat): nat {
    (entry / 0x1000) % 0x100_0000_0000 * 0x1000
  }

  function Qword(mem: seq<byte>, a: nat): nat
    requires a + 8 <= |mem|
  {
    LeValue(mem[a..a + 8])
  }

  /** Read a present entry of a table, checking the bits that are reserved at every level. */
  function Fetch(m: Machine, mem: seq<byte>, table: nat, index: nat, level: nat): Fetched {
    if table + 8 * index + 8 > |mem| then Stop(OutsideRam(level))
    else
      var e := Qword(mem, table + 8 * index);
      if !Bit(e, 1) then Stop(NotPresent(level))
      else if Frame(e) >= m.physLimit || (Bit(e, 0x8000_0000_0000_0000) && !m.noExecute) then Stop(ReservedBit(level))
      else Good(e)
  }

  predicate Writable(e: nat) { Bit(e, 0x2) }
  predicate User(e: nat) { Bit(e, 0x4) }
  predicate Large(e: nat) { Bit(e, 0x80) }

  /** The page walk for the low 48 bits of a linear address. */
  function Walk(m: Machine, mem: seq<byte>, cr3: nat, la: nat): Translation {
    match Fetch(m, mem, Frame(cr3), (la / 0x80_0000_0000) % 512, 4)
    case Stop(why) => why
    case Good(e4) => if Large(e4) then ReservedBit(4) else WalkPdpt(m, mem, e4, la)
  }

  function WalkPdpt(m: Machine, mem: seq<byte>, e4: nat, la: nat): Translation {
    match Fetch(m, mem, Frame(e4), (la / 0x4000_0000) % 512, 3)
    case Stop(why) => why
    case Good(e3) =>
      var w, u := Writable(e4) && Writable(e3), User(e4) && User(e3);
      if !Large(e3) then WalkPd(m, mem, e3, w, u, la)
      else if (e3 / 0x2000) % 0x2_0000 != 0 then ReservedBit(3)
      else Mapped(Frame(e3) / 0x4000_0000 * 0x4000_0000 + la % 0x4000_0000, w, u, 0x4000_0000)
  }

  function WalkPd(m: Machine, mem: seq<byte>, e3: nat, w3: bool, u3: bool, la: nat): Translation {
    match Fetch(m, mem, Frame(e3), (la / 0x20_0000) % 512, 2)
    case Stop(why) => why
    case Good(e2) =>
      var w, u := w3 && Writable(e2), u3 && User(e2);
      if !Large(e2) then WalkPt(m, mem, e2, w, u, la)
      else if (e2 / 0x2000) % 0x100 != 0 then ReservedBit(2)
      else Mapped(Frame(e2) / 0x20_0000 * 0x20_0000 + la % 0x20_0000, w, u, 0x20_0000)
  }

  function WalkPt(m: Machine, mem: seq<byte>, e2: nat, w2: bool, u2: bool, la: nat): Translation {
    match Fetch(m, mem, Frame(e2), (la / 0x1000) % 512, 1)
    case Stop(why) => why
    case Good(e1) => Mapped(Frame(e1) + la % 0x1000, w2 && Writable(e1), u2 && User(e1), 0x1000)
  }

  predicate Canonical(la: u64) {
    la < 0x8000_0000_0000 || la >= 0xFFFF_8000_0000_0000
  }

  /** Translation in the mode the control registers select; 32-bit and PAE paging are not followed. */
  function Translate(physLimit: nat, mem: seq<byte>, sregs: Sregs, la: u64): Translation {
    if !Bit(sregs.cr0, 0x8000_0000) then Mapped(la, true, true, 0x1000)
    else if !(Bit(sregs.cr0, 1) && Bit(sregs.cr4, 0x20) && Bit(sregs.efer, 0x100) && Bit(sregs.efer, 0x400)) then LegacyPaging
    else if !Canonical(la) then NonCanonical
    else Walk(Machine(physLimit, Bit(sregs.efer, 0x800)), mem, sregs.cr3, la)
  }

  /** The byte an access to a linear address reaches. */
  function ReadLinear(physLimit: nat, mem: seq<byte>, sregs: Sregs, la: u64): Option<byte> {
    match Translate(physLimit, mem, sregs, la)
    case Mapped(pa, _, _, _) => if pa < |mem| then Some(mem[pa]) else None
    case _ => None
  }
}
