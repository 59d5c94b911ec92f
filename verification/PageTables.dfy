/**
 * The identity page tables that the guest loader writes: their exact bytes, and the proof that the
 * processor's walk over those bytes is the identity on the first gigabyte and nowhere else.
 */
module PageTables {
  import opened Words
  import opened Paging

  const TABLES_SIZE: nat := 0x3000

  /** The 64-bit word number q of the three consecutive table pages at base: PML4, PDPT, PD. */
  function TableEntry(base: nat, q: nat): nat {
    if q == 0 then BitOr(base + 0x1000, 0x03)
    else if q == 512 then BitOr(base + 0x2000, 0x03)
    else if 1024 <= q then BitOr(Shl(q - 1024, 21), 0x83)
    else 0
  }

  function TableByte(base: nat, k: nat): byte {
    LeBytes(TableEntry(base, k / 8), 8)[k % 8]
  }

  function TableBytes(base: nat): (b: seq<byte>)
    ensures |b| == TABLES_SIZE
    ensures forall k :: 0 <= k < TABLES_SIZE ==> b[k] == TableByte(base, k)
  {
    seq(TABLES_SIZE, k requires k >= 0 => TableByte(base, k))
  }

  predicate HoldsTables(mem: seq<byte>, base: nat) {
    base + TABLES_SIZE <= |mem| && forall k :: 0 <= k < TABLES_SIZE ==> mem[base + k] == TableByte(base, k)
  }

  lemma Pow2Values()
    ensures Pow2(2) == 4 && Pow2(8) == 0x100 && Pow2(21) == 0x20_0000
  {
    assert Pow2(4) == 16;
    assert Pow2(8) == 16 * Pow2(4);
    assert Pow2(12) == 16 * Pow2(8);
    assert Pow2(16) == 16 * Pow2(12);
    assert Pow2(20) == 16 * Pow2(16);
  }

  /** The same words as sums. */
  function EntryValue(base: nat, q: nat): nat {
    if q == 0 then base + 0x1003
    else if q == 512 then base + 0x2003
    else if 1024 <= q then (q - 1024) * 0x20_0000 + 0x83
    else 0
  }

  lemma EntryPresent(base: nat, q: nat)
    requires base % 0x1000 == 0 && q < 1536 && base + TABLES_SIZE <= TWO32
    ensures EntryValue(base, q) < TWO32
    ensures EntryValue(base, q) % 2 == 1 <==> q == 0 || q == 512 || 1024 <= q
  {
  }

  /** The words written with OR are plain sums: no flag bit meets an address bit. */
  lemma EntryValues(base: nat, q: nat)
    requires base % 0x1000 == 0 && q < 1536 && base < TWO32
    ensures TableEntry(base, q) == EntryValue(base, q) < TWO64
  {
    if q == 0 {
      TableWord(base + 0x1000);
    } else if q == 512 {
      TableWord(base + 0x2000);
    } else if 1024 <= q {
      PageWord(q - 1024);
    }
  }

  lemma TableWord(a: nat)
    requires a % 0x1000 == 0
    ensures BitOr(a, 0x03) == a + 0x03
  {
    Pow2Values();
    assert a % 4 == 0;
    OrDisjoint(a, 0x03, 2);
  }

  lemma PageWord(i: nat)
    ensures BitOr(Shl(i, 21), 0x83) == i * 0x20_0000 + 0x83
  {
    Pow2Values();
    var x := i * 0x20_0000;
    assert Shl(i, 21) == x;
    assert x % 0x100 == 0;
    OrDisjoint(x, 0x83, 8);
  }

  lemma TableSlice(mem: seq<byte>, base: nat, q: nat)
    requires HoldsTables(mem, base) && q < 1536
    ensures mem[base + 8 * q..base + 8 * q + 8] == LeBytes(TableEntry(base, q), 8)
  {
    var a, b := mem[base + 8 * q..base + 8 * q + 8], LeBytes(TableEntry(base, q), 8);
    forall j | 0 <= j < 8 ensures a[j] == b[j] {
      var k := 8 * q + j;
      assert k / 8 == q && k % 8 == j;
      assert mem[base + k] == TableByte(base, k);
    }
  }

  /** The little-endian word read back at position q of the tables is the word that was stored. */
  lemma EntryRead(mem: seq<byte>, base: nat, q: nat)
    requires HoldsTables(mem, base) && q < 1536 && base % 0x1000 == 0 && base < TWO32
    ensures Qword(mem, base + 8 * q) == EntryValue(base, q)
  {
    TableSlice(mem, base, q);
    EntryValues(base, q);
    StoredWord(TableEntry(base, q));
  }

  lemma StoredWord(e: nat)
    requires e < TWO64
    ensures LeValue(LeBytes(e, 8)) == e
  {
    LeValueOfBytes(e, 8);
    Pow256Values();
  }

  lemma GoodEntry(m: Machine, e: nat)
    requires e < TWO32 <= m.physLimit
    ensures Frame(e) < m.physLimit && !Bit(e, 0x8000_0000_0000_0000)
  {
    assert (e / 0x1000) % 0x100_0000_0000 == e / 0x1000;
  }

  lemma FetchWord(m: Machine, mem: seq<byte>, table: nat, index: nat, level: nat, e: nat)
    requires table + 8 * index + 8 <= |mem| && Qword(mem, table + 8 * index) == e < TWO32 <= m.physLimit
    ensures Fetch(m, mem, table, index, level) == if e % 2 == 1 then Good(e) else Stop(NotPresent(level))
  {
    GoodEntry(m, e);
  }

  /** Entry q of the tables, fetched as entry `index` of whichever of the three pages holds it. */
  lemma FetchEntry(m: Machine, mem: seq<byte>, base: nat, q: nat, table: nat, index: nat, level: nat)
    requires HoldsTables(mem, base) && q < 1536 && base % 0x1000 == 0
    requires table + 8 * index == base + 8 * q
    requires m.physLimit >= TWO32 && base + TABLES_SIZE <= TWO32
    ensures Fetch(m, mem, table, index, level) ==
      if q == 0 || q == 512 || 1024 <= q then Good(EntryValue(base, q)) else Stop(NotPresent(level))
  {
    EntryRead(mem, base, q);
    EntryPresent(base, q);
    FetchWord(m, mem, table, index, level, EntryValue(base, q));
  }

  lemma TableFlags(e: nat)
    requires e % 0x1000 == 3
    ensures Writable(e) && !User(e) && !Large(e)
  {
    var k := e / 0x1000;
    DivModUnique(e, 0x2, 0x800 * k + 1, 1);
    DivModUnique(0x800 * k + 1, 2, 0x400 * k, 1);
    DivModUnique(e, 0x4, 0x400 * k, 3);
    DivModUnique(0x400 * k, 2, 0x200 * k, 0);
    DivModUnique(e, 0x80, 0x20 * k, 3);
    DivModUnique(0x20 * k, 2, 0x10 * k, 0);
  }

  lemma FrameOf(base: nat, flags: nat)
    requires base % 0x1000 == 0 && base < TWO32 && flags < 0x1000
    ensures Frame(base + flags) == base
  {
  }

  predicate Ready(m: Machine, mem: seq<byte>, base: nat) {
    HoldsTables(mem, base) && base % 0x1000 == 0 && base + TABLES_SIZE <= TWO32 <= m.physLimit
  }

  lemma PdIdentity(m: Machine, mem: seq<byte>, base: nat, la: nat)
    requires Ready(m, mem, base) && la < 0x4000_0000
    ensures WalkPd(m, mem, base + 0x2003, true, false, la) == Mapped(la, true, false, 0x20_0000)
  {
    var i := (la / 0x20_0000) % 512;
    FrameOf(base + 0x2000, 3);
    FetchEntry(m, mem, base, 1024 + i, base + 0x2000, i, 2);
    LargePage(i, la);
  }

  lemma PdptIdentity(m: Machine, mem: seq<byte>, base: nat, la: nat)
    requires Ready(m, mem, base) && la < 0x80_0000_0000
    ensures WalkPdpt(m, mem, base + 0x1003, la) ==
      if la < 0x4000_0000 then Mapped(la, true, false, 0x20_0000) else NotPresent(3)
  {
    var i := la / 0x4000_0000;
    assert i % 512 == i;
    FrameOf(base + 0x1000, 3);
    FetchEntry(m, mem, base, 512 + i, base + 0x1000, i, 3);
    if la < 0x4000_0000 {
      TableFlags(base + 0x1003);
      TableFlags(base + 0x2003);
      PdIdentity(m, mem, base, la);
    }
  }

  /**
   * Identity on exactly the first gigabyte: whatever else is in RAM, every 48-bit address below
   * 2^30 translates to itself, present, writable, supervisor, through a 2 MiB page; every other
   * address stops at a non-present entry, of the PML4 above 512 GiB and of the PDPT below.
   */
  lemma IdentityWalk(m: Machine, mem: seq<byte>, base: nat, la: nat)
    requires Ready(m, mem, base) && la < 0x1_0000_0000_0000
    ensures Walk(m, mem, base, la) ==
      if la < 0x4000_0000 then Mapped(la, true, false, 0x20_0000)
      else if la < 0x80_0000_0000 then NotPresent(3) else NotPresent(4)
  {
    if la < 0x80_0000_0000 {
      LowWalk(m, mem, base, la);
    } else {
      HighWalk(m, mem, base, la);
    }
  }

  lemma LowWalk(m: Machine, mem: seq<byte>, base: nat, la: nat)
    requires Ready(m, mem, base) && la < 0x80_0000_0000
    ensures Walk(m, mem, base, la) == if la < 0x4000_0000 then Mapped(la, true, false, 0x20_0000) else NotPresent(3)
  {
    assert (la / 0x80_0000_0000) % 512 == 0;
    assert Fetch(m, mem, Frame(base), 0, 4) == Good(base + 0x1003) by {
      FrameOf(base, 0);
      FetchEntry(m, mem, base, 0, base, 0, 4);
    }
    assert !Large(base + 0x1003) by { TableFlags(base + 0x1003); }
    PdptIdentity(m, mem, base, la);
  }

  /** Above 512 GiB, in any address whose PML4 index is not zero. */
  lemma HighWalk(m: Machine, mem: seq<byte>, base: nat, la: nat)
    requires Ready(m, mem, base) && (la / 0x80_0000_0000) % 512 != 0
    ensures Walk(m, mem, base, la) == NotPresent(4)
  {
    var i := (la / 0x80_0000_0000) % 512;
    FrameOf(base, 0);
    FetchEntry(m, mem, base, i, base, i, 4);
  }

  lemma LargePage(i: nat, la: nat)
    requires la < 0x4000_0000 && i == la / 0x20_0000
    ensures var e := i * 0x20_0000 + 0x83;
      && Large(e) && Writable(e) && !User(e) && (e / 0x2000) % 0x100 == 0
      && Frame(e) / 0x20_0000 * 0x20_0000 + la % 0x20_0000 == la
  {
    var e := i * 0x20_0000 + 0x83;
    assert e / 0x1000 == i * 0x200;
    assert Frame(e) == i * 0x20_0000;
  }
}
