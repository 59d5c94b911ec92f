/** VmiAgent::readGuestPhysMemory against a flat map of guest-physical addresses. */
module GuestPhysical {
  import opened Words

  /** A memory region as a reader sees it. */
  datatype Bank = Bank(gpa: u64, bytes: seq<byte>)

  /** The range [addr, addr + size) lies in the bank. */
  predicate Within(b: Bank, addr: nat, size: nat) {
    b.gpa <= addr && addr + size <= b.gpa + |b.bytes|
  }

  function Slice(b: Bank, addr: nat, size: nat): (r: seq<byte>)
    requires Within(b, addr, size)
    ensures |r| == size
  {
    b.bytes[addr - b.gpa..addr - b.gpa + size]
  }

  /** The first bank that holds the whole range answers; otherwise the answer is empty. */
  function ReadPhys(banks: seq<Bank>, addr: nat, size: nat): seq<byte> {
    if banks == [] then []
    else if Within(banks[0], addr, size) then Slice(banks[0], addr, size)
    else ReadPhys(banks[1..], addr, size)
  }

  /** The range test as the agent makes it, with sums in 64 bits. */
  predicate InRange(gpa: u64, length: nat, addr: u64, size: nat) {
    gpa <= addr && Wrap64(addr + size) <= Wrap64(gpa + length)
  }

  predicate Passes(b: Bank, addr: u64, size: nat) {
    InRange(b.gpa, |b.bytes|, addr, size)
  }

  /** KVM accepts no memory that does not end below 2^64. */
  predicate Registrable(banks: seq<Bank>) {
    forall i :: 0 <= i < |banks| ==> banks[i].gpa + |banks[i].bytes| < TWO64
  }

  /** The end of the range does not wrap, or wraps without any bank passing the test. */
  predicate Readable(banks: seq<Bank>, addr: u64, size: nat) {
    addr + size < TWO64 || forall i :: 0 <= i < |banks| ==> !Passes(banks[i], addr, size)
  }

  /** The agent copies from the first bank that passes the test; it copies nothing but what is in that bank. */
  ghost predicate CopiesInside(banks: seq<Bank>, addr: u64, size: nat) {
    forall i :: 0 <= i < |banks| && Passes(banks[i], addr, size) && (forall j :: 0 <= j < i ==> !Passes(banks[j], addr, size)) ==>
      Within(banks[i], addr, size)
  }

  lemma {:induction false} FirstPassing(banks: seq<Bank>, addr: u64, size: nat, n: nat) returns (i: nat)
    requires n < |banks| && Passes(banks[n], addr, size)
    ensures i < |banks| && Passes(banks[i], addr, size) && forall j :: 0 <= j < i ==> !Passes(banks[j], addr, size)
    decreases n
  {
    i := n;
    if k :| 0 <= k < n && Passes(banks[k], addr, size) {
      i := FirstPassing(banks, addr, size, k);
    }
  }

  /** It stays inside guest memory for readable ranges and no others. */
  lemma ReadableExactly(banks: seq<Bank>, addr: u64, size: nat)
    requires Registrable(banks)
    ensures CopiesInside(banks, addr, size) <==> Readable(banks, addr, size)
  {
    if addr + size >= TWO64 && !Readable(banks, addr, size) {
      var n :| 0 <= n < |banks| && Passes(banks[n], addr, size);
      var i := FirstPassing(banks, addr, size, n);
      assert !Within(banks[i], addr, size);
    }
  }

  /** For such a range the test is right about every bank. */
  lemma TestIsRight(banks: seq<Bank>, i: nat, addr: u64, size: nat)
    requires Registrable(banks) && Readable(banks, addr, size) && i < |banks|
    ensures Passes(banks[i], addr, size) <==> Within(banks[i], addr, size)
  {
  }

  lemma ReadStep(banks: seq<Bank>, i: nat, addr: nat, size: nat)
    requires i < |banks|
    ensures ReadPhys(banks[i..], addr, size) ==
      if Within(banks[i], addr, size) then Slice(banks[i], addr, size) else ReadPhys(banks[i + 1..], addr, size)
  {
    assert banks[i..][0] == banks[i] && banks[i..][1..] == banks[i + 1..];
  }

  /** A range that is not: its end wraps to 8, within a bank of a page, and the agent would copy from beyond the bank. */
  lemma WrappingRead(b: Bank)
    requires b.gpa == 0 && |b.bytes| == 0x1000
    ensures Registrable([b]) && !Readable([b], 0x10, TWO64 - 8) && !CopiesInside([b], 0x10, TWO64 - 8)
  {
    assert Passes([b][0], 0x10, TWO64 - 8);
    ReadableExactly([b], 0x10, TWO64 - 8);
  }

  predicate Contains(b: Bank, a: nat) {
    b.gpa <= a < b.gpa + |b.bytes|
  }

  /** No address is in two banks. */
  ghost predicate Disjoint(banks: seq<Bank>) {
    forall i, j, a :: 0 <= i < |banks| && 0 <= j < |banks| && Contains(banks[i], a) && Contains(banks[j], a) ==> i == j
  }

  /** The flat address map: the byte at a guest-physical address, if any bank has it. */
  ghost predicate Maps(banks: seq<Bank>, a: nat, v: byte) {
    exists i :: 0 <= i < |banks| && Contains(banks[i], a) && banks[i].bytes[a - banks[i].gpa] == v
  }

  ghost predicate HeldByOne(banks: seq<Bank>, addr: nat, size: nat) {
    exists i :: 0 <= i < |banks| && Within(banks[i], addr, size)
  }

  /** With disjoint banks the flat map is a function. */
  lemma MapsUnique(banks: seq<Bank>, a: nat, v: byte, w: byte)
    requires Disjoint(banks) && Maps(banks, a, v) && Maps(banks, a, w)
    ensures v == w
  {
  }

  lemma {:induction false} FirstHolder(banks: seq<Bank>, addr: nat, size: nat) returns (i: nat)
    ensures HeldByOne(banks, addr, size) ==> i < |banks| && Within(banks[i], addr, size) && ReadPhys(banks, addr, size) == Slice(banks[i], addr, size)
    ensures !HeldByOne(banks, addr, size) ==> ReadPhys(banks, addr, size) == []
  {
    i := 0;
    if banks != [] && !Within(banks[0], addr, size) {
      i := FirstHolder(banks[1..], addr, size);
      i := i + 1;
      if HeldByOne(banks, addr, size) {
        var k :| 0 <= k < |banks| && Within(banks[k], addr, size);
        assert Within(banks[1..][k - 1], addr, size);
      } else {
        assert forall k :: 0 <= k < |banks[1..]| ==> banks[1..][k] == banks[k + 1];
      }
    }
  }

  /**
   * The read agrees with the flat map: a non-empty range is answered with exactly the bytes the
   * map has at its addresses when one bank holds it whole, and with nothing otherwise. With
   * disjoint banks the map has no other bytes there.
   */
  lemma ReadsFlatMemory(banks: seq<Bank>, addr: nat, size: nat)
    requires size > 0
    ensures var r := ReadPhys(banks, addr, size);
      && (r != [] <==> HeldByOne(banks, addr, size))
      && (r != [] ==> |r| == size && forall k :: 0 <= k < size ==> Maps(banks, addr + k, r[k]))
      && (r != [] && Disjoint(banks) ==> forall a, v :: addr <= a < addr + size && Maps(banks, a, v) ==> v == r[a - addr])
  {
    var i := FirstHolder(banks, addr, size);
    if HeldByOne(banks, addr, size) {
      var r := ReadPhys(banks, addr, size);
      forall k | 0 <= k < size ensures Maps(banks, addr + k, r[k]) {
        assert Contains(banks[i], addr + k) && banks[i].bytes[addr + k - banks[i].gpa] == r[k];
      }
      forall a, v | addr <= a < addr + size && Disjoint(banks) && Maps(banks, a, v) ensures v == r[a - addr] {
        assert Maps(banks, addr + (a - addr), r[a - addr]);
        MapsUnique(banks, a, v, r[a - addr]);
      }
    }
  }

  /** The answer does not depend on the order of the regions: lists with the same banks read the same. */
  lemma OrderDoesNotMatter(a: seq<Bank>, b: seq<Bank>, addr: nat, size: nat)
    requires Disjoint(a) && multiset(a) == multiset(b)
    ensures ReadPhys(a, addr, size) == ReadPhys(b, addr, size)
  {
    var i := FirstHolder(a, addr, size);
    var j := FirstHolder(b, addr, size);
    if HeldByOne(a, addr, size) { SameHolders(a, b, addr, size); }
    if HeldByOne(b, addr, size) { SameHolders(b, a, addr, size); }
    if HeldByOne(a, addr, size) && size > 0 {
      assert b[j] in multiset(a);
      var k :| 0 <= k < |a| && a[k] == b[j];
      assert Contains(a[i], addr) && Contains(a[k], addr);
      assert i == k;
    }
  }

  lemma SameHolders(a: seq<Bank>, b: seq<Bank>, addr: nat, size: nat)
    requires multiset(a) == multiset(b) && HeldByOne(a, addr, size)
    ensures HeldByOne(b, addr, size)
  {
    var i :| 0 <= i < |a| && Within(a[i], addr, size);
    assert a[i] in multiset(b);
    var j :| 0 <= j < |b| && b[j] == a[i];
  }
}
