/** Port, MMIO and CPUID emulation as functions of the callback tables and the run page. */
module Devices {
  import opened Words
  import opened Memory
  import opened Kvm

  datatype InContext = InContext(port: u16, size: byte, count: u32)
  datatype OutContext = OutContext(port: u16, size: byte, value: u32, count: u32)
  datatype ReadContext = ReadContext(addr: u64, size: byte)
  datatype WriteContext = WriteContext(addr: u64, size: byte, value: u64)
  datatype LeafResult = LeafResult(eax: u32, ebx: u32, ecx: u32, edx: u32)

  // Callbacks may read and update W, the state they capture.
  type InCallback<!W> = (W, InContext) -> (W, u32)
  type OutCallback<!W> = (W, OutContext) -> W
  type ReadCallback<!W> = (W, ReadContext) -> (W, u64)
  type WriteCallback<!W> = (W, WriteContext) -> W
  type LeafCallback<!W> = (W, u32, u32) -> (W, LeafResult)

  datatype Ports<!W> = Ports(onIn: map<u16, InCallback<W>>, onOut: map<u16, OutCallback<W>>)
  datatype MmioMap<!W> = MmioMap(onRead: map<u64, ReadCallback<W>>, onWrite: map<u64, WriteCallback<W>>)
  datatype Leaves<!W> = Leaves(callbacks: map<u32, LeafCallback<W>>, host: (u32, u32) -> LeafResult)

  lemma {:induction false} LeBound(b: seq<byte>, n: nat)
    requires |b| <= n
    ensures LeValue(b) < Pow256(n)
    decreases n
  {
    if |b| == n {
      LeBytesOfValue(b);
    } else {
      LeBound(b, n - 1);
    }
  }

  function Le32(b: seq<byte>): (v: u32)
    requires |b| <= 4
    ensures v == LeValue(b)
  {
    LeBound(b, 4);
    Pow256Values();
    LeValue(b)
  }

  function Le64(b: seq<byte>): (v: u64)
    requires |b| <= 8
    ensures v == LeValue(b)
  {
    LeBound(b, 8);
    Pow256Values();
    LeValue(b)
  }

  /** The page with a reply in place of the access; the rest of the page is left as it was. */
  function Answered(x: Exit, page: seq<byte>, value: nat): (r: seq<byte>)
    requires InPage(x, |page|)
    ensures |r| == |page|
    ensures forall i :: 0 <= i < |page| && !(AccessAt(x) <= i < AccessAt(x) + AccessSize(x)) ==> r[i] == page[i]
  {
    Overlay(page, AccessAt(x), LeBytes(value, AccessSize(x)))
  }

  /** Re-reading a reply gives the reply reduced to the size of the access. */
  lemma AnsweredValue(x: Exit, page: seq<byte>, value: nat)
    requires InPage(x, |page|)
    ensures LeValue(AccessBytes(x, Answered(x, page, value))) == value % Pow256(AccessSize(x))
  {
    OverlayRead(page, AccessAt(x), LeBytes(value, AccessSize(x)));
    LeValueOfBytes(value, AccessSize(x));
  }

  function InReply<W>(t: Ports<W>, w: W, x: Exit): (W, u32)
    requires x.Io?
  {
    if x.port in t.onIn then t.onIn[x.port](w, InContext(x.port, x.size, x.count)) else (w, 0xFFFF_FFFF)
  }

  function OutEffect<W>(t: Ports<W>, w: W, x: Exit, value: u32): W
    requires x.Io?
  {
    if x.port in t.onOut then t.onOut[x.port](w, OutContext(x.port, x.size, value, x.count)) else w
  }

  /** IoPortHandler::handle. */
  function HandleIo<W>(t: Ports<W>, w: W, x: Exit, page: seq<byte>): (r: (W, seq<byte>))
    requires x.Io? && InPage(x, |page|)
    ensures |r.1| == |page|
  {
    if x.out then (OutEffect(t, w, x, Le32(AccessBytes(x, page))), page)
    else var (w', value) := InReply(t, w, x); (w', Answered(x, page, value))
  }

  predicate MmioAccepted(x: Exit) {
    x.Mmio? && 1 <= Wrap8(x.len) <= 8
  }

  function ReadReply<W>(t: MmioMap<W>, w: W, x: Exit): (W, u64)
    requires x.Mmio?
  {
    if x.addr in t.onRead then t.onRead[x.addr](w, ReadContext(x.addr, Wrap8(x.len))) else (w, 0xFFFF_FFFF_FFFF_FFFF)
  }

  function WriteEffect<W>(t: MmioMap<W>, w: W, x: Exit, value: u64): W
    requires x.Mmio?
  {
    if x.addr in t.onWrite then t.onWrite[x.addr](w, WriteContext(x.addr, Wrap8(x.len), value)) else w
  }

  /** MmioHandler::handle on a length it accepts. */
  function HandleMmio<W>(t: MmioMap<W>, w: W, x: Exit, page: seq<byte>): (r: (W, seq<byte>))
    requires MmioAccepted(x) && InPage(x, |page|)
    ensures |r.1| == |page|
  {
    if x.write then (WriteEffect(t, w, x, Le64(AccessBytes(x, page))), page)
    else var (w', value) := ReadReply(t, w, x); (w', Answered(x, page, value))
  }

  function LeafReply<W>(t: Leaves<W>, w: W, leaf: u32, subleaf: u32): (W, LeafResult) {
    if leaf in t.callbacks then t.callbacks[leaf](w, leaf, subleaf) else (w, t.host(leaf, subleaf))
  }

  /** CpuidHandler::handle: the leaf and subleaf come from EAX and ECX, the answer replaces four registers. */
  function HandleCpuid<W>(k: Kernel, t: Leaves<W>, w: W, c: Cpu): (r: (Cpu, W, bool))
    ensures r.0 == c.(regs := r.0.regs, tick := r.0.tick)
  {
    var (c1, regs) := GetRegs(k, c);
    if regs.None? then (c1, w, false)
    else
      var (w', v) := LeafReply(t, w, Wrap32(regs.value.rax), Wrap32(regs.value.rcx));
      var (c2, ok) := SetRegs(k, c1, regs.value.(rax := v.eax, rbx := v.ebx, rcx := v.ecx, rdx := v.edx));
      (c2, w', ok)
  }

  const ALL_ONES32: nat := 0xFFFF_FFFF
  const ALL_ONES64: nat := 0xFFFF_FFFF_FFFF_FFFF

  lemma {:induction false} AllOnes(n: nat, m: nat)
    requires n <= m
    ensures (Pow256(m) - 1) % Pow256(n) == Pow256(n) - 1
    decreases m - n
  {
    if n == m {
      DivModUnique(Pow256(m) - 1, Pow256(n), 0, Pow256(n) - 1);
    } else {
      AllOnes(n, m - 1);
      var p := Pow256(n);
      var q := (Pow256(m - 1) - 1) / p;
      assert Pow256(m - 1) - 1 == q * p + (p - 1);
      assert Pow256(m) - 1 == 256 * Pow256(m - 1) - 1;
      assert 256 * (q * p) == (256 * q) * p;
      assert Pow256(m) - 1 == (256 * q + 255) * p + (p - 1);
      DivModUnique(Pow256(m) - 1, p, 256 * q + 255, p - 1);
    }
  }

  /** The value a port or register delivers to the guest, as a later reader of the page sees it. */
  function PageValue(x: Exit, page: seq<byte>): nat
    requires InPage(x, |page|)
  {
    LeValue(AccessBytes(x, page))
  }

  /** A port nobody registered reads as all ones in every byte of the access. */
  lemma UnregisteredPort<W>(t: Ports<W>, w: W, x: Exit, page: seq<byte>)
    requires x.Io? && !x.out && InPage(x, |page|) && x.port !in t.onIn
    ensures HandleIo(t, w, x, page).0 == w
    ensures PageValue(x, HandleIo(t, w, x, page).1) == Pow256(AccessSize(x)) - 1
  {
    AnsweredValue(x, page, ALL_ONES32);
    Pow256Values();
    AllOnes(AccessSize(x), 4);
  }

  lemma UnregisteredRegister<W>(t: MmioMap<W>, w: W, x: Exit, page: seq<byte>)
    requires MmioAccepted(x) && !x.write && InPage(x, |page|) && x.addr !in t.onRead
    ensures HandleMmio(t, w, x, page).0 == w
    ensures PageValue(x, HandleMmio(t, w, x, page).1) == Pow256(AccessSize(x)) - 1
  {
    AnsweredValue(x, page, ALL_ONES64);
    Pow256Values();
    AllOnes(AccessSize(x), 8);
  }

  /**
   * Port exits against the callback table: the callback of the port, if there is one, is handed the
   * access as it stands in the page; an OUT leaves the page alone, an IN changes only its own bytes.
   */
  lemma PortCallbacks<W>(t: Ports<W>, w: W, x: Exit, page: seq<byte>)
    requires x.Io? && InPage(x, |page|)
    ensures var n := Min(x.size, 4);
      var r := HandleIo(t, w, x, page);
      if x.out then
        var v := LeValue(page[x.offset..x.offset + n]);
        v < TWO32 && r.1 == page &&
        r.0 == if x.port in t.onOut then t.onOut[x.port](w, OutContext(x.port, x.size, v, x.count)) else w
      else
        var (w', v) := if x.port in t.onIn then t.onIn[x.port](w, InContext(x.port, x.size, x.count)) else (w, 0xFFFF_FFFF);
        r == (w', page[..x.offset] + LeBytes(v, n) + page[x.offset + n..])
  {
    assert Le32(AccessBytes(x, page)) < TWO32;
  }

  /** MMIO exits of an accepted length against the callback table; the data field is at 40 in the page. */
  lemma RegisterCallbacks<W>(t: MmioMap<W>, w: W, x: Exit, page: seq<byte>)
    requires x.Mmio? && 1 <= x.len % 256 <= 8 && InPage(x, |page|)
    ensures MmioAccepted(x)
    ensures var n := x.len % 256;
      var r := HandleMmio(t, w, x, page);
      if x.write then
        var v := LeValue(page[40..40 + n]);
        v < TWO64 && r.1 == page &&
        r.0 == if x.addr in t.onWrite then t.onWrite[x.addr](w, WriteContext(x.addr, n, v)) else w
      else
        var (w', v) := if x.addr in t.onRead then t.onRead[x.addr](w, ReadContext(x.addr, n)) else (w, 0xFFFF_FFFF_FFFF_FFFF);
        r == (w', page[..40] + LeBytes(v, n) + page[40 + n..])
  {
    assert Le64(AccessBytes(x, page)) < TWO64;
  }

  /**
   * CPUID against the callback table: the leaf asked for is EAX and the subleaf ECX; a callback of
   * that leaf answers and changes its state, otherwise the host answers for the same leaf and subleaf.
   */
  lemma LeafCallbacks<W>(k: Kernel, t: Leaves<W>, w: W, c: Cpu)
    ensures var leaf, sub := c.regs.rax % TWO32, c.regs.rcx % TWO32;
      var (w', v) := if leaf in t.callbacks then t.callbacks[leaf](w, leaf, sub) else (w, t.host(leaf, sub));
      var regs := c.regs.(rax := v.eax, rbx := v.ebx, rcx := v.ecx, rdx := v.edx);
      HandleCpuid(k, t, w, c) ==
        if !k.regsReadable(c.tick, c.regs) then (c.(tick := c.tick + 1), w, false)
        else if !k.regsWritable(c.tick + 1, regs) then (c.(tick := c.tick + 2), w', false)
        else (c.(regs := regs, tick := c.tick + 2), w', true)
  {
  }
}
