/** The demo's MMIO device: a magic register, an input register, and a status register that reports both. */
module DemoDevice {
  import opened Words
  import opened Memory
  import opened Kvm
  import opened Events
  import opened EventBus
  import opened Devices
  import opened ExitLoop
  import opened EventValues
  import opened Repeatability
  import VM = VirtualMachines

  const MAGIC: u64 := 0x8_0000
  const INPUT: u64 := 0x8_0008
  const STATUS: u64 := 0x8_0010

  datatype DeviceState = DeviceState(lastWrite: u64, writeCount: u64)

  const POWER_ON := DeviceState(0, 0)

  lemma Pow2Of32()
    ensures Pow2(32) == TWO32
  {
    assert Pow2(4) == 16;
    assert Pow2(8) == 16 * Pow2(4);
    assert Pow2(12) == 16 * Pow2(8);
    assert Pow2(16) == 16 * Pow2(12);
    assert Pow2(20) == 16 * Pow2(16);
    assert Pow2(24) == 16 * Pow2(20);
    assert Pow2(28) == 16 * Pow2(24);
    assert Pow2(32) == 16 * Pow2(28);
  }

  /** Count in the upper half, last value in the lower: the OR never meets a common bit. */
  function Status(d: DeviceState): (v: u64)
    ensures v == d.writeCount % TWO32 * TWO32 + d.lastWrite % TWO32
  {
    Pow2Of32();
    var count := Shl(d.writeCount % TWO32, 32);
    OrDisjoint(count, d.lastWrite % TWO32, 32);
    BitOr(count, d.lastWrite % TWO32)
  }

  function ReadMagic(d: DeviceState, x: ReadContext): (DeviceState, u64) {
    (d, 0x4D4D494F)
  }

  function ReadStatus(d: DeviceState, x: ReadContext): (DeviceState, u64) {
    (d, Status(d))
  }

  function WriteInput(d: DeviceState, x: WriteContext): DeviceState {
    DeviceState(x.value, Wrap64(d.writeCount + 1))
  }

  function DemoMap(): MmioMap<DeviceState> {
    MmioMap(map[MAGIC := ReadMagic, STATUS := ReadStatus], map[INPUT := WriteInput])
  }

  /** The device is connected; event handlers keep nothing of the machine in its state. */
  ghost predicate OnDevice(rig: Rig<DeviceState>) {
    rig.mmio == Some(DemoMap()) && rig.look == NoLook()
  }

  // ---------------------------------------------------------------------------------------------
  // Device state over any interleaving of MMIO exits and restores.

  /** An MMIO exit of the guest (of any length) in whatever state it then is, or a restore of a snapshot. */
  datatype Happening = Access(at: Cpu) | Restored(s: VM.Snapshot)

  predicate Enabled<W>(m: Machine<W>, h: Happening) {
    match h
    case Access(c) => CpuOk(c) && c.exit.Mmio?
    case Restored(s) => VM.Copyable(s, m.cpu.ram)
  }

  function After<W>(rig: Rig<W>, m: Machine<W>, h: Happening): Machine<W>
    requires Enabled(m, h)
  {
    match h
    case Access(c) => MmioExit(rig, m.(cpu := c), c.exit).0
    case Restored(s) => Rewound(rig, m, s)
  }

  /** states is the history of a machine under these happenings. */
  ghost predicate History<W>(rig: Rig<W>, states: seq<Machine<W>>, hs: seq<Happening>) {
    |states| == |hs| + 1 &&
    forall i {:trigger Enabled(states[i], hs[i])} :: 0 <= i < |hs| ==>
      Enabled(states[i], hs[i]) && states[i + 1] == After(rig, states[i], hs[i])
  }

  predicate InputWrite(h: Happening) {
    h.Access? && CpuOk(h.at) && MmioAccepted(h.at.exit) && h.at.exit.write && h.at.exit.addr == INPUT
  }

  /** The values written at exactly the input register, decoded, in order. */
  function Inputs(hs: seq<Happening>): seq<u64> {
    if hs == [] then []
    else
      var h := hs[|hs| - 1];
      Inputs(hs[..|hs| - 1]) + if InputWrite(h) then [Written(h)] else []
  }

  function Written(h: Happening): u64
    requires InputWrite(h)
  {
    Le64(AccessBytes(h.at.exit, h.at.page))
  }

  function Last(values: seq<u64>, otherwise: u64): u64 {
    if values == [] then otherwise else values[|values| - 1]
  }

  lemma HappeningEffect(rig: Rig<DeviceState>, m: Machine<DeviceState>, h: Happening)
    requires OnDevice(rig) && Inert(m.bus.subs) && Enabled(m, h)
    ensures var m' := After(rig, m, h);
      && m'.bus.subs == m.bus.subs
      && m'.world ==
        if InputWrite(h) then DeviceState(Written(h), Wrap64(m.world.writeCount + 1)) else m.world
  {
    if h.Access? && MmioAccepted(h.at.exit) {
      var x := h.at.exit;
      var m1 := HandledMmio(rig, m.(cpu := h.at), x);
      var t := Stamped(rig.kernel, m1.cpu, true);
      var e := HvEvent(MemAccess, rig.vcpuId, t.1.1, t.1.0, MmioEvent(x, m1.cpu.page));
      InertDelivery(m.bus.subs, m1.world, e);
    }
  }

  /** The device remembers exactly the writes to its input register, across any number of restores. */
  lemma {:induction false} DeviceRemembers(rig: Rig<DeviceState>, states: seq<Machine<DeviceState>>, hs: seq<Happening>, k: nat)
    requires OnDevice(rig) && History(rig, states, hs) && k <= |hs|
    requires Inert(states[0].bus.subs) && states[0].world == POWER_ON
    ensures states[k].bus.subs == states[0].bus.subs
    ensures states[k].world == DeviceState(Last(Inputs(hs[..k]), 0), Wrap64(|Inputs(hs[..k])|))
    decreases k
  {
    if k > 0 {
      DeviceRemembers(rig, states, hs, k - 1);
      HistoryStep(rig, states, hs, k);
      InputsStep(hs, k);
      WrapAdd64(0, |Inputs(hs[..k - 1])|, 1);
    }
  }

  lemma HistoryStep(rig: Rig<DeviceState>, states: seq<Machine<DeviceState>>, hs: seq<Happening>, k: nat)
    requires OnDevice(rig) && History(rig, states, hs) && 0 < k <= |hs| && Inert(states[k - 1].bus.subs)
    ensures states[k].bus.subs == states[k - 1].bus.subs
    ensures states[k].world == if InputWrite(hs[k - 1])
      then DeviceState(Written(hs[k - 1]), Wrap64(states[k - 1].world.writeCount + 1)) else states[k - 1].world
  {
    assert Enabled(states[k - 1], hs[k - 1]);
    HappeningEffect(rig, states[k - 1], hs[k - 1]);
  }

  lemma InputsStep(hs: seq<Happening>, k: nat)
    requires 0 < k <= |hs|
    ensures var before, now := Inputs(hs[..k - 1]), Inputs(hs[..k]);
      if InputWrite(hs[k - 1]) then now == before + [Written(hs[k - 1])] else now == before
  {
    assert hs[..k][..k - 1] == hs[..k - 1];
  }

  lemma WrapMod32(n: nat)
    ensures Wrap64(n) % TWO32 == n % TWO32
  {
    var k, r := n / TWO64, n % TWO64;
    assert n == k * TWO32 * TWO32 + r;
  }

  lemma StatusOf(d: DeviceState, n: nat, x: Exit)
    requires d.writeCount == Wrap64(n) && MmioAccepted(x) && x.addr == STATUS
    ensures ReadReply(DemoMap(), d, x) == (d, n % TWO32 * TWO32 + d.lastWrite % TWO32)
  {
    WrapMod32(n);
  }

  /** What the status register holds, and a read of a given size delivers, after n writes, the last of them `last`. */
  function StatusValue(n: nat, last: u64): nat {
    n % TWO32 * TWO32 + last % TWO32
  }

  function Delivered(n: nat, last: u64, size: nat): nat {
    StatusValue(n, last) % Pow256(size)
  }

  /** The guest gets v, and the last event says v. */
  predicate Delivers<W>(m: Machine<W>, v: nat) {
    && CpuOk(m.cpu) && LeValue(Reply(m.cpu)) == v
    && LastEvent(m).payload.MmioPayload? && LastEvent(m).payload.mmioValue == v
  }

  /**
   * A status read of size z delivers ((n mod 2^32) * 2^32 + last mod 2^32) mod 256^z, where n counts
   * all writes at the input register since power-on and last is the latest of them, however many
   * snapshots were restored in between: to the guest, and in the published event.
   */
  lemma StatusRead(rig: Rig<DeviceState>, states: seq<Machine<DeviceState>>, hs: seq<Happening>, c: Cpu)
    requires OnDevice(rig) && rig.bus && History(rig, states, hs)
    requires Inert(states[0].bus.subs) && states[0].world == POWER_ON
    requires CpuOk(c) && MmioAccepted(c.exit) && !c.exit.write && c.exit.addr == STATUS
    ensures var m := MmioExit(rig, states[|hs|].(cpu := c), c.exit).0;
      Delivers(m, Delivered(|Inputs(hs)|, Last(Inputs(hs), 0), Wrap8(c.exit.len)))
  {
    DeviceRemembers(rig, states, hs, |hs|);
    assert hs[..|hs|] == hs;
    var m := states[|hs|].(cpu := c);
    assert m.world == DeviceState(Last(Inputs(hs), 0), Wrap64(|Inputs(hs)|));
    StatusDelivered(rig, m, |Inputs(hs)|);
  }

  /** The magic register reads as the letters OIMM, lowest byte first, as far as the access reaches. */
  lemma MagicRead(rig: Rig<DeviceState>, m: Machine<DeviceState>)
    requires OnDevice(rig) && rig.bus && Ok(m)
    requires MmioAccepted(m.cpu.exit) && !m.cpu.exit.write && m.cpu.exit.addr == 0x8_0000
    ensures Delivers(DispatchExit(rig, m, m.cpu.exit).0, 0x4D4D_494F % Pow256(Wrap8(m.cpu.exit.len)))
    ensures LeValue(['O' as int, 'I' as int, 'M' as int, 'M' as int]) == 0x4D4D_494F
  {
    ReadAgreement(rig, m, m.cpu.exit);
    assert LeValue([0x4D, 0x4D]) == 0x4D + 256 * LeValue([0x4D]);
  }

  lemma StatusDelivered(rig: Rig<DeviceState>, m: Machine<DeviceState>, n: nat)
    requires OnDevice(rig) && rig.bus && m.world.writeCount == Wrap64(n)
    requires Ok(m) && MmioAccepted(m.cpu.exit) && !m.cpu.exit.write && m.cpu.exit.addr == STATUS
    ensures var x := m.cpu.exit;
      var m2 := MmioExit(rig, m, x).0;
      Delivers(m2, Delivered(n, m.world.lastWrite, Wrap8(x.len)))
  {
    StatusOf(m.world, n, m.cpu.exit);
    ReadAgreement(rig, m, m.cpu.exit);
  }

  // ---------------------------------------------------------------------------------------------
  // How much of the device's state a status read of a given size shows.

  lemma {:induction false} Pow256Sum(a: nat, b: nat)
    ensures Pow256(a + b) == Pow256(a) * Pow256(b)
    decreases a
  {
    if a > 0 {
      Pow256Sum(a - 1, b);
      assert Pow256(a + b) == 256 * Pow256(a - 1 + b);
      assert 256 * (Pow256(a - 1) * Pow256(b)) == 256 * Pow256(a - 1) * Pow256(b);
    }
  }

  lemma ModOfMultiple(v: nat, p: nat, q: nat)
    requires p > 0 && q > 0
    ensures p * q > 0 && v % (p * q) % p == v % p
  {
    var k, r := v / (p * q), v % (p * q);
    MulAtLeast(q, p);
    assert v == k * (p * q) + r;
    var k', r' := r / p, r % p;
    assert r == k' * p + r';
    assert v == (k * q + k') * p + r' by {
      assert k * (p * q) == (k * q) * p;
      assert (k * q + k') * p == (k * q) * p + k' * p;
    }
    DivModUnique(v, p, k * q + k', r');
  }

  /** Up to four bytes: only the last value, reduced to the size. */
  lemma NarrowRead(n: nat, last: u64, z: nat)
    requires z <= 4
    ensures Delivered(n, last, z) == last % Pow256(z)
  {
    var p, q := Pow256(z), Pow256(4 - z);
    Pow256Sum(z, 4 - z);
    Pow256Values();
    var c, l := n % TWO32, last % TWO32;
    ModOfMultiple(last, p, q);
    ModOfMultiple(c * TWO32 + l, p, q);
    DivModUnique(c * TWO32 + l, TWO32, c, l);
  }

  /** More than four: the whole last value, and the low bytes of the count. */
  lemma WideRead(n: nat, last: u64, z: nat)
    requires 4 < z <= 8
    ensures Delivered(n, last, z) == n % Pow256(z - 4) * TWO32 + last % TWO32
  {
    var p, q := Pow256(z - 4), Pow256(8 - z);
    Pow256Sum(4, z - 4);
    Pow256Sum(z - 4, 8 - z);
    Pow256Values();
    assert p * q == TWO32 && Pow256(z) == TWO32 * p;
    ModOfMultiple(n, p, q);
    var c, l := n % TWO32, last % TWO32;
    var k, r := c / p, c % p;
    assert c == k * p + r;
    var v := c * TWO32 + l;
    assert v == k * (TWO32 * p) + (r * TWO32 + l) by {
      assert (k * p + r) * TWO32 == k * p * TWO32 + r * TWO32;
      assert k * p * TWO32 == k * (TWO32 * p);
    }
    assert r * TWO32 + l < TWO32 * p by {
      assert r + 1 <= p;
      assert (r + 1) * TWO32 <= p * TWO32;
    }
    DivModUnique(v, TWO32 * p, k, r * TWO32 + l);
  }

  /** What a read of size z shows is the same: the last value up to four bytes, beyond those the count up to z - 4. */
  predicate ShownAlike(n: nat, last: u64, n': nat, last': u64, z: nat) {
    LastAlike(last, last', z) && (z <= 4 || n % Pow256(z - 4) == n' % Pow256(z - 4))
  }

  predicate LastAlike(last: u64, last': u64, z: nat) {
    last % Pow256(Min(z, 4)) == last' % Pow256(Min(z, 4))
  }

  lemma ReadShows(n: nat, last: u64, n': nat, last': u64, z: nat)
    requires z <= 8
    ensures Delivered(n, last, z) == Delivered(n', last', z) <==> ShownAlike(n, last, n', last', z)
  {
    if z <= 4 {
      NarrowRead(n, last, z);
      NarrowRead(n', last', z);
    } else {
      WideRead(n, last, z);
      WideRead(n', last', z);
      Pow256Values();
      var a, b := n % Pow256(z - 4), n' % Pow256(z - 4);
      if a * TWO32 + last % TWO32 == b * TWO32 + last' % TWO32 {
        QuotientUnique(TWO32, a, last % TWO32, b, last' % TWO32);
      }
    }
  }

  /** Two reads, the second after so many more writes. */
  lemma LaterRead(n: nat, more: nat, last: u64, last': u64, z: nat)
    ensures ShownAlike(n, last, n + more, last', z) <==> LastAlike(last, last', z) && (z <= 4 || more % Pow256(z - 4) == 0)
  {
    if z > 4 {
      SameRemainder(n, more, Pow256(z - 4));
    }
  }

  lemma SameRemainder(n: nat, d: nat, p: nat)
    requires p > 0
    ensures n % p == (n + d) % p <==> d % p == 0
  {
    var k, r := n / p, n % p;
    var l, s := d / p, d % p;
    if s == 0 {
      assert n + d == (k + l) * p + r;
      DivModUnique(n + d, p, k + l, r);
    } else if r + s < p {
      assert n + d == (k + l) * p + (r + s);
      DivModUnique(n + d, p, k + l, r + s);
    } else {
      assert n + d == (k + l + 1) * p + (r + s - p);
      DivModUnique(n + d, p, k + l + 1, r + s - p);
    }
  }
}
