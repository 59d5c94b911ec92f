/**
 * Where repeatability ends in the demo: its device is not part of the snapshot. For every
 * deterministic guest, exactly when a run on the demo's device repeats after a restore.
 */
module DemoRerun {
  import opened Words
  import opened Memory
  import opened Kvm
  import opened Devices
  import opened ExitLoop
  import opened Repeatability
  import opened Dialogues
  import opened Reruns
  import opened RepeatLimits
  import opened DemoDevice

  /** Exactly the reads of the status register depend on the device's state. */
  lemma DemoBlind(x: Exit)
    requires MmioAccepted(x)
    ensures BlindMmio(DemoMap(), x) <==> x.write || x.addr != STATUS
  {
    if !x.write {
      if x.addr == STATUS {
        StatusOf(DeviceState(0, 0), 0, x);
        StatusOf(DeviceState(1, 0), 0, x);
        assert ReadBytes(DemoMap(), DeviceState(0, 0), x)[0] != ReadBytes(DemoMap(), DeviceState(1, 0), x)[0];
      } else {
        forall w, w' ensures ReadBytes(DemoMap(), w, x) == ReadBytes(DemoMap(), w', x) {}
      }
    }
  }

  // ---------------------------------------------------------------------------------------------
  // The demo's callbacks.

  /** Leaf 1 is answered with zeroes, every other leaf by the host; port 0x60 is a keyboard. */
  function MaskedLeaf(d: DeviceState, leaf: u32, subleaf: u32): (DeviceState, LeafResult) {
    (d, LeafResult(0, 0, 0, 0))
  }

  function Keyboard(d: DeviceState, x: InContext): (DeviceState, u32) {
    (d, 0x1A)
  }

  function DemoTables(host: (u32, u32) -> LeafResult): Tables<DeviceState> {
    Tables(Some(Leaves(map[1 := MaskedLeaf], host)), Ports(map[0x60 := Keyboard], map[]), DemoMap())
  }

  /**
   * What the guest gets of them: an IN from port 0x60 delivers the scancode 0x1A, every other port all ones;
   * CPUID leaf 1 gives four zeroes, not the host's answer with one bit masked, and any other leaf what the host says.
   */
  lemma DemoAnswers(host: (u32, u32) -> LeafResult, d: DeviceState, x: Exit, page: seq<byte>, leaf: u32, subleaf: u32)
    requires x.Io? && !x.out && InPage(x, |page|)
    ensures var size := Min(x.size, 4);
      PageValue(x, HandleIo(DemoTables(host).io, d, x, page).1) == if x.port == 0x60 then 0x1A % Pow256(size) else Pow256(size) - 1
    ensures LeafReply(DemoTables(host).cpuid.value, d, leaf, subleaf) ==
      (d, if leaf == 1 then LeafResult(0, 0, 0, 0) else host(leaf, subleaf))
  {
    if x.port == 0x60 {
      AnsweredValue(x, page, 0x1A);
    } else {
      UnregisteredPort(DemoTables(host).io, d, x, page);
    }
  }

  predicate IsMmio(a: Access) {
    a.Move? && a.x.Mmio?
  }

  /** What is not MMIO neither changes the device nor depends on it. */
  ghost predicate Apart(t: Tables<DeviceState>) {
    forall d, d', a {:trigger Answering(t, d, a), Answering(t, d', a)} :: !IsMmio(a) ==>
      Answering(t, d, a).0 == d && Answering(t, d, a).1 == Answering(t, d', a).1
  }

  /** The demo's device, with any port and CPUID callbacks that have nothing to do with it. */
  ghost predicate DemoWired(t: Tables<DeviceState>) {
    t.mmio == DemoMap() && Apart(t)
  }

  lemma DemoIsWired(host: (u32, u32) -> LeafResult)
    ensures DemoWired(DemoTables(host))
  {
  }

  lemma WiredTells(k: Kernel, t: Tables<DeviceState>)
    requires DemoWired(t)
    ensures Telling(k, t)
  {
    if t.cpuid.Some? {
      forall d, d', leaf: u32, sub: u32
        ensures LeafReply(t.cpuid.value, d, leaf, sub).1 == LeafReply(t.cpuid.value, d', leaf, sub).1
      {
        assert Answering(t, d, Query(leaf, sub)).1 == Answering(t, d', Query(leaf, sub)).1;
      }
    }
  }

  // ---------------------------------------------------------------------------------------------
  // The device over a dialogue.

  predicate IsInput(a: Access) {
    Proper(a) && IsMmio(a) && a.x.write && a.x.addr == INPUT
  }

  predicate IsStatus(a: Access) {
    Proper(a) && IsMmio(a) && !a.x.write && a.x.addr == STATUS
  }

  function InputValue(a: Access): u64
    requires IsInput(a)
  {
    Le64(a.data)
  }

  /** The values written to the input register. */
  function Writes(s: seq<Access>): seq<u64> {
    if s == [] then [] else (if IsInput(s[0]) then [InputValue(s[0])] else []) + Writes(s[1..])
  }

  function DeviceAfter(d: DeviceState, values: seq<u64>): DeviceState {
    DeviceState(Last(values, d.lastWrite), Wrap64(d.writeCount + |values|))
  }

  lemma OneAccess(t: Tables<DeviceState>, d: DeviceState, a: Access)
    requires DemoWired(t)
    ensures Answering(t, d, a).0 == if IsInput(a) then DeviceState(InputValue(a), Wrap64(d.writeCount + 1)) else d
  {
    if !IsMmio(a) {
      assert Answering(t, d, a).0 == d;
    }
  }

  lemma LastOf(v: u64, rest: seq<u64>, otherwise: u64)
    ensures Last([v] + rest, otherwise) == Last(rest, v)
  {
  }

  lemma WriteFirst(d: DeviceState, v: u64, rest: seq<u64>)
    ensures DeviceAfter(DeviceState(v, Wrap64(d.writeCount + 1)), rest) == DeviceAfter(d, [v] + rest)
  {
    LastOf(v, rest, d.lastWrite);
    WrapAdd64(d.writeCount, 1, |rest|);
  }

  lemma {:induction false} DeviceFollows(t: Tables<DeviceState>, d: DeviceState, s: seq<Access>)
    requires DemoWired(t)
    ensures WorldAfter(React(t), d, s) == DeviceAfter(d, Writes(s))
    decreases |s|
  {
    if s != [] {
      OneAccess(t, d, s[0]);
      var d' := Answering(t, d, s[0]).0;
      assert React(t)(d, s[0]).0 == d';
      DeviceFollows(t, d', s[1..]);
      if IsInput(s[0]) {
        WriteFirst(d, InputValue(s[0]), Writes(s[1..]));
      }
    }
  }

  /** Bytes agree exactly when the values they encode do. */
  lemma SameLeBytes(v: nat, w: nat, n: nat)
    ensures LeBytes(v, n) == LeBytes(w, n) <==> v % Pow256(n) == w % Pow256(n)
  {
    LeValueOfBytes(v, n);
    LeValueOfBytes(w, n);
    if v % Pow256(n) == w % Pow256(n) {
      SameBytesSameValue(LeBytes(v, n), LeBytes(w, n));
    }
  }

  function SizeOf(a: Access): nat
    requires IsStatus(a)
  {
    Wrap8(a.x.len)
  }

  /** A status read in two states of the device, with n and n' writes on the count. */
  lemma StatusAnswers(t: Tables<DeviceState>, d: DeviceState, n: nat, d': DeviceState, n': nat, a: Access)
    requires t.mmio == DemoMap() && IsStatus(a) && d.writeCount == Wrap64(n) && d'.writeCount == Wrap64(n')
    ensures Answering(t, d, a).1 == Answering(t, d', a).1 <==> ShownAlike(n, d.lastWrite, n', d'.lastWrite, SizeOf(a))
  {
    AnswerIs(t, d, n, a);
    AnswerIs(t, d', n', a);
    BytesShow(n, d.lastWrite, n', d'.lastWrite, SizeOf(a));
  }

  lemma BytesShow(n: nat, last: u64, n': nat, last': u64, z: nat)
    requires z <= 8
    ensures LeBytes(StatusValue(n, last), z) == LeBytes(StatusValue(n', last'), z) <==> ShownAlike(n, last, n', last', z)
  {
    SameLeBytes(StatusValue(n, last), StatusValue(n', last'), z);
    ReadShows(n, last, n', last', z);
  }

  lemma AnswerIs(t: Tables<DeviceState>, d: DeviceState, n: nat, a: Access)
    requires t.mmio == DemoMap() && IsStatus(a) && d.writeCount == Wrap64(n)
    ensures Answering(t, d, a).1 == Bytes(LeBytes(StatusValue(n, d.lastWrite), SizeOf(a)))
  {
    StatusOf(d, n, a.x);
  }

  lemma OtherAnswers(t: Tables<DeviceState>, d: DeviceState, d': DeviceState, a: Access)
    requires DemoWired(t) && !IsStatus(a)
    ensures Answering(t, d, a).1 == Answering(t, d', a).1
  {
    if !IsMmio(a) {
      assert Answering(t, d, a).1 == Answering(t, d', a).1;
    }
  }

  // ---------------------------------------------------------------------------------------------
  // The exact condition.

  /**
   * Read number p shows a second time what it showed the first: it does not reach the count, or
   * the run advances the count by nothing that it shows; and it comes after a write of the same
   * run, or there is none, or the last one left what was there before, as far as it shows.
   */
  predicate ShowsTheSame(s: seq<Access>, p: nat, last0: u64)
    requires p < |s| && IsStatus(s[p])
  {
    ReadsTheSame(Writes(s[..p]), Writes(s), last0, SizeOf(s[p]))
  }

  /** The same for a read of size z after the writes `before` of a run that makes the writes `values`. */
  predicate ReadsTheSame(before: seq<u64>, values: seq<u64>, last0: u64, z: nat) {
    && (z <= 4 || |values| % Pow256(z - 4) == 0)
    && (before != [] || values == [] || Last(values, last0) % Pow256(Min(z, 4)) == last0 % Pow256(Min(z, 4)))
  }

  predicate StatusSafe(s: seq<Access>, last0: u64) {
    forall p :: 0 <= p < |s| && IsStatus(s[p]) ==> ShowsTheSame(s, p, last0)
  }

  lemma LastDecides(before: seq<u64>, values: seq<u64>, last0: u64, z: nat)
    ensures LastAlike(Last(before, last0), Last(before, Last(values, last0)), z) <==>
      before != [] || values == [] || Last(values, last0) % Pow256(Min(z, 4)) == last0 % Pow256(Min(z, 4))
  {
  }

  lemma ShownDecides(count: nat, before: seq<u64>, values: seq<u64>, last0: u64, z: nat)
    ensures ShownAlike(count + |before|, Last(before, last0), count + |before| + |values|, Last(before, Last(values, last0)), z) <==>
      ReadsTheSame(before, values, last0, z)
  {
    LaterRead(count + |before|, |values|, Last(before, last0), Last(before, Last(values, last0)), z);
    LastDecides(before, values, last0, z);
  }

  lemma StatusDecides(t: Tables<DeviceState>, d: DeviceState, before: seq<u64>, values: seq<u64>, a: Access)
    requires t.mmio == DemoMap() && IsStatus(a)
    ensures Answering(t, DeviceAfter(d, before), a).1 == Answering(t, DeviceAfter(DeviceAfter(d, values), before), a).1 <==>
      ReadsTheSame(before, values, d.lastWrite, SizeOf(a))
  {
    var n := d.writeCount + |before|;
    WrapAdd64(d.writeCount, |values|, |before|);
    assert d.writeCount + (|values| + |before|) == n + |values|;
    StatusAnswers(t, DeviceAfter(d, before), n, DeviceAfter(DeviceAfter(d, values), before), n + |values|, a);
    ShownDecides(d.writeCount, before, values, d.lastWrite, SizeOf(a));
  }

  lemma ReplyDecides(t: Tables<DeviceState>, d: DeviceState, s: seq<Access>, p: nat)
    requires DemoWired(t) && p < |s|
    ensures var d' := WorldAfter(React(t), d, s);
      Replies(React(t), d, s)[p] == Replies(React(t), d', s)[p] <==> (IsStatus(s[p]) ==> ShowsTheSame(s, p, d.lastWrite))
  {
    var d' := WorldAfter(React(t), d, s);
    ReplyAt(React(t), d, s, p);
    ReplyAt(React(t), d', s, p);
    DeviceFollows(t, d, s);
    DeviceFollows(t, d, s[..p]);
    DeviceFollows(t, d', s[..p]);
    if IsStatus(s[p]) {
      StatusDecides(t, d, Writes(s[..p]), Writes(s), s[p]);
    } else {
      OtherAnswers(t, WorldAfter(React(t), d, s[..p]), WorldAfter(React(t), d', s[..p]), s[p]);
    }
  }

  lemma RepliesDecideStatus(t: Tables<DeviceState>, d: DeviceState, s: seq<Access>)
    requires DemoWired(t)
    ensures RepliesAgree(t, d, WorldAfter(React(t), d, s), s) <==> StatusSafe(s, d.lastWrite)
  {
    var a, b := Replies(React(t), d, s), Replies(React(t), WorldAfter(React(t), d, s), s);
    forall p | 0 <= p < |s| ensures a[p] == b[p] <==> (IsStatus(s[p]) ==> ShowsTheSame(s, p, d.lastWrite)) {
      ReplyDecides(t, d, s, p);
    }
    if StatusSafe(s, d.lastWrite) {
      assert a == b;
    }
  }

  /**
   * For every deterministic guest on the demo's device, wherever the snapshot is taken and whatever
   * the device has seen before: a run that stops repeats after a restore if and only if each of its
   * status reads shows the same again. The condition is about the accesses of the first run alone.
   */
  lemma DemoRepeatsExactly(k: Kernel, id: u32, t: Tables<DeviceState>, m0: Machine<DeviceState>, j: nat)
    requires DemoWired(t) && FirstRun(k, id, t, m0, j)
    ensures var first := Snapshotted(RigOf(k, id, t), m0);
      SameRun(RigOf(k, id, t), first, Again(k, id, t, m0, j), j) <==>
      StatusSafe(Accesses(k, id, t, first, j), m0.world.lastWrite)
  {
    WiredTells(k, t);
    RerunExactly(k, id, t, m0, j, Accounting.Exits);
    RepliesDecideStatus(t, m0.world, Accesses(k, id, t, Snapshotted(RigOf(k, id, t), m0), j));
  }

  // ---------------------------------------------------------------------------------------------
  // Two guests.

  /** The repository's guest: read the magic word, write 0x42 to the input register, read the status word. */
  const SIMPLE_GUEST: seq<Access> :=
    [Move(Mmio(MAGIC, 2, false), []), Move(Mmio(INPUT, 2, true), [0x42, 0x00]), Move(Mmio(STATUS, 2, false), [])]

  /** The same with a status read of eight bytes, which reaches the count. */
  const WIDE_GUEST: seq<Access> :=
    [Move(Mmio(MAGIC, 2, false), []), Move(Mmio(INPUT, 2, true), [0x42, 0x00]), Move(Mmio(STATUS, 8, false), [])]

  lemma SimpleGuestSafe(last0: u64)
    ensures StatusSafe(SIMPLE_GUEST, last0)
  {
    var s := SIMPLE_GUEST;
    assert s[..2][1..] == [s[1]];
    assert IsInput(s[1]) && Writes(s[..2]) != [];
  }

  /** A run that makes the accesses of the repository's guest repeats, whatever the device has seen before. */
  lemma SimpleGuestRepeats(k: Kernel, id: u32, t: Tables<DeviceState>, m0: Machine<DeviceState>, j: nat)
    requires DemoWired(t) && FirstRun(k, id, t, m0, j)
    requires Accesses(k, id, t, Snapshotted(RigOf(k, id, t), m0), j) == SIMPLE_GUEST
    ensures SameRun(RigOf(k, id, t), Snapshotted(RigOf(k, id, t), m0), Again(k, id, t, m0, j), j)
  {
    DemoRepeatsExactly(k, id, t, m0, j);
    SimpleGuestSafe(m0.world.lastWrite);
  }

  /** Access p is a status read that shows that the run has advanced the count. */
  predicate ShowsCount(s: seq<Access>, p: nat) {
    p < |s| && IsStatus(s[p]) && SizeOf(s[p]) > 4 && |Writes(s)| % Pow256(SizeOf(s[p]) - 4) != 0
  }

  /**
   * "Saves complete VM state" stops at the VM: a run with a status read of more than four bytes, and
   * a number of input writes that shows in it, never repeats, wherever the snapshot is taken. For a
   * read of eight bytes that is any number of writes that is not a multiple of 2^32.
   */
  lemma RerunDiffers(k: Kernel, id: u32, t: Tables<DeviceState>, m0: Machine<DeviceState>, j: nat, p: nat)
    requires DemoWired(t) && FirstRun(k, id, t, m0, j)
    requires ShowsCount(Accesses(k, id, t, Snapshotted(RigOf(k, id, t), m0), j), p)
    ensures !SameRun(RigOf(k, id, t), Snapshotted(RigOf(k, id, t), m0), Again(k, id, t, m0, j), j)
  {
    DemoRepeatsExactly(k, id, t, m0, j);
    CountUnsafe(Accesses(k, id, t, Snapshotted(RigOf(k, id, t), m0), j), p, m0.world.lastWrite);
  }

  lemma CountUnsafe(s: seq<Access>, p: nat, last0: u64)
    requires ShowsCount(s, p)
    ensures !StatusSafe(s, last0)
  {
    assert !ShowsTheSame(s, p, last0);
  }

  lemma WideGuestShows()
    ensures ShowsCount(WIDE_GUEST, 2)
  {
    var s := WIDE_GUEST;
    assert !IsInput(s[0]) && IsInput(s[1]) && !IsInput(s[2]);
    assert s[1..] == [s[1], s[2]] && s[1..][1..] == [s[2]] && [s[2]][1..] == [];
    assert Writes([s[2]]) == [];
    assert |Writes(s[1..])| == 1;
    assert |Writes(s)| == 1;
    Pow256Values();
  }

  /** So a run that makes the accesses of the repository's guest, but reads the whole status register, never repeats. */
  lemma WideGuestDiffers(k: Kernel, id: u32, t: Tables<DeviceState>, m0: Machine<DeviceState>, j: nat)
    requires DemoWired(t) && FirstRun(k, id, t, m0, j)
    requires Accesses(k, id, t, Snapshotted(RigOf(k, id, t), m0), j) == WIDE_GUEST
    ensures !SameRun(RigOf(k, id, t), Snapshotted(RigOf(k, id, t), m0), Again(k, id, t, m0, j), j)
  {
    WideGuestShows();
    RerunDiffers(k, id, t, m0, j, 2);
  }

  /** Both guests exist, from every state of the device. */
  lemma BothGuestsExist(t: Tables<DeviceState>, s: seq<Access>, d: DeviceState)
    requires s == SIMPLE_GUEST || s == WIDE_GUEST
    ensures var k, m0 := Reciter(s), Idle(s, d);
      FirstRun(k, 0, t, m0, |s| + 1) && Accesses(k, 0, t, Snapshotted(RigOf(k, 0, t), m0), |s| + 1) == s && m0.world == d
  {
    var k, m0 := Reciter(s), Idle(s, d);
    assert AllAskable(t, s);
    IdleReady(k, 0, t, s, d);
    GuestForDialogue(k, t, s, m0, Snapshotted(RigOf(k, 0, t), m0));
  }
}
