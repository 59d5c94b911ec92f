/**
 * MemoryRegion: a host mapping registered as guest memory, owned by exactly one object.
 * `Region` is the value of one object, `Mappings` the record of calls on the host and the kernel;
 * H stands for the identity of a host mapping.
 */
module Regions {
  import opened Words
  import opened Memory

  datatype Region<+H> = Region(fd: int, slot: u32, gpa: u64, size: nat, host: Option<H>)

  /** Calls that take back what was given to the kernel and the host. */
  datatype HostCall<+H> = ClearSlot(fd: int, slot: u32) | Unmap(host: H, size: nat)

  /**
   * mapped gives the length of every mapping ever made, registered the descriptor and slot it was
   * registered under, calls lists what was taken back, in order.
   */
  datatype Mappings<H> = Mappings(mapped: map<H, nat>, registered: map<H, (int, u32)>, calls: seq<HostCall<H>>)

  function NoMappings<H>(): Mappings<H> {
    Mappings(map[], map[], [])
  }

  function Mapping<H>(h: H, size: nat, m: Mappings<H>): Mappings<H> {
    m.(mapped := m.mapped[h := size])
  }

  function Registering<H>(h: H, fd: int, slot: u32, m: Mappings<H>): Mappings<H> {
    m.(registered := m.registered[h := (fd, slot)])
  }

  function Unmapping<H>(h: H, size: nat, m: Mappings<H>): Mappings<H> {
    m.(calls := m.calls + [Unmap(h, size)])
  }

  /** Give up what r owns, if anything: the destructor, and the first half of move assignment. */
  function Release<H>(r: Region<H>, m: Mappings<H>): Mappings<H> {
    if r.host.Some? then m.(calls := m.calls + [ClearSlot(r.fd, r.slot), Unmap(r.host.value, r.size)]) else m
  }

  // ---------------------------------------------------------------------------------------------
  // The protocol: any sequence of creations, moves and destructions over any number of objects.

  datatype Op<H> =
    | Create(id: nat, fd: int, slot: u32, gpa: u64, size: nat, mmap: Option<H>, accepted: bool)
    | MoveConstruct(id: nat, source: nat)
    | MoveAssign(id: nat, source: nat)
    | Destroy(id: nat)

  datatype Heap<H> = Heap(objects: map<nat, Region<H>>, maps: Mappings<H>)

  function EmptyHeap<H>(): Heap<H> {
    Heap(map[], NoMappings())
  }

  /** Object identifiers name objects that exist (or, for constructions, do not); mmap returns new mappings. */
  predicate Enabled<H(==)>(s: Heap<H>, op: Op<H>) {
    match op
    case Create(id, _, _, _, _, mmap, _) => id !in s.objects && (mmap.Some? ==> mmap.value !in s.maps.mapped)
    case MoveConstruct(id, source) => id !in s.objects && source in s.objects
    case MoveAssign(id, source) => id in s.objects && source in s.objects
    case Destroy(id) => id in s.objects
  }

  /** A region under construction: mapped, then registered or unmapped again. */
  function Creating<H>(s: Heap<H>, id: nat, r: Region<H>, accepted: bool): Heap<H>
    requires r.host.Some?
  {
    var maps := Mapping(r.host.value, r.size, s.maps);
    if accepted then Heap(s.objects[id := r], Registering(r.host.value, r.fd, r.slot, maps))
    else s.(maps := Unmapping(r.host.value, r.size, maps))
  }

  function Apply<H(==)>(s: Heap<H>, op: Op<H>): Heap<H>
    requires Enabled(s, op)
  {
    match op
    case Create(id, fd, slot, gpa, size, mmap, accepted) =>
      if mmap.None? then s else Creating(s, id, Region(fd, slot, gpa, size, mmap), accepted)
    case MoveConstruct(id, source) =>
      Heap(Moving(s.objects, id, source), s.maps)
    case MoveAssign(id, source) =>
      if id == source then s else Heap(Moving(s.objects, id, source), Release(s.objects[id], s.maps))
    case Destroy(id) =>
      Heap(s.objects - {id}, Release(s.objects[id], s.maps))
  }

  /** The mapping changes hands; the source keeps only its description. */
  function Moving<H>(objects: map<nat, Region<H>>, id: nat, source: nat): map<nat, Region<H>>
    requires source in objects
  {
    objects[id := objects[source]][source := objects[source].(host := None)]
  }

  predicate AllEnabled<H(==)>(s: Heap<H>, ops: seq<Op<H>>)
    decreases |ops|
  {
    ops == [] || (Enabled(s, ops[0]) && AllEnabled(Apply(s, ops[0]), ops[1..]))
  }

  function ApplyAll<H(==)>(s: Heap<H>, ops: seq<Op<H>>): Heap<H>
    requires AllEnabled(s, ops)
    decreases |ops|
  {
    if ops == [] then s else ApplyAll(Apply(s, ops[0]), ops[1..])
  }

  ghost predicate Owns<H>(objects: map<nat, Region<H>>, id: nat, h: H) {
    id in objects && objects[id].host == Some(h)
  }

  ghost predicate IsUnmap<H>(c: HostCall<H>, h: H) {
    c.Unmap? && c.host == h
  }

  ghost predicate Unmapped<H>(m: Mappings<H>, h: H) {
    exists k :: 0 <= k < |m.calls| && IsUnmap(m.calls[k], h)
  }

  /** Every munmap call releases a mapping that was made, with the length it was made with, once. */
  ghost predicate ReleasedOnce<H>(m: Mappings<H>) {
    && (forall k :: 0 <= k < |m.calls| && m.calls[k].Unmap? ==>
          m.calls[k].host in m.mapped && m.mapped[m.calls[k].host] == m.calls[k].size)
    && (forall k, l :: 0 <= k < l < |m.calls| && m.calls[k].Unmap? && m.calls[l].Unmap? ==> m.calls[k].host != m.calls[l].host)
  }

  /** The unmapping of a registered mapping comes right after its slot is cleared, and no other slot is ever cleared. */
  ghost predicate Paired<H>(m: Mappings<H>) {
    && (forall k :: 0 <= k < |m.calls| && m.calls[k].Unmap? && m.calls[k].host in m.registered ==>
          k > 0 && Clears(m.calls[k - 1], m.registered[m.calls[k].host]))
    && (forall k :: 0 <= k < |m.calls| && m.calls[k].ClearSlot? ==>
          k + 1 < |m.calls| && m.calls[k + 1].Unmap? && m.calls[k + 1].host in m.registered
          && Clears(m.calls[k], m.registered[m.calls[k + 1].host]))
  }

  predicate Clears<H>(c: HostCall<H>, slot: (int, u32)) {
    c.ClearSlot? && (c.fd, c.slot) == slot
  }

  ghost predicate MapsOk<H>(m: Mappings<H>) {
    ReleasedOnce(m) && Paired(m) && m.registered.Keys <= m.mapped.Keys
  }

  /** A mapping that is still there, and that r knows the length and the registration of. */
  ghost predicate LiveIn<H>(m: Mappings<H>, h: H, r: Region<H>) {
    && h in m.mapped && m.mapped[h] == r.size && !Unmapped(m, h)
    && h in m.registered && m.registered[h] == (r.fd, r.slot)
  }

  /** No mapping has two owners; what is owned is live; what is not unmapped is owned. */
  ghost predicate Owned<H(!new)>(objects: map<nat, Region<H>>, m: Mappings<H>) {
    && (forall a, b, h :: Owns(objects, a, h) && Owns(objects, b, h) ==> a == b)
    && (forall id, h :: Owns(objects, id, h) ==> LiveIn(m, h, objects[id]))
    && (forall h :: h in m.mapped ==> Unmapped(m, h) || exists id :: Owns(objects, id, h))
  }

  ghost predicate Invariant<H(!new)>(s: Heap<H>) {
    MapsOk(s.maps) && Owned(s.objects, s.maps)
  }

  lemma UnmappedAfter<H>(m: Mappings<H>, m': Mappings<H>, more: seq<HostCall<H>>, h: H)
    requires m'.calls == m.calls + more
    ensures Unmapped(m', h) <==> Unmapped(m, h) || exists k :: 0 <= k < |more| && IsUnmap(more[k], h)
  {
    if Unmapped(m, h) {
      var k :| 0 <= k < |m.calls| && IsUnmap(m.calls[k], h);
      assert IsUnmap(m'.calls[k], h);
    }
    if k :| 0 <= k < |more| && IsUnmap(more[k], h) {
      assert IsUnmap(m'.calls[|m.calls| + k], h);
    }
    if Unmapped(m', h) {
      var k :| 0 <= k < |m'.calls| && IsUnmap(m'.calls[k], h);
      if k < |m.calls| { assert IsUnmap(m.calls[k], h); } else { assert IsUnmap(more[k - |m.calls|], h); }
    }
  }

  lemma ReleaseUnmaps<H>(r: Region<H>, m: Mappings<H>, h: H)
    ensures Unmapped(Release(r, m), h) <==> Unmapped(m, h) || r.host == Some(h)
  {
    if r.host.Some? {
      var more := [ClearSlot(r.fd, r.slot), Unmap(r.host.value, r.size)];
      UnmappedAfter(m, Release(r, m), more, h);
      assert IsUnmap(more[1], r.host.value);
    }
  }

  lemma ReleaseKeepsOnce<H>(r: Region<H>, m: Mappings<H>)
    requires ReleasedOnce(m) && r.host.Some? && LiveIn(m, r.host.value, r)
    ensures ReleasedOnce(Release(r, m))
  {
    var m' := Release(r, m);
    forall k | 0 <= k < |m.calls| && m.calls[k].Unmap? ensures m.calls[k].host != r.host.value {
      assert !IsUnmap(m.calls[k], r.host.value);
    }
    assert forall k :: 0 <= k < |m.calls| ==> m'.calls[k] == m.calls[k];
  }

  lemma ReleaseKeepsPaired<H>(r: Region<H>, m: Mappings<H>)
    requires Paired(m) && r.host.Some? && LiveIn(m, r.host.value, r)
    ensures Paired(Release(r, m))
  {
    var m' := Release(r, m);
    var n := |m.calls|;
    assert m'.calls[n] == ClearSlot(r.fd, r.slot) && m'.calls[n + 1] == Unmap(r.host.value, r.size);
    assert forall k :: 0 <= k < n ==> m'.calls[k] == m.calls[k];
  }

  lemma ReleaseKeepsMaps<H>(r: Region<H>, m: Mappings<H>)
    requires MapsOk(m) && (r.host.Some? ==> LiveIn(m, r.host.value, r))
    ensures MapsOk(Release(r, m))
  {
    if r.host.Some? {
      ReleaseKeepsOnce(r, m);
      ReleaseKeepsPaired(r, m);
    }
  }

  /** A new mapping changes nothing about the old ones. */
  lemma MappingKeepsMaps<H>(h: H, size: nat, m: Mappings<H>)
    requires MapsOk(m) && h !in m.mapped
    ensures MapsOk(Mapping(h, size, m)) && !Unmapped(m, h)
  {
  }

  lemma RegisteringKeepsMaps<H>(h: H, fd: int, slot: u32, m: Mappings<H>)
    requires MapsOk(m) && h in m.mapped && h !in m.registered && !Unmapped(m, h)
    ensures MapsOk(Registering(h, fd, slot, m))
  {
    forall k | 0 <= k < |m.calls| && m.calls[k].Unmap? ensures m.calls[k].host != h {
      assert !IsUnmap(m.calls[k], h);
    }
  }

  lemma UnmappingKeepsMaps<H>(h: H, size: nat, m: Mappings<H>)
    requires MapsOk(m) && h in m.mapped && m.mapped[h] == size && h !in m.registered && !Unmapped(m, h)
    ensures MapsOk(Unmapping(h, size, m))
  {
    var m' := Unmapping(h, size, m);
    forall k | 0 <= k < |m.calls| && m.calls[k].Unmap? ensures m.calls[k].host != h {
      assert !IsUnmap(m.calls[k], h);
    }
    assert forall k :: 0 <= k < |m.calls| ==> m'.calls[k] == m.calls[k];
  }

  lemma AcceptedOwned<H(!new)>(objects: map<nat, Region<H>>, m: Mappings<H>, m': Mappings<H>, id: nat, r: Region<H>, n: H)
    requires MapsOk(m) && Owned(objects, m) && id !in objects && r.host == Some(n) && n !in m.mapped && !Unmapped(m, n)
    requires m'.calls == m.calls && m'.mapped == m.mapped[n := r.size] && m'.registered == m.registered[n := (r.fd, r.slot)]
    ensures Owned(objects[id := r], m')
  {
    var after := objects[id := r];
    forall h ensures Unmapped(m', h) <==> Unmapped(m, h) {}
    forall a, h ensures Owns(after, a, h) <==> Owns(objects, a, h) || (a == id && h == n) {}
    forall a, h | Owns(after, a, h) ensures LiveIn(m', h, after[a]) {
      if a != id { assert LiveIn(m, h, objects[a]); }
    }
    forall h | h in m'.mapped ensures Unmapped(m', h) || exists a :: Owns(after, a, h) {
      if h == n { assert Owns(after, id, n); }
      else if !Unmapped(m, h) { var a :| Owns(objects, a, h); assert Owns(after, a, h); }
    }
  }

  lemma RefusedOwned<H(!new)>(s: Heap<H>, id: nat, r: Region<H>)
    requires Invariant(s) && r.host.Some? && r.host.value !in s.maps.mapped
    ensures var t := Creating(s, id, r, false); Owned(t.objects, t.maps)
  {
    var t, n := Creating(s, id, r, false), r.host.value;
    var more := [Unmap(n, r.size)];
    forall h ensures Unmapped(t.maps, h) <==> Unmapped(s.maps, h) || h == n {
      UnmappedAfter(s.maps, t.maps, more, h);
      assert IsUnmap(more[0], n);
    }
  }

  lemma CreateKeeps<H(!new)>(s: Heap<H>, op: Op<H>)
    requires op.Create? && Enabled(s, op) && Invariant(s)
    ensures Invariant(Apply(s, op))
  {
    if op.mmap.Some? {
      var h, r := op.mmap.value, Region(op.fd, op.slot, op.gpa, op.size, op.mmap);
      MappingKeepsMaps(h, op.size, s.maps);
      if op.accepted {
        RegisteringKeepsMaps(h, op.fd, op.slot, Mapping(h, op.size, s.maps));
        AcceptedOwned(s.objects, s.maps, Apply(s, op).maps, op.id, r, h);
      } else {
        UnmappingKeepsMaps(h, op.size, Mapping(h, op.size, s.maps));
        RefusedOwned(s, op.id, r);
      }
    }
  }

  /** Taking one object's mapping away from the heap, and releasing it. */
  lemma ReleaseOwned<H(!new)>(objects: map<nat, Region<H>>, m: Mappings<H>, id: nat)
    requires MapsOk(m) && Owned(objects, m) && id in objects
    ensures MapsOk(Release(objects[id], m)) && Owned(objects - {id}, Release(objects[id], m))
  {
    var r, m' := objects[id], Release(objects[id], m);
    if r.host.Some? { assert Owns(objects, id, r.host.value); }
    ReleaseKeepsMaps(r, m);
    forall h ensures Unmapped(m', h) <==> Unmapped(m, h) || r.host == Some(h) { ReleaseUnmaps(r, m, h); }
    forall a, h ensures Owns(objects - {id}, a, h) <==> a != id && Owns(objects, a, h) {}
    forall h | h in m'.mapped ensures Unmapped(m', h) || exists a :: Owns(objects - {id}, a, h) {
      if !Unmapped(m', h) {
        var a :| Owns(objects, a, h);
        assert Owns(objects - {id}, a, h);
      }
    }
  }

  /** Handing a mapping over to an object that has none. */
  lemma MovingOwned<H(!new)>(objects: map<nat, Region<H>>, m: Mappings<H>, id: nat, source: nat)
    requires Owned(objects, m) && id !in objects && source in objects
    ensures Owned(Moving(objects, id, source), m)
  {
    var after := Moving(objects, id, source);
    forall a, h ensures Owns(after, a, h) <==>
        if a == id then Owns(objects, source, h) else a != source && Owns(objects, a, h) {}
    forall h | h in m.mapped ensures Unmapped(m, h) || exists a :: Owns(after, a, h) {
      if !Unmapped(m, h) {
        var a :| Owns(objects, a, h);
        assert Owns(after, if a == source then id else a, h);
      }
    }
  }

  lemma MoveKeeps<H(!new)>(s: Heap<H>, op: Op<H>)
    requires op.MoveConstruct? || op.MoveAssign?
    requires Enabled(s, op) && Invariant(s)
    ensures Invariant(Apply(s, op))
  {
    if op.MoveConstruct? {
      MovingOwned(s.objects, s.maps, op.id, op.source);
    } else if op.id != op.source {
      ReleaseOwned(s.objects, s.maps, op.id);
      MovingOwned(s.objects - {op.id}, Release(s.objects[op.id], s.maps), op.id, op.source);
      assert Moving(s.objects - {op.id}, op.id, op.source) == Moving(s.objects, op.id, op.source);
    }
  }

  lemma DestroyKeeps<H(!new)>(s: Heap<H>, op: Op<H>)
    requires op.Destroy? && Enabled(s, op) && Invariant(s)
    ensures Invariant(Apply(s, op))
  {
    ReleaseOwned(s.objects, s.maps, op.id);
  }

  lemma {:induction false} RunKeeps<H(!new)>(s: Heap<H>, ops: seq<Op<H>>)
    requires AllEnabled(s, ops) && Invariant(s)
    ensures Invariant(ApplyAll(s, ops))
    decreases |ops|
  {
    if ops != [] {
      match ops[0] {
        case Create(_, _, _, _, _, _, _) => CreateKeeps(s, ops[0]);
        case MoveConstruct(_, _) => MoveKeeps(s, ops[0]);
        case MoveAssign(_, _) => MoveKeeps(s, ops[0]);
        case Destroy(_) => DestroyKeeps(s, ops[0]);
      }
      RunKeeps(Apply(s, ops[0]), ops[1..]);
    }
  }

  /** How often mapping h is passed to munmap. */
  ghost function Unmaps<H>(calls: seq<HostCall<H>>, h: H): nat {
    if calls == [] then 0 else (if IsUnmap(calls[0], h) then 1 else 0) + Unmaps(calls[1..], h)
  }

  lemma {:induction false} UnmapsCount<H>(calls: seq<HostCall<H>>, h: H)
    requires forall k, l :: 0 <= k < l < |calls| ==> !(IsUnmap(calls[k], h) && IsUnmap(calls[l], h))
    ensures Unmaps(calls, h) <= 1
    ensures (exists k :: 0 <= k < |calls| && IsUnmap(calls[k], h)) <==> Unmaps(calls, h) == 1
  {
    if calls != [] {
      UnmapsCount(calls[1..], h);
      if Unmaps(calls[1..], h) == 1 {
        var k :| 0 <= k < |calls[1..]| && IsUnmap(calls[1..][k], h);
        assert IsUnmap(calls[k + 1], h);
      }
      if k :| 0 <= k < |calls| && IsUnmap(calls[k], h) {
        if k > 0 { assert IsUnmap(calls[1..][k - 1], h); }
      }
    }
  }

  lemma UnmappedExactlyOnce<H(!new)>(s: Heap<H>, h: H)
    requires Invariant(s)
    ensures Unmaps(s.maps.calls, h) <= 1 && (Unmaps(s.maps.calls, h) == 1 <==> Unmapped(s.maps, h))
    ensures s.objects == map[] && h in s.maps.mapped ==>
      Unmaps(s.maps.calls, h) == 1 && Unmap(h, s.maps.mapped[h]) in s.maps.calls
  {
    UnmapsCount(s.maps.calls, h);
    if s.objects == map[] && h in s.maps.mapped {
      assert forall id :: !Owns(s.objects, id, h);
      assert Unmapped(s.maps, h);
      var k :| 0 <= k < |s.maps.calls| && IsUnmap(s.maps.calls[k], h);
      assert s.maps.calls[k] == Unmap(h, s.maps.mapped[h]);
    }
  }

  /**
   * Exactly-once release: from an empty program, after any operations a mapping has at most one
   * owner, has been unmapped at most once and never while owned, and once no objects are left
   * every mapping ever made has been unmapped exactly once, with the length it was mapped with.
   * The unmapping of a registered mapping comes right after the clearing of the slot it was
   * registered under, and no other slot is ever cleared.
   */
  lemma ReleasedExactlyOnce<H(!new)>(ops: seq<Op<H>>, h: H)
    requires AllEnabled(EmptyHeap(), ops)
    ensures var s := ApplyAll(EmptyHeap(), ops);
      && (forall a, b :: Owns(s.objects, a, h) && Owns(s.objects, b, h) ==> a == b)
      && (forall a :: Owns(s.objects, a, h) ==> Unmaps(s.maps.calls, h) == 0)
      && Unmaps(s.maps.calls, h) <= 1
      && (s.objects == map[] && h in s.maps.mapped ==>
            Unmaps(s.maps.calls, h) == 1 && Unmap(h, s.maps.mapped[h]) in s.maps.calls)
      && Paired(s.maps)
  {
    RunKeeps(EmptyHeap<H>(), ops);
    UnmappedExactlyOnce(ApplyAll(EmptyHeap(), ops), h);
  }

  // ---------------------------------------------------------------------------------------------
  // The class.

  /** The calls on the host and the kernel that concern memory. */
  class Host {
    var maps: Mappings<array<byte>>

    constructor ()
      ensures maps == NoMappings()
    {
      maps := NoMappings();
    }

    method Mmap(size: nat) returns (h: array<byte>)
      modifies this
      ensures fresh(h) && h.Length == size && h[..] == Zeros(size)
      ensures maps == Mapping(h, size, old(maps))
    {
      h := new byte[size](_ => 0);
      maps := Mapping(h, size, maps);
    }

    method Munmap(h: array<byte>, size: nat)
      modifies this
      ensures maps == Unmapping(h, size, old(maps))
    {
      maps := Unmapping(h, size, maps);
    }

    /** KVM_SET_USER_MEMORY_REGION with a mapping, when it succeeds. */
    method SetRegion(h: array<byte>, fd: int, slot: u32)
      modifies this
      ensures maps == Registering(h, fd, slot, old(maps))
    {
      maps := Registering(h, fd, slot, maps);
    }

    /** The same with size zero; the result is not looked at. */
    method ClearRegion(fd: int, slot: u32)
      modifies this
      ensures maps == old(maps).(calls := old(maps).calls + [ClearSlot(fd, slot)])
    {
      maps := maps.(calls := maps.calls + [ClearSlot(fd, slot)]);
    }
  }

  class MemoryRegion {
    var fd: int
    var slot: u32
    var gpa: u64
    var size: nat
    var host: array?<byte>

    ghost function View(): Region<array<byte>>
      reads this
    {
      Region(fd, slot, gpa, size, if host == null then None else Some(host))
    }

    constructor (fd: int, slot: u32, gpa: u64, size: nat, host: array?<byte>)
      ensures View() == Region(fd, slot, gpa, size, if host == null then None else Some(host))
    {
      this.fd, this.slot, this.gpa, this.size, this.host := fd, slot, gpa, size, host;
    }

    /** Map zeroed memory and register it; a mapping that cannot be registered is unmapped again. */
    static method Create(os: Host, fd: int, slot: u32, gpa: u64, size: nat, mmapErrno: Option<int>, ioctlErrno: Option<int>)
      returns (region: MemoryRegion?, errno: int)
      modifies os
      ensures region == null <==> mmapErrno.Some? || ioctlErrno.Some?
      ensures mmapErrno.Some? ==> errno == mmapErrno.value && os.maps == old(os.maps)
      ensures mmapErrno.None? && ioctlErrno.Some? ==>
        && errno == ioctlErrno.value
        && exists h: array<byte> :: (fresh(h) && os.maps == Unmapping(h, size, Mapping(h, size, old(os.maps))))
      ensures region != null ==>
        && fresh(region) && region.host != null && fresh(region.host)
        && region.View() == Region(fd, slot, gpa, size, Some(region.host))
        && region.host.Length == size && region.host[..] == Zeros(size)
        && os.maps == Registering(region.host, fd, slot, Mapping(region.host, size, old(os.maps)))
    {
      if mmapErrno.Some? {
        return null, mmapErrno.value;
      }
      var h := os.Mmap(size);
      if ioctlErrno.Some? {
        os.Munmap(h, size);
        assert os.maps == Unmapping(h, size, Mapping(h, size, old(os.maps)));
        return null, ioctlErrno.value;
      }
      os.SetRegion(h, fd, slot);
      region := new MemoryRegion(fd, slot, gpa, size, h);
      errno := 0;
    }

    method Destruct(os: Host)
      modifies os
      ensures os.maps == Release(View(), old(os.maps))
    {
      if host != null {
        os.ClearRegion(fd, slot);
        os.Munmap(host, size);
      }
    }

    /** Move construction: the mapping changes hands, the source keeps only its description. */
    constructor MoveFrom(other: MemoryRegion)
      modifies other
      ensures View() == old(other.View())
      ensures other.View() == old(other.View()).(host := None)
    {
      fd, slot, gpa, size, host := other.fd, other.slot, other.gpa, other.size, other.host;
      new;
      other.host := null;
    }

    /** Move assignment, self-assignment included. */
    method MoveAssign(other: MemoryRegion, os: Host)
      modifies this, other, os
      ensures this == other ==> View() == old(View()) && os.maps == old(os.maps)
      ensures this != other ==>
        && View() == old(other.View())
        && other.View() == old(other.View()).(host := None)
        && os.maps == Release(old(View()), old(os.maps))
    {
      if this != other {
        if host != null {
          os.ClearRegion(fd, slot);
          os.Munmap(host, size);
        }
        fd, slot, gpa, size := other.fd, other.slot, other.gpa, other.size;
        host := other.host;
        other.host := null;
      }
    }

    method Write(offset: nat, data: seq<byte>)
      requires host != null && host.Length == size && offset + |data| <= size
      modifies host
      ensures host[..] == Overlay(old(host[..]), offset, data)
    {
      CopyInto(host, offset, data);
    }

    method Read(offset: nat, n: nat) returns (out: seq<byte>)
      requires host != null && host.Length == size && offset + n <= size
      ensures out == host[offset..offset + n]
    {
      out := host[offset..offset + n];
    }
  }
}
