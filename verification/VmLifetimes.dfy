/**
 * Whole VMs: descriptors, vCPUs, slot counters and region lists under creation, moves and
 * destruction. A VM's regions are objects of the region protocol; moving a VM hands its lists over
 * as they are. A vCPU is its descriptor, with which its run page is unmapped.
 */
module VmLifetimes {
  import opened Words
  import opened Memory
  import opened Regions

  datatype Vm = Vm(fd: Option<nat>, nextSlot: u32, regions: seq<nat>, cpus: seq<nat>)

  /** The descriptors of a VM, in the order they are closed in: its own, then those of its vCPUs. */
  function Held(v: Vm): seq<nat> {
    (if v.fd.Some? then [v.fd.value] else []) + v.cpus
  }

  /** issued and closed record the descriptors; region objects below nextId have been used. */
  datatype World<H> = World(heap: Heap<H>, vms: map<nat, Vm>, issued: set<nat>, closed: seq<nat>, nextId: nat)

  datatype Act<H> =
    | Open(id: nat, fd: nat)
    | AddRegion(id: nat, gpa: u64, size: nat, mmap: Option<H>, registered: bool)
    | AddCpu(id: nat, created: Option<nat>, pageMapped: bool)
    | MoveVm(id: nat, source: nat)
    | AssignVm(id: nat, source: nat)
    | Drop(id: nat)

  function EmptyWorld<H>(): World<H> {
    World(EmptyHeap(), map[], {}, [], 0)
  }

  /**
   * The kernel hands out new descriptors, the host new mappings and new objects, and nothing is
   * registered or created through a descriptor that is not there.
   */
  predicate May<H(==)>(s: World<H>, a: Act<H>) {
    match a
    case Open(id, fd) => id !in s.vms && fd !in s.issued
    case AddRegion(id, _, _, mmap, registered) =>
      id in s.vms && s.nextId !in s.heap.objects
      && (mmap.Some? ==> mmap.value !in s.heap.maps.mapped) && (registered ==> s.vms[id].fd.Some?)
    case AddCpu(id, fd, _) => id in s.vms && (fd.Some? ==> fd.value !in s.issued && s.vms[id].fd.Some?)
    case MoveVm(id, source) => id !in s.vms && source in s.vms
    case AssignVm(id, source) => id in s.vms && source in s.vms
    case Drop(id) => id in s.vms
  }

  /** Destroying a vector destroys its elements. */
  function DestroyAll<H(==)>(heap: Heap<H>, ids: seq<nat>): Heap<H>
    decreases |ids|
  {
    if ids == [] then heap
    else if ids[0] !in heap.objects then DestroyAll(heap, ids[1..])
    else DestroyAll(Regions.Apply(heap, Destroy(ids[0])), ids[1..])
  }

  function MovedFrom(v: Vm): Vm {
    Vm(None, v.nextSlot, [], [])
  }

  function WithRegion(v: Vm, r: nat): Vm {
    v.(nextSlot := Wrap32(v.nextSlot + 1), regions := v.regions + [r])
  }

  /** Destruction, and the first half of assignment: the descriptors are closed, the regions destroyed. */
  function Destroyed<H(==)>(s: World<H>, v: Vm): World<H> {
    s.(closed := s.closed + Held(v), heap := DestroyAll(s.heap, v.regions))
  }

  function HandedOver(vms: map<nat, Vm>, id: nat, source: nat): map<nat, Vm>
    requires source in vms
  {
    vms[id := vms[source]][source := MovedFrom(vms[source])]
  }

  function Step<H(==)>(s: World<H>, a: Act<H>): World<H>
    requires May(s, a)
  {
    match a
    case Open(id, fd) => s.(vms := s.vms[id := Vm(Some(fd), 0, [], [])], issued := s.issued + {fd})
    case AddRegion(id, gpa, size, mmap, registered) =>
      var v := s.vms[id];
      var heap := Regions.Apply(s.heap, CreateFor(v, s.nextId, gpa, size, mmap, registered));
      if mmap.None? || !registered then s.(heap := heap)
      else s.(heap := heap, nextId := s.nextId + 1, vms := s.vms[id := WithRegion(v, s.nextId)])
    case AddCpu(id, fd, pageMapped) =>
      if fd.None? then s
      else if !pageMapped then s.(issued := s.issued + {fd.value}, closed := s.closed + [fd.value])
      else s.(issued := s.issued + {fd.value}, vms := s.vms[id := s.vms[id].(cpus := s.vms[id].cpus + [fd.value])])
    case MoveVm(id, source) => s.(vms := HandedOver(s.vms, id, source))
    case AssignVm(id, source) =>
      if id == source then s else Destroyed(s, s.vms[id]).(vms := HandedOver(s.vms, id, source))
    case Drop(id) => Destroyed(s, s.vms[id]).(vms := s.vms - {id})
  }

  /** The creation of a region by a VM: under its descriptor (or none) and its next slot. */
  function CreateFor<H>(v: Vm, r: nat, gpa: u64, size: nat, mmap: Option<H>, registered: bool): Op<H> {
    Regions.Create(r, if v.fd.Some? then v.fd.value else -1, v.nextSlot, gpa, size, mmap, registered)
  }

  predicate MayAll<H(==)>(s: World<H>, acts: seq<Act<H>>)
    decreases |acts|
  {
    acts == [] || (May(s, acts[0]) && MayAll(Step(s, acts[0]), acts[1..]))
  }

  function StepAll<H(==)>(s: World<H>, acts: seq<Act<H>>): World<H>
    requires MayAll(s, acts)
    decreases |acts|
  {
    if acts == [] then s else StepAll(Step(s, acts[0]), acts[1..])
  }

  // ---------------------------------------------------------------------------------------------
  // What every act keeps.

  ghost predicate Has(vms: map<nat, Vm>, v: nat, r: nat) {
    v in vms && r in vms[v].regions
  }

  /** Region lists partition the region objects. */
  ghost predicate Lists(objects: set<nat>, vms: map<nat, Vm>, nextId: nat) {
    && (forall v, r :: Has(vms, v, r) ==> r in objects)
    && (forall v, w, r :: Has(vms, v, r) && Has(vms, w, r) ==> v == w)
    && (forall v :: v in vms ==> Distinct(vms[v].regions))
    && (forall r :: r in objects ==> r < nextId && exists v :: Has(vms, v, r))
  }

  ghost predicate Holds(vms: map<nat, Vm>, v: nat, fd: nat) {
    v in vms && fd in Held(vms[v])
  }

  /** A descriptor is held by one VM until it is closed, once. */
  ghost predicate Descriptors(vms: map<nat, Vm>, issued: set<nat>, closed: seq<nat>) {
    && (forall v, w, fd :: Holds(vms, v, fd) && Holds(vms, w, fd) ==> v == w)
    && (forall v :: v in vms ==> Distinct(Held(vms[v])))
    && (forall v, fd :: Holds(vms, v, fd) ==> fd in issued && fd !in closed)
    && (forall fd :: fd in issued ==> fd in closed || exists v :: Holds(vms, v, fd))
    && (forall fd :: fd in closed ==> fd in issued)
    && Distinct(closed)
  }

  /**
   * Region i of a VM that has its descriptor holds slot i under that descriptor; a moved-from VM
   * has no regions and no vCPUs.
   */
  ghost predicate SlotsOf<H>(heap: Heap<H>, v: Vm) {
    && (v.fd.None? ==> v.regions == [] && v.cpus == [])
    && (v.fd.Some? ==> v.nextSlot == Wrap32(|v.regions|))
    && (forall i :: 0 <= i < |v.regions| ==>
          v.regions[i] in heap.objects && RegisteredAs(heap.objects[v.regions[i]], v.fd, i))
  }

  predicate RegisteredAs<H>(r: Region<H>, fd: Option<nat>, i: nat) {
    fd.Some? && r.fd == fd.value && r.slot == Wrap32(i) && r.host.Some?
  }

  ghost predicate Slots<H>(heap: Heap<H>, vms: map<nat, Vm>) {
    forall v :: v in vms ==> SlotsOf(heap, vms[v])
  }

  ghost predicate Kept<H(!new)>(s: World<H>) {
    && Lists(s.heap.objects.Keys, s.vms, s.nextId) && Descriptors(s.vms, s.issued, s.closed)
    && Slots(s.heap, s.vms) && Regions.Invariant(s.heap)
  }

  lemma {:induction false} DestroyAllKeeps<H(!new)>(heap: Heap<H>, ids: seq<nat>)
    requires Regions.Invariant(heap)
    ensures var t := DestroyAll(heap, ids);
      Regions.Invariant(t) && t.maps.mapped == heap.maps.mapped
      && (forall r :: r in t.objects <==> r in heap.objects && r !in ids)
      && (forall r :: r in t.objects ==> t.objects[r] == heap.objects[r])
    decreases |ids|
  {
    if ids != [] {
      if ids[0] in heap.objects {
        Regions.DestroyKeeps(heap, Destroy(ids[0]));
        DestroyAllKeeps(Regions.Apply(heap, Destroy(ids[0])), ids[1..]);
      } else {
        DestroyAllKeeps(heap, ids[1..]);
      }
    }
  }

  lemma DistinctConcat(a: seq<nat>, b: seq<nat>)
    requires Distinct(a) && Distinct(b) && forall x :: x in a ==> x !in b
    ensures Distinct(a + b)
  {
    forall i, j | 0 <= i < j < |a + b| ensures (a + b)[i] != (a + b)[j] {
      if i < |a| <= j {
        assert a[i] in a && b[j - |a|] in b;
      }
    }
  }

  lemma ClosingKeeps(vms: map<nat, Vm>, issued: set<nat>, closed: seq<nat>, id: nat)
    requires Descriptors(vms, issued, closed) && id in vms
    ensures Descriptors(vms - {id}, issued, closed + Held(vms[id]))
  {
    var after, held := vms - {id}, Held(vms[id]);
    forall v, fd ensures Holds(after, v, fd) <==> v != id && Holds(vms, v, fd) {}
    forall fd ensures fd in held <==> Holds(vms, id, fd) {}
    DistinctConcat(closed, held);
    forall fd | fd in issued ensures fd in closed + held || exists v :: Holds(after, v, fd) {
      if fd !in closed + held {
        var v :| Holds(vms, v, fd);
        assert Holds(after, v, fd);
      }
    }
    forall v, fd | Holds(after, v, fd) ensures fd !in closed + held {
      assert !Holds(vms, id, fd);
    }
  }

  lemma HandOverKeeps(vms: map<nat, Vm>, issued: set<nat>, closed: seq<nat>, id: nat, source: nat)
    requires Descriptors(vms, issued, closed) && source in vms && id !in vms
    ensures Descriptors(HandedOver(vms, id, source), issued, closed)
  {
    var after := HandedOver(vms, id, source);
    forall v, fd ensures Holds(after, v, fd) <==> if v == id then Holds(vms, source, fd) else v != source && Holds(vms, v, fd) {}
    forall fd | fd in issued ensures fd in closed || exists v :: Holds(after, v, fd) {
      if fd !in closed {
        var v :| Holds(vms, v, fd);
        assert Holds(after, if v == source then id else v, fd);
      }
    }
  }

  /** A new descriptor, held by VM id, which may itself be new. */
  lemma NewDescriptor(vms: map<nat, Vm>, issued: set<nat>, closed: seq<nat>, id: nat, v: Vm, fd: nat)
    requires Descriptors(vms, issued, closed) && fd !in issued
    requires Held(v) == (if id in vms then Held(vms[id]) else []) + [fd]
    ensures Descriptors(vms[id := v], issued + {fd}, closed)
  {
    var after := vms[id := v];
    forall w ensures !Holds(vms, w, fd) {}
    forall w, f ensures Holds(after, w, f) <==> Holds(vms, w, f) || (w == id && f == fd) {}
    DistinctConcat(if id in vms then Held(vms[id]) else [], [fd]) by {
      assert !Holds(vms, id, fd);
    }
    forall f | f in issued + {fd} ensures f in closed || exists w :: Holds(after, w, f) {
      if f == fd {
        assert Holds(after, id, f);
      } else if f !in closed {
        var w :| Holds(vms, w, f);
        assert Holds(after, w, f);
      }
    }
  }

  /** A descriptor closed as soon as it was opened. */
  lemma ClosedAtOnce(vms: map<nat, Vm>, issued: set<nat>, closed: seq<nat>, fd: nat)
    requires Descriptors(vms, issued, closed) && fd !in issued
    ensures Descriptors(vms, issued + {fd}, closed + [fd])
  {
    DistinctConcat(closed, [fd]);
    forall f | f in issued + {fd} ensures f in closed + [fd] || exists w :: Holds(vms, w, f) {
      if f != fd && f !in closed {
        var w :| Holds(vms, w, f);
      }
    }
  }

  lemma OpenLists(objects: set<nat>, vms: map<nat, Vm>, nextId: nat, id: nat, fd: nat)
    requires Lists(objects, vms, nextId) && id !in vms
    ensures Lists(objects, vms[id := Vm(Some(fd), 0, [], [])], nextId)
  {
    var after := vms[id := Vm(Some(fd), 0, [], [])];
    forall v, r ensures Has(after, v, r) <==> Has(vms, v, r) {}
  }

  lemma SameDescriptors(vms: map<nat, Vm>, issued: set<nat>, closed: seq<nat>, id: nat, v: Vm)
    requires Descriptors(vms, issued, closed) && id in vms && Held(v) == Held(vms[id])
    ensures Descriptors(vms[id := v], issued, closed)
  {
    var after := vms[id := v];
    forall w, fd ensures Holds(after, w, fd) <==> Holds(vms, w, fd) {}
    forall fd | fd in issued ensures fd in closed || exists w :: Holds(after, w, fd) {
      if fd !in closed {
        var w :| Holds(vms, w, fd);
        assert Holds(after, w, fd);
      }
    }
  }

  lemma AddLists(objects: set<nat>, vms: map<nat, Vm>, nextId: nat, id: nat, v: Vm)
    requires Lists(objects, vms, nextId) && id in vms && v.regions == vms[id].regions + [nextId]
    ensures Lists(objects + {nextId}, vms[id := v], nextId + 1)
  {
    var after := vms[id := v];
    forall w, r ensures Has(after, w, r) <==> Has(vms, w, r) || (w == id && r == nextId) {}
    assert forall w :: !Has(vms, w, nextId);
    assert nextId !in vms[id].regions by { assert !Has(vms, id, nextId); }
    forall r | r in objects + {nextId} ensures r < nextId + 1 && exists w :: Has(after, w, r) {
      if r == nextId {
        assert Has(after, id, r);
      } else {
        var w :| Has(vms, w, r);
        assert Has(after, w, r);
      }
    }
  }

  /** The next slot becomes the slot of the new last region. */
  lemma AddSlots<H>(heap: Heap<H>, heap': Heap<H>, v: Vm, r: nat, region: Region<H>)
    requires SlotsOf(heap, v) && v.fd.Some? && r !in heap.objects && heap'.objects == heap.objects[r := region]
    requires region.fd == v.fd.value && region.slot == v.nextSlot && region.host.Some?
    ensures SlotsOf(heap', WithRegion(v, r))
  {
    WrapNext32(|v.regions|);
  }

  lemma SlotsFrame<H>(heap: Heap<H>, heap': Heap<H>, v: Vm)
    requires SlotsOf(heap, v)
    requires forall i :: 0 <= i < |v.regions| && v.regions[i] in heap.objects ==>
      v.regions[i] in heap'.objects && heap'.objects[v.regions[i]] == heap.objects[v.regions[i]]
    ensures SlotsOf(heap', v)
  {
  }

  lemma AddAllSlots<H>(heap: Heap<H>, heap': Heap<H>, vms: map<nat, Vm>, id: nat, r: nat, region: Region<H>, v: Vm)
    requires Slots(heap, vms) && id in vms && vms[id].fd.Some?
    requires r !in heap.objects && heap'.objects == heap.objects[r := region]
    requires region.fd == vms[id].fd.value && region.slot == vms[id].nextSlot && region.host.Some?
    requires v == WithRegion(vms[id], r)
    ensures Slots(heap', vms[id := v])
  {
    var after := vms[id := v];
    forall w | w in after ensures SlotsOf(heap', after[w]) {
      assert SlotsOf(heap, vms[w]);
      if w == id {
        AddSlots(heap, heap', vms[id], r, region);
      } else {
        SlotsFrame(heap, heap', vms[w]);
      }
    }
  }

  lemma RefusedKeeps<H(!new)>(s: World<H>, heap: Heap<H>)
    requires Kept(s) && Regions.Invariant(heap) && heap.objects == s.heap.objects
    ensures Kept(s.(heap := heap))
  {
    forall w | w in s.vms ensures SlotsOf(heap, s.vms[w]) {
      SlotsFrame(s.heap, heap, s.vms[w]);
    }
  }

  lemma AcceptedKeeps<H(!new)>(s: World<H>, heap: Heap<H>, id: nat, region: Region<H>, v: Vm)
    requires Kept(s) && id in s.vms && s.vms[id].fd.Some?
    requires Regions.Invariant(heap) && s.nextId !in s.heap.objects && heap.objects == s.heap.objects[s.nextId := region]
    requires region.fd == s.vms[id].fd.value && region.slot == s.vms[id].nextSlot && region.host.Some?
    requires v == WithRegion(s.vms[id], s.nextId)
    ensures Kept(s.(heap := heap, nextId := s.nextId + 1, vms := s.vms[id := v]))
  {
    AddLists(s.heap.objects.Keys, s.vms, s.nextId, id, v);
    SameDescriptors(s.vms, s.issued, s.closed, id, v);
    assert heap.objects.Keys == s.heap.objects.Keys + {s.nextId};
    AddAllSlots(s.heap, heap, s.vms, id, s.nextId, region, v);
  }

  lemma AddKeeps<H(!new)>(s: World<H>, a: Act<H>)
    requires a.AddRegion? && May(s, a) && Kept(s)
    ensures Kept(Step(s, a))
  {
    var v := s.vms[a.id];
    var op := CreateFor(v, s.nextId, a.gpa, a.size, a.mmap, a.registered);
    var heap := Regions.Apply(s.heap, op);
    Regions.CreateKeeps(s.heap, op);
    if a.mmap.Some? && a.registered {
      AcceptedKeeps(s, heap, a.id, Region(v.fd.value, v.nextSlot, a.gpa, a.size, a.mmap), WithRegion(v, s.nextId));
    } else {
      RefusedKeeps(s, heap);
    }
  }

  /** A vCPU that could be created, or one whose run page could not be mapped. */
  lemma CpuKeeps<H(!new)>(s: World<H>, a: Act<H>)
    requires a.AddCpu? && May(s, a) && Kept(s)
    ensures Kept(Step(s, a))
  {
    if a.created.Some? {
      if a.pageMapped {
        var v := s.vms[a.id].(cpus := s.vms[a.id].cpus + [a.created.value]);
        assert Held(v) == Held(s.vms[a.id]) + [a.created.value];
        NewDescriptor(s.vms, s.issued, s.closed, a.id, v, a.created.value);
        SameLists(s.heap.objects.Keys, s.vms, s.nextId, a.id, v);
        assert SlotsOf(s.heap, s.vms[a.id]);
      } else {
        ClosedAtOnce(s.vms, s.issued, s.closed, a.created.value);
      }
    }
  }

  lemma SameLists(objects: set<nat>, vms: map<nat, Vm>, nextId: nat, id: nat, v: Vm)
    requires Lists(objects, vms, nextId) && id in vms && v.regions == vms[id].regions
    ensures Lists(objects, vms[id := v], nextId)
  {
    var after := vms[id := v];
    forall w, r ensures Has(after, w, r) <==> Has(vms, w, r) {}
    forall r | r in objects ensures r < nextId && exists w :: Has(after, w, r) {
      var w :| Has(vms, w, r);
      assert Has(after, w, r);
    }
  }

  lemma DropLists(objects: set<nat>, vms: map<nat, Vm>, nextId: nat, id: nat, left: set<nat>)
    requires Lists(objects, vms, nextId) && id in vms
    requires forall r :: r in left <==> r in objects && r !in vms[id].regions
    ensures Lists(left, vms - {id}, nextId)
  {
    forall w, r ensures Has(vms - {id}, w, r) <==> w != id && Has(vms, w, r) {}
    forall r | r in left ensures r < nextId && exists w :: Has(vms - {id}, w, r) {
      var w :| Has(vms, w, r);
      assert Has(vms - {id}, w, r);
    }
    forall w, r | Has(vms - {id}, w, r) ensures r in left {
      assert Has(vms, w, r);
      assert !Has(vms, id, r);
    }
  }

  /** Destroying one VM: its descriptors are closed and its regions are destroyed. */
  lemma DropKeeps<H(!new)>(s: World<H>, id: nat)
    requires id in s.vms && Kept(s)
    ensures Kept(Step(s, Drop(id)))
  {
    var heap := DestroyAll(s.heap, s.vms[id].regions);
    DestroyAllKeeps(s.heap, s.vms[id].regions);
    ClosingKeeps(s.vms, s.issued, s.closed, id);
    DropLists(s.heap.objects.Keys, s.vms, s.nextId, id, heap.objects.Keys);
    forall v | v in s.vms - {id} ensures SlotsOf(heap, s.vms[v]) {
      assert SlotsOf(s.heap, s.vms[v]);
      forall i | 0 <= i < |s.vms[v].regions| ensures s.vms[v].regions[i] in heap.objects {
        assert Has(s.vms, v, s.vms[v].regions[i]);
        assert !Has(s.vms, id, s.vms[v].regions[i]);
      }
      SlotsFrame(s.heap, heap, s.vms[v]);
    }
  }

  lemma MoveLists(objects: set<nat>, vms: map<nat, Vm>, nextId: nat, id: nat, source: nat)
    requires Lists(objects, vms, nextId) && id !in vms && source in vms
    ensures Lists(objects, HandedOver(vms, id, source), nextId)
  {
    var after := HandedOver(vms, id, source);
    forall w, r ensures Has(after, w, r) <==> if w == id then Has(vms, source, r) else w != source && Has(vms, w, r) {}
    forall r | r in objects ensures r < nextId && exists w :: Has(after, w, r) {
      var w :| Has(vms, w, r);
      assert Has(after, if w == source then id else w, r);
    }
  }

  lemma MoveVmKeeps<H(!new)>(s: World<H>, id: nat, source: nat)
    requires id !in s.vms && source in s.vms && Kept(s)
    ensures Kept(Step(s, MoveVm(id, source)))
  {
    HandOverKeeps(s.vms, s.issued, s.closed, id, source);
    MoveLists(s.heap.objects.Keys, s.vms, s.nextId, id, source);
    assert SlotsOf(s.heap, s.vms[source]);
  }

  /** Assignment over a VM is its destruction followed by construction from the source. */
  lemma AssignIsDropAndMove<H>(s: World<H>, id: nat, source: nat)
    requires id in s.vms && source in s.vms && id != source
    ensures Step(s, AssignVm(id, source)) == Step(Step(s, Drop(id)), MoveVm(id, source))
  {
    assert HandedOver(s.vms, id, source) == HandedOver(s.vms - {id}, id, source);
  }

  lemma {:induction false} ActsKeep<H(!new)>(s: World<H>, acts: seq<Act<H>>)
    requires MayAll(s, acts) && Kept(s)
    ensures Kept(StepAll(s, acts))
    decreases |acts|
  {
    if acts != [] {
      ActKeeps(s, acts[0]);
      ActsKeep(Step(s, acts[0]), acts[1..]);
    }
  }

  lemma ActKeeps<H(!new)>(s: World<H>, a: Act<H>)
    requires May(s, a) && Kept(s)
    ensures Kept(Step(s, a))
  {
    match a
    case Open(id, fd) =>
      NewDescriptor(s.vms, s.issued, s.closed, id, Vm(Some(fd), 0, [], []), fd);
      OpenLists(s.heap.objects.Keys, s.vms, s.nextId, id, fd);
    case AddRegion(_, _, _, _, _) => AddKeeps(s, a);
    case AddCpu(_, _, _) => CpuKeeps(s, a);
    case MoveVm(id, source) => MoveVmKeeps(s, id, source);
    case AssignVm(id, source) =>
      if id != source {
        AssignIsDropAndMove(s, id, source);
        DropKeeps(s, id);
        MoveVmKeeps(Step(s, Drop(id)), id, source);
      }
    case Drop(id) => DropKeeps(s, id);
  }

  /**
   * After any creations of VMs, additions of regions and vCPUs (failed ones included), moves,
   * assignments and destructions: a VM with its descriptor has its region i registered under that
   * descriptor and slot i and the number of its regions as next slot; a moved-from VM has no
   * descriptor, regions or vCPUs; no descriptor is closed while held or twice; a region's slot is
   * cleared right before it is unmapped; and once no VM is left every descriptor has been closed
   * and every mapping unmapped exactly once.
   */
  lemma VmsReleaseEverything<H(!new)>(acts: seq<Act<H>>)
    requires MayAll(EmptyWorld(), acts)
    ensures var s := StepAll(EmptyWorld(), acts);
      && (forall v :: v in s.vms ==> SlotsOf(s.heap, s.vms[v]))
      && Distinct(s.closed) && (forall v, fd :: Holds(s.vms, v, fd) ==> fd !in s.closed) && Paired(s.heap.maps)
      && (s.vms == map[] ==>
            && (forall fd :: fd in s.issued <==> fd in s.closed)
            && (forall h :: h in s.heap.maps.mapped ==> Unmaps(s.heap.maps.calls, h) == 1))
  {
    EmptyKept<H>();
    ActsKeep(EmptyWorld<H>(), acts);
    AllReleased(StepAll(EmptyWorld(), acts));
  }

  lemma EmptyKept<H(!new)>()
    ensures Kept(EmptyWorld<H>())
  {
  }

  lemma AllReleased<H(!new)>(s: World<H>)
    requires Kept(s)
    ensures s.vms == map[] ==>
      && (forall fd :: fd in s.issued <==> fd in s.closed)
      && (forall h :: h in s.heap.maps.mapped ==> Unmaps(s.heap.maps.calls, h) == 1)
  {
    if s.vms == map[] {
      assert forall r :: r !in s.heap.objects;
      forall h | h in s.heap.maps.mapped ensures Unmaps(s.heap.maps.calls, h) == 1 {
        UnmappedExactlyOnce(s.heap, h);
      }
    }
  }
}
