/** MsrHandler::installFilter: the filter that names the registered MSRs to the kernel. */
module MsrHandlers {
  import opened Words
  import opened Memory

  const FILTER_READ: nat := 1
  const FILTER_WRITE: nat := 2
  const DEFAULT_ALLOW: nat := 0

  datatype Range = Range(flags: nat, nmsrs: nat, base: u32, bitmap: seq<u64>)

  const EMPTY_RANGE := Range(0, 0, 0, [])

  datatype Filter = Filter(flags: nat, ranges: seq<Range>)

  /** order lists the keys of an unordered map, each once. */
  ghost predicate Enumerates(order: seq<u32>, keys: set<u32>) {
    Distinct(order) && (forall k :: k in order <==> k in keys)
  }

  /** The entries of order that are not keys yet, in order. */
  function Missing(order: seq<u32>, keys: set<u32>): seq<u32> {
    if order == [] then []
    else
      var n := |order| - 1;
      Missing(order[..n], keys) + if order[n] in keys then [] else [order[n]]
  }

  function OneMsr(index: u32): Range {
    Range(FILTER_READ + FILTER_WRITE, 1, index, [1])
  }

  predicate Covers(r: Range, index: u32) {
    r.base <= index < r.base + r.nmsrs
  }

  /** Some range of the filter is about this MSR. */
  ghost predicate Filtered(f: Filter, index: u32) {
    exists i :: 0 <= i < |f.ranges| && Covers(f.ranges[i], index)
  }

  class MsrHandler<R, W> {
    var readCallbacks: map<u32, R>
    var writeCallbacks: map<u32, W>

    constructor ()
      ensures readCallbacks == map[] && writeCallbacks == map[]
    {
      readCallbacks, writeCallbacks := map[], map[];
    }

    method RegisterRead(index: u32, cb: R)
      modifies this`readCallbacks
      ensures readCallbacks == old(readCallbacks)[index := cb]
    {
      readCallbacks := readCallbacks[index := cb];
    }

    method RegisterWrite(index: u32, cb: W)
      modifies this`writeCallbacks
      ensures writeCallbacks == old(writeCallbacks)[index := cb]
    {
      writeCallbacks := writeCallbacks[index := cb];
    }

    ghost function Registered(): set<u32>
      reads this
    {
      readCallbacks.Keys + writeCallbacks.Keys
    }

    /**
     * The index list: every registered MSR exactly once, whatever order the maps are walked in,
     * those with a read callback before those with a write callback only.
     */
    method CollectIndices(readOrder: seq<u32>, writeOrder: seq<u32>) returns (indices: seq<u32>)
      requires Enumerates(readOrder, readCallbacks.Keys) && Enumerates(writeOrder, writeCallbacks.Keys)
      ensures Enumerates(indices, Registered())
      ensures |indices| == |Registered()|
      ensures indices == readOrder + Missing(writeOrder, readCallbacks.Keys)
    {
      indices := [];
      for i := 0 to |readOrder|
        invariant indices == readOrder[..i]
      {
        indices := indices + [readOrder[i]];
      }
      for j := 0 to |writeOrder|
        invariant indices == readOrder + Missing(writeOrder[..j], readCallbacks.Keys)
      {
        MissingStep(readOrder, writeOrder, readCallbacks.Keys, j);
        if writeOrder[j] !in indices {
          indices := indices + [writeOrder[j]];
        }
      }
      assert writeOrder[..|writeOrder|] == writeOrder;
      MissingEnumerates(readOrder, writeOrder, readCallbacks.Keys, writeCallbacks.Keys);
      DistinctCount(indices, Registered());
    }

    /** Searching the list built so far finds exactly the keys of the other map. */
    static lemma MissingStep(known: seq<u32>, writes: seq<u32>, keys: set<u32>, j: nat)
      requires Enumerates(known, keys) && Distinct(writes) && j < |writes|
      ensures writes[j] in known + Missing(writes[..j], keys) <==> writes[j] in keys
      ensures Missing(writes[..j + 1], keys) == Missing(writes[..j], keys) + if writes[j] in keys then [] else [writes[j]]
    {
      assert writes[..j + 1][..j] == writes[..j];
      MissingIn(writes[..j], keys, writes[j]);
      assert writes[j] !in writes[..j];
    }

    static lemma {:induction false} MissingIn(order: seq<u32>, keys: set<u32>, k: u32)
      ensures k in Missing(order, keys) <==> k in order && k !in keys
    {
      if order != [] {
        var n := |order| - 1;
        MissingIn(order[..n], keys, k);
        assert order == order[..n] + [order[n]];
      }
    }

    static lemma {:induction false} MissingDistinct(order: seq<u32>, keys: set<u32>)
      requires Distinct(order)
      ensures Distinct(Missing(order, keys))
    {
      if order != [] {
        var n := |order| - 1;
        MissingDistinct(order[..n], keys);
        MissingIn(order[..n], keys, order[n]);
        assert order[n] !in order[..n];
      }
    }

    static lemma MissingEnumerates(known: seq<u32>, writes: seq<u32>, r: set<u32>, w: set<u32>)
      requires Enumerates(known, r) && Enumerates(writes, w)
      ensures Enumerates(known + Missing(writes, r), r + w)
    {
      MissingDistinct(writes, r);
      var rest := Missing(writes, r);
      forall k ensures k in rest <==> k in w && k !in r {
        MissingIn(writes, r, k);
      }
      forall i, j | 0 <= i < |known| && 0 <= j < |rest| ensures known[i] != rest[j] {
        assert known[i] in r && rest[j] in rest;
      }
    }

    static lemma {:induction false} DistinctCount(order: seq<u32>, keys: set<u32>)
      requires Enumerates(order, keys)
      ensures |order| == |keys|
    {
      if order == [] {
        assert keys == {};
      } else {
        var n := |order| - 1;
        assert order == order[..n] + [order[n]];
        DistinctCount(order[..n], keys - {order[n]});
      }
    }

    /**
     * The filter handed to the kernel, or none when nothing is registered. Its ranges are the
     * first min(n, maxRanges) indices, one MSR each with one bitmap word; so every registered MSR
     * has a range if and only if there are at most maxRanges of them, and no other MSR ever does.
     */
    method InstallFilter(readOrder: seq<u32>, writeOrder: seq<u32>, maxRanges: nat, ioctlErrno: Option<int>)
      returns (errno: Option<int>, filter: Option<Filter>)
      requires Enumerates(readOrder, readCallbacks.Keys) && Enumerates(writeOrder, writeCallbacks.Keys)
      ensures |readOrder + Missing(writeOrder, readCallbacks.Keys)| == |Registered()|
      ensures Registered() == {} ==> filter == None && errno == None
      ensures Registered() != {} ==>
        && filter.Some? && errno == ioctlErrno
        && filter.value.flags == 0 && |filter.value.ranges| == maxRanges
        && (forall k :: Filtered(filter.value, k) ==> k in Registered())
        && ((forall k :: k in Registered() ==> Filtered(filter.value, k)) <==> |Registered()| <= maxRanges)
        && (forall i :: 0 <= i < maxRanges ==>
              filter.value.ranges[i] ==
                if i < |Registered()| then Range(1 + 2, 1, (readOrder + Missing(writeOrder, readCallbacks.Keys))[i], [1])
                else Range(0, 0, 0, []))
    {
      var indices := CollectIndices(readOrder, writeOrder);
      if indices == [] {
        assert forall k :: k !in Registered();
        return None, None;
      }
      assert indices[0] in Registered();
      var f := BuildFilter(indices, maxRanges);
      FilterCovers(f, indices, Registered());
      return ioctlErrno, Some(f);
    }

    /** One range per index, of which as many as the filter has room for are copied into it. */
    static method BuildFilter(indices: seq<u32>, maxRanges: nat) returns (f: Filter)
      ensures f.flags == DEFAULT_ALLOW && |f.ranges| == maxRanges && HoldsRanges(f, indices)
    {
      var n := |indices|;
      var ranges: seq<Range> := [];
      for i := 0 to n
        invariant |ranges| == i && forall j :: 0 <= j < i ==> ranges[j] == OneMsr(indices[j])
      {
        ranges := ranges + [Range(FILTER_READ + FILTER_WRITE, 1, indices[i], [1])];
      }
      var slots := new Range[maxRanges](_ => EMPTY_RANGE);
      var count := Min(n, maxRanges);
      for i := 0 to count
        invariant forall j :: 0 <= j < maxRanges ==> slots[j] == if j < i then OneMsr(indices[j]) else EMPTY_RANGE
      {
        slots[i] := ranges[i];
      }
      f := Filter(DEFAULT_ALLOW, slots[..]);
    }

    static ghost predicate HoldsRanges(f: Filter, indices: seq<u32>) {
      forall i :: 0 <= i < |f.ranges| ==> f.ranges[i] == if i < |indices| then OneMsr(indices[i]) else EMPTY_RANGE
    }

    static lemma FilterCovers(f: Filter, indices: seq<u32>, keys: set<u32>)
      requires Enumerates(indices, keys) && |indices| == |keys|
      requires HoldsRanges(f, indices)
      ensures forall k :: Filtered(f, k) ==> k in keys
      ensures (forall k :: k in keys ==> Filtered(f, k)) <==> |keys| <= |f.ranges|
    {
      forall k | Filtered(f, k) ensures k in keys {
        var i :| 0 <= i < |f.ranges| && Covers(f.ranges[i], k);
        assert k == indices[i];
      }
      if |keys| <= |f.ranges| {
        forall k | k in keys ensures Filtered(f, k) {
          var i :| 0 <= i < |indices| && indices[i] == k;
          assert Covers(f.ranges[i], k);
        }
      } else {
        var k := indices[|f.ranges|];
        assert k in keys;
        forall i | 0 <= i < |f.ranges| ensures !Covers(f.ranges[i], k) {
          assert indices[i] != k;
        }
      }
    }
  }
}
