/** Byte-array memory: the pure overlay that a bounded copy performs, and the copies themselves. */
module Memory {
  import opened Words

  datatype Option<+T> = None | Some(value: T)

  function Zeros(n: nat): seq<byte> {
    seq(n, _ => 0)
  }

  /** mem with data written over it at offset at. */
  function Overlay(mem: seq<byte>, at: nat, data: seq<byte>): (r: seq<byte>)
    requires at + |data| <= |mem|
    ensures |r| == |mem|
    ensures forall i :: 0 <= i < |mem| ==> r[i] == if at <= i < at + |data| then data[i - at] else mem[i]
  {
    mem[..at] + data + mem[at + |data|..]
  }

  /** Reading back exactly the range that was written gives the data written. */
  lemma OverlayRead(mem: seq<byte>, at: nat, data: seq<byte>)
    requires at + |data| <= |mem|
    ensures Overlay(mem, at, data)[at..at + |data|] == data
  {
  }

  /** memcpy from a buffer into a mapped region. */
  method CopyInto(dst: array<byte>, at: nat, src: seq<byte>)
    requires at + |src| <= dst.Length
    modifies dst
    ensures dst[..] == Overlay(old(dst[..]), at, src)
  {
    forall i | 0 <= i < |src| {
      dst[at + i] := src[i];
    }
  }

  /** memset to zero. */
  method Clear(dst: array<byte>, at: nat, n: nat)
    requires at + n <= dst.Length
    modifies dst
    ensures dst[..] == Overlay(old(dst[..]), at, Zeros(n))
  {
    forall i | 0 <= i < n {
      dst[at + i] := 0;
    }
  }

  /** Two memories with the same number of regions of the same sizes. */
  predicate SameShape(a: seq<seq<byte>>, b: seq<seq<byte>>) {
    |a| == |b| && forall i :: 0 <= i < |a| ==> |a[i]| == |b[i]|
  }

  /** The contents of a list of host buffers. */
  function Contents(hosts: seq<array<byte>>): (c: seq<seq<byte>>)
    reads hosts
    ensures |c| == |hosts|
    ensures forall i :: 0 <= i < |hosts| ==> c[i] == hosts[i][..]
  {
    seq(|hosts|, i requires 0 <= i < |hosts| reads hosts => hosts[i][..])
  }

  predicate Distinct<T(==)>(s: seq<T>) {
    forall i, j :: 0 <= i < j < |s| ==> s[i] != s[j]
  }

  /** Overwrite every buffer with new contents of the same shape. */
  method StoreAll(hosts: seq<array<byte>>, contents: seq<seq<byte>>)
    requires Distinct(hosts) && SameShape(Contents(hosts), contents)
    modifies hosts
    ensures Contents(hosts) == contents
  {
    for k := 0 to |hosts|
      invariant forall i :: 0 <= i < k ==> hosts[i][..] == contents[i]
    {
      assert |Contents(hosts)[k]| == hosts[k].Length;
      ghost var before := hosts[k][..];
      CopyInto(hosts[k], 0, contents[k]);
      assert Overlay(before, 0, contents[k]) == contents[k];
    }
  }
}
