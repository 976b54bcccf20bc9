/** The CUDA driver as a device array sees it.

    Device memory is a collection of byte buffers: a device pointer is a
    reference to one buffer, and `null` plays the role of the pointer value 0.
    Every driver call either succeeds or returns an error code; which one it
    does is an input of the model. A context remembers the allocations made in
    it that were not freed, and the driver calls issued through it, so that a
    contract can say "no device call was made". */
module CudaDriver {

  /** A byte of host or device memory. */
  type Byte = bv8

  /** A driver status code. */
  type CUresult = nat

  /** The status of a call that succeeded; every other value is an error. */
  const CUDA_SUCCESS: CUresult := 0

  /** The status the driver returns for an invalid argument, such as the
      null device pointer. */
  const CUDA_ERROR_INVALID_VALUE: CUresult := 1

  /** One driver call issued on behalf of a device array. An asynchronous copy
      is recorded with `async` set; stream ordering is not modelled. */
  datatype DriverCall =
    | MemAlloc(bytes: nat)
    | MemFree(buffer: array<Byte>)
    | MemcpyHtoD(dst: array<Byte>, dstOffset: nat, bytes: nat, async: bool)
    | MemcpyDtoH(src: array<Byte>, bytes: nat, async: bool)
    | MemcpyDtoDAsync(target: array?<Byte>, src: array<Byte>, bytes: nat)

  /** The part of an accelerator context a device array relies on: whether the
      context is still valid, the allocations made in it that are still live,
      and the record of the driver calls issued through it. */
  class CudaContext {
    var isValid: bool
    var live: set<array<Byte>>
    ghost var calls: seq<DriverCall>

    constructor ()
      ensures isValid && live == {} && calls == []
    {
      isValid := true;
      live := {};
      calls := [];
    }
  }

  /** The bytes of `mem` after `data` is copied over it starting at byte `at`:
      exactly the bytes in [at, at + |data|) take the new values. */
  function Overwrite(mem: seq<Byte>, at: nat, data: seq<Byte>): (r: seq<Byte>)
    requires at + |data| <= |mem|
    ensures |r| == |mem|
    ensures forall i | 0 <= i < |r| :: r[i] == if at <= i < at + |data| then data[i - at] else mem[i]
  {
    mem[..at] + data + mem[at + |data|..]
  }

  /** A write that misses the byte range [lo, hi) leaves that range as it was. */
  lemma OverwriteOutside(mem: seq<Byte>, at: nat, data: seq<Byte>, lo: nat, hi: nat)
    requires at + |data| <= |mem| && lo <= hi <= |mem|
    requires at + |data| <= lo || hi <= at
    ensures Overwrite(mem, at, data)[lo..hi] == mem[lo..hi]
  {
  }

  /** Reading back the range just written gives the data written. */
  lemma OverwriteReadBack(mem: seq<Byte>, at: nat, data: seq<Byte>)
    requires at + |data| <= |mem|
    ensures Overwrite(mem, at, data)[at..at + |data|] == data
  {
  }

  /** Writing a range with the bytes it already holds changes nothing. */
  lemma OverwriteWithOwnBytes(mem: seq<Byte>, at: nat, count: nat)
    requires at + count <= |mem|
    ensures Overwrite(mem, at, mem[at..at + count]) == mem
  {
  }

  /** A second write of the same range replaces the first entirely. */
  lemma OverwriteTwice(mem: seq<Byte>, at: nat, first: seq<Byte>, second: seq<Byte>)
    requires at + |first| <= |mem| && |second| == |first|
    ensures Overwrite(Overwrite(mem, at, first), at, second) == Overwrite(mem, at, second)
  {
  }

  /** Writes to disjoint ranges can be done in either order. */
  lemma DisjointOverwritesCommute(mem: seq<Byte>, a: nat, x: seq<Byte>, b: nat, y: seq<Byte>)
    requires a + |x| <= b && b + |y| <= |mem|
    ensures Overwrite(Overwrite(mem, a, x), b, y) == Overwrite(Overwrite(mem, b, y), a, x)
  {
  }

  /** Writing the whole buffer leaves exactly the data written. */
  lemma OverwriteWhole(mem: seq<Byte>, data: seq<Byte>)
    requires |data| == |mem|
    ensures Overwrite(mem, 0, data) == data
  {
  }

  /** One host-to-device copy: `data` written at byte `at`. */
  datatype HostWrite = HostWrite(at: nat, data: seq<Byte>)

  /** The write stays inside a buffer of `length` bytes. */
  predicate WithinBuffer(w: HostWrite, length: nat)
  {
    w.at + |w.data| <= length
  }

  /** The write touches no byte of [lo, hi). */
  predicate Misses(w: HostWrite, lo: nat, hi: nat)
  {
    w.at + |w.data| <= lo || hi <= w.at
  }

  /** The bytes of `mem` after the writes `ws` are performed in order. */
  function ApplyWrites(mem: seq<Byte>, ws: seq<HostWrite>): (r: seq<Byte>)
    requires forall i | 0 <= i < |ws| :: WithinBuffer(ws[i], |mem|)
    ensures |r| == |mem|
    decreases |ws|
  {
    if ws == [] then mem
    else
      assert WithinBuffer(ws[0], |mem|);
      ApplyWrites(Overwrite(mem, ws[0].at, ws[0].data), ws[1..])
  }

  /** `after` is as long as `before`, and the two agree on every byte of the
      range [lo, hi), which lies inside them. */
  predicate SameRange(before: seq<Byte>, after: seq<Byte>, lo: nat, hi: nat)
  {
    && lo <= hi <= |before| == |after|
    && forall k | lo <= k < hi :: after[k] == before[k]
  }

  /** Writes that all miss the byte range [lo, hi) leave every byte of it as
      it was. */
  lemma {:induction false} WritesElsewhereKeepRange(mem: seq<Byte>, ws: seq<HostWrite>, lo: nat, hi: nat)
    requires forall i | 0 <= i < |ws| :: WithinBuffer(ws[i], |mem|)
    requires forall i | 0 <= i < |ws| :: Misses(ws[i], lo, hi)
    requires lo <= hi <= |mem|
    ensures SameRange(mem, ApplyWrites(mem, ws), lo, hi)
    decreases |ws|
  {
    if ws != [] {
      assert WithinBuffer(ws[0], |mem|) && Misses(ws[0], lo, hi);
      var next := Overwrite(mem, ws[0].at, ws[0].data);
      WritesElsewhereKeepRange(next, ws[1..], lo, hi);
    }
  }

  /** The first write of a series, `data` at byte `at`, survives the later
      writes when they all miss its byte range: that range reads back as
      `data`. */
  lemma WritePersists(mem: seq<Byte>, ws: seq<HostWrite>, at: nat, data: seq<Byte>)
    requires |ws| > 0 && ws[0] == HostWrite(at, data)
    requires forall i | 0 <= i < |ws| :: WithinBuffer(ws[i], |mem|)
    requires forall i | 1 <= i < |ws| :: Misses(ws[i], at, at + |data|)
    ensures forall k | 0 <= k < |data| :: ApplyWrites(mem, ws)[at + k] == data[k]
  {
    assert WithinBuffer(ws[0], |mem|);
    var next := Overwrite(mem, at, data);
    WritesElsewhereKeepRange(next, ws[1..], at, at + |data|);
  }
}
