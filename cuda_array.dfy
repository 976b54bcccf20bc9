/** The device-array handle of the CUDA platform: a block of
    `size * elementSize` bytes of device memory that the handle either owns
    (and frees) or borrows. Every operation first checks its guards, and only
    then issues driver calls. The guards read the handle's fields; `copyTo`
    also reads the destination's size and element size, and the destructor
    the validity of its context. */
module CudaArrays {
  import opened CudaDriver

  /** Why an operation failed. The driver failures carry the array's name and
      the driver's status code, as the source's error messages do. */
  datatype ArrayError =
    | AlreadyInitialized
    | NotInitialized
    | NotOwner
    | OutOfRange
    | SizeMismatch(source: string, destination: string)
    | CreateFailed(name: string, code: CUresult)
    | DeleteFailed(name: string, code: CUresult)
    | UploadFailed(name: string, code: CUresult)
    | DownloadFailed(name: string, code: CUresult)
    | CopyFailed(source: string, destination: string, code: CUresult)

  /** The end of an operation: it completed, or it threw the given error. */
  datatype Outcome = Pass | Fail(error: ArrayError)

  /** The outcome of the constructor that also initializes: the new handle, or
      the error that escaped the constructor. */
  datatype Construction = Constructed(handle: CudaArray) | Threw(error: ArrayError)

  /** The byte extent of the elements [offset, offset + elements) lies inside
      an array of `size` elements of `elementSize` bytes each. */
  lemma SubArrayBytes(offset: nat, elements: nat, size: nat, elementSize: nat)
    requires offset + elements <= size
    ensures (offset + elements) * elementSize == offset * elementSize + elements * elementSize
    ensures offset * elementSize + elements * elementSize <= size * elementSize
  {
    assert (size - offset - elements) * elementSize >= 0;
  }

  /** The bytes of the elements [lo, hi) lie inside the allocation. */
  lemma ElementRangeBytes(lo: nat, hi: nat, size: nat, elementSize: nat)
    requires lo <= hi <= size
    ensures lo * elementSize <= hi * elementSize <= size * elementSize
  {
    assert hi * elementSize == lo * elementSize + (hi - lo) * elementSize;
    assert size * elementSize == hi * elementSize + (size - hi) * elementSize;
  }

  /** An upload that writes no element of [lo, hi) writes no byte of it. */
  lemma AvoidingUploadMissesBytes(u: SubArrayUpload, lo: nat, hi: nat, elementSize: nat)
    requires Avoids(u, lo, hi)
    ensures u.offset * elementSize + u.elements * elementSize <= lo * elementSize
         || hi * elementSize <= u.offset * elementSize
  {
    if u.offset + u.elements <= lo {
      SubArrayBytes(u.offset, u.elements, lo, elementSize);
    } else {
      SubArrayBytes(hi, u.offset - hi, u.offset, elementSize);
    }
  }

  /** Downloading the elements an upload of `elements` elements at `offset`
      just wrote gives back the uploaded bytes. */
  lemma {:induction false} SubArrayRoundTrip(mem: seq<Byte>, elementSize: nat, offset: nat, data: seq<Byte>, elements: nat)
    requires |data| == elements * elementSize
    requires offset * elementSize + |data| <= |mem|
    ensures (offset + elements) * elementSize <= |mem|
    ensures Overwrite(mem, offset * elementSize, data)[offset * elementSize..(offset + elements) * elementSize] == data
  {
    SubArrayBytes(offset, elements, offset + elements, elementSize);
    OverwriteReadBack(mem, offset * elementSize, data);
  }

  /** Two uploads to disjoint element ranges, the first ending at or before the
      second begins, leave the same bytes whichever is done first. */
  lemma {:induction false} DisjointUploadsCommute(mem: seq<Byte>, elementSize: nat,
                                                   offset1: nat, elements1: nat, data1: seq<Byte>,
                                                   offset2: nat, data2: seq<Byte>)
    requires |data1| == elements1 * elementSize
    requires offset1 + elements1 <= offset2
    requires offset2 * elementSize + |data2| <= |mem|
    ensures offset1 * elementSize + |data1| <= |mem|
    ensures Overwrite(Overwrite(mem, offset1 * elementSize, data1), offset2 * elementSize, data2)
         == Overwrite(Overwrite(mem, offset2 * elementSize, data2), offset1 * elementSize, data1)
  {
    SubArrayBytes(offset1, elements1, offset2, elementSize);
    DisjointOverwritesCommute(mem, offset1 * elementSize, data1, offset2 * elementSize, data2);
  }

  /** One successful `uploadSubArray` call: the `elements * elementSize`
      host bytes `data` that it copies, written at element `offset`. */
  datatype SubArrayUpload = SubArrayUpload(offset: nat, elements: nat, data: seq<Byte>)

  /** The upload passes the range guard of an array of `size` elements and
      carries the bytes of exactly `elements` elements. */
  predicate Fits(u: SubArrayUpload, size: nat, elementSize: nat)
  {
    u.offset + u.elements <= size && |u.data| == u.elements * elementSize
  }

  /** The upload writes no element of [lo, hi). */
  predicate Avoids(u: SubArrayUpload, lo: nat, hi: nat)
  {
    u.offset + u.elements <= lo || hi <= u.offset
  }

  /** The byte-level write an upload performs on an array with elements of
      `elementSize` bytes. */
  function ByteWrite(u: SubArrayUpload, elementSize: nat): HostWrite
  {
    HostWrite(u.offset * elementSize, u.data)
  }

  /** A fitting upload writes inside the array's `size * elementSize` bytes. */
  lemma ByteWriteWithin(u: SubArrayUpload, size: nat, elementSize: nat)
    requires Fits(u, size, elementSize)
    ensures WithinBuffer(ByteWrite(u, elementSize), size * elementSize)
  {
    SubArrayBytes(u.offset, u.elements, size, elementSize);
  }

  /** Every upload of a series that fits writes inside the array. */
  lemma ByteWritesWithin(ups: seq<SubArrayUpload>, size: nat, elementSize: nat)
    requires forall i | 0 <= i < |ups| :: Fits(ups[i], size, elementSize)
    ensures forall i | 0 <= i < |ups| :: WithinBuffer(ByteWrite(ups[i], elementSize), size * elementSize)
  {
    forall i | 0 <= i < |ups|
      ensures WithinBuffer(ByteWrite(ups[i], elementSize), size * elementSize)
    {
      ByteWriteWithin(ups[i], size, elementSize);
    }
  }

  /** The byte-level writes of the uploads `ups`, in the same order. */
  function ByteWrites(ups: seq<SubArrayUpload>, size: nat, elementSize: nat): (ws: seq<HostWrite>)
    requires forall i | 0 <= i < |ups| :: Fits(ups[i], size, elementSize)
    ensures |ws| == |ups|
    ensures forall i | 0 <= i < |ups| :: ws[i] == ByteWrite(ups[i], elementSize)
    ensures forall i | 0 <= i < |ups| :: WithinBuffer(ws[i], size * elementSize)
  {
    ByteWritesWithin(ups, size, elementSize);
    seq(|ups|, i requires 0 <= i < |ups| => ByteWrite(ups[i], elementSize))
  }

  /** Uploads that avoid the elements [lo, hi) write none of their bytes. */
  lemma UploadsMiss(size: nat, elementSize: nat, ups: seq<SubArrayUpload>, lo: nat, hi: nat)
    requires forall i | 0 <= i < |ups| :: Fits(ups[i], size, elementSize)
    requires forall i | 0 <= i < |ups| :: Avoids(ups[i], lo, hi)
    ensures forall i | 0 <= i < |ups| ::
              Misses(ByteWrites(ups, size, elementSize)[i], lo * elementSize, hi * elementSize)
  {
    var ws := ByteWrites(ups, size, elementSize);
    forall i | 0 <= i < |ups|
      ensures Misses(ws[i], lo * elementSize, hi * elementSize)
    {
      AvoidingUploadMissesBytes(ups[i], lo, hi, elementSize);
    }
  }

  /** Uploads that avoid the elements [lo, hi) leave the bytes of those
      elements as they were. */
  lemma UploadsElsewhereKeepRange(mem: seq<Byte>, size: nat, elementSize: nat,
                                  ups: seq<SubArrayUpload>, lo: nat, hi: nat)
    requires |mem| == size * elementSize
    requires forall i | 0 <= i < |ups| :: Fits(ups[i], size, elementSize)
    requires forall i | 0 <= i < |ups| :: Avoids(ups[i], lo, hi)
    requires lo <= hi <= size
    ensures SameRange(mem, ApplyWrites(mem, ByteWrites(ups, size, elementSize)), lo * elementSize, hi * elementSize)
  {
    ElementRangeBytes(lo, hi, size, elementSize);
    UploadsMiss(size, elementSize, ups, lo, hi);
    WritesElsewhereKeepRange(mem, ByteWrites(ups, size, elementSize), lo * elementSize, hi * elementSize);
  }

  /** Uploads after the first in `ups` that avoid its elements write none of
      its bytes. */
  lemma LaterUploadsMiss(size: nat, elementSize: nat, ups: seq<SubArrayUpload>)
    requires |ups| > 0
    requires forall i | 0 <= i < |ups| :: Fits(ups[i], size, elementSize)
    requires forall i | 1 <= i < |ups| :: Avoids(ups[i], ups[0].offset, ups[0].offset + ups[0].elements)
    ensures forall i | 1 <= i < |ups| ::
              Misses(ByteWrites(ups, size, elementSize)[i], ups[0].offset * elementSize,
                     ups[0].offset * elementSize + ups[0].elements * elementSize)
  {
    var u, ws := ups[0], ByteWrites(ups, size, elementSize);
    SubArrayBytes(u.offset, u.elements, size, elementSize);
    forall i | 1 <= i < |ups|
      ensures Misses(ws[i], u.offset * elementSize, u.offset * elementSize + u.elements * elementSize)
    {
      AvoidingUploadMissesBytes(ups[i], u.offset, u.offset + u.elements, elementSize);
    }
  }

  /** The bytes of an upload survive later uploads to other elements: when
      the uploads after the first in `ups` all avoid its elements, each byte
      of those elements reads back as the first upload's data. */
  lemma UploadPersists(mem: seq<Byte>, size: nat, elementSize: nat, ups: seq<SubArrayUpload>)
    requires |mem| == size * elementSize
    requires |ups| > 0
    requires forall i | 0 <= i < |ups| :: Fits(ups[i], size, elementSize)
    requires forall i | 1 <= i < |ups| :: Avoids(ups[i], ups[0].offset, ups[0].offset + ups[0].elements)
    ensures WithinBuffer(ByteWrite(ups[0], elementSize), |mem|)
    ensures forall k | 0 <= k < |ups[0].data| ::
              ApplyWrites(mem, ByteWrites(ups, size, elementSize))[ups[0].offset * elementSize + k] == ups[0].data[k]
  {
    var ws := ByteWrites(ups, size, elementSize);
    LaterUploadsMiss(size, elementSize, ups);
    WritePersists(mem, ws, ups[0].offset * elementSize, ups[0].data);
  }

  class CudaArray {
    /** The device allocation; `null` is the pointer value 0 (uninitialized). */
    var pointer: array?<Byte>
    /** The number of elements. */
    var size: nat
    /** The number of bytes per element. */
    var elementSize: nat
    /** The label used in error messages. */
    var name: string
    /** Whether this handle frees `pointer` when it is destroyed. */
    var ownsMemory: bool
    /** The context the array was initialized against. */
    var context: CudaContext?
    /** Whether the destructor has run: it ends the handle's lifetime, so no
        operation, not even a second destruction, may follow it. */
    ghost var destroyed: bool

    /** An initialized array has a context and exactly `size * elementSize`
        bytes of device memory. */
    ghost predicate Valid()
      reads this
    {
      pointer != null ==> context != null && pointer.Length == size * elementSize
    }

    /** Destruction frees the allocation exactly when this holds. */
    predicate ReleasesOnDestroy()
      reads this, context
    {
      pointer != null && ownsMemory && context != null && context.isValid
    }

    /** The default constructor: no allocation, nothing owned. The source
        leaves the remaining fields indeterminate; here `context` is null,
        the model's stand-in for an unset context, and the other fields get
        fixed values that no contract relies on. */
    constructor ()
      ensures Valid() && !destroyed
      ensures pointer == null && !ownsMemory && context == null
    {
      pointer := null;
      ownsMemory := false;
      size, elementSize, name, context := 0, 0, "", null;
      destroyed := false;
    }

    /** The constructor that initializes at once: a failed initialization
        escapes the constructor, so no handle is produced. */
    static method Construct(ctx: CudaContext, size: nat, elementSize: nat, name: string, status: CUresult)
      returns (r: Construction)
      modifies ctx
      ensures ctx.isValid == old(ctx.isValid)
      ensures ctx.calls == old(ctx.calls) + [MemAlloc(size * elementSize)]
      ensures status == CUDA_SUCCESS ==>
        && r.Constructed? && fresh(r.handle) && r.handle.Valid() && !r.handle.destroyed
        && r.handle.pointer != null && fresh(r.handle.pointer)
        && r.handle.size == size && r.handle.elementSize == elementSize
        && r.handle.name == name && r.handle.ownsMemory && r.handle.context == ctx
        && ctx.live == old(ctx.live) + {r.handle.pointer}
      ensures status != CUDA_SUCCESS ==>
        r == Threw(CreateFailed(name, status)) && ctx.live == old(ctx.live)
    {
      var a := new CudaArray();
      var outcome := a.Initialize(ctx, size, elementSize, name, status);
      if outcome.Fail? {
        return Threw(outcome.error);
      }
      r := Constructed(a);
    }

    /** Allocates `size * elementSize` bytes against `ctx`. The fields are
        recorded before the allocation is requested, so a failed allocation
        leaves them set while the array stays uninitialized. */
    method Initialize(ctx: CudaContext, size: nat, elementSize: nat, name: string, status: CUresult)
      returns (r: Outcome)
      requires Valid() && !destroyed
      modifies this, ctx
      ensures Valid() && !destroyed
      ensures old(pointer) != null ==>
        r == Fail(AlreadyInitialized) && unchanged(this) && unchanged(ctx)
      ensures old(pointer) == null ==>
        && context == ctx && this.size == size && this.elementSize == elementSize
        && this.name == name && ownsMemory
        && ctx.isValid == old(ctx.isValid)
        && ctx.calls == old(ctx.calls) + [MemAlloc(size * elementSize)]
      ensures old(pointer) == null && status == CUDA_SUCCESS ==>
        && r == Pass && pointer != null && fresh(pointer)
        && ctx.live == old(ctx.live) + {pointer}
      ensures old(pointer) == null && status != CUDA_SUCCESS ==>
        r == Fail(CreateFailed(name, status)) && pointer == null && ctx.live == old(ctx.live)
    {
      if pointer != null {
        return Fail(AlreadyInitialized);
      }
      this.context := ctx;
      this.size := size;
      this.elementSize := elementSize;
      this.name := name;
      ownsMemory := true;
      ctx.calls := ctx.calls + [MemAlloc(size * elementSize)];
      if status != CUDA_SUCCESS {
        return Fail(CreateFailed(name, status));
      }
      pointer := new Byte[size * elementSize];
      ctx.live := ctx.live + {pointer};
      r := Pass;
    }

    /** Frees the allocation and initializes again with `newSize` elements,
        keeping the context, element size and name. The old contents are not
        carried over. */
    method Resize(newSize: nat, freeStatus: CUresult, allocStatus: CUresult) returns (r: Outcome)
      requires Valid() && !destroyed
      modifies this, context
      ensures Valid() && !destroyed
      ensures old(pointer) == null ==>
        r == Fail(NotInitialized) && unchanged(this) && (context != null ==> unchanged(context))
      ensures old(pointer) != null && !old(ownsMemory) ==>
        r == Fail(NotOwner) && unchanged(this) && unchanged(context)
      ensures old(pointer) != null && old(ownsMemory) ==>
        && context == old(context) && elementSize == old(elementSize) && name == old(name) && ownsMemory
        && context.isValid == old(context.isValid)
      ensures old(pointer) != null && old(ownsMemory) && freeStatus != CUDA_SUCCESS ==>
        && r == Fail(DeleteFailed(name, freeStatus)) && unchanged(this)
        && context.calls == old(context.calls) + [MemFree(old(pointer))]
        && context.live == old(context.live)
      ensures old(pointer) != null && old(ownsMemory) && freeStatus == CUDA_SUCCESS ==>
        && size == newSize
        && context.calls == old(context.calls) + [MemFree(old(pointer)), MemAlloc(newSize * elementSize)]
      ensures old(pointer) != null && old(ownsMemory) && freeStatus == CUDA_SUCCESS && allocStatus == CUDA_SUCCESS ==>
        && r == Pass && pointer != null && fresh(pointer)
        && context.live == old(context.live) - {old(pointer)} + {pointer}
      ensures old(pointer) != null && old(ownsMemory) && freeStatus == CUDA_SUCCESS && allocStatus != CUDA_SUCCESS ==>
        && r == Fail(CreateFailed(name, allocStatus)) && pointer == null
        && context.live == old(context.live) - {old(pointer)}
    {
      if pointer == null {
        return Fail(NotInitialized);
      }
      if !ownsMemory {
        return Fail(NotOwner);
      }
      context.calls := context.calls + [MemFree(pointer)];
      if freeStatus != CUDA_SUCCESS {
        return Fail(DeleteFailed(name, freeStatus));
      }
      context.live := context.live - {pointer};
      pointer := null;
      r := Initialize(context, newSize, elementSize, name, allocStatus);
    }

    /** Copies `elements` elements of host data into the array starting at
        element `offset`. Blocking and asynchronous copies have the same
        effect on the bytes; only the recorded call differs. */
    method UploadSubArray(data: seq<Byte>, offset: int, elements: int, blocking: bool, status: CUresult)
      returns (r: Outcome)
      requires Valid() && !destroyed
      requires elements >= 0
      requires pointer != null && 0 <= offset && offset + elements <= size ==> |data| >= elements * elementSize
      modifies pointer, context
      ensures pointer == null ==> r == Fail(NotInitialized) && (context != null ==> unchanged(context))
      ensures pointer != null && !(0 <= offset && offset + elements <= size) ==>
        r == Fail(OutOfRange) && unchanged(pointer) && unchanged(context)
      ensures pointer != null && 0 <= offset && offset + elements <= size ==>
        && offset * elementSize + elements * elementSize <= pointer.Length
        && context.isValid == old(context.isValid) && context.live == old(context.live)
        && context.calls == old(context.calls)
                            + [MemcpyHtoD(pointer, offset * elementSize, elements * elementSize, !blocking)]
      ensures pointer != null && 0 <= offset && offset + elements <= size && status == CUDA_SUCCESS ==>
        && r == Pass
        && pointer[..] == Overwrite(old(pointer[..]), offset * elementSize, data[..elements * elementSize])
      ensures pointer != null && 0 <= offset && offset + elements <= size && status != CUDA_SUCCESS ==>
        r == Fail(UploadFailed(name, status)) && unchanged(pointer)
    {
      if pointer == null {
        return Fail(NotInitialized);
      }
      if offset < 0 || offset + elements > size {
        return Fail(OutOfRange);
      }
      SubArrayBytes(offset, elements, size, elementSize);
      var at, count := offset * elementSize, elements * elementSize;
      context.calls := context.calls + [MemcpyHtoD(pointer, at, count, !blocking)];
      if status != CUDA_SUCCESS {
        return Fail(UploadFailed(name, status));
      }
      forall i | at <= i < at + count {
        pointer[i] := data[i - at];
      }
      r := Pass;
    }

    /** Copies the whole array, `size * elementSize` bytes, into the host
        buffer `data`, which the caller makes large enough. */
    method Download(data: array<Byte>, blocking: bool, status: CUresult) returns (r: Outcome)
      requires Valid() && !destroyed
      requires pointer != null ==> data.Length >= size * elementSize
      modifies data, context
      ensures pointer == null ==>
        r == Fail(NotInitialized) && unchanged(data) && (context != null ==> unchanged(context))
      ensures pointer != null ==>
        && context.isValid == old(context.isValid) && context.live == old(context.live)
        && context.calls == old(context.calls) + [MemcpyDtoH(pointer, size * elementSize, !blocking)]
      ensures pointer != null && status == CUDA_SUCCESS ==>
        && r == Pass
        && data[..pointer.Length] == old(pointer[..])
        && data[pointer.Length..] == old(data[pointer.Length..])
        && pointer[..] == old(pointer[..])
      ensures pointer != null && status != CUDA_SUCCESS ==>
        r == Fail(DownloadFailed(name, status)) && unchanged(data)
    {
      if pointer == null {
        return Fail(NotInitialized);
      }
      var count := size * elementSize;
      context.calls := context.calls + [MemcpyDtoH(pointer, count, !blocking)];
      if status != CUDA_SUCCESS {
        return Fail(DownloadFailed(name, status));
      }
      forall i | 0 <= i < count {
        data[i] := pointer[i];
      }
      r := Pass;
    }

    /** Copies the whole array into `dest`, which must have the same number of
        elements and the same element size. The copy is always asynchronous.
        The source does not check that `dest` is initialized: an uninitialized
        destination passes the null pointer to the driver, which rejects it. */
    method CopyTo(dest: CudaArray, status: CUresult) returns (r: Outcome)
      requires Valid() && !destroyed && dest.Valid() && !dest.destroyed
      modifies dest.pointer, context
      ensures pointer == null ==>
        r == Fail(NotInitialized) && (dest.pointer != null ==> unchanged(dest.pointer))
        && (context != null ==> unchanged(context))
      ensures pointer != null && (dest.size != size || dest.elementSize != elementSize) ==>
        r == Fail(SizeMismatch(name, dest.name)) && (dest.pointer != null ==> unchanged(dest.pointer))
        && unchanged(context)
      ensures pointer != null && dest.size == size && dest.elementSize == elementSize ==>
        && context.isValid == old(context.isValid) && context.live == old(context.live)
        && context.calls == old(context.calls) + [MemcpyDtoDAsync(dest.pointer, pointer, size * elementSize)]
        && pointer[..] == old(pointer[..])
      ensures pointer != null && dest.size == size && dest.elementSize == elementSize && dest.pointer == null ==>
        r == Fail(CopyFailed(name, dest.name, CUDA_ERROR_INVALID_VALUE))
      ensures pointer != null && dest.size == size && dest.elementSize == elementSize && dest.pointer != null
              && status == CUDA_SUCCESS ==>
        r == Pass && dest.pointer[..] == old(pointer[..])
      ensures pointer != null && dest.size == size && dest.elementSize == elementSize && dest.pointer != null
              && status != CUDA_SUCCESS ==>
        r == Fail(CopyFailed(name, dest.name, status)) && unchanged(dest.pointer)
    {
      if pointer == null {
        return Fail(NotInitialized);
      }
      if dest.size != size || dest.elementSize != elementSize {
        return Fail(SizeMismatch(name, dest.name));
      }
      var target := dest.pointer;
      context.calls := context.calls + [MemcpyDtoDAsync(target, pointer, size * elementSize)];
      if target == null {
        return Fail(CopyFailed(name, dest.name, CUDA_ERROR_INVALID_VALUE));
      }
      if status != CUDA_SUCCESS {
        return Fail(CopyFailed(name, dest.name, status));
      }
      forall i | 0 <= i < target.Length {
        target[i] := pointer[i];
      }
      r := Pass;
    }

    /** The destructor: frees the allocation only when the array owns it and
        its context is still valid; otherwise it issues no driver call. A
        failed free is reported, not swallowed. It runs once and ends the
        handle's lifetime; the fields keep their values. */
    method Destroy(status: CUresult) returns (r: Outcome)
      requires Valid() && !destroyed
      modifies this, context
      ensures destroyed
      ensures pointer == old(pointer) && size == old(size) && elementSize == old(elementSize)
      ensures name == old(name) && ownsMemory == old(ownsMemory) && context == old(context)
      ensures !old(ReleasesOnDestroy()) ==> r == Pass && (context != null ==> unchanged(context))
      ensures old(ReleasesOnDestroy()) ==>
        && context.isValid == old(context.isValid)
        && context.calls == old(context.calls) + [MemFree(pointer)]
      ensures old(ReleasesOnDestroy()) && status == CUDA_SUCCESS ==>
        r == Pass && context.live == old(context.live) - {pointer}
      ensures old(ReleasesOnDestroy()) && status != CUDA_SUCCESS ==>
        r == Fail(DeleteFailed(name, status)) && context.live == old(context.live)
    {
      destroyed := true;
      if pointer != null && ownsMemory && context.isValid {
        context.calls := context.calls + [MemFree(pointer)];
        if status != CUDA_SUCCESS {
          return Fail(DeleteFailed(name, status));
        }
        context.live := context.live - {pointer};
      }
      r := Pass;
    }
  }
}
