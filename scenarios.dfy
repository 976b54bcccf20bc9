/** Clients of the device array: the sequences of operations its users rely
    on, with every driver call succeeding unless stated otherwise. */
module CudaArrayScenarios {
  import opened CudaDriver
  import opened CudaArrays

  /** An upload of `elements` elements at `offset` followed by a download of
      the whole array puts the uploaded bytes at the matching place of the
      host buffer. */
  method UploadThenDownload(a: CudaArray, data: seq<Byte>, offset: nat, elements: nat, buffer: array<Byte>)
    returns (uploaded: Outcome, downloaded: Outcome)
    requires a.Valid() && !a.destroyed && a.pointer != null
    requires |data| >= elements * a.elementSize
    requires buffer.Length >= a.size * a.elementSize
    modifies a.pointer, a.context, buffer
    ensures offset + elements > a.size ==> uploaded == Fail(OutOfRange)
    ensures uploaded == Pass && downloaded == Pass ==>
      && (offset + elements) * a.elementSize <= buffer.Length
      && buffer[offset * a.elementSize..(offset + elements) * a.elementSize] == data[..elements * a.elementSize]
  {
    ghost var before := a.pointer[..];
    uploaded := a.UploadSubArray(data, offset, elements, true, CUDA_SUCCESS);
    ghost var written := a.pointer[..];
    downloaded := a.Download(buffer, true, CUDA_SUCCESS);
    if uploaded == Pass && downloaded == Pass {
      ghost var es, n := a.elementSize, a.pointer.Length;
      ghost var lo, hi := offset * es, (offset + elements) * es;
      SubArrayBytes(offset, elements, a.size, es);
      SubArrayRoundTrip(before, es, offset, data[..elements * es], elements);
      assert buffer[..n] == written && lo <= hi <= n;
      assert buffer[lo..hi] == buffer[..n][lo..hi];
    }
  }

  /** Uploading the two halves of a 40-byte buffer, as elements 0-4 and 5-9
      of four bytes each, is the series of those two uploads, and the first
      half survives the second upload. */
  lemma TwoHalvesSeries(initial: seq<Byte>, first: seq<Byte>, second: seq<Byte>)
    requires |initial| == 40 && |first| == 20 && |second| == 20
    ensures Overwrite(Overwrite(initial, 0, first), 20, second)
         == ApplyWrites(initial, ByteWrites([SubArrayUpload(0, 5, first), SubArrayUpload(5, 5, second)], 10, 4))
    ensures Overwrite(Overwrite(initial, 0, first), 20, second)[..20] == first
  {
    var ups := [SubArrayUpload(0, 5, first), SubArrayUpload(5, 5, second)];
    var ws := ByteWrites(ups, 10, 4);
    var afterFirst := Overwrite(initial, 0, first);
    assert ws[0] == HostWrite(0, first) && ws[1..][0] == HostWrite(20, second);
    assert ws[1..][1..] == [];
    assert ApplyWrites(initial, ws) == ApplyWrites(afterFirst, ws[1..]);
    assert ApplyWrites(afterFirst, ws[1..]) == ApplyWrites(Overwrite(afterFirst, 20, second), []);
    UploadPersists(initial, 10, 4, ups);
  }

  /** Two uploads to the two halves of an array of ten four-byte elements:
      the device bytes are the series of the two uploads applied to the
      initial bytes, and they hold the first half followed by the second,
      the first upload surviving the second. */
  method UploadTwoHalves(first: seq<Byte>, second: seq<Byte>)
    returns (r1: Outcome, r2: Outcome, ghost initial: seq<Byte>, device: seq<Byte>)
    requires |first| == 20 && |second| == 20
    ensures r1 == Pass && r2 == Pass
    ensures |initial| == 40
    ensures device == ApplyWrites(initial, ByteWrites([SubArrayUpload(0, 5, first), SubArrayUpload(5, 5, second)], 10, 4))
    ensures device[..20] == first && device[20..] == second
  {
    var ctx := new CudaContext();
    var a := new CudaArray();
    var init := a.Initialize(ctx, 10, 4, "charges", CUDA_SUCCESS);
    initial := a.pointer[..];
    r1 := a.UploadSubArray(first, 0, 5, true, CUDA_SUCCESS);
    ghost var afterFirst := a.pointer[..];
    r2 := a.UploadSubArray(second, 5, 5, true, CUDA_SUCCESS);
    device := a.pointer[..];
    TwoHalvesSeries(initial, first, second);
    OverwriteReadBack(afterFirst, 20, second);
  }

  /** A second initialization throws, and the first allocation stays in
      place and usable: an upload of all ten elements reads back intact. */
  method InitializeTwice(host: seq<Byte>) returns (first: Outcome, second: Outcome, readBack: seq<Byte>)
    requires |host| == 40
    ensures first == Pass && second == Fail(AlreadyInitialized)
    ensures readBack == host
  {
    var ctx := new CudaContext();
    var a := new CudaArray();
    first := a.Initialize(ctx, 10, 4, "forces", CUDA_SUCCESS);
    second := a.Initialize(ctx, 20, 8, "forces", CUDA_SUCCESS);
    ghost var before := a.pointer[..];
    var uploaded := a.UploadSubArray(host, 0, 10, true, CUDA_SUCCESS);
    OverwriteWhole(before, host);
    var buffer := new Byte[40];
    var downloaded := a.Download(buffer, true, CUDA_SUCCESS);
    readBack := buffer[..];
  }

  /** Two arrays of 100 four-byte elements: copying one into the other
      duplicates its contents; after the source shrinks to 50 elements the
      same copy throws a size mismatch and the destination keeps its bytes. */
  method CopyThenShrink(host: seq<Byte>)
    returns (copied: Outcome, copiedBytes: seq<Byte>, resized: Outcome, copiedAgain: Outcome, keptBytes: seq<Byte>)
    requires |host| == 400
    ensures copied == Pass && copiedBytes == host
    ensures resized == Pass
    ensures copiedAgain == Fail(SizeMismatch("A", "B")) && keptBytes == host
  {
    var ctx := new CudaContext();
    var a := new CudaArray();
    var b := new CudaArray();
    var initA := a.Initialize(ctx, 100, 4, "A", CUDA_SUCCESS);
    var initB := b.Initialize(ctx, 100, 4, "B", CUDA_SUCCESS);
    ghost var before := a.pointer[..];
    var uploaded := a.UploadSubArray(host, 0, 100, false, CUDA_SUCCESS);
    OverwriteWhole(before, host);
    assert a.pointer[..] == host;
    copied := a.CopyTo(b, CUDA_SUCCESS);
    assert b.pointer[..] == host;
    var buffer := new Byte[400];
    var downloaded := b.Download(buffer, true, CUDA_SUCCESS);
    copiedBytes := buffer[..];
    resized := a.Resize(50, CUDA_SUCCESS, CUDA_SUCCESS);
    assert b.size == 100 && a.size == 50 && b.pointer[..] == host;
    copiedAgain := a.CopyTo(b, CUDA_SUCCESS);
    assert b.pointer[..] == host;
    downloaded := b.Download(buffer, true, CUDA_SUCCESS);
    keptBytes := buffer[..];
  }

  /** Destroying an owning array whose context has become invalid issues no
      free, whatever the driver would have answered, and does not throw. */
  method DestroyAfterContextLost(status: CUresult) returns (destroyed: Outcome, stillLive: bool)
    ensures destroyed == Pass && stillLive
  {
    var ctx := new CudaContext();
    var a := new CudaArray();
    var initialized := a.Initialize(ctx, 16, 8, "positions", CUDA_SUCCESS);
    ctx.isValid := false;
    destroyed := a.Destroy(status);
    stillLive := a.pointer in ctx.live;
  }

  /** An array built by the default constructor owns nothing: it cannot be
      resized, and destroying it succeeds. */
  method DefaultConstructed(status: CUresult) returns (resized: Outcome, destroyed: Outcome)
    ensures resized == Fail(NotInitialized) && destroyed == Pass
  {
    var a := new CudaArray();
    resized := a.Resize(8, CUDA_SUCCESS, CUDA_SUCCESS);
    destroyed := a.Destroy(status);
  }

  /** A destination whose allocation failed keeps the size it was asked for
      while its pointer stays 0. Copying into it passes the size check, and
      the driver rejects the null destination. */
  method CopyIntoFailedAllocation(allocError: CUresult) returns (copied: Outcome)
    requires allocError != CUDA_SUCCESS
    ensures copied == Fail(CopyFailed("A", "B", CUDA_ERROR_INVALID_VALUE))
  {
    var ctx := new CudaContext();
    var a := new CudaArray();
    var b := new CudaArray();
    var initA := a.Initialize(ctx, 8, 4, "A", CUDA_SUCCESS);
    var initB := b.Initialize(ctx, 8, 4, "B", allocError);
    copied := a.CopyTo(b, CUDA_SUCCESS);
  }
}
