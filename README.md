# CudaArray: a verified model of OpenMM's CUDA device-array handle

`CudaArray` is the CUDA platform's handle on a block of accelerator memory: `size`
elements of `elementSize` bytes each. The handle either owns the block, and frees it
when destroyed, or borrows it. Its lifecycle is run by `initialize`, `resize` and the
destructor. Data moves with `uploadSubArray` (host to device), `download` (device to
host) and `copyTo` (device to device). Every operation first checks its guards, and
only after they pass does it call the CUDA driver. Most guards read only the handle's
own fields: already initialized, not initialized, not the owner, and sub-range out of
bounds. `copyTo` also compares the destination's size and element size with its own.
The destructor also asks whether its context is still valid, and if not it frees
nothing.

The model has three modules:

- `CudaDriver` (`cuda_driver.dfy`) is the driver as the array sees it. A device
  pointer is a reference to a byte array, and `null` stands for the pointer value 0.
  Each driver call takes its status code as an input: `CUDA_SUCCESS` (0) or an error
  code. A `CudaContext` holds three things. The first is the validity flag the
  destructor queries. The second is `live`, the allocations made in the context and
  not yet freed. The third is `calls`, a ghost record of every driver call issued
  through the context, so "no device call was made" becomes "`calls` is unchanged".
  The module also defines `Overwrite`, the effect of one host-to-device copy on the
  bytes of a buffer, and `ApplyWrites`, the effect of a series of such copies.
- `CudaArrays` (`cuda_array.dfy`) holds the class `CudaArray`. Its fields mirror the
  C++ fields: `pointer`, `size`, `elementSize`, `name`, `ownsMemory` and `context`.
  Each method has a `modifies` clause and states its whole new state, including the
  outcome. An outcome is `Pass`, or `Fail` with an `ArrayError` in place of the thrown
  `OpenMMException`. The invariant `Valid()` says an initialized array has a context
  and exactly `size * elementSize` bytes. A ghost flag `destroyed` records that the
  destructor has run. Every method requires it to be false, so neither a use after
  destruction nor a second destruction can be expressed.
- `CudaArrayScenarios` (`scenarios.dfy`) holds client sequences of calls that state
  the properties users rely on.

Three details of the code shape the model:

- Only the destructor, `initialize` and `resize` make the array's context current.
  `uploadSubArray`, `download` and `copyTo` do not select a context; they use
  whatever context is current. The model records every call on the array's own
  context.
- `copyTo` checks only that the source is initialized and that the sizes and element
  sizes match. It does not check that the destination is initialized. An
  uninitialized destination hands the null pointer to the driver, and the model
  has the driver reject it with `CUDA_ERROR_INVALID_VALUE`.
- `initialize` stores `size`, `elementSize`, `name`, `context` and `ownsMemory = true`
  before it asks for memory. A failed allocation therefore leaves those fields set
  while `pointer` stays 0. So "uninitialized" does not imply that size and element
  size are zero. A failed re-allocation in `resize` leaves `size` at the new value.

## Model

| member | source | states |
|---|---|---|
| `CudaArrays.CudaArray.constructor` | platforms/cuda/src/CudaArray.cpp:36-37 | The default constructor yields an uninitialized array (`pointer` null) that owns nothing. The source leaves the context unset, and the model represents an unset context as null. |
| `CudaArrays.CudaArray.Construct` | platforms/cuda/src/CudaArray.cpp:39-41 | The initializing constructor issues one allocation of `size*elementSize` bytes. On success it yields a fresh owning handle with a fresh allocation of that length, which is added to the context's live set. On failure no handle exists, the error is `CreateFailed` with the name and code, and nothing is added to the live set. |
| `CudaArrays.CudaArray.Destroy` | platforms/cuda/src/CudaArray.cpp:43-53 | The destructor issues exactly one free, and only when the pointer is set, the array owns it and the context is valid. In every other case it issues no call, leaves the context and memory as they were, and does not fail. A successful free removes the allocation from the live set. A failed free reports `DeleteFailed` with the name and code. The call ends the handle's lifetime. It marks the handle destroyed and keeps its other fields. No operation may be called on it afterwards, not even a second destruction. |
| `CudaArrays.CudaArray.Initialize` | platforms/cuda/src/CudaArray.cpp:55-70 | On an initialized array it fails with `AlreadyInitialized` and changes neither the array nor the context, so the existing allocation survives. Otherwise it records the context, size, element size and name, sets `ownsMemory`, and issues one allocation of `size*elementSize` bytes. On success it holds a fresh allocation of exactly that length, now live. On failure `pointer` stays null and the error is `CreateFailed`. |
| `CudaArrays.CudaArray.Resize` | platforms/cuda/src/CudaArray.cpp:72-86 | It fails with `NotInitialized` or `NotOwner` without changing anything or issuing a call. Otherwise it frees the old allocation; if that fails it reports `DeleteFailed` and changes nothing else. If the free succeeds it re-initializes with the new size, keeping the context, element size, name and ownership. The result is a fresh allocation of the new byte length that replaces the old one in the live set, or, if re-allocation fails, an uninitialized array. |
| `CudaArrays.CudaArray.UploadSubArray` | platforms/cuda/src/CudaArray.cpp:92-107 | It fails with `NotInitialized`, or with `OutOfRange` when `offset < 0` or `offset+elements > size`, before any device call and with nothing changed. Otherwise it issues one host-to-device copy (asynchronous exactly when not blocking). On success the device bytes become `Overwrite` of the old bytes at byte `offset*elementSize` with `elements*elementSize` host bytes, so no other byte changes. On failure the bytes are unchanged and the error is `UploadFailed`. |
| `CudaArrays.CudaArray.Download` | platforms/cuda/src/CudaArray.cpp:109-122 | It fails with `NotInitialized` without a call or any change. Otherwise it issues one device-to-host copy of `size*elementSize` bytes. On success the host buffer's first `size*elementSize` bytes equal the device bytes, the rest of the host buffer and the device bytes are unchanged. On failure the host buffer is unchanged and the error is `DownloadFailed`. |
| `CudaArrays.CudaArray.CopyTo` | platforms/cuda/src/CudaArray.cpp:124-136 | It fails with `NotInitialized` when the source is uninitialized, or with `SizeMismatch` naming both arrays when the destination's size or element size differs. Both checks happen before any device call and change nothing. Otherwise it issues one asynchronous device-to-device copy, which never changes the source. If the destination is uninitialized, the driver rejects the null pointer and the error is `CopyFailed` with `CUDA_ERROR_INVALID_VALUE`. Otherwise, on success the destination's bytes equal the source's, and on failure the destination is unchanged and the error is `CopyFailed` with the driver's code. |
| `CudaDriver.Overwrite` | platforms/cuda/src/CudaArray.cpp:98-101 | A copy of `data` at byte `at` keeps the buffer length, gives each byte in `[at, at+|data|)` the matching data byte, and leaves every other byte as it was. |
| `CudaDriver.OverwriteReadBack` | platforms/cuda/src/CudaArray.cpp:98-101 | Reading back the byte range just written yields exactly the written data. |
| `CudaDriver.OverwriteWithOwnBytes` | platforms/cuda/src/CudaArray.cpp:98-101 | Uploading back bytes just read from a range leaves the buffer unchanged. |
| `CudaDriver.OverwriteTwice` | platforms/cuda/src/CudaArray.cpp:98-101 | A second upload of the same range completely replaces the first. |
| `CudaDriver.DisjointOverwritesCommute` | platforms/cuda/src/CudaArray.cpp:98-101 | Uploads to disjoint byte ranges give the same bytes in either order. |
| `CudaDriver.OverwriteWhole` | platforms/cuda/src/CudaArray.cpp:98-101 | Uploading as many bytes as the buffer holds at offset 0 leaves exactly those bytes. |
| `CudaDriver.OverwriteOutside` | platforms/cuda/src/CudaArray.cpp:98-101 | An upload whose byte range misses `[lo, hi)` leaves those bytes as they were. |
| `CudaDriver.ApplyWrites` | platforms/cuda/src/CudaArray.cpp:92-107 | A series of in-bounds host-to-device copies, applied in order, never changes the length of the allocation. |
| `CudaDriver.WritesElsewhereKeepRange` | platforms/cuda/src/CudaArray.cpp:92-107 | A series of copies that all miss the byte range `[lo, hi)` leaves every byte of that range unchanged. This is proved by induction on the series. |
| `CudaDriver.WritePersists` | platforms/cuda/src/CudaArray.cpp:92-107 | When every later copy of a series misses the byte range of the first copy, that range reads back as the first copy's data after the whole series. |
| `CudaArrays.ByteWrites` | platforms/cuda/src/CudaArray.cpp:95-101 | A series of in-range sub-array uploads becomes a series of byte-level copies, one per upload. Each copy is the upload's data at byte `offset*elementSize` and lies inside the `size*elementSize`-byte allocation. |
| `CudaArrays.UploadsMiss` | platforms/cuda/src/CudaArray.cpp:95-101 | When in-range uploads all avoid the elements `[lo, hi)`, every byte-level copy misses the bytes `[lo*elementSize, hi*elementSize)`. |
| `CudaArrays.LaterUploadsMiss` | platforms/cuda/src/CudaArray.cpp:95-101 | When the later uploads of a series avoid the first upload's elements, their copies miss the first upload's byte range. |
| `CudaArrays.SubArrayBytes` | platforms/cuda/src/CudaArray.cpp:95-99 | The element-unit range check `offset+elements <= size` puts the byte range `[offset*elementSize, (offset+elements)*elementSize)` inside the `size*elementSize`-byte allocation. |
| `CudaArrays.SubArrayRoundTrip` | platforms/cuda/src/CudaArray.cpp:92-101 | After an upload of `elements` elements at `offset`, the elements `[offset, offset+elements)` read back as the uploaded bytes. |
| `CudaArrays.DisjointUploadsCommute` | platforms/cuda/src/CudaArray.cpp:92-101 | Two sub-array uploads whose element ranges do not overlap leave the same bytes in either order. |
| `CudaArrays.AvoidingUploadMissesBytes` | platforms/cuda/src/CudaArray.cpp:95-99 | An upload whose element range avoids the elements `[lo, hi)` writes no byte of `[lo*elementSize, hi*elementSize)`. |
| `CudaArrays.UploadsElsewhereKeepRange` | platforms/cuda/src/CudaArray.cpp:92-107 | Any series of in-range sub-array uploads that avoid the elements `[lo, hi)` leaves the bytes of those elements unchanged. |
| `CudaArrays.UploadPersists` | platforms/cuda/src/CudaArray.cpp:92-122 | In any series of in-range sub-array uploads, the first upload's bytes lie inside the allocation. If every later upload avoids its elements, those elements read back as its data, byte for byte, after the whole series. |
| `CudaArrayScenarios.UploadThenDownload` | platforms/cuda/src/CudaArray.cpp:92-122 | For any initialized array, an upload that exceeds the array fails with `OutOfRange`. When both an upload and a following download succeed, the host buffer holds the uploaded bytes at byte range `[offset*elementSize, (offset+elements)*elementSize)`. |
| `CudaArrayScenarios.UploadTwoHalves` | platforms/cuda/src/CudaArray.cpp:55-107 | On an array of ten four-byte elements, uploads to elements 0-4 and then 5-9 both succeed. The device bytes afterwards equal the initial bytes after the series of the two uploads, and they hold the first upload's data followed by the second's. |
| `CudaArrayScenarios.TwoHalvesSeries` | platforms/cuda/src/CudaArray.cpp:92-107 | On 40 bytes, the two uploads of elements 0-4 and then 5-9 (four bytes each) give the same bytes as the series of those uploads. The first half still holds the first upload's data after the second upload. |
| `CudaArrayScenarios.InitializeTwice` | platforms/cuda/src/CudaArray.cpp:55-70 | A second `initialize` fails with `AlreadyInitialized`, and the first allocation remains usable: a full upload then download returns the uploaded bytes. |
| `CudaArrayScenarios.CopyThenShrink` | platforms/cuda/src/CudaArray.cpp:72-136 | Arrays A and B have 100 four-byte elements. After an upload, `A.copyTo(B)` succeeds and B downloads as the uploaded bytes. After `A.resize(50)`, `A.copyTo(B)` fails with a size mismatch naming A and B, and B keeps its bytes. |
| `CudaArrayScenarios.DestroyAfterContextLost` | platforms/cuda/src/CudaArray.cpp:43-53 | Destroying an owning array whose context became invalid succeeds whatever the driver would answer, and it frees nothing: the allocation stays in the live set. |
| `CudaArrayScenarios.DefaultConstructed` | platforms/cuda/src/CudaArray.cpp:36-53 | A default-constructed array cannot be resized (`NotInitialized`), and destroying it succeeds. |
| `CudaArrayScenarios.CopyIntoFailedAllocation` | platforms/cuda/src/CudaArray.cpp:124-135 | A destination whose allocation failed keeps its new size with pointer 0 (lines 59-64). A copy into it from a same-shaped array passes the size check and fails with `CopyFailed` and `CUDA_ERROR_INVALID_VALUE`. |

## Left out

- The CUDA driver itself (`cuMemAlloc`, `cuMemFree`, `cuMemcpyHtoD`, `cuMemcpyDtoH`, `cuMemcpyDtoDAsync` and their variants) is foreign code. Each call is a step whose status code is an input of the model. A new allocation's initial bytes are whatever Dafny gives a new array, and no contract relies on them.
- A failed transfer is modelled as writing nothing. The real driver gives no such promise about a partially executed copy.
- `ContextSelector`, the stack of current contexts and `getCurrentStream` are not modelled. Stream ordering and the completion of asynchronous copies are not modelled either: an asynchronous copy has its effect at once, and only the recorded call shows that it was asynchronous.
- `CudaContext::getErrorString` and the `stringstream` error messages are not modelled. An error keeps its kind, the array name(s) and the status code.
- The `dynamic_cast<CudaContext&>` in `initialize` and `context->unwrap(dest)` in `copyTo` are not modelled. The context is always a `CudaContext` and the destination is always a `CudaArray`, so a mismatch between backends cannot be expressed.
- `getContext` (platforms/cuda/src/CudaArray.cpp:88-90) only returns the stored context, which the model exposes as the field `context`.
- The header CudaArray.h is not part of this model, so it does not say how a borrowed array (initialized, `ownsMemory` false) comes to exist. The model admits that state and proves what `resize` and the destructor do in it.
- C++ integer widths are not modelled: `elementSize` is a natural number, sizes and offsets are unbounded, and `offset+elements` cannot overflow. `UploadSubArray` requires `elements >= 0`, which the source does not check.
- UploadSubArray: requires the host data to hold at least `elements*elementSize` bytes when the guards pass, and Download: requires the host buffer to hold at least `size*elementSize` bytes. The source reads and writes those buffers without a check, so the caller must guarantee their sizes.
- CopyTo: the driver's answer to a null destination is taken to be `CUDA_ERROR_INVALID_VALUE` whatever status is supplied. The real driver's reply to device address 0 is not modelled beyond that.
- Destroy: a failed free is reported as `DeleteFailed`. In the source the exception leaves a destructor, which C++ ends with `std::terminate`. The model does not capture that the process ends.
