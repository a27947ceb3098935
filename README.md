# PlaidML core wrapper, modelled in Dafny

This project models the C++ safety layer `plaidml/core/core.h`, which sits over PlaidML's opaque C API. It covers four parts:

- **The error-translation adapter** (`ffi::str`, `ffi::call`, `ffi::call_void`): module `Ffi`, file `ffi.dfy`. A native call fills a status slot. A non-zero code becomes a thrown `std::runtime_error` carrying the status's message, and the message string is freed exactly once. A zero code passes the call's result through unchanged. Native strings are a value (`StringHeap`): the live strings, a multiset of free counts per handle, and the next fresh handle. `Valid` states that no handle is ever freed twice.
- **Handle ownership** (`details::Deleter`, `make_plaidml_*`): module `Ownership`, file `ownership.dfy`. It is a class `Handle` standing for a `std::shared_ptr` with its bound deleter. It has the owner count and a ghost log of the native free calls its deleter has made. The invariant: while an owner is left the log is empty, and once none is left it holds exactly one call, of the kind's own free function on the handle's native pointer.
- **DType and `to_string`**: module `DTypes`, file `dtype.dfy`. The table is reproduced as written. That includes `INT64` being named `"uint64"` and `UINT64` falling to the `"<invalid>"` default.
- **TensorShape**: module `Shapes`, file `shape.dfy`. It models the four constructors, the queries and `operator==`. The constructor that shares an existing `shared_ptr<plaidml_shape>` is the datatype constructor `Shapes.TensorShape(ptr)` itself. The native side is a value `Native`: the descriptors `plaidml_shape_alloc` has made, plus the native strings. The stride loop of the two-argument constructor is an imperative method over an array. It is proved equal to the row-major formula "stride i is the product of the sizes after i".
- **Buffer and View**: module `Buffers`, file `buffer.dfy`. These are classes over an abstract native model:
  - a device buffer is a byte sequence;
  - `mmap_current` maps a fresh span holding the current bytes;
  - `mmap_discard` maps a fresh span with no promise about its contents;
  - writeback makes the span's bytes the buffer's bytes.

  `copy_into` and `copy_from` are proved to move exactly `view.size()` (= nbytes) bytes. Each also calls `plaidml_view_free` exactly once, on the view it mapped, and together they round-trip.

A native function's behaviour comes into the model as parameters: the value it returned and the status (`NativeError`) it wrote. The canonical repr of a shape is the native side's, so it is a function parameter `repr` of the string and equality operations.

Notes on the source's behaviour:
- The rank check throws a plain `std::runtime_error("Sizes and strides must have the same rank.")` (plaidml/core/core.h:170). So one `RuntimeError` type models both the rank error and every native failure.
- `ffi::call` frees the status message only when the code is non-zero. On success the boundary writes no message, so nothing is freed.
- `Buffer()` default-constructs its `shape_` member, which runs `TensorShape()` and so a native shape allocation. `Buffers.Buffer.Empty` takes that default shape as a parameter.

## Model

| member | source | states |
|---|---|---|
| `Ffi.Str` | plaidml/core/core.h:18-22 | returns the string's contents as they were before the free; the handle is then not live, its free count has gone up by exactly one, and every other string is untouched; a valid table stays valid (no double free) |
| `Ffi.Call` | plaidml/core/core.h:24-32 | succeeds exactly when the code is zero, and then returns the native result unchanged and touches no string; otherwise throws the message held by `err.msg` and frees that message once |
| `Ffi.CallVoid` | plaidml/core/core.h:34-41 | passes exactly when the code is zero, touching no string; otherwise fails with the message and frees it once |
| `Ffi.CallVoidMatchesCall` | plaidml/core/core.h:24-41 | `call_void` gives the same verdict, the same message and the same string table as `call` for every result value |
| `Ffi.CallReleasesMessageOnce` | plaidml/core/core.h:24-32 | over a valid string table, the adapter keeps it valid, and a failure's message ends up freed exactly once and no longer live |
| `Ownership.FreeFunction` | plaidml/core/core.h:53-63 | each handle kind is bound to its own, distinct native free function (shape, buffer, view); `Handle.Valid` and `Handle.Drop` state that the deleter calls exactly this function |
| `Ownership.Handle.constructor` | plaidml/core/core.h:53-63 | a new shared handle for a kind and a native pointer has one owner and has made no free call |
| `Ownership.Handle.Copy` | plaidml/core/core.h:53-63 | copying a live handle adds one owner and makes no free call |
| `Ownership.Handle.Drop` | plaidml/core/core.h:47-51 | dropping an owner removes one owner; exactly when no owner is left the deleter calls the kind's free function on the native pointer, once, and never again |
| `DTypes.ToString` | plaidml/core/core.h:100-129 | total; `"<invalid>"` exactly for INVALID and UINT64; `"uint64"` exactly for INT64; no dtype is named `"int64"` |
| `DTypes.ToStringCollisions` | plaidml/core/core.h:100-129 | two different dtypes share a name only when they are INVALID and UINT64 |
| `Shapes.RowMajorStrides` | plaidml/core/core.h:150-156 | the reverse loop fills every stride with the product of the sizes to its right (the loop invariant keeps the running product equal to the product of the sizes already passed) |
| `Shapes.RowMajorShape` | plaidml/core/core.h:151-156 | one stride per size; the last stride is 1; empty sizes give empty strides |
| `Shapes.RowMajorRecurrence` | plaidml/core/core.h:153-156 | each stride is the next stride times the next size |
| `Shapes.RowMajorDense` | plaidml/core/core.h:151-156 | the first stride times the first size is the product of all sizes (the layout is dense) |
| `Shapes.RowMajorExample` | plaidml/core/core.h:149-159 | sizes [2, 3] get strides [3, 1] |
| `Shapes.AllocShape` | plaidml/core/core.h:157-158 | succeeds exactly when the native status code is zero, and then adds the given descriptor and returns a shape pointing to it; on failure it adds no descriptor and throws and frees the message |
| `Shapes.NewDefaultShape` | plaidml/core/core.h:141-143 | succeeds exactly when the status code is zero, and then the new shape's descriptor is dtype INVALID with no sizes and no strides |
| `Shapes.NewShape` | plaidml/core/core.h:149-159 | the constructor allocates exactly the descriptor (dtype, sizes, row-major strides of sizes) |
| `Shapes.NewShapeWithStrides` | plaidml/core/core.h:166-174 | differing ranks throw the rank message and leave the native state as it was; equal ranks allocate the given strides unchanged |
| `Shapes.RankCheckExact` | plaidml/core/core.h:169-173 | the constructor throws the rank message and leaves the native state as it was if and only if the ranks differ |
| `Shapes.RankMismatchExample` | plaidml/core/core.h:169-171 | sizes [2, 3] with strides [1] are refused with the rank message and nothing is allocated |
| `Shapes.DTypeOf` | plaidml/core/core.h:186 | succeeds exactly on a zero status code, and then reports the dtype the descriptor was allocated with and leaves the native state unchanged; otherwise throws and frees the message |
| `Shapes.NDims` | plaidml/core/core.h:192 | succeeds exactly on a zero status code, and then reports the number of sizes the descriptor was allocated with and leaves the native state unchanged; otherwise throws and frees the message |
| `Shapes.NewShapeQueries` | plaidml/core/core.h:186-192 | a shape built from dtype and sizes reads back that dtype and that number of dimensions, and holds the row-major strides |
| `Shapes.ShapeStr` | plaidml/core/core.h:199 | succeeds exactly when the status of `plaidml_shape_repr` is zero, and then returns the canonical repr of the shape's descriptor, with the repr string freed so the live strings are unchanged; otherwise throws the native message and frees it; the string table stays valid |
| `Shapes.Equals` | plaidml/core/core.h:200 | succeeds exactly when both `str()` calls succeed, and then is true exactly when the two canonical reprs are equal and no string leaks; a failing `str()` throws its native message (the left one's first); no descriptor is added |
| `Shapes.EqualsReflexive` | plaidml/core/core.h:200 | every shape equals itself |
| `Shapes.EqualsSymmetric` | plaidml/core/core.h:200 | equality does not depend on the order of its operands |
| `Shapes.EqualsTransitive` | plaidml/core/core.h:200 | equality is transitive |
| `Shapes.IndependentShapesEqual` | plaidml/core/core.h:200 | two shapes built one after the other from the same dtype and sizes are different handles, yet compare equal |
| `Buffers.MemCopy` | plaidml/core/core.h:299 | the first `n` bytes of the destination become those of the source, and no byte after them changes |
| `Buffers.View.constructor` | plaidml/core/core.h:238 | a View wraps the given native view through the given shared handle |
| `Buffers.View.Data` | plaidml/core/core.h:219-221 | returns the mapped span |
| `Buffers.View.Size` | plaidml/core/core.h:226-228 | the span's length is the size of the mapped buffer |
| `Buffers.View.Writeback` | plaidml/core/core.h:233-235 | the buffer's bytes become the span's bytes |
| `Buffers.View.Share` | plaidml/core/core.h:238-241 | a copy of a View shares the same mapping and handle, with one more owner |
| `Buffers.View.Release` | plaidml/core/core.h:240-241 | destroying a View removes one owner; exactly when it was the last one, `plaidml_view_free` is called once on its native view |
| `Buffers.Buffer.Empty` | plaidml/core/core.h:254 | a default Buffer has no native backing |
| `Buffers.Buffer.Wrap` | plaidml/core/core.h:270-271 | wrapping takes ownership of the native buffer through a new handle with one owner and no free call yet |
| `Buffers.Buffer.Allocate` | plaidml/core/core.h:261-264 | succeeds exactly when both `shape.nbytes()` and the native allocation report code zero, and then owns a fresh native buffer of `nbytes` bytes on the device through a fresh handle with one owner and no free call; a failing `nbytes()` throws its message before any allocation; a failing allocation throws its message; either message is freed |
| `Buffers.Buffer.MmapCurrent` | plaidml/core/core.h:285-287 | a fresh View held by one owner, mapping the buffer in current mode; its span holds the buffer's bytes |
| `Buffers.Buffer.MmapDiscard` | plaidml/core/core.h:293-295 | a fresh View held by one owner, mapping the buffer in discard mode; the buffer itself is not changed |
| `Buffers.Buffer.CopyInto` | plaidml/core/core.h:297-300 | the first nbytes bytes of `dst` become the buffer's bytes and no later byte changes; `plaidml_view_free` has been called exactly once, on the fresh current-mode view this call mapped |
| `Buffers.Buffer.CopyFrom` | plaidml/core/core.h:302-306 | the buffer then holds exactly the first nbytes bytes of `src`; `plaidml_view_free` has been called exactly once, on the fresh discard-mode view this call mapped |
| `Buffers.CopyRoundTrip` | plaidml/core/core.h:297-306 | `copy_from(src)` followed by `copy_into(dst)` leaves in `dst` the first nbytes bytes of `src` |

## Left out

- The native functions are not part of this model: `plaidml_shape_*`, `plaidml_buffer_*`, `plaidml_view_*`, `plaidml_string_*` and the `*_free` functions. Each enters as a parameter (its return value and status), or as a small class with the contract the wrapper relies on (`Buffers.NativeBuffer`, `Buffers.NativeView`), or as a function standing for the native side handing over a new string (`Ffi.NewString`, used for the repr of a shape).
- `TensorShape::nbytes()` is computed by the native side. `Buffers.Buffer.Allocate` takes the value it returned as the `nbytes` parameter and the status it reported as `sizeErr`; a failing query throws before `plaidml_buffer_alloc` is called. There is no separate `Shapes` member for `nbytes()`.
- Native failures of `mmap_current`, `mmap_discard`, `view_data`, `view_size` and `view_writeback` are not modelled. The abstract native model lets them succeed on a backed buffer. How `ffi::call` translates any such failure is what `Ffi.Call` states.
- Buffers.Buffer.MmapCurrent: requires a backed buffer. What the native side does for a default-constructed Buffer, whose pointer is null, is its own business, so no specific failure is stated.
- Buffers.Buffer.MmapDiscard: requires a backed buffer, for the same reason.
- Ownership.Handle.Drop: the deleter calls the native free through `ffi::call_void`. A failing release would throw from a destructor, which is C++ runtime behaviour. So the release status is not modelled: the deleter only logs the free call.
- Buffers.Buffer.Wrap: wrapping transfers ownership of the native pointer. The free log is kept per handle, so wrapping one native buffer twice, which frees it twice in the source, is not detected; the caller must wrap a pointer only once.
- Shape descriptors are not released in `Shapes.Native`. A TensorShape shares its descriptor through a `shared_ptr`, and that ownership is what `Ownership.Handle` models for every kind.
- Shapes.RowMajorStrides: sizes and strides are unbounded integers. The `size_t` running product wraps modulo 2^64 and is stored into an `int64_t` stride, and neither is modelled. The model is exact while every stored stride fits in `int64_t` (each product of the sizes to its right has magnitude below 2^63). The last running product, after `stride *= sizes[0]`, is never stored, so its overflow does not matter.
- Shapes.Equals: takes the left operand's `str()` first. C++ leaves the order of the two calls unspecified, so when both fail the source may throw the right operand's message instead.
- The numeric values of the DType enumerators come from `ffi.h`, which is not part of this model.
- `init()`, `Settings::get` and `Settings::set` are one-line passthroughs to the native API, so they are not modelled.
- `TensorShape(const std::shared_ptr<plaidml_shape>&)` (plaidml/core/core.h:180) only shares an existing descriptor and makes no native call. It is the datatype constructor `Shapes.TensorShape(ptr)`, so it has no member or contract of its own.
- `as_ptr()` only returns the wrapped pointer, so it is not modelled separately.
- Thread safety, the atomic reference count of `shared_ptr`, and device memory coherence between concurrent mappings are not modelled. They are concurrency and hardware concerns.
