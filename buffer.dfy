/**
 * Buffer and View of plaidml/core/core.h, over an abstract model of the
 * native side: a device buffer is a sequence of bytes, a mapping is a
 * fresh span of memory, and writeback commits the span to the buffer.
 */
module Buffers {
  import opened Ffi
  import opened Ownership
  import Shapes

  type Byte = bv8

  /** The two ways of mapping a buffer: its current contents, or memory about to be overwritten. */
  datatype MapMode = Current | Discard

  /** Native device buffer (plaidml_buffer): `nbytes` bytes of device memory. */
  class NativeBuffer {
    const device: string
    const nbytes: nat
    var memory: seq<Byte>

    ghost predicate Valid()
      reads this
    {
      |memory| == nbytes
    }

    /** plaidml_buffer_alloc: `nbytes` bytes whose initial contents are unspecified. */
    constructor (device: string, nbytes: nat)
      ensures Valid() && this.device == device && this.nbytes == nbytes
    {
      this.device := device;
      this.nbytes := nbytes;
      memory := seq(nbytes, _ => 0);
    }

    /** plaidml_buffer_mmap_current: a span holding the buffer's current bytes. */
    method MapCurrent() returns (v: NativeView)
      requires Valid()
      ensures fresh(v) && fresh(v.span)
      ensures v.buffer == this && v.mode == Current
      ensures v.span[..] == memory
    {
      var m := memory;
      var span := new Byte[|m|](i requires 0 <= i < |m| => m[i]);
      v := new NativeView(this, Current, span);
    }

    /** plaidml_buffer_mmap_discard: a span of the buffer's size with no promise about its contents. */
    method MapDiscard() returns (v: NativeView)
      requires Valid()
      ensures fresh(v) && fresh(v.span)
      ensures v.buffer == this && v.mode == Discard
      ensures v.span.Length == nbytes
    {
      var span := new Byte[nbytes];
      v := new NativeView(this, Discard, span);
    }
  }

  /** Native mapped view (plaidml_view): the span mapping one buffer. */
  class NativeView {
    const buffer: NativeBuffer
    const mode: MapMode
    const span: array<Byte>

    constructor (buffer: NativeBuffer, mode: MapMode, span: array<Byte>)
      ensures this.buffer == buffer && this.mode == mode && this.span == span
    {
      this.buffer := buffer;
      this.mode := mode;
      this.span := span;
    }

    /** plaidml_view_writeback: the span's bytes become the buffer's bytes. */
    method Writeback()
      requires buffer.Valid() && span.Length == buffer.nbytes
      modifies buffer
      ensures buffer.Valid()
      ensures buffer.memory == span[..]
    {
      buffer.memory := span[..];
    }
  }

  /** memcpy of `n` bytes between two distinct blocks: the first `n` bytes of `dst` become those of `src`. */
  method MemCopy(dst: array<Byte>, src: array<Byte>, n: nat)
    requires n <= dst.Length && n <= src.Length && dst != src
    modifies dst
    ensures dst[..n] == src[..n]
    ensures dst[n..] == old(dst[n..])
  {
    forall i | 0 <= i < n {
      dst[i] := src[i];
    }
  }

  /** The View wrapper: a shared handle to one native view. */
  class View {
    const native: NativeView
    const handle: Handle

    /** A live mapping: the handle owns this native view and the span covers the whole buffer. */
    ghost predicate Valid()
      reads this, handle, native.buffer
    {
      && handle.Valid() && handle.kind == ViewKind && handle.target == native && handle.owners > 0
      && native.buffer.Valid() && native.span.Length == native.buffer.nbytes
    }

    /** View(ptr): wraps a view handle. */
    constructor (native: NativeView, handle: Handle)
      ensures this.native == native && this.handle == handle
    {
      this.native := native;
      this.handle := handle;
    }

    /** View::data(): the base of the mapped span. */
    method Data() returns (p: array<Byte>)
      requires Valid()
      ensures p == native.span
    {
      p := native.span;
    }

    /** View::size(): the byte length of the span, which is the buffer's size. */
    method Size() returns (n: nat)
      requires Valid()
      ensures n == native.buffer.nbytes
    {
      n := native.span.Length;
    }

    /** View::writeback(): commits the span's current bytes to the buffer. */
    method Writeback()
      requires Valid()
      modifies native.buffer
      ensures Valid()
      ensures native.buffer.memory == native.span[..]
    {
      native.Writeback();
    }

    /** Copying the View: the copy shares the same mapping and the same handle. */
    method Share() returns (w: View)
      requires Valid()
      modifies handle
      ensures Valid() && fresh(w)
      ensures w.native == native && w.handle == handle
      ensures handle.owners == old(handle.owners) + 1
    {
      handle.Copy();
      w := new View(native, handle);
    }

    /** Destroying the View: the mapping ends when its last copy goes. */
    method Release() returns (unmapped: bool)
      requires Valid()
      modifies handle
      ensures handle.Valid()
      ensures handle.owners == old(handle.owners) - 1
      ensures unmapped <==> handle.owners == 0
      ensures handle.frees == old(handle.frees) + (if unmapped then [FreeCall("plaidml_view_free", native)] else [])
    {
      unmapped := handle.Drop();
    }
  }

  /** The Buffer wrapper: an optional shared native buffer handle and the shape it was made for. */
  class Buffer {
    const native: NativeBuffer?
    const handle: Handle?
    const shape: Shapes.TensorShape

    /** Backed by a live native buffer whose handle the wrapper owns. */
    ghost predicate Backed()
      reads this, native, handle
    {
      && native != null && handle != null
      && native.Valid()
      && handle.Valid() && handle.kind == BufferKind && handle.target == native && handle.owners > 0
    }

    /**
     * Buffer(): no backing. The member shape_ is default-constructed, which
     * is a TensorShape() (Shapes.NewDefaultShape); that shape is `shape`.
     */
    constructor Empty(shape: Shapes.TensorShape)
      ensures native == null && handle == null && this.shape == shape
    {
      native := null;
      handle := null;
      this.shape := shape;
    }

    /** Buffer(ptr, shape): takes ownership of an existing native buffer. */
    constructor Wrap(ptr: NativeBuffer, shape: Shapes.TensorShape)
      requires ptr.Valid()
      ensures Backed() && fresh(handle)
      ensures native == ptr && this.shape == shape && handle.owners == 1 && handle.frees == []
    {
      native := ptr;
      handle := new Handle(BufferKind, ptr);
      this.shape := shape;
    }

    /**
     * Buffer(device, shape): ffi::call of plaidml_buffer_alloc for
     * shape.nbytes(), which is itself an ffi::call and is evaluated first.
     * `nbytes` and `sizeErr` are what plaidml_shape_get_nbytes returned and
     * reported; `err` is the status the native allocation reported (an
     * unknown device, an allocation failure). It is only reached when the
     * size query succeeded, which leaves the strings as they were.
     */
    static method Allocate(device: string, shape: Shapes.TensorShape, nbytes: nat, sizeErr: NativeError,
                           err: NativeError, strings: StringHeap)
      returns (r: Result<Buffer>, strings': StringHeap)
      requires Reported(sizeErr, strings) && (sizeErr.code == 0 ==> Reported(err, strings))
      ensures r.Success? <==> sizeErr.code == 0 && err.code == 0
      ensures r.Success? ==> strings' == strings
      ensures r.Success? ==> fresh(r.value) && fresh(r.value.native) && fresh(r.value.handle)
      ensures r.Success? ==> r.value.Backed() && r.value.shape == shape
      ensures r.Success? ==> r.value.native.nbytes == nbytes && r.value.native.device == device
      ensures r.Success? ==> r.value.handle.owners == 1 && r.value.handle.frees == []
      ensures sizeErr.code != 0 ==>
        r.error.what == strings.live[sizeErr.msg.value] && Released(strings, sizeErr.msg.value, strings')
      ensures sizeErr.code == 0 && err.code != 0 ==>
        r.error.what == strings.live[err.msg.value] && Released(strings, err.msg.value, strings')
    {
      var size := Call(nbytes, sizeErr, strings);
      if size.0.Failure? {
        r, strings' := Failure(size.0.error), size.1;
        return;
      }
      var ptr: NativeBuffer? := null;
      if err.code == 0 {
        ptr := new NativeBuffer(device, size.0.value);
      }
      var res := Call(ptr, err, size.1);
      strings' := res.1;
      if res.0.Failure? {
        r := Failure(res.0.error);
      } else {
        var b := new Buffer.Wrap(res.0.value, shape);
        r := Success(b);
      }
    }

    /** Buffer::mmap_current(): a new mapping of the buffer's current bytes, held by one View. */
    method MmapCurrent() returns (v: View)
      requires Backed()
      ensures fresh(v) && fresh(v.native) && fresh(v.native.span) && fresh(v.handle)
      ensures v.Valid() && v.native.buffer == native && v.native.mode == Current
      ensures v.handle.owners == 1
      ensures v.native.span[..] == native.memory
    {
      var nv := native.MapCurrent();
      var h := new Handle(ViewKind, nv);
      v := new View(nv, h);
    }

    /** Buffer::mmap_discard(): a new mapping, to be overwritten, held by one View. */
    method MmapDiscard() returns (v: View)
      requires Backed()
      ensures fresh(v) && fresh(v.native) && fresh(v.native.span) && fresh(v.handle)
      ensures v.Valid() && v.native.buffer == native && v.native.mode == Discard
      ensures v.handle.owners == 1
      ensures native.memory == old(native.memory)
    {
      var nv := native.MapDiscard();
      var h := new Handle(ViewKind, nv);
      v := new View(nv, h);
    }

    /**
     * Buffer::copy_into(dst): maps the current bytes and copies view.size(),
     * that is nbytes, of them into `dst`; nothing past them is written and
     * the buffer is unchanged. The View is destroyed on return, which
     * releases its mapping exactly once.
     */
    method CopyInto(dst: array<Byte>) returns (ghost view: View)
      requires Backed() && native.nbytes <= dst.Length
      modifies dst
      ensures dst[..native.nbytes] == native.memory
      ensures dst[native.nbytes..] == old(dst[native.nbytes..])
      ensures fresh(view) && fresh(view.native) && fresh(view.handle)
      ensures view.native.buffer == native && view.native.mode == Current
      ensures view.handle.owners == 0 && view.handle.frees == [FreeCall("plaidml_view_free", view.native)]
    {
      var v := MmapCurrent();
      var p := v.Data();
      var n := v.Size();
      MemCopy(dst, p, n);
      var _ := v.Release();
      view := v;
    }

    /**
     * Buffer::copy_from(src): maps in discard mode, copies view.size(), that
     * is nbytes, bytes of `src` in and writes them back, so the buffer then
     * holds exactly those bytes. The View is destroyed on return, releasing
     * its mapping exactly once.
     */
    method CopyFrom(src: array<Byte>) returns (ghost view: View)
      requires Backed() && native.nbytes <= src.Length
      modifies native
      ensures Backed()
      ensures native.memory == src[..native.nbytes]
      ensures fresh(view) && fresh(view.native) && fresh(view.handle)
      ensures view.native.buffer == native && view.native.mode == Discard
      ensures view.handle.owners == 0 && view.handle.frees == [FreeCall("plaidml_view_free", view.native)]
    {
      var v := MmapDiscard();
      var p := v.Data();
      var n := v.Size();
      MemCopy(p, src, n);
      v.Writeback();
      var _ := v.Release();
      view := v;
    }
  }

  /** The round trip: copy_from(src) then copy_into(dst) leaves in `dst` the bytes of `src`. */
  method CopyRoundTrip(b: Buffer, src: array<Byte>, dst: array<Byte>)
    requires b.Backed() && b.native.nbytes <= src.Length && b.native.nbytes <= dst.Length
    modifies b.native, dst
    ensures b.Backed()
    ensures dst[..b.native.nbytes] == old(src[..b.native.nbytes])
    ensures b.native.memory == old(src[..b.native.nbytes])
  {
    ghost var written := b.CopyFrom(src);
    ghost var read := b.CopyInto(dst);
  }
}
