/**
 * TensorShape of plaidml/core/core.h: a shared reference to one native
 * shape descriptor (dtype, sizes, strides), with the row-major stride
 * default, the rank check, and equality by canonical representation.
 *
 * The native side is a value: the descriptors plaidml_shape_alloc has
 * created (a shape pointer is an index into them) and the native strings.
 */
module Shapes {
  import opened Ffi
  import opened DTypes

  /** What plaidml_shape_alloc receives and the shape queries read back. */
  datatype Descriptor = Descriptor(dtype: DType, sizes: seq<int>, strides: seq<int>)

  /** The native state this layer touches. */
  datatype Native = Native(shapes: seq<Descriptor>, strings: StringHeap)

  /** A TensorShape: the native shape pointer it shares. */
  datatype TensorShape = TensorShape(ptr: nat)

  predicate Refers(n: Native, s: TensorShape) {
    s.ptr < |n.shapes|
  }

  /** The message of the explicit-strides constructor's rank check. */
  const RankMismatch := RuntimeError("Sizes and strides must have the same rank.")

  /** The product of a list of sizes (1 for the empty list). */
  function Product(s: seq<int>): int {
    if s == [] then 1 else s[0] * Product(s[1..])
  }

  /** Dense row-major strides: each stride is the product of the sizes to its right. */
  function RowMajor(sizes: seq<int>): seq<int> {
    seq(|sizes|, i requires 0 <= i < |sizes| => Product(sizes[i + 1..]))
  }

  lemma ProductUnfold(s: seq<int>, i: nat)
    requires i < |s|
    ensures Product(s[i..]) == s[i] * Product(s[i + 1..])
    ensures Product(s[i..]) == Product(s[i + 1..]) * s[i]
  {
    assert s[i..][1..] == s[i + 1..];
  }

  /** One stride per dimension; the last dimension is the fastest (stride 1); no dimensions, no strides. */
  lemma RowMajorShape(sizes: seq<int>)
    ensures |RowMajor(sizes)| == |sizes|
    ensures sizes != [] ==> RowMajor(sizes)[|sizes| - 1] == 1
    ensures sizes == [] ==> RowMajor(sizes) == []
  {
    if sizes != [] {
      assert sizes[|sizes|..] == [];
    }
  }

  /** Each stride is the next stride times the next size. */
  lemma RowMajorRecurrence(sizes: seq<int>, i: nat)
    requires i + 1 < |sizes|
    ensures RowMajor(sizes)[i] == RowMajor(sizes)[i + 1] * sizes[i + 1]
  {
    ProductUnfold(sizes, i + 1);
  }

  /** The layout is dense: the outermost stride times the outermost size covers every element. */
  lemma RowMajorDense(sizes: seq<int>)
    requires sizes != []
    ensures RowMajor(sizes)[0] * sizes[0] == Product(sizes)
  {
    var rest := Product(sizes[1..]);
    ProductUnfold(sizes, 0);
    assert sizes[0..] == sizes;
    assert RowMajor(sizes)[0] == rest;
    assert rest * sizes[0] == sizes[0] * rest;
  }

  /** Sizes [2, 3] are laid out with strides [3, 1]. */
  lemma RowMajorExample()
    ensures RowMajor([2, 3]) == [3, 1]
  {
    var s := [2, 3];
    assert s[1..] == [3] && s[2..] == [];
    assert Product([3]) == 3;
  }

  /**
   * The stride loop of TensorShape(dtype, sizes): walking from the last
   * dimension to the first, each stride is the running product of the sizes
   * already passed.
   */
  method RowMajorStrides(sizes: seq<int>) returns (strides: seq<int>)
    ensures strides == RowMajor(sizes)
  {
    var stride := 1;
    var a := new int[|sizes|];
    var i := |sizes| - 1;
    while i >= 0
      invariant -1 <= i < |sizes|
      invariant stride == Product(sizes[i + 1..])
      invariant forall j :: i < j < |sizes| ==> a[j] == RowMajor(sizes)[j]
    {
      assert RowMajor(sizes)[i] == stride;
      a[i] := stride;
      StrideStep(sizes, i, stride);
      stride := stride * sizes[i];
      i := i - 1;
    }
    strides := a[..];
  }

  /** One step of the stride loop: the running product grows by the size it passes. */
  lemma StrideStep(sizes: seq<int>, i: nat, stride: int)
    requires i < |sizes| && stride == Product(sizes[i + 1..])
    ensures stride * sizes[i] == Product(sizes[i..])
  {
    ProductUnfold(sizes, i);
  }

  /**
   * ffi::call of plaidml_shape_alloc. On success the native side has one
   * more descriptor, `d`, and the new shape points to it; on failure no
   * descriptor is added and the message is thrown and freed.
   */
  function AllocShape(n: Native, d: Descriptor, err: NativeError): (r: (Result<TensorShape>, Native))
    requires Reported(err, n.strings)
    ensures r.0.Success? <==> err.code == 0
    ensures err.code == 0 ==> r.1 == Native(n.shapes + [d], n.strings)
    ensures err.code == 0 ==> Refers(r.1, r.0.value) && r.1.shapes[r.0.value.ptr] == d
    ensures err.code != 0 ==> r.1.shapes == n.shapes
    ensures err.code != 0 ==> r.0.error.what == n.strings.live[err.msg.value]
    ensures err.code != 0 ==> Released(n.strings, err.msg.value, r.1.strings)
  {
    var (res, strings) := Call(|n.shapes|, err, n.strings);
    match res
    case Success(p) => (Success(TensorShape(p)), Native(n.shapes + [d], strings))
    case Failure(e) => (Failure(e), Native(n.shapes, strings))
  }

  /** TensorShape(): an INVALID shape with no dimensions. */
  function NewDefaultShape(n: Native, err: NativeError): (r: (Result<TensorShape>, Native))
    requires Reported(err, n.strings)
    ensures r.0.Success? <==> err.code == 0
    ensures r.0.Success? ==> Refers(r.1, r.0.value)
    ensures r.0.Success? ==> r.1.shapes[r.0.value.ptr] == Descriptor(Invalid, [], [])
  {
    AllocShape(n, Descriptor(Invalid, [], []), err)
  }

  /** TensorShape(dtype, sizes): allocates the descriptor with row-major strides. */
  method NewShape(n: Native, dtype: DType, sizes: seq<int>, err: NativeError)
    returns (r: Result<TensorShape>, n': Native)
    requires Reported(err, n.strings)
    ensures (r, n') == AllocShape(n, Descriptor(dtype, sizes, RowMajor(sizes)), err)
  {
    var strides := RowMajorStrides(sizes);
    var res := AllocShape(n, Descriptor(dtype, sizes, strides), err);
    r, n' := res.0, res.1;
  }

  /**
   * TensorShape(dtype, sizes, strides): a rank mismatch throws before any
   * native call, leaving the native state as it was; otherwise the given
   * strides are allocated as they are.
   */
  function NewShapeWithStrides(n: Native, dtype: DType, sizes: seq<int>, strides: seq<int>, err: NativeError)
    : (r: (Result<TensorShape>, Native))
    requires Reported(err, n.strings)
    ensures |sizes| != |strides| ==> r.0 == Failure(RankMismatch) && r.1 == n
    ensures |sizes| == |strides| ==> r == AllocShape(n, Descriptor(dtype, sizes, strides), err)
  {
    if |sizes| != |strides| then
      (Failure(RankMismatch), n)
    else
      AllocShape(n, Descriptor(dtype, sizes, strides), err)
  }

  /**
   * The rank check is exact: the constructor throws the rank message without
   * touching the native side if and only if the ranks differ.
   */
  lemma {:induction false} RankCheckExact(n: Native, dtype: DType, sizes: seq<int>, strides: seq<int>, err: NativeError)
    requires Reported(err, n.strings)
    ensures var r := NewShapeWithStrides(n, dtype, sizes, strides, err);
      (r.0 == Failure(RankMismatch) && r.1 == n) <==> |sizes| != |strides|
  {
    var r := NewShapeWithStrides(n, dtype, sizes, strides, err);
    if |sizes| == |strides| && err.code != 0 {
      var p := err.msg.value;
      assert r.1.strings.frees[p] == n.strings.frees[p] + 1;
    }
  }

  /** A rank mismatch such as sizes [2, 3] with strides [1] is refused. */
  lemma RankMismatchExample(n: Native, err: NativeError)
    requires Reported(err, n.strings)
    ensures NewShapeWithStrides(n, Float32, [2, 3], [1], err) == (Failure(RankMismatch), n)
  {
  }

  /**
   * TensorShape::dtype(): ffi::call of plaidml_shape_get_dtype. On success
   * it reports the dtype the descriptor was allocated with and changes no
   * native state; on failure it throws the native message and frees it.
   */
  function DTypeOf(n: Native, s: TensorShape, err: NativeError): (r: (Result<DType>, Native))
    requires Refers(n, s) && Reported(err, n.strings)
    ensures r.0.Success? <==> err.code == 0
    ensures err.code == 0 ==> r.0.value == n.shapes[s.ptr].dtype && r.1 == n
    ensures err.code != 0 ==> r.0.error.what == n.strings.live[err.msg.value]
    ensures err.code != 0 ==> r.1.shapes == n.shapes && Released(n.strings, err.msg.value, r.1.strings)
  {
    var (res, strings) := Call(n.shapes[s.ptr].dtype, err, n.strings);
    (res, Native(n.shapes, strings))
  }

  /**
   * TensorShape::ndims(): ffi::call of plaidml_shape_get_ndims. On success
   * it reports the number of sizes the descriptor was allocated with and
   * changes no native state; on failure it throws the native message and frees it.
   */
  function NDims(n: Native, s: TensorShape, err: NativeError): (r: (Result<nat>, Native))
    requires Refers(n, s) && Reported(err, n.strings)
    ensures r.0.Success? <==> err.code == 0
    ensures err.code == 0 ==> r.0.value == |n.shapes[s.ptr].sizes| && r.1 == n
    ensures err.code != 0 ==> r.0.error.what == n.strings.live[err.msg.value]
    ensures err.code != 0 ==> r.1.shapes == n.shapes && Released(n.strings, err.msg.value, r.1.strings)
  {
    var (res, strings) := Call(|n.shapes[s.ptr].sizes|, err, n.strings);
    (res, Native(n.shapes, strings))
  }

  /**
   * A shape built from dtype and sizes reads back that dtype and that number
   * of dimensions (when the queries succeed), and holds the row-major strides.
   */
  lemma NewShapeQueries(n: Native, dtype: DType, sizes: seq<int>, err: NativeError, ok: NativeError)
    requires Reported(err, n.strings) && err.code == 0 && ok.code == 0
    ensures var r := AllocShape(n, Descriptor(dtype, sizes, RowMajor(sizes)), err);
      && Refers(r.1, r.0.value)
      && DTypeOf(r.1, r.0.value, ok).0 == Success(dtype)
      && NDims(r.1, r.0.value, ok).0 == Success(|sizes|)
      && r.1.shapes[r.0.value.ptr].strides == RowMajor(sizes)
  {
  }

  /**
   * TensorShape::str(): ffi::call of plaidml_shape_repr, then ffi::str of the
   * string it returned. `err` is the status the native call reported; on
   * success the native side hands over a new string holding `repr` of the
   * descriptor, which is copied out and freed, so no string is left behind.
   * On failure the native message is thrown and freed.
   */
  function ShapeStr(repr: Descriptor -> string, n: Native, s: TensorShape, err: NativeError)
    : (r: (Result<string>, Native))
    requires Refers(n, s) && Valid(n.strings) && Reported(err, n.strings)
    ensures r.0.Success? <==> err.code == 0
    ensures err.code == 0 ==> r.0.value == repr(n.shapes[s.ptr]) && r.1.strings.live == n.strings.live
    ensures err.code != 0 ==>
      r.0.error.what == n.strings.live[err.msg.value] && Released(n.strings, err.msg.value, r.1.strings)
    ensures r.1.shapes == n.shapes && Valid(r.1.strings)
  {
    var (p, h) := if err.code == 0 then NewString(n.strings, repr(n.shapes[s.ptr])) else (0, n.strings);
    CallReleasesMessageOnce(p, err, h);
    var (res, h1) := Call(p, err, h);
    match res
    case Failure(e) => (Failure(e), Native(n.shapes, h1))
    case Success(q) =>
      var (text, h2) := Str(h1, q);
      assert h2.live == n.strings.live;
      (Success(text), Native(n.shapes, h2))
  }

  /**
   * TensorShape::operator==: equality of the two canonical representations.
   * `ea` and `eb` are the statuses of the two plaidml_shape_repr calls; the
   * left operand's str() is taken first, and the right one's is only reached
   * when the left one succeeded, which leaves the live strings as they were.
   */
  function Equals(repr: Descriptor -> string, n: Native, a: TensorShape, b: TensorShape,
                  ea: NativeError, eb: NativeError): (r: (Result<bool>, Native))
    requires Refers(n, a) && Refers(n, b) && Valid(n.strings)
    requires Reported(ea, n.strings) && (ea.code == 0 ==> Reported(eb, n.strings))
    ensures r.0.Success? <==> ea.code == 0 && eb.code == 0
    ensures r.0.Success? ==> (r.0.value <==> repr(n.shapes[a.ptr]) == repr(n.shapes[b.ptr]))
    ensures r.0.Success? ==> r.1.strings.live == n.strings.live
    ensures ea.code != 0 ==>
      r.0.error.what == n.strings.live[ea.msg.value] && Released(n.strings, ea.msg.value, r.1.strings)
    ensures ea.code == 0 && eb.code != 0 ==>
      r.0.error.what == n.strings.live[eb.msg.value] && r.1.strings.live.Keys == n.strings.live.Keys - {eb.msg.value}
    ensures r.1.shapes == n.shapes && Valid(r.1.strings)
  {
    var (sa, n1) := ShapeStr(repr, n, a, ea);
    match sa
    case Failure(e) => (Failure(e), n1)
    case Success(ta) =>
      var (sb, n2) := ShapeStr(repr, n1, b, eb);
      match sb
      case Failure(e) => (Failure(e), n2)
      case Success(tb) => (Success(ta == tb), n2)
  }

  /** With both repr calls succeeding (status `ok`), every shape equals itself. */
  lemma EqualsReflexive(repr: Descriptor -> string, n: Native, a: TensorShape, ok: NativeError)
    requires Refers(n, a) && Valid(n.strings) && ok.code == 0
    ensures Equals(repr, n, a, a, ok, ok).0 == Success(true)
  {
  }

  lemma EqualsSymmetric(repr: Descriptor -> string, n: Native, a: TensorShape, b: TensorShape, ok: NativeError)
    requires Refers(n, a) && Refers(n, b) && Valid(n.strings) && ok.code == 0
    ensures Equals(repr, n, a, b, ok, ok).0 == Equals(repr, n, b, a, ok, ok).0
  {
  }

  lemma EqualsTransitive(repr: Descriptor -> string, n: Native, a: TensorShape, b: TensorShape, c: TensorShape,
                         ok: NativeError)
    requires Refers(n, a) && Refers(n, b) && Refers(n, c) && Valid(n.strings) && ok.code == 0
    requires Equals(repr, n, a, b, ok, ok).0 == Success(true) && Equals(repr, n, b, c, ok, ok).0 == Success(true)
    ensures Equals(repr, n, a, c, ok, ok).0 == Success(true)
  {
  }

  /**
   * Two shapes constructed one after the other from the same dtype and
   * sizes are distinct native descriptors, yet compare equal.
   */
  lemma IndependentShapesEqual(repr: Descriptor -> string, n: Native, dtype: DType, sizes: seq<int>,
                               err1: NativeError, err2: NativeError, ok: NativeError)
    requires Valid(n.strings) && err1.code == 0 && err2.code == 0 && ok.code == 0
    ensures var d := Descriptor(dtype, sizes, RowMajor(sizes));
      var (a, n1) := AllocShape(n, d, err1);
      var (b, n2) := AllocShape(n1, d, err2);
      && a.value != b.value
      && Equals(repr, n2, a.value, b.value, ok, ok).0 == Success(true)
  {
  }
}
