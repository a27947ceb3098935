/**
 * The error-translation adapter of plaidml/core/core.h (namespace ffi).
 *
 * Every native call fills a status slot (plaidml_error: a code and, on
 * failure, an owned native string holding the message). The adapter turns a
 * non-zero code into a RuntimeError carrying that message and releases the
 * message string; a zero code lets the call's result through unchanged.
 *
 * Native strings are modelled as a value: the live strings, a multiset that
 * counts how often each handle has been freed, and the next fresh handle.
 */
module Ffi {

  datatype Option<T> = None | Some(value: T)

  /** A native string handle (plaidml_string*). */
  type StrPtr = nat

  /** The native string table as the wrapper sees it. */
  datatype StringHeap = StringHeap(live: map<StrPtr, string>, frees: multiset<StrPtr>, next: StrPtr)

  /**
   * Well-formedness of the native string table: every handle handed out is
   * below `next`, a live string has never been freed, and a string that has
   * been freed was freed exactly once (no double free).
   */
  ghost predicate Valid(h: StringHeap) {
    && (forall p :: p in h.live ==> p < h.next && h.frees[p] == 0)
    && (forall p :: p in h.frees ==> p < h.next && h.frees[p] == 1)
  }

  /** `h'` is `h` after one call of plaidml_string_free on `p`. */
  ghost predicate Released(h: StringHeap, p: StrPtr, h': StringHeap) {
    && h'.live.Keys == h.live.Keys - {p}
    && (forall q :: q in h'.live ==> h'.live[q] == h.live[q])
    && h'.frees == h.frees + multiset{p}
    && h'.next == h.next
  }

  /** The status slot every native call fills in (plaidml_error). */
  datatype NativeError = NativeError(code: int, msg: Option<StrPtr>)

  /** What the boundary promises of a status slot it filled: a failure carries a live message. */
  predicate Reported(err: NativeError, h: StringHeap) {
    err.code != 0 ==> err.msg.Some? && err.msg.value in h.live
  }

  /** std::runtime_error and its message. */
  datatype RuntimeError = RuntimeError(what: string)

  /** The outcome of a value-returning wrapper call: its value, or the error it throws. */
  datatype Result<T> = Success(value: T) | Failure(error: RuntimeError)

  /** The outcome of a void wrapper call. */
  datatype Outcome = Pass | Fail(error: RuntimeError)

  /**
   * The native side handing a new string to the wrapper (an error message, a
   * shape's repr): a handle that is not live and has never been freed.
   */
  function NewString(h: StringHeap, s: string): (r: (StrPtr, StringHeap))
    requires Valid(h)
    ensures r.0 !in h.live && r.0 !in h.frees
    ensures r.1.live == h.live[r.0 := s] && r.1.frees == h.frees
    ensures Valid(r.1)
  {
    (h.next, StringHeap(h.live[h.next := s], h.frees, h.next + 1))
  }

  /**
   * ffi::str: copies the contents of a native string and then frees it.
   * The copy is the string's contents before the free; afterwards the handle
   * is no longer live, has been freed once more, and no other string changed.
   */
  function Str(h: StringHeap, p: StrPtr): (r: (string, StringHeap))
    requires p in h.live
    ensures r.0 == h.live[p]
    ensures Released(h, p, r.1)
    ensures Valid(h) ==> Valid(r.1) && r.1.frees[p] == 1
  {
    (h.live[p], StringHeap(h.live - {p}, h.frees + multiset{p}, h.next))
  }

  /**
   * ffi::call: `ret` is what the native function returned and `err` the
   * status slot it filled. A zero code passes `ret` through and touches no
   * string; a non-zero code throws the message and frees it exactly once.
   */
  function Call<T>(ret: T, err: NativeError, h: StringHeap): (r: (Result<T>, StringHeap))
    requires Reported(err, h)
    ensures r.0.Success? <==> err.code == 0
    ensures err.code == 0 ==> r.0.value == ret && r.1 == h
    ensures err.code != 0 ==> r.0.error.what == h.live[err.msg.value] && Released(h, err.msg.value, r.1)
  {
    if err.code != 0 then
      var (what, h') := Str(h, err.msg.value);
      (Failure(RuntimeError(what)), h')
    else
      (Success(ret), h)
  }

  /** ffi::call_void: ffi::call for a native function without a result. */
  function CallVoid(err: NativeError, h: StringHeap): (r: (Outcome, StringHeap))
    requires Reported(err, h)
    ensures r.0.Pass? <==> err.code == 0
    ensures err.code == 0 ==> r.1 == h
    ensures err.code != 0 ==> r.0.error.what == h.live[err.msg.value] && Released(h, err.msg.value, r.1)
  {
    if err.code != 0 then
      var (what, h') := Str(h, err.msg.value);
      (Fail(RuntimeError(what)), h')
    else
      (Pass, h)
  }

  /** call_void behaves as call does, minus the result: same verdict, message and strings. */
  lemma CallVoidMatchesCall<T>(ret: T, err: NativeError, h: StringHeap)
    requires Reported(err, h)
    ensures CallVoid(err, h).1 == Call(ret, err, h).1
    ensures CallVoid(err, h).0.Pass? <==> Call(ret, err, h).0.Success?
    ensures CallVoid(err, h).0.Fail? ==> CallVoid(err, h).0.error == Call(ret, err, h).0.error
  {
  }

  /**
   * Over a well-formed string table, the adapter keeps the table well formed
   * (never a double free), frees a failure's message exactly once and leaks
   * nothing: the message is no longer live afterwards.
   */
  lemma {:induction false} CallReleasesMessageOnce<T>(ret: T, err: NativeError, h: StringHeap)
    requires Valid(h) && Reported(err, h)
    ensures Valid(Call(ret, err, h).1)
    ensures err.code != 0 ==> err.msg.value !in Call(ret, err, h).1.live
    ensures err.code != 0 ==> Call(ret, err, h).1.frees[err.msg.value] == h.frees[err.msg.value] + 1 == 1
  {
    if err.code != 0 {
      var p := err.msg.value;
      var h' := Call(ret, err, h).1;
      assert h' == Str(h, p).1;
    }
  }
}
