/**
 * The handle-ownership layer of plaidml/core/core.h (namespace details):
 * a std::shared_ptr around one native pointer whose Deleter calls the
 * kind's native free function once the last owner is gone.
 */
module Ownership {

  /** The three kinds of native handle, each bound to its own free function. */
  datatype Kind = ShapeKind | BufferKind | ViewKind

  /** The native release function make_plaidml_* binds into the Deleter for each kind. */
  function FreeFunction(k: Kind): (name: string)
    ensures name == "plaidml_shape_free" <==> k == ShapeKind
    ensures name == "plaidml_buffer_free" <==> k == BufferKind
    ensures name == "plaidml_view_free" <==> k == ViewKind
  {
    match k
    case ShapeKind => "plaidml_shape_free"
    case BufferKind => "plaidml_buffer_free"
    case ViewKind => "plaidml_view_free"
  }

  /** One call of a native free function: which function, on which native pointer. */
  datatype FreeCall = FreeCall(fn: string, ptr: object)

  /**
   * A shared handle: the native pointer it owns (`target`), the number of
   * shared_ptr copies alive (`owners`) and, for the proof, the calls its
   * Deleter has made to a native free function (`frees`).
   */
  class Handle {
    const kind: Kind
    const target: object
    var owners: nat
    ghost var frees: seq<FreeCall>

    /**
     * While an owner is left nothing has been freed; once none is left the
     * Deleter has called the kind's free function on the target exactly once.
     */
    ghost predicate Valid()
      reads this
    {
      frees == if owners == 0 then [FreeCall(FreeFunction(kind), target)] else []
    }

    /** make_plaidml_shape / make_plaidml_buffer / make_plaidml_view: one owner, nothing freed. */
    constructor (kind: Kind, target: object)
      ensures Valid()
      ensures this.kind == kind && this.target == target
      ensures owners == 1 && frees == []
    {
      this.kind := kind;
      this.target := target;
      owners := 1;
      frees := [];
    }

    /** Copying a live shared_ptr: one more owner, still nothing freed. */
    method Copy()
      requires Valid() && owners > 0
      modifies this
      ensures Valid()
      ensures owners == old(owners) + 1 && frees == []
    {
      owners := owners + 1;
    }

    /**
     * Destroying one owner. Exactly when this was the last owner, the Deleter
     * calls the free function bound for this kind on the native pointer.
     */
    method Drop() returns (released: bool)
      requires Valid() && owners > 0
      modifies this
      ensures Valid()
      ensures owners == old(owners) - 1
      ensures released <==> owners == 0
      ensures frees == old(frees) + (if released then [FreeCall(FreeFunction(kind), target)] else [])
    {
      owners := owners - 1;
      released := owners == 0;
      if released {
        frees := frees + [FreeCall(FreeFunction(kind), target)];
      }
    }
  }
}
