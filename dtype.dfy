/**
 * The element types of plaidml/core/core.h (enum class DType) and their
 * names (to_string). The numeric values of the enumerators are the native
 * side's and are not modelled.
 */
module DTypes {

  datatype DType =
    | Invalid | Boolean
    | Int8 | UInt8 | Int16 | UInt16 | Int32 | UInt32 | Int64 | UInt64
    | BFloat16 | Float16 | Float32 | Float64

  /**
   * to_string. Total: every dtype without a case of its own, which is Invalid
   * and also UInt64, is named "<invalid>"; Int64 is named "uint64".
   */
  function ToString(d: DType): (s: string)
    ensures s == "<invalid>" <==> d == Invalid || d == UInt64
    ensures s == "uint64" <==> d == Int64
    ensures s != "int64"
  {
    match d
    case Boolean => "bool"
    case Int8 => "int8"
    case UInt8 => "uint8"
    case Int16 => "int16"
    case UInt16 => "uint16"
    case Int32 => "int32"
    case UInt32 => "uint32"
    case Int64 => "uint64"
    case BFloat16 => "bfloat16"
    case Float16 => "float16"
    case Float32 => "float32"
    case Float64 => "float64"
    case _ => "<invalid>"
  }

  /** Two dtypes share a name only when they are Invalid and UInt64. */
  lemma ToStringCollisions(a: DType, b: DType)
    requires a != b && ToString(a) == ToString(b)
    ensures (a == Invalid && b == UInt64) || (a == UInt64 && b == Invalid)
  {
  }
}
