/** scalarTypeToTVMType: the closed table from ATen element types to TVM data types. */
module TypeMapping {
  import opened Jit
  import opened Relay
  import opened Errors

  /** The ten ATen types the table knows. */
  const SupportedTypes: set<ScalarType> :=
    {Float, Double, Int, Long, Bool, Char, Byte, QInt8, QUInt8, QInt32}

  /** Looks t up in the table; any type outside it is an error naming t. */
  function ScalarTypeToTVMType(t: ScalarType): (r: Result<DataType>)
    ensures r.Ok? <==> t in SupportedTypes
    ensures r.Err? ==> r.error == UnsupportedType(t)
  {
    match t
    case Float => Ok(FloatType(32))
    case Double => Ok(FloatType(64))
    case Int => Ok(IntType(32))
    case Long => Ok(IntType(64))
    case Bool => Ok(BoolType())
    case Char => Ok(IntType(8))
    case Byte => Ok(UIntType(8))
    case QInt8 => Ok(IntType(8))
    case QUInt8 => Ok(UIntType(8))
    case QInt32 => Ok(IntType(32))
    case _ => Err(UnsupportedType(t))
  }

  // ATen's own description of its element types, independent of the table.

  /** Bytes per element (c10::elementSize); Undefined has none. */
  function ElementSize(t: ScalarType): nat
  {
    match t
    case Byte => 1 case Char => 1 case Short => 2 case Int => 4 case Long => 8
    case Half => 2 case Float => 4 case Double => 8
    case ComplexHalf => 4 case ComplexFloat => 8 case ComplexDouble => 16
    case Bool => 1 case QInt8 => 1 case QUInt8 => 1 case QInt32 => 4
    case BFloat16 => 2 case Undefined => 0
  }

  predicate IsFloatingType(t: ScalarType)
  {
    t in {Half, Float, Double, BFloat16}
  }

  predicate IsComplexType(t: ScalarType)
  {
    t in {ComplexHalf, ComplexFloat, ComplexDouble}
  }

  /** Signed integral or signed quantized types. */
  predicate IsSignedIntegral(t: ScalarType)
  {
    t in {Char, Short, Int, Long, QInt8, QInt32}
  }

  predicate IsQuantized(t: ScalarType)
  {
    t in {QInt8, QUInt8, QInt32}
  }

  /** The plain integer type a quantized type stores its values in (c10::toUnderlying). */
  function ToUnderlying(t: ScalarType): ScalarType
  {
    match t
    case QInt8 => Char
    case QUInt8 => Byte
    case QInt32 => Int
    case _ => t
  }

  /** Every type the table accepts keeps its width and its kind: floating types
      become floats, signed integers ints and unsigned integers uints of the same
      number of bits, except Bool, which becomes TVM's one-bit boolean. */
  lemma MappingPreservesWidthAndKind(t: ScalarType)
    requires t in SupportedTypes
    ensures t == Bool ==> ScalarTypeToTVMType(t) == Ok(BoolType())
    ensures t != Bool ==>
      && ScalarTypeToTVMType(t).value.bits == 8 * ElementSize(t)
      && (ScalarTypeToTVMType(t).value.code == FloatCode <==> IsFloatingType(t))
      && (ScalarTypeToTVMType(t).value.code == IntCode <==> IsSignedIntegral(t))
  {
  }

  /** A quantized type maps to what its underlying integer type maps to. */
  lemma QuantizedMapsLikeUnderlying(t: ScalarType)
    requires IsQuantized(t)
    ensures ToUnderlying(t) != t && !IsQuantized(ToUnderlying(t))
    ensures ScalarTypeToTVMType(t) == ScalarTypeToTVMType(ToUnderlying(t))
  {
  }

  /** Half precision, bfloat16, complex, 16-bit integer and undefined types are rejected. */
  lemma UnsupportedKinds(t: ScalarType)
    ensures (IsComplexType(t) || t in {Half, BFloat16, Short, Undefined}) <==> ScalarTypeToTVMType(t).Err?
  {
  }

  lemma SupportedTypesAreTen()
    ensures |SupportedTypes| == 10
  {
  }
}
