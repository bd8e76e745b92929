/** The two single-value overloads of TVMCompiler::convertToRelay: a tensor-typed
    value becomes a Relay variable, a compile-time constant becomes a Relay
    constant. */
module ValueConversion {
  import opened Jit
  import opened Relay
  import opened Errors
  import opened TypeMapping

  const Int32Min: int := -0x8000_0000
  const Int32Max: int := 0x7FFF_FFFF
  const TwoTo32: int := 0x1_0000_0000

  /** std::numeric_limits<float>::max(); lowest() is its negation. */
  const FloatMax: real := 340282346638528859811704183484516925440.0

  /** The 64-bit unsigned value that stands for None (getNoneSentinel). Its actual
      value is defined in operators.h, which is not part of this model: any fixed
      64-bit unsigned value plays the same role here. */
  const NoneSentinel: int := 0xFFFF_FFFF_FFFF_FFFF

  predicate InInt32Range(x: int)
  {
    Int32Min <= x <= Int32Max
  }

  predicate InFloatRange(d: real)
  {
    -FloatMax <= d <= FloatMax
  }

  /** static_cast<int32_t> of a 64-bit integer: two's-complement wrap-around. */
  function Int32Wrap(x: int): (r: int)
    ensures InInt32Range(r)
    ensures (x - r) % TwoTo32 == 0
    ensures InInt32Range(x) ==> r == x
  {
    (x - Int32Min) % TwoTo32 + Int32Min
  }

  // ---------------------------------------------------------------------------
  // Constants (compiler.cpp, the IValue overload)

  /** Narrows every element of an int list to an int32 constant, failing on the
      first element outside the int32 range. */
  function NarrowIntList(xs: seq<int>): (r: Result<seq<Expr>>)
    ensures r.Ok? <==> forall k :: 0 <= k < |xs| ==> InInt32Range(xs[k])
    ensures r.Ok? ==> |r.value| == |xs| && forall k :: 0 <= k < |xs| ==> r.value[k] == ConstInt32(xs[k])
    ensures r.Err? ==> exists k :: 0 <= k < |xs| && !InInt32Range(xs[k]) && r.error == IntOutOfRange(xs[k])
                                  && forall j :: 0 <= j < k ==> InInt32Range(xs[j])
  {
    if xs == [] then Ok([])
    else if !InInt32Range(xs[0]) then Err(IntOutOfRange(xs[0]))
    else
      match NarrowIntList(xs[1..])
      case Ok(rest) => Ok([ConstInt32(xs[0])] + rest)
      case Err(e) => Err(e)
  }

  /** Converts a constant by its kind: doubles within float range to float32, ints
      within int32 range to int32, booleans directly, None to the uint64 sentinel,
      int lists to a tuple of int32 constants; every other kind is an error. */
  function ConvertConstant(iv: IValue): (r: Result<Expr>)
    ensures iv.IDouble? ==>
      && (r.Ok? <==> InFloatRange(iv.d))
      && (r.Ok? ==> r.value == ConstFloat32(iv.d))
      && (r.Err? ==> r.error == DoubleOutOfRange(iv.d))
    ensures iv.IInt? ==>
      && (r.Ok? <==> InInt32Range(iv.i))
      && (r.Ok? ==> r.value == ConstInt32(iv.i))
      && (r.Err? ==> r.error == IntOutOfRange(iv.i))
    ensures iv.IBool? ==> r == Ok(ConstBool(iv.b))
    ensures iv.INone? ==> r == Ok(ConstU64(NoneSentinel))
    ensures iv.IIntList? ==>
      && (r.Ok? <==> forall k :: 0 <= k < |iv.elems| ==> InInt32Range(iv.elems[k]))
      && (r.Ok? ==> r.value.Tuple? && |r.value.fields| == |iv.elems|
                    && forall k :: 0 <= k < |iv.elems| ==> r.value.fields[k] == ConstInt32(iv.elems[k]))
      && (r.Err? ==> r.error.IntOutOfRange? && r.error.i in iv.elems && !InInt32Range(r.error.i))
    ensures (iv.ITensor? || iv.IOther?) ==> r == Err(UnsupportedConstant)
    ensures r.Ok? ==> FreeVars(r.value) == {}
  {
    match iv
    case IDouble(d) =>
      if d <= FloatMax && d >= -FloatMax then Ok(ConstFloat32(d)) else Err(DoubleOutOfRange(d))
    case IInt(l) =>
      if l <= Int32Max && l >= Int32Min then Ok(ConstInt32(l)) else Err(IntOutOfRange(l))
    case IBool(b) => Ok(ConstBool(b))
    case INone => Ok(ConstU64(NoneSentinel))
    case IIntList(xs) =>
      (match NarrowIntList(xs)
       case Ok(elems) => Ok(Tuple(elems))
       case Err(e) => Err(e))
    case _ => Err(UnsupportedConstant)
  }

  /** How a consumer that knows the sentinel convention reads a scalar or tuple
      constant back into an interpreter value. Float constants are not read back,
      since their rounding is not modelled. */
  function DecodeConstant(e: Expr): Option<IValue>
  {
    match e
    case ConstInt32(i) => Some(IInt(i))
    case ConstBool(b) => Some(IBool(b))
    case ConstU64(u) => if u == NoneSentinel then Some(INone) else None
    case Tuple(fs) =>
      (match DecodeInts(fs)
       case Some(xs) => Some(IIntList(xs))
       case None => None)
    case _ => None
  }

  function DecodeInts(fs: seq<Expr>): Option<seq<int>>
  {
    if fs == [] then Some([])
    else if !fs[0].ConstInt32? then None
    else
      match DecodeInts(fs[1..])
      case Some(rest) => Some([fs[0].i] + rest)
      case None => None
  }

  lemma {:induction false} DecodeIntsOfNarrowed(xs: seq<int>)
    requires NarrowIntList(xs).Ok?
    ensures DecodeInts(NarrowIntList(xs).value) == Some(xs)
  {
    if xs != [] {
      var rest := NarrowIntList(xs[1..]).value;
      DecodeIntsOfNarrowed(xs[1..]);
      var fs := NarrowIntList(xs).value;
      assert fs == [ConstInt32(xs[0])] + rest;
      assert fs[1..] == rest;
      assert [xs[0]] + xs[1..] == xs;
    }
  }

  /** Every constant that converts, other than a double, reads back as itself; in
      particular None reads back as None through the sentinel. */
  lemma ConstantRoundTrip(iv: IValue)
    requires ConvertConstant(iv).Ok? && !iv.IDouble?
    ensures DecodeConstant(ConvertConstant(iv).value) == Some(iv)
  {
    if iv.IIntList? {
      DecodeIntsOfNarrowed(iv.elems);
    }
  }

  /** The sentinel tells None apart from every other converted constant. */
  lemma SentinelOnlyForNone(iv: IValue)
    requires ConvertConstant(iv).Ok?
    ensures ConvertConstant(iv).value == ConstU64(NoneSentinel) <==> iv.INone?
  {
  }

  // ---------------------------------------------------------------------------
  // Placeholders (compiler.cpp, the Value* overload)

  /** The type of v after inferTypeFrom: a value toIValue knows as a tensor takes
      that tensor's type; one toIValue knows as anything else fails in toTensor;
      any other value keeps its recorded type. */
  function PlaceholderType(g: Graph, v: ValueId): (r: Result<ValueType>)
    ensures r.Err? <==> v in g.constants && !g.constants[v].ITensor?
    ensures r.Err? ==> r.error == NotATensor
    ensures r.Ok? && v in g.constants ==>
      r.value.CompleteTensorType? && r.value.sizes == g.constants[v].tensor.sizes
      && r.value.scalarType == g.constants[v].tensor.scalarType
    ensures v !in g.constants ==> r == Ok(TypeOf(g, v))
  {
    if v in g.constants then
      (match g.constants[v]
       case ITensor(t) => Ok(TensorTypeOf(t))
       case _ => Err(NotATensor))
    else Ok(TypeOf(g, v))
  }

  /** The Relay shape of a tensor: its sizes, each cast to int32. */
  function Shape(sizes: seq<nat>): (shape: seq<int>)
    ensures |shape| == |sizes|
    ensures forall k :: 0 <= k < |sizes| ==> shape[k] == Int32Wrap(sizes[k])
  {
    if sizes == [] then [] else [Int32Wrap(sizes[0])] + Shape(sizes[1..])
  }

  /** A value of complete tensor type becomes a variable named after it, with the
      sizes as its shape and the mapped element type as its dtype. */
  function ConvertPlaceholder(g: Graph, v: ValueId): (r: Result<Expr>)
    ensures PlaceholderType(g, v).Err? ==> r == Err(NotATensor)
    ensures PlaceholderType(g, v).Ok? && !PlaceholderType(g, v).value.CompleteTensorType? ==>
              r == Err(IncompleteType(v))
    ensures PlaceholderType(g, v).Ok? && PlaceholderType(g, v).value.CompleteTensorType? ==>
              var ty := PlaceholderType(g, v).value;
              (r.Ok? <==> ty.scalarType in SupportedTypes)
              && (r.Ok? ==> r.value == Var(v, Shape(ty.sizes), ScalarTypeToTVMType(ty.scalarType).value))
              && (r.Err? ==> r.error == UnsupportedType(ty.scalarType))
    ensures r.Ok? ==> r.value.Var? && r.value.id == v && FreeVars(r.value) == {r.value}
  {
    match PlaceholderType(g, v)
    case Err(e) => Err(e)
    case Ok(ty) =>
      if ty.CompleteTensorType? then
        match ScalarTypeToTVMType(ty.scalarType)
        case Ok(dt) => Ok(Var(v, Shape(ty.sizes), dt))
        case Err(e) => Err(e)
      else Err(IncompleteType(v))
  }

  /** Sizes below 2^31 survive the int32 cast: the shape is the size list itself. */
  lemma ShapeExact(sizes: seq<nat>)
    requires forall k :: 0 <= k < |sizes| ==> sizes[k] <= Int32Max
    ensures Shape(sizes) == sizes
  {
  }
}
