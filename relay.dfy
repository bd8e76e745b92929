/** The TVM Relay side: data types, expressions and functions, with the free
    variables of an expression. */
module Relay {
  import opened Jit

  datatype TypeCode = IntCode | UIntCode | FloatCode

  /** A TVM scalar data type (single lane). */
  datatype DataType = DataType(code: TypeCode, bits: nat)

  function IntType(bits: nat): DataType { DataType(IntCode, bits) }
  function UIntType(bits: nat): DataType { DataType(UIntCode, bits) }
  function FloatType(bits: nat): DataType { DataType(FloatCode, bits) }
  /** TVM's boolean type is the one-bit unsigned integer. */
  function BoolType(): DataType { DataType(UIntCode, 1) }

  /** Relay expressions. A variable is named after the value it stands for;
      Call(n, args) is the expression the operator table builds for node n;
      ConstFloat32(d) stands for the float32 nearest to the double d. */
  datatype Expr =
    | Var(id: ValueId, shape: seq<int>, dtype: DataType)
    | ConstInt32(i: int)
    | ConstBool(b: bool)
    | ConstU64(u: int)
    | ConstFloat32(d: real)
    | Tuple(fields: seq<Expr>)
    | TupleGetItem(tuple: Expr, index: nat)
    | Call(node: NodeId, args: seq<Expr>)

  datatype Function = Function(params: seq<Expr>, body: Expr)

  /** The variables that occur in e (Relay has no binders in this fragment, so
      every occurring variable is free). */
  function FreeVars(e: Expr): (fv: set<Expr>)
    ensures forall x :: x in fv ==> x.Var?
    ensures e.Var? ==> fv == {e}
    ensures e.Tuple? ==> forall i :: 0 <= i < |e.fields| ==> FreeVars(e.fields[i]) <= fv
    ensures e.TupleGetItem? ==> FreeVars(e.tuple) <= fv
    ensures e.Call? ==> forall i :: 0 <= i < |e.args| ==> FreeVars(e.args[i]) <= fv
    // nothing else is free: each variable comes from e itself or from a child
    ensures forall x :: x in fv ==>
      || x == e
      || (e.Tuple? && exists i :: 0 <= i < |e.fields| && x in FreeVars(e.fields[i]))
      || (e.TupleGetItem? && x in FreeVars(e.tuple))
      || (e.Call? && exists i :: 0 <= i < |e.args| && x in FreeVars(e.args[i]))
    decreases e
  {
    match e
    case Var(_, _, _) => {e}
    case Tuple(fs) => set i, x | 0 <= i < |fs| && x in FreeVars(fs[i]) :: x
    case TupleGetItem(t, _) => FreeVars(t)
    case Call(_, args) => set i, x | 0 <= i < |args| && x in FreeVars(args[i]) :: x
    case _ => {}
  }
}
