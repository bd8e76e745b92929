/** The ways translation and execution can fail, and the result type that
    carries them in place of C++ exceptions. */
module Errors {
  import opened Jit

  datatype Error =
    // translation errors (caught by the bail-out in run)
    | UnsupportedType(scalarType: ScalarType)
    | IncompleteType(value: ValueId)
    | NotATensor
    | IntOutOfRange(i: int)
    | DoubleOutOfRange(d: real)
    | UnsupportedConstant
    | UnsupportedOperator(node: NodeId)
    | UnmappedOutput(value: ValueId)
    | FreeVarCount(freeVars: int, inputs: int)
    // errors raised by run itself
    | TranslationError(cause: Error)
    | BuildFailed
    | OutputCountMismatch(declared: nat, reported: nat)
    | MissingConstant(value: ValueId)
    | NullPackedFunc
    | OutputIndex(index: nat)

  datatype Result<+T> = Ok(value: T) | Err(error: Error)

  datatype Option<+T> = None | Some(value: T)
}
