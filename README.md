# torch_tvm compiler: a Dafny model

This project models `TVMCompiler` from `torch_tvm/compiler.cpp`, the bridge that
runs a fused PyTorch JIT subgraph through TVM:

- `scalarTypeToTVMType`, the closed table from ATen element types to TVM data types;
- the two single-value overloads of `convertToRelay`: a tensor-typed JIT value becomes
  a Relay variable, and a compile-time constant becomes a Relay constant (doubles as
  float32, ints as int32, booleans, None as the uint64 sentinel, int lists as tuples);
- the Graph overload of `convertToRelay`, a breadth-first walk from the subgraph's
  inputs. It translates every consumer node whose inputs are all known, promotes
  tensor constants to extra runtime inputs, packs the declared outputs into a tuple,
  and checks the free-variable count;
- the constructor's choice of device context;
- `run`:
  - it keys the cache by the stack's top inputs, modelled by their shapes and element types;
  - on a miss it refines the input types, translates, builds and checks the output
    count; a translation failure either raises (strict) or falls back to the JIT
    interpreter;
  - it binds every runtime input, zero-copy when the data is 64-byte aligned;
  - it runs the kernel and replaces the inputs on the stack with the outputs.

Modules follow the program's structure:

- `Jit`: scalar types, tensors, interpreter values, subgraphs and `Value::uses()`.
- `Relay`: data types, expressions and free variables.
- `Errors`: every failure, carried in a `Result` where the source throws.
- `TypeMapping` and `ValueConversion`: the two leaf conversions.
- `GraphConversion`: the walk.
- `Compiler`: the compiled unit, its cache and `run`.

What the model proves:

- **Complete translation.** `Reachability.Closure` is an independent definition of
  what the walk at compiler.cpp:133-190 reaches: the declared inputs, then the outputs
  of every node that reads a reached value and whose inputs are all reached or
  constants. `Reachability.Translates` says when the subgraph translates. The walk maps
  exactly that closure (plus the constants its visits read). `ConvertGraph` succeeds
  iff `Translates` holds, and an unmapped output lies outside the closure.
- **The miss path.** On a cache miss with tensor inputs, `run` falls back iff it is not
  strict and the subgraph does not translate. Otherwise the function built is the
  translation `ConvertGraph` produced (`GraphConversion.TranslationOf`), its
  parameters are the entry's runtime inputs, and, when the runtime reports the
  declared output count, the entry is executed (`Compiler.MissOutcome`, ensured by
  `TVMCompiler.Miss` and `TVMCompiler.Run`).
- **Faithful translation.** `GraphConversion.Denotes` is a reference definition of
  what a correct translation of a value is. Every entry of `value_map` satisfies it
  throughout the walk. A successful translation therefore has one faithful field per
  declared output. Its free variables are all input variables, so the free-variable
  check at compiler.cpp:203-209 can never fail (`ConvertGraph` ensures its error is
  never `FreeVarCount`).
- **Round trip and cache key.** Constant conversion round-trips through the None
  sentinel. Two invocations share the model's cache key exactly when their inputs
  agree in shape and element type (the source's key tells more apart; see
  "## Left out").
- **Several invocations.** A second invocation with the same signature translates
  nothing and leaves one entry. A different signature adds a second entry. An entry
  compiled on a miss runs on every later all-tensor invocation.

`cache_[spec]` is default-inserted at compiler.cpp:260, before translation is
attempted. So after a fallback a partial entry stays in the cache; it stays as well
when the build or the output-count check fails.

A consequence: after a non-strict fallback, the next invocation with the same
signature finds that entry. It calls the entry's empty handles and raises instead of
falling back again (`Compiler.RepeatedSignature`, `o1.FellBack? ==> o2.Raised?`).

`*input_values` is appended before a tensor constant's conversion is attempted
(compiler.cpp:151-155). It is also appended when a node that is later skipped
promoted a constant before its breaking input. So the runtime inputs can include
tensor constants whose consumer was never translated.

External behaviour is passed in as function parameters:

- `build`: the TVM build and graph-runtime creation;
- `kernel`: `get_output(i)` after the kernel has run;
- `interpret`: the JIT interpreter.

The stack is passed in and returned.

## Model

| member | source | states |
|---|---|---|
| TypeMapping.ScalarTypeToTVMType | torch_tvm/compiler.cpp:15-33 | succeeds exactly on the ten table types; any other type fails with an error naming it |
| TypeMapping.MappingPreservesWidthAndKind | torch_tvm/compiler.cpp:16-27 | every accepted type keeps its element width and its float/signed/unsigned kind; Bool becomes TVM's one-bit boolean |
| TypeMapping.QuantizedMapsLikeUnderlying | torch_tvm/compiler.cpp:24-26 | each quantized type maps to what its underlying integer type maps to |
| TypeMapping.UnsupportedKinds | torch_tvm/compiler.cpp:29-31 | the rejected types are exactly half, bfloat16, complex, 16-bit integer and undefined |
| TypeMapping.SupportedTypesAreTen | torch_tvm/compiler.cpp:16-27 | the table has ten distinct entries |
| ValueConversion.Int32Wrap | torch_tvm/compiler.cpp:44 | static_cast<int32_t> lands in the int32 range, is congruent to its input modulo 2^32, and is the identity on that range |
| ValueConversion.Shape | torch_tvm/compiler.cpp:42-45 | one int32-cast dimension per size, in order |
| ValueConversion.ShapeExact | torch_tvm/compiler.cpp:43-45 | sizes below 2^31 pass the cast unchanged |
| ValueConversion.PlaceholderType | torch_tvm/compiler.cpp:36-39 | a value toIValue knows as a tensor takes that tensor's complete type; one it knows as anything else fails in toTensor; any other value keeps its recorded type |
| ValueConversion.ConvertPlaceholder | torch_tvm/compiler.cpp:35-55 | a known non-tensor fails in toTensor; a known tensor contributes its own type; an incomplete type fails; a complete one gives a variable for the value with the int32-cast shape and the mapped dtype, or the type error; the variable is its own only free variable |
| ValueConversion.NarrowIntList | torch_tvm/compiler.cpp:99-111 | succeeds iff every element fits int32, then gives one int32 constant per element in order; otherwise fails on the first element outside the range |
| ValueConversion.ConvertConstant | torch_tvm/compiler.cpp:57-114 | for each kind: doubles within float range, ints within int32 range, booleans, None as the sentinel, int lists elementwise; the range errors carry the offending value; tensors and other kinds fail; every constant is closed |
| ValueConversion.DecodeIntsOfNarrowed | torch_tvm/compiler.cpp:99-111 | reading back a narrowed int list gives back the list |
| ValueConversion.ConstantRoundTrip | torch_tvm/compiler.cpp:72-111 | every converted non-double constant reads back as itself, None through the sentinel |
| ValueConversion.SentinelOnlyForNone | torch_tvm/compiler.cpp:90-98 | a converted constant is the sentinel iff the value was None |
| Jit.Uses | torch_tvm/compiler.cpp:138 | one use per input slot that reads v: node m occurs exactly as often as m lists v among its inputs, and every use is a node of the graph that reads v |
| Jit.UsesComplete | torch_tvm/compiler.cpp:138 | every node that reads v is among its uses |
| Relay.FreeVars | torch_tvm/compiler.cpp:202 | a variable is its own only free variable; the free variables of each field, tuple or argument are free in the expression, and there are no others |
| GraphConversion.GetOperator | torch_tvm/compiler.cpp:173-176 | succeeds iff the node kind is in the operator table, giving the node's call on the arguments; otherwise names the node |
| GraphConversion.DenotesMono | torch_tvm/compiler.cpp:151-156 | a faithful translation stays faithful when more runtime inputs are recorded |
| GraphConversion.AllDenoteMono | torch_tvm/compiler.cpp:151-156 | the same for a whole value_map |
| GraphConversion.DenotedFreeVars | torch_tvm/compiler.cpp:202-209 | every free variable of a faithful translation is one of input_vars |
| GraphConversion.RecordTensorConstant | torch_tvm/compiler.cpp:150-156 | promoting an unmapped tensor constant keeps the walk invariant and the shape of the runtime input list |
| GraphConversion.ResolveInput | torch_tvm/compiler.cpp:143-161 | a mapped input is kept; an input that is neither mapped nor constant is unresolvable; a constant is mapped faithfully or fails with its conversion error; a tensor constant is appended to input_values even when its conversion fails; old mappings never change |
| GraphConversion.ResolveInputs | torch_tvm/compiler.cpp:142-163 | on success, one argument per input, each the input's mapping; a skip names an input neither mapped nor constant; a failure names the constant whose conversion failed |
| GraphConversion.TranslateUse | torch_tvm/compiler.cpp:139-186 | the visit raises iff a constant input before the first unavailable input fails to convert, or every input is available and the kind is not in the operator table; otherwise the node is settled: translated iff it has an output and every input is mapped or constant, one output mapped to the call and k outputs to projections 0..k-1; it maps only those outputs and the constants it reads before the first unavailable input |
| GraphConversion.MapOutputs | torch_tvm/compiler.cpp:175-185 | output i maps to projection i of the call, and all outputs join the frontier in order |
| GraphConversion.TranslateRound | torch_tvm/compiler.cpp:136-189 | one round keeps the walk invariant; every non-constant value it maps joins the next frontier, which ranks strictly higher; every use of each frontier value is settled or has a newly mapped input; a failure is a node of the closure that breaks |
| GraphConversion.ConvertInputs | torch_tvm/compiler.cpp:123-131 | succeeds iff every declared input is a complete tensor whose placeholder converts, and then maps exactly the declared inputs, recorded in order; otherwise names the failure, keeping what was recorded |
| GraphConversion.Walk | torch_tvm/compiler.cpp:133-190 | the walk terminates and only extends the state; everything it maps lies in the closure; on success every node that reads a mapped value is settled (all its outputs mapped when all its inputs are available); a failure is a visited node that breaks |
| GraphConversion.PackOutputs | torch_tvm/compiler.cpp:192-199 | succeeds iff every declared output is mapped, giving their mappings in order; otherwise names an unmapped output |
| GraphConversion.ConvertGraph | torch_tvm/compiler.cpp:116-213 | succeeds iff the subgraph translates; the runtime inputs start with the declared inputs; on success they are the declared inputs followed by exactly the tensor constants the walk meets, each once, the parameters correspond to the runtime inputs, the body has one faithful field per output, and every free variable is a parameter; an unmapped output lies outside the closure; the free-variable check never fails |
| GraphConversion.RecordedConstants | torch_tvm/compiler.cpp:143-156 | after a settled walk, the runtime inputs past the declared ones are exactly the tensor constants a visit of the closure reads before its first unavailable input |
| Reachability.ClosureStep | torch_tvm/compiler.cpp:136-186 | the closure holds the outputs of every node that reads a reached value and has all inputs reached or constant |
| Reachability.ClosureWithin | torch_tvm/compiler.cpp:133-190 | the closure lies in every set that holds the declared inputs and is closed under that step: it is the least such set |
| Reachability.StartSound | torch_tvm/compiler.cpp:123-134 | the walk starts justified, with every node that reads an input pending |
| Reachability.ClosedStep | torch_tvm/compiler.cpp:136-189 | a round that handles every use of its frontier and puts every newly mapped value in the next frontier keeps every visited node settled or pending |
| Reachability.SettledTranslates | torch_tvm/compiler.cpp:116-199 | a walk that settles every visited node and maps every output shows the subgraph translates |
| Reachability.UnmappedOutside | torch_tvm/compiler.cpp:192-199 | an output a settled walk leaves unmapped lies outside the closure |
| Reachability.BrokenNotTranslates | torch_tvm/compiler.cpp:139-186 | a justified walk that meets a breaking node shows the subgraph does not translate |
| GraphConversion.TranslateUses | torch_tvm/compiler.cpp:138-188 | every use of a frontier value is visited in order: each is settled or has a newly mapped input; every non-constant value it maps is returned for the next frontier |
| Compiler.ContextFor | torch_tvm/compiler.cpp:227-232 | the GPU is chosen iff the device type is "gpu", always device 0 |
| Compiler.TVMCompiler.constructor | torch_tvm/compiler.cpp:215-237 | stores the settings and the subgraph, derives the context, starts with an empty cache |
| Compiler.SignatureOf | torch_tvm/compiler.cpp:249 | one entry per input: a tensor contributes its sizes and element type, any other value a non-tensor mark |
| Compiler.SignatureEqualIff | torch_tvm/compiler.cpp:249-251 | two invocations share the model's cache key iff their inputs agree in shape and element type position by position |
| Compiler.BoundInputs | torch_tvm/compiler.cpp:244-247 | value_to_ivalue binds exactly the declared inputs, each to one of the stack's input values |
| Compiler.BoundInputsAt | torch_tvm/compiler.cpp:244-247 | declared input i is bound to the i-th consumed stack value unless a later slot declares the same value |
| Compiler.BindStackInputs | torch_tvm/compiler.cpp:244-247 | the loop builds value_to_ivalue |
| Compiler.InferTypes | torch_tvm/compiler.cpp:252-254 | each bound input takes its tensor's complete type; every other value keeps its type; nothing else in the graph changes |
| Compiler.ResolveBound | torch_tvm/compiler.cpp:296-304 | a runtime input resolves to its stack value, or else to its constant, iff that is a tensor; a value known to neither is a missing constant |
| Compiler.ResolveAll | torch_tvm/compiler.cpp:295-304 | all runtime inputs resolve iff each one does, giving each one's tensor in order |
| Compiler.ResolveAllFirstError | torch_tvm/compiler.cpp:295-302 | binding stops with the error of the first input that does not resolve |
| Compiler.BindingFor | torch_tvm/compiler.cpp:306-310 | runtime input i is bound at index i to its tensor, zero-copy iff the data address is a multiple of 64 |
| Compiler.EntryBindings | torch_tvm/compiler.cpp:295-311 | binding succeeds iff the entry holds a runtime and every runtime input resolves, and then binds input i at index i to input_values[i]'s tensor; an entry without a runtime fails with the first input's error or a null handle |
| Compiler.Outputs | torch_tvm/compiler.cpp:316-325 | completes iff the runtime has the declared outputs; the stack keeps its base and gets get_output(i) pushed in order, as far as the runtime has outputs; a missing index raises |
| Compiler.Execution | torch_tvm/compiler.cpp:295-325 | never falls back; a failure to bind leaves the stack unchanged; once bound, the stack below the inputs is kept |
| Compiler.BindingsFollowInputValues | torch_tvm/compiler.cpp:295-310 | runtime input i is bound at index i from input_values[i], zero-copy iff its address is 64-byte aligned |
| Compiler.BindEntryInputs | torch_tvm/compiler.cpp:295-311 | the binding loop computes the entry's bindings or its first failure |
| Compiler.PushOutputs | torch_tvm/compiler.cpp:313-325 | the inputs are dropped and each declared output pushed in order; an output index the runtime lacks raises after the stack is partly rewritten |
| Compiler.BindAndRun | torch_tvm/compiler.cpp:295-325 | binding, running and rewriting the stack meet the execution specification |
| Compiler.ExecutionOutcomes | torch_tvm/compiler.cpp:295-325 | executing an entry never falls back; it raises only a null handle, a non-tensor, a missing constant or a missing output |
| Compiler.ExecutionRanIff | torch_tvm/compiler.cpp:295-325 | execution completes iff the entry has a runtime, every runtime input resolves, and the runtime has enough outputs |
| Compiler.ExecutionStack | torch_tvm/compiler.cpp:313-325 | a completed execution keeps the stack below the inputs and pushes get_output(i) for each declared output i |
| Compiler.CompiledEntryRuns | torch_tvm/compiler.cpp:284-325 | an entry built with the declared output count runs on every invocation whose inputs are tensors |
| Compiler.TranslateAndBuild | torch_tvm/compiler.cpp:255-293 | translation succeeds iff the subgraph translates, and the function built is then the translation whose parameters are the entry's runtime inputs; it falls back iff not strict and the subgraph does not translate, and raises the translation error when strict; a translated function is built, a rejected build raises, a built runtime is recorded and executed iff it reports the declared output count, otherwise the mismatch raises; the recorded runtime inputs start with the declared inputs on every path |
| Compiler.TVMCompiler.Miss | torch_tvm/compiler.cpp:251-293 | a miss refines the input types, adds exactly this signature's entry (default-inserted before translation), and translates, builds and runs as MissOutcome says |
| Compiler.TVMCompiler.Run | torch_tvm/compiler.cpp:239-326 | a hit executes the cached entry and changes nothing; a miss on a non-tensor raises first; any other miss refines the input types, adds exactly this signature's entry and translates, builds and runs as MissOutcome says |
| Compiler.RepeatedSignature | torch_tvm/compiler.cpp:249-293 | two invocations with one signature leave one entry; after a fallback the second raises |
| Compiler.DistinctSignatures | torch_tvm/compiler.cpp:249-293 | two invocations with different signatures leave two entries |

## Left out

- Tensor data and TVM execution are not modelled. The kernel is an uninterpreted function from the runtime handle, the bindings and the output index to a tensor.
- The TVM build, `get_graph_json`, `get_module` and graph-runtime creation are not modelled. The `build` parameter gives a handle and an output count, or a rejection. `opt_level` is stored but, as in the source, never passed to the build.
- `getOperator` and `getNoneSentinel` come from operators.h, which is not part of this model. The operator table is a set of supported node kinds, and the sentinel is a fixed 64-bit value.
- ValueConversion.ConvertConstant: does not model the rounding of a double to float32. `ConstFloat32(d)` stands for the nearest float and is not read back. A double is a real, so NaN and the infinities, which the range checks at compiler.cpp:65-66 reject, are not modelled.
- The `.to(at::kFloat)` cast, the DLPack conversions and `make_variable` are not modelled. The tensor is bound and returned as is.
- The registry lookups `TORCH_INTERNAL_ASSERT(pfb)` and `TORCH_INTERNAL_ASSERT(pfr)` are left out, because a missing TVM registration is outside the model.
- Warning logs and the exception message text are left out. Errors are a datatype.
- A value's debug name and address, which name each variable, become the value's identity.
- The cache key keeps only sizes and element types. `CompleteArgumentSpec` also tells inputs apart by strides, device and whether a tensor is defined; gradient flags are off (`with_grad=false` at compiler.cpp:249).
- `inferTypeFrom` on a miss may refine some inputs before `toTensor` throws on a non-tensor one, in unordered-map order. The model raises `NotATensor` with the types unchanged.
- The interpreter is modelled as a function of the stack. Its own failures are not modelled.
- Concurrency and the JIT's memory management are left out.
- Uses: `Value::uses()` lists uses in the order they were created; the model lists them by node position. That order fixes the order of promoted tensor constants in `input_values` (the function's parameter order) and which failing node a strict run reports; the set of uses and their multiplicity are modelled.
