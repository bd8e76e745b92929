/** TVMCompiler: one compiled unit bound to a subgraph, a device and a
    strictness flag, with its cache of compiled specializations and the
    per-invocation engine `run`. */
module Compiler {
  import opened Jit
  import opened Relay
  import opened Errors
  import opened GraphConversion
  import opened Reachability

  /** Data buffers aligned to this many bytes are bound without a copy. */
  const Alignment: nat := 64

  datatype DeviceKind = CPU | GPU
  datatype Context = Context(deviceType: DeviceKind, deviceId: nat)

  /** The device context chosen at construction: "gpu" selects the GPU, anything
      else the CPU, always device 0. */
  function ContextFor(deviceType: string): (c: Context)
    ensures c.deviceId == 0
    ensures c.deviceType == GPU <==> deviceType == "gpu"
  {
    Context(if deviceType == "gpu" then GPU else CPU, 0)
  }

  // ---------------------------------------------------------------------------
  // Signatures (CompleteArgumentSpec)

  datatype ArgSpec = TensorArg(sizes: seq<nat>, scalarType: ScalarType) | NonTensorArg

  type Signature = seq<ArgSpec>

  function ArgSpecOf(iv: IValue): ArgSpec
  {
    if iv.ITensor? then TensorArg(iv.tensor.sizes, iv.tensor.scalarType) else NonTensorArg
  }

  /** The model of an invocation's cache key: the shape and element type of each input. */
  function SignatureOf(inputs: seq<IValue>): (sig: Signature)
    ensures |sig| == |inputs|
    ensures forall i :: 0 <= i < |inputs| ==>
      && (sig[i].TensorArg? <==> inputs[i].ITensor?)
      && (inputs[i].ITensor? ==>
            sig[i].sizes == inputs[i].tensor.sizes && sig[i].scalarType == inputs[i].tensor.scalarType)
  {
    seq(|inputs|, i requires 0 <= i < |inputs| => ArgSpecOf(inputs[i]))
  }

  /** Two inputs are alike for the cache when both are tensors of the same sizes
      and element type, or neither is a tensor. */
  predicate SameShape(a: IValue, b: IValue)
  {
    && (a.ITensor? <==> b.ITensor?)
    && (a.ITensor? ==> a.tensor.sizes == b.tensor.sizes && a.tensor.scalarType == b.tensor.scalarType)
  }

  /** Two invocations share the model's key exactly when their inputs agree in
      shape and element type, position by position; data and addresses play no part. */
  lemma SignatureEqualIff(a: seq<IValue>, b: seq<IValue>)
    ensures SignatureOf(a) == SignatureOf(b) <==>
      |a| == |b| && forall i :: 0 <= i < |a| ==> SameShape(a[i], b[i])
  {
    if |a| == |b| && forall i :: 0 <= i < |a| ==> SameShape(a[i], b[i]) {
      assert forall i :: 0 <= i < |a| ==> SignatureOf(a)[i] == SignatureOf(b)[i];
    }
    if SignatureOf(a) == SignatureOf(b) {
      assert |a| == |SignatureOf(a)|;
      forall i | 0 <= i < |a| ensures SameShape(a[i], b[i]) {
        assert SignatureOf(a)[i] == SignatureOf(b)[i];
      }
    }
  }

  // ---------------------------------------------------------------------------
  // Cache entries and input binding

  /** The compiled runtime: an opaque module handle and its reported output count. */
  datatype Runtime = Runtime(handle: nat, numOutputs: nat)

  /** What the opaque build and graph-runtime creation yield. */
  datatype BuildResult = Built(handle: nat, numOutputs: nat) | BuildRejected

  /** A cache entry: the runtime inputs recorded by translation and, once built,
      the runtime whose set_input, set_input_zero_copy, run and get_output
      handles it holds. A default-inserted entry has no runtime: its handles are
      empty. */
  datatype CacheEntry = CacheEntry(inputValues: seq<ValueId>, runtime: Option<Runtime>)

  datatype Binding = ZeroCopy(index: nat, tensor: Tensor) | CopyIn(index: nat, tensor: Tensor)

  datatype Outcome = Ran | FellBack | Raised(error: Error)

  /** The TVM build and graph-runtime creation for a function, a device kind and
      the device and host targets. */
  type Builder = (Function, DeviceKind, string, string) -> BuildResult

  /** get_output(i) of a runtime, given its handle, after its kernel has run on
      the bindings. */
  type Kernel = (nat, seq<Binding>, nat) -> Tensor

  /** The JIT interpreter run on the subgraph: a transformer of the whole stack. */
  type Interpreter = seq<IValue> -> seq<IValue>

  /** How runtime input i is bound: zero-copy when the data address is aligned. */
  function BindingFor(i: nat, t: Tensor): (b: Binding)
    ensures b.index == i && b.tensor == t
    ensures b.ZeroCopy? <==> t.address % Alignment == 0
  {
    if t.address % Alignment == 0 then ZeroCopy(i, t) else CopyIn(i, t)
  }

  function Bindings(ts: seq<Tensor>): (bs: seq<Binding>)
    ensures |bs| == |ts| && forall i :: 0 <= i < |ts| ==> bs[i] == BindingFor(i, ts[i])
  {
    if ts == [] then [] else Bindings(ts[..|ts| - 1]) + [BindingFor(|ts| - 1, ts[|ts| - 1])]
  }

  /** value_to_ivalue: each declared input bound to its stack value; when a value
      is declared twice, the later slot wins. */
  function BoundInputs(vs: seq<ValueId>, ivs: seq<IValue>): (m: map<ValueId, IValue>)
    requires |vs| == |ivs|
    ensures m.Keys == set v | v in vs
    ensures forall v :: v in m ==> m[v] in ivs
  {
    if vs == [] then map[]
    else
      var m0 := BoundInputs(vs[..|vs| - 1], ivs[..|ivs| - 1]);
      assert forall v :: v in vs <==> v in vs[..|vs| - 1] || v == vs[|vs| - 1];
      m0[vs[|vs| - 1] := ivs[|ivs| - 1]]
  }

  /** Declared input i is bound to the i-th consumed stack value, unless a later
      slot declares the same value. */
  lemma {:induction false} BoundInputsAt(vs: seq<ValueId>, ivs: seq<IValue>, i: nat)
    requires |vs| == |ivs| && i < |vs| && vs[i] !in vs[i + 1..]
    ensures BoundInputs(vs, ivs)[vs[i]] == ivs[i]
  {
    var last := |vs| - 1;
    if i < last {
      assert vs[last] in vs[i + 1..];
      assert vs[..last][i] == vs[i] && vs[..last][i + 1..] == vs[i + 1..last];
      assert vs[i + 1..last] == vs[i + 1..][..last - i - 1];
      BoundInputsAt(vs[..last], ivs[..last], i);
    }
  }

  /** The tensor bound to runtime input v (compiler.cpp:296-304): its stack value
      when it is a declared input, otherwise what toIValue knows of it. */
  function ResolveBound(g: Graph, bound: map<ValueId, IValue>, v: ValueId): (r: Result<Tensor>)
    ensures r.Ok? <==>
      if v in bound then bound[v].ITensor? else v in g.constants && g.constants[v].ITensor?
    ensures r.Ok? ==> r.value == (if v in bound then bound[v].tensor else g.constants[v].tensor)
    ensures v !in bound && v !in g.constants ==> r == Err(MissingConstant(v))
    ensures r.Err? ==> r.error.MissingConstant? || r.error.NotATensor?
  {
    var iv := if v in bound then Ok(bound[v]) else if v in g.constants then Ok(g.constants[v]) else Err(MissingConstant(v));
    match iv
    case Err(e) => Err(e)
    case Ok(x) => if x.ITensor? then Ok(x.tensor) else Err(NotATensor)
  }

  /** The tensors of all runtime inputs, in order; the first that fails stops the binding. */
  function ResolveAll(g: Graph, bound: map<ValueId, IValue>, vals: seq<ValueId>): (r: Result<seq<Tensor>>)
    ensures r.Ok? <==> forall i :: 0 <= i < |vals| ==> ResolveBound(g, bound, vals[i]).Ok?
    ensures r.Ok? ==>
      && |r.value| == |vals|
      && forall i :: 0 <= i < |vals| ==> ResolveBound(g, bound, vals[i]) == Ok(r.value[i])
    ensures r.Err? ==> r.error.MissingConstant? || r.error.NotATensor?
  {
    if vals == [] then Ok([])
    else
      var init := vals[..|vals| - 1];
      assert forall i :: 0 <= i < |init| ==> init[i] == vals[i];
      match ResolveAll(g, bound, init)
      case Err(e) => Err(e)
      case Ok(ts) =>
        match ResolveBound(g, bound, vals[|vals| - 1])
        case Err(e) => Err(e)
        case Ok(t) => Ok(ts + [t])
  }

  /** Binding stops at the first runtime input that does not resolve, with its error. */
  lemma {:induction false} ResolveAllFirstError(g: Graph, bound: map<ValueId, IValue>, vals: seq<ValueId>, i: nat)
    requires i < |vals| && ResolveAll(g, bound, vals[..i]).Ok? && ResolveBound(g, bound, vals[i]).Err?
    ensures ResolveAll(g, bound, vals) == Err(ResolveBound(g, bound, vals[i]).error)
  {
    var init := vals[..|vals| - 1];
    if i < |vals| - 1 {
      assert init[..i] == vals[..i] && init[i] == vals[i];
      ResolveAllFirstError(g, bound, init, i);
    } else {
      assert init == vals[..i];
    }
  }

  /** get_output(0) .. get_output(k - 1) of a runtime, each wrapped as a stack value. */
  function Fetched(kernel: Kernel, handle: nat, bs: seq<Binding>, k: nat): seq<IValue>
  {
    seq(k, i requires 0 <= i < k => ITensor(kernel(handle, bs, i)))
  }

  /** The bindings of compiler.cpp:296-309 for a cache entry: every runtime input
      in recorded order, or the first failure. An entry without a runtime fails at
      its first handle call, once its first input has resolved. */
  function EntryBindings(g: Graph, entry: CacheEntry, bound: map<ValueId, IValue>): (r: Result<seq<Binding>>)
    ensures r.Ok? <==> entry.runtime.Some? && ResolveAll(g, bound, entry.inputValues).Ok?
    ensures r.Ok? ==>
      && |r.value| == |entry.inputValues|
      && forall i :: 0 <= i < |r.value| ==>
           r.value[i].index == i && ResolveBound(g, bound, entry.inputValues[i]) == Ok(r.value[i].tensor)
    ensures r.Err? && entry.runtime.Some? ==> ResolveAll(g, bound, entry.inputValues) == Err(r.error)
    ensures r.Err? && entry.runtime.None? ==>
      || r.error == NullPackedFunc
      || (|entry.inputValues| > 0 && ResolveBound(g, bound, entry.inputValues[0]) == Err(r.error))
  {
    var vals := entry.inputValues;
    match entry.runtime
    case None =>
      Err(if |vals| > 0 && ResolveBound(g, bound, vals[0]).Err? then ResolveBound(g, bound, vals[0]).error
          else NullPackedFunc)
    case Some(_) =>
      match ResolveAll(g, bound, vals)
      case Err(e) => Err(e)
      case Ok(ts) => Ok(Bindings(ts))
  }

  /** The stack after compiler.cpp:313-325: the consumed inputs dropped and
      get_output(i) pushed for each declared output i. A runtime reporting fewer
      outputs than that fails at its first missing index, after the stack has
      been partly rewritten. */
  function Outputs(base: seq<IValue>, count: nat, rt: Runtime, kernel: Kernel, bs: seq<Binding>): (r: (Outcome, seq<IValue>))
    ensures r.0.Ran? <==> count <= rt.numOutputs
    ensures !r.0.Ran? ==> r.0 == Raised(OutputIndex(rt.numOutputs))
    ensures var k := if count <= rt.numOutputs then count else rt.numOutputs;
      && |r.1| == |base| + k && r.1[..|base|] == base
      && forall i :: 0 <= i < k ==> r.1[|base| + i] == ITensor(kernel(rt.handle, bs, i))
  {
    if count <= rt.numOutputs then (Ran, base + Fetched(kernel, rt.handle, bs, count))
    else (Raised(OutputIndex(rt.numOutputs)), base + Fetched(kernel, rt.handle, bs, rt.numOutputs))
  }

  /** The specification of compiler.cpp:295-325 for a cache entry: bind, run the
      kernel, rewrite the stack. */
  function Execution(g: Graph, entry: CacheEntry, bound: map<ValueId, IValue>, stack: seq<IValue>, n: nat,
                     kernel: Kernel): (r: (Outcome, seq<IValue>))
    requires n <= |stack|
    ensures !r.0.FellBack?
    ensures r.0.Raised? && !r.0.error.OutputIndex? ==> r.1 == stack
    ensures EntryBindings(g, entry, bound).Ok? ==> |r.1| >= |stack| - n && r.1[..|stack| - n] == stack[..|stack| - n]
  {
    match EntryBindings(g, entry, bound)
    case Err(e) => (Raised(e), stack)
    case Ok(bs) => Outputs(stack[..|stack| - n], |g.outputs|, entry.runtime.value, kernel, bs)
  }

  /** Executing an entry neither falls back nor reports a translation error:
      those belong to the miss path alone. */
  lemma ExecutionOutcomes(g: Graph, entry: CacheEntry, bound: map<ValueId, IValue>, stack: seq<IValue>, n: nat,
                          kernel: Kernel, o: Outcome, stack': seq<IValue>)
    requires n <= |stack|
    requires (o, stack') == Execution(g, entry, bound, stack, n, kernel)
    ensures !o.FellBack?
      && (o.Raised? ==> o.error in {NullPackedFunc, NotATensor} || o.error.MissingConstant? || o.error.OutputIndex?)
  {
  }

  /** Runtime input i is bound from input_values[i], with set_input_zero_copy
      exactly when its data address is a multiple of 64 and with set_input otherwise. */
  lemma BindingsFollowInputValues(g: Graph, bound: map<ValueId, IValue>, vals: seq<ValueId>, i: nat)
    requires ResolveAll(g, bound, vals).Ok? && i < |vals|
    ensures var b := Bindings(ResolveAll(g, bound, vals).value);
      && |b| == |vals|
      && b[i].index == i
      && ResolveBound(g, bound, vals[i]) == Ok(b[i].tensor)
      && (b[i].ZeroCopy? <==> b[i].tensor.address % Alignment == 0)
  {
  }

  /** An execution completes exactly when the entry holds a runtime, every
      runtime input resolves to a tensor, and the runtime reports at least as many
      outputs as the subgraph declares. In particular an entry a translation
      failure left behind never completes. */
  lemma ExecutionRanIff(g: Graph, entry: CacheEntry, bound: map<ValueId, IValue>, stack: seq<IValue>, n: nat,
                        kernel: Kernel)
    requires n <= |stack|
    ensures Execution(g, entry, bound, stack, n, kernel).0.Ran? <==>
      && entry.runtime.Some?
      && (forall i :: 0 <= i < |entry.inputValues| ==> ResolveBound(g, bound, entry.inputValues[i]).Ok?)
      && |g.outputs| <= entry.runtime.value.numOutputs
  {
  }

  /** A run that completes leaves the stack as it was below the inputs it
      consumed, with get_output(i) pushed for each declared output i, in order;
      the kernel ran on the bindings of the recorded runtime inputs. */
  lemma ExecutionStack(g: Graph, entry: CacheEntry, bound: map<ValueId, IValue>, stack: seq<IValue>, n: nat,
                       kernel: Kernel)
    requires n <= |stack|
    requires Execution(g, entry, bound, stack, n, kernel).0.Ran?
    ensures entry.runtime.Some? && ResolveAll(g, bound, entry.inputValues).Ok?
    ensures var stack' := Execution(g, entry, bound, stack, n, kernel).1;
      var bs := Bindings(ResolveAll(g, bound, entry.inputValues).value);
      && |stack'| == |stack| - n + |g.outputs|
      && stack'[..|stack| - n] == stack[..|stack| - n]
      && forall i :: 0 <= i < |g.outputs| ==>
           stack'[|stack| - n + i] == ITensor(kernel(entry.runtime.value.handle, bs, i))
  {
  }

  /** An entry built on a miss runs on every later invocation whose inputs are
      all tensors: its runtime inputs are the declared inputs, which the stack
      binds, followed by tensor constants. */
  lemma CompiledEntryRuns(g: Graph, entry: CacheEntry, bound: map<ValueId, IValue>, stack: seq<IValue>, n: nat,
                          kernel: Kernel)
    requires n <= |stack|
    requires entry.runtime.Some? && entry.runtime.value.numOutputs == |g.outputs|
    requires InputsRecorded(g, entry.inputValues)
    requires BoundAreTensors(bound) && forall v :: v in g.inputs ==> v in bound
    ensures Execution(g, entry, bound, stack, n, kernel).0.Ran?
  {
    var vals := entry.inputValues;
    forall i | 0 <= i < |vals| ensures ResolveBound(g, bound, vals[i]).Ok? {
      if i < |g.inputs| {
        assert vals[..|g.inputs|][i] == vals[i];
      }
    }
    ExecutionRanIff(g, entry, bound, stack, n, kernel);
  }

  /** compiler.cpp:296-309: binds the entry's runtime inputs in recorded order. */
  method BindEntryInputs(g: Graph, entry: CacheEntry, bound: map<ValueId, IValue>) returns (r: Result<seq<Binding>>)
    ensures r == EntryBindings(g, entry, bound)
  {
    var vals := entry.inputValues;
    var tensors: seq<Tensor> := [];
    var bindings: seq<Binding> := [];
    var i := 0;
    while i < |vals|
      invariant 0 <= i <= |vals|
      invariant i > 0 ==> entry.runtime.Some?
      invariant ResolveAll(g, bound, vals[..i]) == Ok(tensors)
      invariant bindings == Bindings(tensors)
    {
      var t := ResolveBound(g, bound, vals[i]);
      if t.Err? {
        ResolveAllFirstError(g, bound, vals, i);
        return Err(t.error);
      }
      if entry.runtime.None? {
        return Err(NullPackedFunc);
      }
      ResolveAllSnoc(g, bound, vals, i);
      BindingsSnoc(tensors, t.value);
      tensors := tensors + [t.value];
      bindings := bindings + [BindingFor(i, t.value)];
      i := i + 1;
    }
    assert vals[..i] == vals;
    if entry.runtime.None? {
      return Err(NullPackedFunc);
    }
    r := Ok(bindings);
  }

  lemma ResolveAllSnoc(g: Graph, bound: map<ValueId, IValue>, vals: seq<ValueId>, i: nat)
    requires i < |vals| && ResolveAll(g, bound, vals[..i]).Ok? && ResolveBound(g, bound, vals[i]).Ok?
    ensures ResolveAll(g, bound, vals[..i + 1]) ==
      Ok(ResolveAll(g, bound, vals[..i]).value + [ResolveBound(g, bound, vals[i]).value])
  {
    assert vals[..i + 1][..i] == vals[..i];
  }

  lemma BindingsSnoc(ts: seq<Tensor>, t: Tensor)
    ensures Bindings(ts + [t]) == Bindings(ts) + [BindingFor(|ts|, t)]
  {
    assert (ts + [t])[..|ts|] == ts;
  }

  /** compiler.cpp:313-325: drops the n inputs and pushes get_output(i) for
      each of the count declared outputs. */
  method PushOutputs(stack: seq<IValue>, n: nat, count: nat, rt: Runtime, kernel: Kernel, bs: seq<Binding>)
    returns (outcome: Outcome, stack': seq<IValue>)
    requires n <= |stack|
    ensures (outcome, stack') == Outputs(stack[..|stack| - n], count, rt, kernel, bs)
  {
    var base := stack[..|stack| - n];
    stack' := base;
    var i := 0;
    while i < count
      invariant 0 <= i <= count && i <= rt.numOutputs
      invariant stack' == base + Fetched(kernel, rt.handle, bs, i)
    {
      if i >= rt.numOutputs {
        return Raised(OutputIndex(i)), stack';
      }
      stack' := stack' + [ITensor(kernel(rt.handle, bs, i))];
      assert Fetched(kernel, rt.handle, bs, i + 1) == Fetched(kernel, rt.handle, bs, i) + [ITensor(kernel(rt.handle, bs, i))];
      i := i + 1;
    }
    outcome := Ran;
  }

  /** compiler.cpp:295-325: binds, runs the kernel and rewrites the stack. */
  method BindAndRun(g: Graph, entry: CacheEntry, bound: map<ValueId, IValue>, stack: seq<IValue>, n: nat,
                    kernel: Kernel)
    returns (outcome: Outcome, stack': seq<IValue>)
    requires n <= |stack|
    ensures (outcome, stack') == Execution(g, entry, bound, stack, n, kernel)
  {
    var bindings := BindEntryInputs(g, entry, bound);
    if bindings.Err? {
      return Raised(bindings.error), stack;
    }
    outcome, stack' := PushOutputs(stack, n, |g.outputs|, entry.runtime.value, kernel, bindings.value);
  }

  // ---------------------------------------------------------------------------
  // The compiled unit

  /** Every bound stack value is a tensor (toTensor succeeds on each). */
  predicate BoundAreTensors(bound: map<ValueId, IValue>)
  {
    forall v :: v in bound ==> bound[v].ITensor?
  }

  /** inferTypeFrom on every bound input: each takes its tensor's complete type. */
  function InferTypes(g: Graph, bound: map<ValueId, IValue>): (g': Graph)
    requires BoundAreTensors(bound)
    ensures g'.inputs == g.inputs && g'.outputs == g.outputs && g'.nodes == g.nodes && g'.constants == g.constants
    ensures forall v :: v in bound ==> TypeOf(g', v) == TensorTypeOf(bound[v].tensor)
    ensures forall v :: v !in bound ==> TypeOf(g', v) == TypeOf(g, v)
  {
    g.(types := g.types + map v | v in bound :: TensorTypeOf(bound[v].tensor))
  }

  function Top(stack: seq<IValue>, n: nat): seq<IValue>
    requires n <= |stack|
  {
    stack[|stack| - n..]
  }

  class TVMCompiler {
    const optLevel: int
    const strict: bool
    const deviceType: string
    const device: string
    const host: string
    const ctx: Context
    /** The node kinds the operator table supports. */
    const registry: set<string>
    var subgraph: Graph
    var cache: map<Signature, CacheEntry>

    ghost predicate Valid()
      reads this
    {
      WellFormed(subgraph) && Acyclic(subgraph)
    }

    constructor (subgraph: Graph, optLevel: int, strict: bool, deviceType: string, device: string, host: string,
                 registry: set<string>)
      requires WellFormed(subgraph) && Acyclic(subgraph)
      ensures Valid()
      ensures this.subgraph == subgraph && this.optLevel == optLevel && this.strict == strict
      ensures this.deviceType == deviceType && this.device == device && this.host == host
      ensures this.registry == registry
      ensures ctx == ContextFor(deviceType) && cache == map[]
    {
      this.optLevel := optLevel;
      this.strict := strict;
      this.deviceType := deviceType;
      this.device := device;
      this.host := host;
      this.registry := registry;
      this.ctx := ContextFor(deviceType);
      this.subgraph := subgraph;
      this.cache := map[];
    }

    /** One invocation on the caller's stack (compiler.cpp:239-326). The stack is
        passed in and the new stack returned; `build` stands for the TVM build and
        graph-runtime creation, `kernel` for the compiled kernel and `interpret`
        for the JIT interpreter. `func` is the translation a miss attempted. */
    method Run(stack: seq<IValue>, build: Builder,
               kernel: Kernel, interpret: Interpreter)
      returns (outcome: Outcome, stack': seq<IValue>, ghost func: Option<Result<Function>>)
      requires Valid()
      requires |subgraph.inputs| <= |stack|
      modifies this
      ensures Valid()
      ensures subgraph.inputs == old(subgraph.inputs) && subgraph.outputs == old(subgraph.outputs)
      ensures subgraph.nodes == old(subgraph.nodes) && subgraph.constants == old(subgraph.constants)
      ensures var ins := Top(stack, |old(subgraph.inputs)|);
        var sig := SignatureOf(ins);
        var bound := BoundInputs(old(subgraph.inputs), ins);
        // only the entry of this signature can change, and only on a miss
        && (cache == old(cache) || (sig !in old(cache) && sig in cache && cache == old(cache)[sig := cache[sig]]))
        // a hit translates and builds nothing
        && (sig in old(cache) ==> cache == old(cache))
        && (sig in old(cache) ==> subgraph.types == old(subgraph.types))
        && (sig in old(cache) ==>
              (outcome, stack') == Execution(subgraph, cache[sig], bound, stack, |subgraph.inputs|, kernel))
        // a miss on a non-tensor input fails before anything is recorded
        && (sig !in old(cache) && !BoundAreTensors(bound) ==>
              && outcome == Raised(NotATensor) && stack' == stack
              && cache == old(cache) && subgraph.types == old(subgraph.types))
        // otherwise a miss refines the input types, leaves an entry behind whatever
        // happens next, and translates, builds and runs as MissOutcome says
        && (func.Some? <==> sig !in old(cache) && BoundAreTensors(bound))
        && (func.Some? ==>
              && sig in cache && subgraph.types == InferTypes(old(subgraph), bound).types
              && MissOutcome(subgraph, registry, strict, ctx, device, host, build, kernel, interpret, bound, stack,
                             func.value, cache[sig], outcome, stack'))
        && (outcome.FellBack? ==>
              !strict && sig !in old(cache) && stack' == interpret(stack) && cache[sig].runtime.None?)
        && (outcome.Raised? && outcome.error.TranslationError? ==>
              && strict && sig !in old(cache) && stack' == stack && cache[sig].runtime.None?
              && !outcome.error.cause.FreeVarCount?)
    {
      var n := |subgraph.inputs|;
      var ins := stack[|stack| - n..];
      var bound := BindStackInputs(subgraph.inputs, ins);
      var sig := SignatureOf(ins);
      assert ins == Top(stack, n);
      if sig in cache {
        outcome, stack' := BindAndRun(subgraph, cache[sig], bound, stack, n, kernel);
        ExecutionOutcomes(subgraph, cache[sig], bound, stack, n, kernel, outcome, stack');
        return outcome, stack', None;
      }
      if !BoundAreTensors(bound) {
        return Raised(NotATensor), stack, None;
      }
      ghost var f;
      outcome, stack', f := Miss(sig, bound, stack, build, kernel, interpret);
      func := Some(f);
    }

    /** A miss on tensor inputs (compiler.cpp:251-325): the input types are
        refined, the entry is default-inserted, and the subgraph is translated,
        built and, when the build reports the declared number of outputs, run. */
    method Miss(sig: Signature, bound: map<ValueId, IValue>, stack: seq<IValue>, build: Builder,
                kernel: Kernel, interpret: Interpreter)
      returns (outcome: Outcome, stack': seq<IValue>, ghost func: Result<Function>)
      requires Valid() && sig !in cache && BoundAreTensors(bound)
      requires |subgraph.inputs| <= |stack| && bound.Keys == set v | v in subgraph.inputs
      modifies this
      ensures Valid()
      ensures subgraph == InferTypes(old(subgraph), bound)
      ensures sig in cache && cache == old(cache)[sig := cache[sig]]
      ensures MissOutcome(subgraph, registry, strict, ctx, device, host, build, kernel, interpret, bound, stack,
                          func, cache[sig], outcome, stack')
    {
      var g := InferTypes(subgraph, bound);
      RetypedWellFormed(subgraph, g);
      subgraph := g;
      var before := cache;
      // cache_[spec] is default-inserted before translation is attempted
      cache := before[sig := CacheEntry([], None)];
      var entry, compiled, f;
      entry, compiled, outcome, stack', f :=
        TranslateAndBuild(g, registry, strict, ctx, device, host, stack, build, interpret);
      func := f;
      cache := before[sig := entry];
      if compiled {
        outcome, stack' := BindAndRun(g, entry, bound, stack, |g.inputs|, kernel);
        CompiledEntryRuns(g, entry, bound, stack, |g.inputs|, kernel);
      }
    }
  }

  /** What a miss on tensor inputs yields (compiler.cpp:262-325), given the
      translation result `func` and the entry it leaves: translation succeeds
      exactly when the subgraph translates; a failure raises when strict and
      otherwise falls back to the interpreter; a successful translation is built,
      a rejected build raises, a build reporting another output count raises
      after storing its runtime, and one reporting the declared count runs. The
      function built is the translation of the subgraph, with the entry's runtime
      inputs as its parameters; those start with the declared inputs on every path. */
  ghost predicate MissOutcome(g: Graph, registry: set<string>, strict: bool, ctx: Context, device: string, host: string,
                              build: Builder, kernel: Kernel, interpret: Interpreter, bound: map<ValueId, IValue>,
                              stack: seq<IValue>, func: Result<Function>, entry: CacheEntry,
                              outcome: Outcome, stack': seq<IValue>)
    requires |g.inputs| <= |stack|
  {
    && (func.Ok? <==> Translates(g, registry))
    && (outcome.FellBack? <==> !strict && !Translates(g, registry))
    && (forall i :: 0 <= i < |g.inputs| && i < |entry.inputValues| ==> entry.inputValues[i] == g.inputs[i])
    && (func.Err? ==>
          && entry.runtime.None? && !func.error.FreeVarCount?
          && if strict then outcome == Raised(TranslationError(func.error)) && stack' == stack
             else outcome == FellBack && stack' == interpret(stack))
    && (func.Ok? ==>
          && TranslationOf(g, func.value, entry.inputValues)
          && match build(func.value, ctx.deviceType, device, host)
             case BuildRejected => outcome == Raised(BuildFailed) && stack' == stack && entry.runtime.None?
             case Built(handle, k) =>
               && entry.runtime == Some(Runtime(handle, k))
               && (k != |g.outputs| ==> outcome == Raised(OutputCountMismatch(|g.outputs|, k)) && stack' == stack)
               && (k == |g.outputs| ==>
                     outcome == Ran && (outcome, stack') == Execution(g, entry, bound, stack, |g.inputs|, kernel)))
  }

  /** The translation and build steps of a miss (compiler.cpp:262-293): the entry
      that run leaves in the cache for this signature, the translation result,
      and whether run goes on to execute the entry. When `compiled` is false, run
      ends with `outcome` and `stack'`. Only an entry whose build reported the
      declared number of outputs is executed; every other outcome leaves a
      partial entry behind. */
  method TranslateAndBuild(g: Graph, registry: set<string>, strict: bool, ctx: Context, device: string, host: string,
                           stack: seq<IValue>, build: Builder,
                           interpret: Interpreter)
    returns (entry: CacheEntry, compiled: bool, outcome: Outcome, stack': seq<IValue>, func: Result<Function>)
    requires WellFormed(g) && Acyclic(g)
    // translation succeeds exactly when the subgraph translates
    ensures func.Ok? <==> Translates(g, registry)
    ensures outcome.FellBack? <==> !strict && !Translates(g, registry)
    // the entry's runtime inputs start with the declared inputs on every path
    ensures forall i :: 0 <= i < |g.inputs| && i < |entry.inputValues| ==> entry.inputValues[i] == g.inputs[i]
    ensures func.Err? ==>
      && !compiled && entry.runtime.None? && !func.error.FreeVarCount?
      && (func.error.UnmappedOutput? ==> func.error.value in g.outputs)
      && if strict then outcome == Raised(TranslationError(func.error)) && stack' == stack
         else outcome == FellBack && stack' == interpret(stack)
    // the translation of the subgraph is built, and its runtime inputs recorded
    ensures func.Ok? ==>
      && TranslationOf(g, func.value, entry.inputValues)
      && match build(func.value, ctx.deviceType, device, host)
         case BuildRejected => !compiled && outcome == Raised(BuildFailed) && stack' == stack && entry.runtime.None?
         case Built(handle, k) =>
           && entry.runtime == Some(Runtime(handle, k))
           && (compiled <==> k == |g.outputs|)
           && (!compiled ==> outcome == Raised(OutputCountMismatch(|g.outputs|, k)) && stack' == stack)
    ensures compiled ==> func.Ok? && outcome == Ran && stack' == stack
  {
    var r, vals := ConvertGraph(g, registry);
    func := r;
    entry := CacheEntry(vals, None);
    if r.Err? {
      if strict {
        return entry, false, Raised(TranslationError(r.error)), stack, func;
      }
      return entry, false, FellBack, interpret(stack), func;
    }
    var b := build(r.value, ctx.deviceType, device, host);
    if b.BuildRejected? {
      return entry, false, Raised(BuildFailed), stack, func;
    }
    // the runtime's handles are stored before its output count is checked
    entry := CacheEntry(vals, Some(Runtime(b.handle, b.numOutputs)));
    if |g.outputs| != b.numOutputs {
      return entry, false, Raised(OutputCountMismatch(|g.outputs|, b.numOutputs)), stack, func;
    }
    compiled, outcome, stack' := true, Ran, stack;
  }

  /** value_to_ivalue filled slot by slot (compiler.cpp:244-247). */
  method BindStackInputs(vs: seq<ValueId>, ivs: seq<IValue>) returns (bound: map<ValueId, IValue>)
    requires |vs| == |ivs|
    ensures bound == BoundInputs(vs, ivs)
  {
    bound := map[];
    var i := 0;
    while i < |vs|
      invariant 0 <= i <= |vs|
      invariant bound == BoundInputs(vs[..i], ivs[..i])
    {
      assert vs[..i + 1][..i] == vs[..i];
      assert ivs[..i + 1][..i] == ivs[..i];
      bound := bound[vs[i] := ivs[i]];
      i := i + 1;
    }
    assert vs[..i] == vs && ivs[..i] == ivs;
  }

  // ---------------------------------------------------------------------------
  // Several invocations of one compiled unit

  predicate AllTensors(ivs: seq<IValue>)
  {
    forall i :: 0 <= i < |ivs| ==> ivs[i].ITensor?
  }

  /** Two invocations of a fresh compiled unit whose tensor inputs agree in shape
      and element type: the second finds the entry the first left, so the cache
      ends with a single entry and nothing is translated or built twice. After a
      non-strict fallback, the second call finds that partial entry and raises. */
  method RepeatedSignature(g: Graph, registry: set<string>, strict: bool, s1: seq<IValue>, s2: seq<IValue>,
                           build: Builder,
                           kernel: Kernel, interpret: Interpreter)
    returns (o1: Outcome, o2: Outcome, entries: nat)
    requires WellFormed(g) && Acyclic(g)
    requires |g.inputs| <= |s1| && |g.inputs| <= |s2|
    requires AllTensors(Top(s1, |g.inputs|))
    requires SignatureOf(Top(s1, |g.inputs|)) == SignatureOf(Top(s2, |g.inputs|))
    ensures entries == 1
    ensures o1.FellBack? ==> o2.Raised?
  {
    var c := new TVMCompiler(g, 0, strict, "cpu", "llvm", "llvm", registry);
    var st1, st2;
    ghost var f2;
    o1, st1 := RunMiss(c, s1, build, kernel, interpret);
    assert c.cache == map[SignatureOf(Top(s1, |g.inputs|)) := c.cache[SignatureOf(Top(s1, |g.inputs|))]];
    o2, st2, f2 := c.Run(s2, build, kernel, interpret);
    entries := |c.cache|;
  }

  /** A second invocation whose tensor inputs differ in shape or element type from
      the first's misses the cache and adds an entry of its own beside the first. */
  method DistinctSignatures(g: Graph, registry: set<string>, strict: bool, s1: seq<IValue>, s2: seq<IValue>,
                            build: Builder,
                            kernel: Kernel, interpret: Interpreter)
    returns (o1: Outcome, o2: Outcome, entries: nat)
    requires WellFormed(g) && Acyclic(g)
    requires |g.inputs| <= |s1| && |g.inputs| <= |s2|
    requires AllTensors(Top(s1, |g.inputs|)) && AllTensors(Top(s2, |g.inputs|))
    requires SignatureOf(Top(s1, |g.inputs|)) != SignatureOf(Top(s2, |g.inputs|))
    ensures entries == 2
  {
    var c := new TVMCompiler(g, 0, strict, "cpu", "llvm", "llvm", registry);
    var st1, st2;
    o1, st1 := RunMiss(c, s1, build, kernel, interpret);
    assert c.cache == map[SignatureOf(Top(s1, |g.inputs|)) := c.cache[SignatureOf(Top(s1, |g.inputs|))]];
    o2, st2 := RunMiss(c, s2, build, kernel, interpret);
    entries := |c.cache|;
  }

  /** An invocation on tensor inputs whose signature is not cached adds exactly
      the entry of that signature, and a fallback leaves that entry without a runtime. */
  method RunMiss(c: TVMCompiler, stack: seq<IValue>, build: Builder, kernel: Kernel, interpret: Interpreter)
    returns (outcome: Outcome, stack': seq<IValue>)
    requires c.Valid() && |c.subgraph.inputs| <= |stack| && AllTensors(Top(stack, |c.subgraph.inputs|))
    requires SignatureOf(Top(stack, |c.subgraph.inputs|)) !in c.cache
    modifies c
    ensures c.Valid() && c.subgraph.inputs == old(c.subgraph.inputs)
    ensures var sig := SignatureOf(Top(stack, |c.subgraph.inputs|));
      sig in c.cache && c.cache == old(c.cache)[sig := c.cache[sig]]
      && (outcome.FellBack? ==> c.cache[sig].runtime.None?)
  {
    BoundTensors(c.subgraph.inputs, Top(stack, |c.subgraph.inputs|));
    ghost var f;
    outcome, stack', f := c.Run(stack, build, kernel, interpret);
  }

  lemma BoundTensors(vs: seq<ValueId>, ivs: seq<IValue>)
    requires |vs| == |ivs| && AllTensors(ivs)
    ensures BoundAreTensors(BoundInputs(vs, ivs))
  {
  }
}
