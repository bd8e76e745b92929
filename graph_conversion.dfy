/** The Graph overload of TVMCompiler::convertToRelay: a breadth-first walk from
    the subgraph's inputs that translates every node whose inputs are all known,
    then packs the declared outputs into the body of a Relay function. */
module GraphConversion {
  import opened Jit
  import opened Relay
  import opened Errors
  import opened TypeMapping
  import opened ValueConversion
  import opened Reachability

  /** The walk's state: value_map, input_vars and *input_values. */
  datatype TState = TState(valueMap: map<ValueId, Expr>, inputVars: seq<Expr>, inputValues: seq<ValueId>)

  /** The outcome of resolving a node's inputs: the Relay arguments, a skip
      (some input is neither mapped nor constant), or a failed constant conversion. */
  datatype Resolution = Resolved(args: seq<Expr>) | Skipped | Failed(error: Error)

  /** getOperator, from the operator table (operators.h is not part of this
      model): the uninterpreted expression Call(n, args) for the node kinds the
      table supports, an error for every other kind. */
  function GetOperator(g: Graph, registry: set<string>, n: NodeId, args: seq<Expr>): (r: Result<Expr>)
    requires n < |g.nodes|
    ensures r.Ok? <==> g.nodes[n].kind in registry
    ensures r.Ok? ==> r.value == Call(n, args)
    ensures r.Err? ==> r.error == UnsupportedOperator(n)
  {
    if g.nodes[n].kind in registry then Ok(Call(n, args)) else Err(UnsupportedOperator(n))
  }

  // ---------------------------------------------------------------------------
  // What a correct translation is

  /** e is a faithful translation of value v, given the runtime inputs vals:
      - a variable for a runtime input, as the placeholder conversion builds it;
      - the operator call of the single-output node producing v, applied to
        translations of that node's inputs, in order;
      - projection k of the operator call of a multi-output node whose k-th
        output is v;
      - the constant conversion of a non-tensor constant v. */
  ghost predicate Denotes(g: Graph, vals: seq<ValueId>, v: ValueId, e: Expr)
    decreases e
  {
    match e
    case Var(id, _, _) => id == v && v in vals && ConvertPlaceholder(g, v) == Ok(e)
    case Call(n, args) =>
      && n < |g.nodes| && g.nodes[n].outputs == [v]
      && |args| == |g.nodes[n].inputs|
      && forall j :: 0 <= j < |args| ==> Denotes(g, vals, g.nodes[n].inputs[j], args[j])
    case TupleGetItem(t, k) =>
      && t.Call? && t.node < |g.nodes|
      && |g.nodes[t.node].outputs| >= 2 && k < |g.nodes[t.node].outputs| && g.nodes[t.node].outputs[k] == v
      && |t.args| == |g.nodes[t.node].inputs|
      && forall j :: 0 <= j < |t.args| ==> Denotes(g, vals, g.nodes[t.node].inputs[j], t.args[j])
    case _ => v in g.constants && !g.constants[v].ITensor? && ConvertConstant(g.constants[v]) == Ok(e)
  }

  /** input_vars and input_values correspond index by index. */
  ghost predicate Lockstep(g: Graph, vars: seq<Expr>, vals: seq<ValueId>)
  {
    && |vars| == |vals|
    && forall i :: 0 <= i < |vals| ==> ConvertPlaceholder(g, vals[i]) == Ok(vars[i])
  }

  ghost predicate AllDenote(g: Graph, vals: seq<ValueId>, vm: map<ValueId, Expr>)
  {
    forall v :: v in vm ==> Denotes(g, vals, v, vm[v])
  }

  /** The invariant of the walk's state. */
  ghost predicate Inv(g: Graph, s: TState)
  {
    && Lockstep(g, s.inputVars, s.inputValues)
    && AllDenote(g, s.inputValues, s.valueMap)
    && forall i :: 0 <= i < |s.inputValues| ==> s.inputValues[i] in s.valueMap
  }

  /** The runtime inputs are the declared inputs, in order, followed by tensor
      constants, each recorded once. */
  ghost predicate InputsRecorded(g: Graph, vals: seq<ValueId>)
  {
    && |g.inputs| <= |vals| && vals[..|g.inputs|] == g.inputs
    && (forall j :: |g.inputs| <= j < |vals| ==> vals[j] in g.constants && g.constants[vals[j]].ITensor?)
    && (forall i, j :: 0 <= i < j < |vals| && |g.inputs| <= j ==> vals[i] != vals[j])
  }

  /** f is a translation of the subgraph with runtime inputs vals: the runtime
      inputs are the declared inputs followed by exactly the tensor constants the
      walk meets, each once; the parameters are their variables, in order; the
      body has one faithful field per declared output; every free variable is a
      parameter. */
  ghost predicate TranslationOf(g: Graph, f: Function, vals: seq<ValueId>)
  {
    && InputsRecorded(g, vals)
    && (forall j :: |g.inputs| <= j < |vals| ==> ConstMapped(g, Closure(g), vals[j]))
    && (forall v :: v in g.constants && g.constants[v].ITensor? && ConstMapped(g, Closure(g), v) ==> v in vals)
    && Lockstep(g, f.params, vals)
    && f.body.Tuple? && |f.body.fields| == |g.outputs|
    && (forall i :: 0 <= i < |g.outputs| ==> Denotes(g, vals, g.outputs[i], f.body.fields[i]))
    && (forall x :: x in FreeVars(f.body) ==> x in f.params)
  }

  /** s' grew from s: the runtime inputs only got longer and no key left value_map. */
  ghost predicate Extends(s: TState, s': TState)
  {
    && s.inputValues <= s'.inputValues
    && s.inputVars <= s'.inputVars
    && s.valueMap.Keys <= s'.valueMap.Keys
  }

  lemma {:induction false} DenotesMono(g: Graph, vals: seq<ValueId>, vals': seq<ValueId>, v: ValueId, e: Expr)
    requires forall x :: x in vals ==> x in vals'
    requires Denotes(g, vals, v, e)
    ensures Denotes(g, vals', v, e)
    decreases e
  {
    match e
    case Var(_, _, _) =>
    case Call(n, args) =>
      forall j | 0 <= j < |args| ensures Denotes(g, vals', g.nodes[n].inputs[j], args[j]) {
        DenotesMono(g, vals, vals', g.nodes[n].inputs[j], args[j]);
      }
    case TupleGetItem(t, k) =>
      forall j | 0 <= j < |t.args| ensures Denotes(g, vals', g.nodes[t.node].inputs[j], t.args[j]) {
        DenotesMono(g, vals, vals', g.nodes[t.node].inputs[j], t.args[j]);
      }
    case _ =>
  }

  lemma AllDenoteMono(g: Graph, vals: seq<ValueId>, vals': seq<ValueId>, vm: map<ValueId, Expr>)
    requires forall x :: x in vals ==> x in vals'
    requires AllDenote(g, vals, vm)
    ensures AllDenote(g, vals', vm)
  {
    forall v | v in vm ensures Denotes(g, vals', v, vm[v]) {
      DenotesMono(g, vals, vals', v, vm[v]);
    }
  }

  /** A faithful translation mentions only variables among the runtime inputs. */
  lemma {:induction false} DenotedFreeVars(g: Graph, vars: seq<Expr>, vals: seq<ValueId>, v: ValueId, e: Expr)
    requires Lockstep(g, vars, vals)
    requires Denotes(g, vals, v, e)
    ensures forall x :: x in FreeVars(e) ==> x in vars
    decreases e
  {
    match e
    case Var(_, _, _) =>
      var i :| 0 <= i < |vals| && vals[i] == v;
      assert vars[i] == e;
    case Call(n, args) =>
      forall j | 0 <= j < |args| ensures forall x :: x in FreeVars(args[j]) ==> x in vars {
        DenotedFreeVars(g, vars, vals, g.nodes[n].inputs[j], args[j]);
      }
    case TupleGetItem(t, k) =>
      forall j | 0 <= j < |t.args| ensures forall x :: x in FreeVars(t.args[j]) ==> x in vars {
        DenotedFreeVars(g, vars, vals, g.nodes[t.node].inputs[j], t.args[j]);
      }
    case _ =>
  }

  lemma {:induction false} CardOfElements<T>(s: seq<T>)
    ensures |set x | x in s| <= |s|
  {
    if s != [] {
      var last := s[|s| - 1];
      var init := s[..|s| - 1];
      CardOfElements(init);
      assert (set x | x in s) == (set x | x in init) + {last} by {
        assert s == init + [last];
      }
    }
  }

  lemma CardOfSubset<T>(a: set<T>, b: set<T>)
    requires a <= b
    ensures |a| <= |b|
  {
    assert b == a + (b - a);
  }

  /** A value with a faithful translation is never a constant whose conversion fails. */
  lemma DenotedConverts(g: Graph, s: TState)
    requires WellFormed(g) && AllDenote(g, s.inputValues, s.valueMap)
    ensures forall v :: v in s.valueMap ==> !ConstantFails(g, v)
  {
    forall v | v in s.valueMap ensures !ConstantFails(g, v) {
      var e := s.valueMap[v];
      assert Denotes(g, s.inputValues, v, e);
      match e
      case Call(n, _) => assert g.nodes[n].outputs[0] == v;
      case TupleGetItem(t, k) => assert g.nodes[t.node].outputs[k] == v;
      case _ =>
    }
  }

  /** A mapped tensor constant is mapped to its variable, so it is a runtime input. */
  lemma MappedTensorConstants(g: Graph, s: TState)
    requires WellFormed(g) && AllDenote(g, s.inputValues, s.valueMap)
    ensures forall v :: v in s.valueMap && v in g.constants && g.constants[v].ITensor? ==> v in s.inputValues
  {
    forall v | v in s.valueMap ensures v in g.constants && g.constants[v].ITensor? ==> v in s.inputValues {
      var e := s.valueMap[v];
      assert Denotes(g, s.inputValues, v, e);
      match e
      case Call(n, _) => assert g.nodes[n].outputs[0] == v;
      case TupleGetItem(t, k) => assert g.nodes[t.node].outputs[k] == v;
      case _ =>
    }
  }

  /** After a walk that settled every visited node, the runtime inputs past the
      declared ones are exactly the tensor constants some visit of the closure
      reads before its first unavailable input. */
  lemma RecordedConstants(g: Graph, registry: set<string>, s: TState)
    requires WellFormed(g) && Inv(g, s) && InputsRecorded(g, s.inputValues)
    requires Sound(g, s.valueMap.Keys)
    requires forall i :: 0 <= i < |g.inputs| ==> g.inputs[i] in s.valueMap
    requires forall n :: 0 <= n < |g.nodes| && Reached(g, s.valueMap.Keys, g.nodes[n]) ==>
      SettledFrom(g, registry, s.valueMap.Keys, s.valueMap.Keys, g.nodes[n])
    ensures forall j :: |g.inputs| <= j < |s.inputValues| ==> ConstMapped(g, Closure(g), s.inputValues[j])
    ensures forall v :: v in g.constants && g.constants[v].ITensor? && ConstMapped(g, Closure(g), v) ==>
      v in s.inputValues
  {
    forall j | |g.inputs| <= j < |s.inputValues| ensures ConstMapped(g, Closure(g), s.inputValues[j]) {
      assert s.inputValues[j] in s.valueMap.Keys;
    }
    MappedTensorConstants(g, s);
    forall v | v in g.constants && g.constants[v].ITensor? && ConstMapped(g, Closure(g), v)
      ensures v in s.inputValues
    {
      if v !in s.valueMap {
        UnmappedOutside(g, registry, s.valueMap.Keys, v);
      }
    }
  }

  /** Resolution that mapped every input before position j, and stopped at j on
      an input that is neither mapped nor constant (or ran to the end), met no
      failing constant. */
  lemma NoFailureBefore(g: Graph, K: set<ValueId>, K': set<ValueId>, ins: seq<ValueId>, j: nat)
    requires K <= K' && j <= |ins|
    requires forall k :: 0 <= k < j ==> ins[k] in K'
    requires forall v :: v in K' ==> !ConstantFails(g, v)
    requires j < |ins| ==> ins[j] !in K && ins[j] !in g.constants
    ensures !PrefixFails(g, K, ins)
    ensures forall k :: 0 <= k < |ins| && ins[k] in g.constants && PrefixAvail(g, K, ins, k) ==> ins[k] in K'
  {
    forall k | 0 <= k < |ins| && ins[k] in g.constants && PrefixAvail(g, K, ins, k) ensures k < j {
      assert k > j ==> Avail(g, K, ins[j]);
    }
  }

  // ---------------------------------------------------------------------------
  // The walk

  /** Errors a single node's translation can raise: conversion of a placeholder
      or a constant, or an operator the table does not support. */
  predicate NodeError(e: Error)
  {
    e.UnsupportedType? || e.IncompleteType? || e.NotATensor? || e.IntOutOfRange? ||
    e.DoubleOutOfRange? || e.UnsupportedConstant? || e.UnsupportedOperator?
  }

  datatype InputStatus = Mapped | Unresolvable | ConversionFailed(error: Error)

  /** Mapping a value to one of its faithful translations keeps the invariant. */
  lemma AddDenoted(g: Graph, s: TState, v: ValueId, e: Expr)
    requires Inv(g, s) && Denotes(g, s.inputValues, v, e)
    ensures Inv(g, s.(valueMap := s.valueMap[v := e]))
  {
  }

  /** A new runtime input mapped to its variable keeps the invariant. */
  lemma AddRuntimeInput(g: Graph, s: TState, x: ValueId, p: Expr)
    requires Inv(g, s) && ConvertPlaceholder(g, x) == Ok(p)
    ensures Inv(g, TState(s.valueMap[x := p], s.inputVars + [p], s.inputValues + [x]))
  {
    var vals := s.inputValues + [x];
    AllDenoteMono(g, s.inputValues, vals, s.valueMap);
    assert Denotes(g, vals, x, p);
  }

  /** Recording an unmapped tensor constant as a new runtime input keeps the
      state invariant and the shape of the runtime input list. */
  lemma RecordTensorConstant(g: Graph, s: TState, x: ValueId, p: Expr)
    requires Inv(g, s) && InputsRecorded(g, s.inputValues)
    requires x !in s.valueMap && x in g.constants && g.constants[x].ITensor?
    requires ConvertPlaceholder(g, x) == Ok(p)
    ensures var s' := TState(s.valueMap[x := p], s.inputVars + [p], s.inputValues + [x]);
      Inv(g, s') && InputsRecorded(g, s'.inputValues)
  {
    var vals := s.inputValues + [x];
    AddRuntimeInput(g, s, x, p);
    assert x !in s.inputValues;
    assert vals[..|g.inputs|] == s.inputValues[..|g.inputs|];
  }

  /** Resolves one input x of a consumer node (compiler.cpp:143-161): a mapped
      input is kept; an unmapped tensor constant is recorded as a runtime input and
      then converted to a variable; an unmapped non-tensor constant is converted;
      anything else cannot be resolved yet. */
  method ResolveInput(g: Graph, s: TState, x: ValueId) returns (status: InputStatus, s': TState)
    requires Inv(g, s) && InputsRecorded(g, s.inputValues)
    ensures Extends(s, s')
    ensures forall v :: v in s.valueMap ==> s'.valueMap[v] == s.valueMap[v]
    ensures s'.valueMap.Keys <= s.valueMap.Keys + {x}
    ensures x in s.valueMap ==> status.Mapped? && s' == s
    ensures !status.ConversionFailed? ==> Inv(g, s') && InputsRecorded(g, s'.inputValues)
    ensures status.Mapped? ==> x in s'.valueMap && (x in s.valueMap || x in g.constants)
    ensures status.Unresolvable? <==> x !in s.valueMap && x !in g.constants
    ensures status.Unresolvable? ==> s' == s
    ensures status.ConversionFailed? ==>
      && x !in s.valueMap && x in g.constants && NodeError(status.error)
      && (if g.constants[x].ITensor? then ConvertPlaceholder(g, x) == Err(status.error)
          else ConvertConstant(g.constants[x]) == Err(status.error))
    // a tensor constant stays recorded as a runtime input although it maps to nothing
    ensures status.ConversionFailed? ==>
      && s'.valueMap == s.valueMap && s'.inputVars == s.inputVars
      && s'.inputValues == s.inputValues + (if g.constants[x].ITensor? then [x] else [])
  {
    s' := s;
    if x in s.valueMap {
      return Mapped, s';
    }
    if x !in g.constants {
      return Unresolvable, s';
    }
    var c := g.constants[x];
    if c.ITensor? {
      // the value is recorded before its conversion is attempted
      s' := s'.(inputValues := s.inputValues + [x]);
      var p := ConvertPlaceholder(g, x);
      if p.Err? {
        return ConversionFailed(p.error), s';
      }
      s' := TState(s.valueMap[x := p.value], s.inputVars + [p.value], s.inputValues + [x]);
      RecordTensorConstant(g, s, x, p.value);
    } else {
      var e := ConvertConstant(c);
      if e.Err? {
        return ConversionFailed(e.error), s';
      }
      assert Denotes(g, s.inputValues, x, e.value);
      AddDenoted(g, s, x, e.value);
      s' := s.(valueMap := s.valueMap[x := e.value]);
    }
    status := Mapped;
  }

  /** Resolves the inputs of one consumer node in order (compiler.cpp:142-163);
      the first input that cannot be resolved stops the node with a skip, after the
      inputs before it have been resolved. */
  method ResolveInputs(g: Graph, s: TState, ins: seq<ValueId>) returns (res: Resolution, s': TState)
    requires WellFormed(g)
    requires Inv(g, s) && InputsRecorded(g, s.inputValues)
    ensures Extends(s, s')
    ensures forall v :: v in s.valueMap ==> s'.valueMap[v] == s.valueMap[v]
    // only constants read before the first unavailable input get mapped
    ensures forall v :: v in s'.valueMap && v !in s.valueMap ==>
      v in g.constants && exists j :: 0 <= j < |ins| && ins[j] == v && PrefixAvail(g, s.valueMap.Keys, ins, j)
    // and all of them do, unless a conversion failed
    ensures !res.Failed? ==>
      forall j :: 0 <= j < |ins| && ins[j] in g.constants && PrefixAvail(g, s.valueMap.Keys, ins, j) ==>
        ins[j] in s'.valueMap
    ensures res.Failed? <==> PrefixFails(g, s.valueMap.Keys, ins)
    ensures !res.Failed? ==> Inv(g, s') && InputsRecorded(g, s'.inputValues)
    ensures res.Resolved? ==>
      && |res.args| == |ins|
      && (forall j :: 0 <= j < |ins| ==> ins[j] in s'.valueMap && res.args[j] == s'.valueMap[ins[j]])
    ensures res.Resolved? ==> forall j :: 0 <= j < |ins| ==> ins[j] in s.valueMap || ins[j] in g.constants
    ensures res.Skipped? ==> exists j :: 0 <= j < |ins| && ins[j] !in s.valueMap && ins[j] !in g.constants
    ensures res.Failed? ==>
      && NodeError(res.error)
      && exists j :: 0 <= j < |ins| && ins[j] !in s.valueMap && ins[j] in g.constants &&
           (if g.constants[ins[j]].ITensor? then ConvertPlaceholder(g, ins[j]) == Err(res.error)
            else ConvertConstant(g.constants[ins[j]]) == Err(res.error))
  {
    ghost var K := s.valueMap.Keys;
    s' := s;
    var args: seq<Expr> := [];
    var j := 0;
    while j < |ins|
      invariant 0 <= j <= |ins|
      invariant Extends(s, s')
      invariant forall v :: v in s.valueMap ==> s'.valueMap[v] == s.valueMap[v]
      invariant forall v :: v in s'.valueMap && v !in s.valueMap ==>
        v in g.constants && exists k :: 0 <= k < j && ins[k] == v && PrefixAvail(g, K, ins, k)
      invariant Inv(g, s') && InputsRecorded(g, s'.inputValues)
      invariant |args| == j
      invariant forall k :: 0 <= k < j ==> ins[k] in s'.valueMap && args[k] == s'.valueMap[ins[k]]
      invariant forall k :: 0 <= k < j ==> ins[k] in s.valueMap || ins[k] in g.constants
    {
      var x := ins[j];
      var status;
      ghost var before := s';
      status, s' := ResolveInput(g, s', x);
      match status
      case Unresolvable =>
        assert ins[j] !in s.valueMap && ins[j] !in g.constants;
        DenotedConverts(g, s');
        NoFailureBefore(g, K, s'.valueMap.Keys, ins, j);
        return Skipped, s';
      case ConversionFailed(e) =>
        assert ins[j] !in s.valueMap && ins[j] in g.constants;
        assert ConstantFails(g, ins[j]) && PrefixAvail(g, K, ins, j);
        return Failed(e), s';
      case Mapped =>
      ghost var args0 := args;
      args := args + [s'.valueMap[x]];
      forall k | 0 <= k < j + 1 ensures ins[k] in s'.valueMap && args[k] == s'.valueMap[ins[k]] {
        if k < j {
          assert ins[k] in before.valueMap && args[k] == args0[k];
        }
      }
      j := j + 1;
    }
    DenotedConverts(g, s');
    NoFailureBefore(g, K, s'.valueMap.Keys, ins, j);
    res := Resolved(args);
  }

  /** Translates one consumer node (compiler.cpp:139-186). A node whose inputs do
      not all resolve is skipped; a node without outputs is skipped; a node with one
      output maps it to the operator expression; a node with k outputs maps output i
      to projection i of that expression. The outputs mapped are returned, to join
      the next frontier. */
  method TranslateUse(g: Graph, registry: set<string>, s: TState, n: NodeId)
    returns (res: Result<seq<ValueId>>, s': TState)
    requires WellFormed(g) && n < |g.nodes|
    requires Inv(g, s) && InputsRecorded(g, s.inputValues)
    ensures Extends(s, s')
    ensures res.Ok? ==> Inv(g, s') && InputsRecorded(g, s'.inputValues)
    ensures res.Ok? ==> res.value == [] || res.value == g.nodes[n].outputs
    ensures res.Ok? ==> forall o :: o in res.value ==> o in s'.valueMap
    ensures res.Ok? ==>
      (res.value != [] <==>
        |g.nodes[n].outputs| >= 1 &&
        forall j :: 0 <= j < |g.nodes[n].inputs| ==> g.nodes[n].inputs[j] in s.valueMap || g.nodes[n].inputs[j] in g.constants)
    ensures res.Ok? && res.value != [] && |g.nodes[n].outputs| == 1 ==>
      var e := s'.valueMap[g.nodes[n].outputs[0]];
      e.Call? && e.node == n
    ensures res.Ok? && |res.value| >= 2 ==>
      var e := s'.valueMap[g.nodes[n].outputs[0]];
      e.TupleGetItem? && e.tuple.Call? && e.tuple.node == n &&
      forall i :: 0 <= i < |res.value| ==> s'.valueMap[res.value[i]] == TupleGetItem(e.tuple, i)
    ensures res.Err? ==> NodeError(res.error)
    ensures res.Err? && res.error == UnsupportedOperator(n) ==> g.nodes[n].kind !in registry
    // the visit raises exactly when a constant input fails to convert, or the
    // inputs all resolve and the operator table lacks the kind
    ensures res.Err? <==> Breaks(g, registry, s.valueMap.Keys, g.nodes[n])
    ensures res.Ok? ==> SettledFrom(g, registry, s.valueMap.Keys, s'.valueMap.Keys, g.nodes[n])
    // what the visit maps: constant inputs before the first unavailable one, and
    // the outputs once every input is available
    ensures forall v :: v in s'.valueMap && v !in s.valueMap && v in g.constants ==>
      exists j :: 0 <= j < |g.nodes[n].inputs| && g.nodes[n].inputs[j] == v &&
        PrefixAvail(g, s.valueMap.Keys, g.nodes[n].inputs, j)
    ensures forall v :: v in s'.valueMap && v !in s.valueMap && v !in g.constants ==>
      res.Ok? && v in res.value && Ready(g, s.valueMap.Keys, g.nodes[n])
  {
    var node := g.nodes[n];
    var rsl;
    rsl, s' := ResolveInputs(g, s, node.inputs);
    if rsl.Failed? {
      return Err(rsl.error), s';
    }
    if rsl.Skipped? {
      return Ok([]), s';
    }
    var args := rsl.args;
    // things like prim::Return
    if |node.outputs| < 1 {
      return Ok([]), s';
    }
    var op := GetOperator(g, registry, n, args);
    if op.Err? {
      return Err(op.error), s';
    }
    assert Denotes(g, s'.inputValues, node.outputs[0], op.value) || |node.outputs| != 1;
    if |node.outputs| == 1 {
      AddDenoted(g, s', node.outputs[0], op.value);
      s' := s'.(valueMap := s'.valueMap[node.outputs[0] := op.value]);
      return Ok([node.outputs[0]]), s';
    }
    var pushed;
    pushed, s' := MapOutputs(g, s', n, op.value);
    return Ok(pushed), s';
  }

  /** Maps output i of multi-output node n to projection i of its operator
      call (compiler.cpp:177-183). */
  method MapOutputs(g: Graph, s: TState, n: NodeId, call: Expr) returns (pushed: seq<ValueId>, s': TState)
    requires WellFormed(g) && n < |g.nodes| && |g.nodes[n].outputs| >= 2
    requires Inv(g, s) && InputsRecorded(g, s.inputValues)
    requires call.Call? && call.node == n && |call.args| == |g.nodes[n].inputs|
    requires forall j :: 0 <= j < |call.args| ==> Denotes(g, s.inputValues, g.nodes[n].inputs[j], call.args[j])
    ensures s'.inputValues == s.inputValues && s'.inputVars == s.inputVars && s.valueMap.Keys <= s'.valueMap.Keys
    ensures Inv(g, s')
    ensures pushed == g.nodes[n].outputs
    ensures forall i :: 0 <= i < |pushed| ==> pushed[i] in s'.valueMap && s'.valueMap[pushed[i]] == TupleGetItem(call, i)
    ensures forall v :: v in s'.valueMap ==> v in s.valueMap || v in pushed
  {
    var outputs := g.nodes[n].outputs;
    var vm := s.valueMap;
    pushed := [];
    var index := 0;
    while index < |outputs|
      invariant 0 <= index <= |outputs|
      invariant s.valueMap.Keys <= vm.Keys
      invariant AllDenote(g, s.inputValues, vm)
      invariant pushed == outputs[..index]
      invariant forall i :: 0 <= i < index ==> outputs[i] in vm && vm[outputs[i]] == TupleGetItem(call, i)
      invariant forall v :: v in vm ==> v in s.valueMap || v in pushed
    {
      var o := outputs[index];
      assert Denotes(g, s.inputValues, o, TupleGetItem(call, index));
      assert forall i :: 0 <= i < index ==> outputs[i] != o;
      vm := vm[o := TupleGetItem(call, index)];
      pushed := pushed + [o];
      index := index + 1;
    }
    s' := s.(valueMap := vm);
  }

  /** How one visit, from mapped set Kb to Ka, extends the uses a value's loop
      has covered since its round started from K0. */
  lemma AfterVisit(g: Graph, registry: set<string>, K0: set<ValueId>, Kb: set<ValueId>, Ka: set<ValueId>,
                   uses: seq<NodeId>, ui: nat)
    requires K0 <= Kb <= Ka && ui < |uses| && uses[ui] < |g.nodes|
    requires CoveredUpTo(g, registry, K0, Kb, uses, ui)
    requires SettledFrom(g, registry, Kb, Ka, g.nodes[uses[ui]])
    ensures CoveredUpTo(g, registry, K0, Ka, uses, ui + 1)
  {
    CoveredUpToGrow(g, registry, K0, Kb, Ka, uses, ui);
    SettledEarlier(g, registry, K0, Kb, Ka, g.nodes[uses[ui]]);
  }

  /** A visit of a node reached from Kb keeps the mapped set sound: the constants
      it maps are read before its first unavailable input, the other values it
      maps are its outputs, and only once every input is available. */
  lemma SoundVisit(g: Graph, registry: set<string>, Kb: set<ValueId>, Ka: set<ValueId>, n: NodeId)
    requires n < |g.nodes| && Kb <= Ka
    requires Sound(g, Kb) && Reached(g, Kb, g.nodes[n])
    requires forall v :: v in Ka && v !in Kb && v in g.constants ==>
      exists j :: 0 <= j < |g.nodes[n].inputs| && g.nodes[n].inputs[j] == v && PrefixAvail(g, Kb, g.nodes[n].inputs, j)
    requires forall v :: v in Ka && v !in Kb && v !in g.constants ==>
      v in g.nodes[n].outputs && Ready(g, Kb, g.nodes[n])
    ensures Sound(g, Ka)
  {
    var C := Closure(g);
    var node := g.nodes[n];
    SoundAvail(g, registry, Kb, node);
    if Ready(g, Kb, node) {
      ClosureStep(g, n);
    }
    forall v | v in Ka && v !in Kb ensures if v in g.constants then ConstMapped(g, C, v) else v in C {
      if v in g.constants {
        var j :| 0 <= j < |node.inputs| && node.inputs[j] == v && PrefixAvail(g, Kb, node.inputs, j);
        assert PrefixAvail(g, C, node.inputs, j);
      } else {
        var k :| 0 <= k < |node.outputs| && node.outputs[k] == v;
      }
    }
  }

  /** The visit of use ui of a frontier value (compiler.cpp:139-186), with what
      it means for the round: the mapped set stays sound, the uses covered grow
      by one, and a failure is a visited node that breaks. */
  method VisitUse(g: Graph, registry: set<string>, s: TState, value: ValueId, ghost K0: set<ValueId>,
                  uses: seq<NodeId>, ui: nat, ghost rank: ValueId -> nat, ghost bound: nat, ghost lo: nat)
    returns (res: Result<seq<ValueId>>, s': TState)
    requires WellFormed(g) && Ranked(g, rank, bound)
    requires Inv(g, s) && InputsRecorded(g, s.inputValues) && Sound(g, s.valueMap.Keys)
    requires K0 <= s.valueMap.Keys
    requires value in s.valueMap && value !in g.constants && rank(value) >= lo
    requires ui < |uses| && uses[ui] < |g.nodes| && value in g.nodes[uses[ui]].inputs
    requires CoveredUpTo(g, registry, K0, s.valueMap.Keys, uses, ui)
    ensures Extends(s, s')
    ensures Sound(g, s'.valueMap.Keys)
    ensures res.Ok? ==> Inv(g, s') && InputsRecorded(g, s'.inputValues)
    ensures res.Ok? ==> forall v :: v in res.value ==> v in s'.valueMap && v !in g.constants && rank(v) > lo
    ensures res.Ok? ==> forall v :: v in s'.valueMap && v !in s.valueMap && v !in g.constants ==> v in res.value
    ensures res.Ok? ==> CoveredUpTo(g, registry, K0, s'.valueMap.Keys, uses, ui + 1)
    ensures res.Err? ==> NodeError(res.error) && SomeBreak(g, registry, s'.valueMap.Keys)
  {
    var n := uses[ui];
    ghost var j :| 0 <= j < |g.nodes[n].inputs| && g.nodes[n].inputs[j] == value;
    assert Reached(g, s.valueMap.Keys, g.nodes[n]);
    res, s' := TranslateUse(g, registry, s, n);
    SoundVisit(g, registry, s.valueMap.Keys, s'.valueMap.Keys, n);
    if res.Err? {
      Grow(g, registry, s.valueMap.Keys, s'.valueMap.Keys, g.nodes[n]);
      return;
    }
    forall o | o in res.value ensures rank(o) > lo && o !in g.constants {
      assert value in g.nodes[n].inputs && o in g.nodes[n].outputs;
    }
    AfterVisit(g, registry, K0, s.valueMap.Keys, s'.valueMap.Keys, uses, ui);
  }

  /** The uses of one frontier value, in order (compiler.cpp:138-188): each use is
      translated; the outputs mapped are collected for the next frontier. Every
      use is settled from the round's starting point K0 or reads a value mapped
      since; a failure is a visited node that breaks. */
  method TranslateUses(g: Graph, registry: set<string>, s: TState, value: ValueId, ghost K0: set<ValueId>,
                       ghost rank: ValueId -> nat, ghost bound: nat, ghost lo: nat)
    returns (res: Result<seq<ValueId>>, s': TState)
    requires WellFormed(g) && Ranked(g, rank, bound)
    requires Inv(g, s) && InputsRecorded(g, s.inputValues) && Sound(g, s.valueMap.Keys)
    requires K0 <= s.valueMap.Keys
    requires value in s.valueMap && value !in g.constants && rank(value) >= lo
    ensures Extends(s, s')
    ensures Sound(g, s'.valueMap.Keys)
    ensures res.Ok? ==> Inv(g, s') && InputsRecorded(g, s'.inputValues)
    ensures res.Ok? ==> forall v :: v in res.value ==> v in s'.valueMap && v !in g.constants && rank(v) > lo
    ensures res.Ok? ==> forall v :: v in s'.valueMap && v !in s.valueMap && v !in g.constants ==> v in res.value
    ensures res.Ok? ==> Handled(g, registry, K0, s'.valueMap.Keys, value)
    ensures res.Err? ==> NodeError(res.error)
    ensures res.Err? ==> SomeBreak(g, registry, s'.valueMap.Keys)
  {
    s' := s;
    var mapped: seq<ValueId> := [];
    var uses := Uses(g, value);
    var ui := 0;
    while ui < |uses|
      invariant 0 <= ui <= |uses|
      invariant Extends(s, s')
      invariant Inv(g, s') && InputsRecorded(g, s'.inputValues) && Sound(g, s'.valueMap.Keys)
      invariant forall v :: v in mapped ==> v in s'.valueMap && v !in g.constants && rank(v) > lo
      invariant forall v :: v in s'.valueMap && v !in s.valueMap && v !in g.constants ==> v in mapped
      invariant CoveredUpTo(g, registry, K0, s'.valueMap.Keys, uses, ui)
    {
      var r;
      r, s' := VisitUse(g, registry, s', value, K0, uses, ui, rank, bound, lo);
      if r.Err? {
        return Err(r.error), s';
      }
      mapped := mapped + r.value;
      ui := ui + 1;
    }
    res := Ok(mapped);
  }

  /** The uses of frontier value fi within a round that started from K0: on
      success the first fi + 1 frontier values are handled. */
  method TranslateFrontierValue(g: Graph, registry: set<string>, s: TState, frontier: seq<ValueId>, fi: nat,
                                ghost K0: set<ValueId>, ghost rank: ValueId -> nat, ghost bound: nat, ghost lo: nat)
    returns (res: Result<seq<ValueId>>, s': TState)
    requires WellFormed(g) && Ranked(g, rank, bound)
    requires Inv(g, s) && InputsRecorded(g, s.inputValues) && Sound(g, s.valueMap.Keys)
    requires K0 <= s.valueMap.Keys && fi < |frontier|
    requires frontier[fi] in s.valueMap && frontier[fi] !in g.constants && rank(frontier[fi]) >= lo
    requires HandledUpTo(g, registry, K0, s.valueMap.Keys, frontier, fi)
    ensures Extends(s, s')
    ensures Sound(g, s'.valueMap.Keys)
    ensures res.Ok? ==> Inv(g, s') && InputsRecorded(g, s'.inputValues)
    ensures res.Ok? ==> forall v :: v in res.value ==> v in s'.valueMap && v !in g.constants && rank(v) > lo
    ensures res.Ok? ==> forall v :: v in s'.valueMap && v !in s.valueMap && v !in g.constants ==> v in res.value
    ensures res.Ok? ==> HandledUpTo(g, registry, K0, s'.valueMap.Keys, frontier, fi + 1)
    ensures res.Err? ==> NodeError(res.error) && SomeBreak(g, registry, s'.valueMap.Keys)
  {
    res, s' := TranslateUses(g, registry, s, frontier[fi], K0, rank, bound, lo);
    if res.Ok? {
      HandledSnoc(g, registry, K0, s.valueMap.Keys, s'.valueMap.Keys, frontier, fi);
    }
  }

  /** One round of the walk (compiler.cpp:136-189): the uses of every frontier
      value, in order, are translated; the outputs mapped form the next frontier.
      Every use of the frontier is settled by the round or reads a value the
      round mapped; a failure is a visited node that breaks. The ghost rank
      shows that the next frontier lies strictly higher. */
  method TranslateRound(g: Graph, registry: set<string>, s: TState, frontier: seq<ValueId>,
                        ghost rank: ValueId -> nat, ghost bound: nat, ghost lo: nat)
    returns (res: Result<seq<ValueId>>, s': TState)
    requires WellFormed(g) && Ranked(g, rank, bound)
    requires Inv(g, s) && InputsRecorded(g, s.inputValues)
    requires forall v :: v in frontier ==> rank(v) >= lo && v in s.valueMap && v !in g.constants
    requires Sound(g, s.valueMap.Keys)
    ensures Extends(s, s')
    ensures Sound(g, s'.valueMap.Keys)
    ensures res.Ok? ==> Inv(g, s') && InputsRecorded(g, s'.inputValues)
    ensures res.Ok? ==> forall v :: v in res.value ==> v in s'.valueMap && v !in g.constants && rank(v) > lo
    ensures res.Ok? ==> forall v :: v in s'.valueMap && v !in s.valueMap && v !in g.constants ==> v in res.value
    ensures res.Ok? ==> HandledUpTo(g, registry, s.valueMap.Keys, s'.valueMap.Keys, frontier, |frontier|)
    ensures res.Err? ==> NodeError(res.error)
    ensures res.Err? ==> SomeBreak(g, registry, s'.valueMap.Keys)
  {
    ghost var K0 := s.valueMap.Keys;
    s' := s;
    var newFrontier: seq<ValueId> := [];
    var fi := 0;
    while fi < |frontier|
      invariant 0 <= fi <= |frontier|
      invariant Extends(s, s')
      invariant Inv(g, s') && InputsRecorded(g, s'.inputValues) && Sound(g, s'.valueMap.Keys)
      invariant forall v :: v in newFrontier ==> v in s'.valueMap && v !in g.constants && rank(v) > lo
      invariant forall v :: v in s'.valueMap && v !in s.valueMap && v !in g.constants ==> v in newFrontier
      invariant HandledUpTo(g, registry, K0, s'.valueMap.Keys, frontier, fi)
    {
      var r;
      r, s' := TranslateFrontierValue(g, registry, s', frontier, fi, K0, rank, bound, lo);
      if r.Err? {
        return Err(r.error), s';
      }
      newFrontier := newFrontier + r.value;
      fi := fi + 1;
    }
    res := Ok(newFrontier);
  }

  /** The placeholders for the declared inputs (compiler.cpp:118-131): each must
      have a complete tensor type; each is mapped to its variable and recorded as
      a runtime input, in order. On failure the inputs recorded so far are kept. */
  method ConvertInputs(g: Graph) returns (failure: Option<Error>, s: TState)
    ensures Inv(g, s) && s.inputValues <= g.inputs
    ensures failure.None? <==> s.inputValues == g.inputs
    ensures failure.None? <==>
      forall k :: 0 <= k < |g.inputs| ==> IsCompleteTensor(g, g.inputs[k]) && ConvertPlaceholder(g, g.inputs[k]).Ok?
    ensures failure.None? ==> s.valueMap.Keys == set v | v in g.inputs
    ensures failure.Some? ==> NodeError(failure.value)
  {
    s := TState(map[], [], []);
    var i := 0;
    while i < |g.inputs|
      invariant 0 <= i <= |g.inputs|
      invariant Inv(g, s)
      invariant s.inputValues == g.inputs[..i]
      invariant s.valueMap.Keys == set v | v in g.inputs[..i]
      invariant forall k :: 0 <= k < i ==> IsCompleteTensor(g, g.inputs[k]) && ConvertPlaceholder(g, g.inputs[k]).Ok?
    {
      var input := g.inputs[i];
      if !IsCompleteTensor(g, input) {
        return Some(IncompleteType(input)), s;
      }
      var v := ConvertPlaceholder(g, input);
      if v.Err? {
        return Some(v.error), s;
      }
      AddRuntimeInput(g, s, input, v.value);
      s := TState(s.valueMap[input := v.value], s.inputVars + [v.value], s.inputValues + [input]);
      assert g.inputs[..i + 1] == g.inputs[..i] + [input];
      i := i + 1;
    }
    assert g.inputs[..|g.inputs|] == g.inputs;
    failure := None;
  }

  /** The breadth-first walk (compiler.cpp:133-190): rounds from the inputs until
      a round maps no new value. Acyclicity bounds the number of rounds. A walk
      that ends has settled every node it visited; one that fails has visited a
      node that breaks. */
  method Walk(g: Graph, registry: set<string>, s: TState) returns (failure: Option<Error>, s': TState)
    requires WellFormed(g) && Acyclic(g)
    requires Inv(g, s) && InputsRecorded(g, s.inputValues)
    requires forall v :: v in g.inputs ==> v in s.valueMap
    requires Sound(g, s.valueMap.Keys) && Closed(g, registry, s.valueMap.Keys, g.inputs)
    ensures Extends(s, s')
    ensures Sound(g, s'.valueMap.Keys)
    ensures failure.None? ==> Inv(g, s') && InputsRecorded(g, s'.inputValues)
    ensures failure.None? ==>
      forall n :: 0 <= n < |g.nodes| && Reached(g, s'.valueMap.Keys, g.nodes[n]) ==>
        SettledFrom(g, registry, s'.valueMap.Keys, s'.valueMap.Keys, g.nodes[n])
    ensures failure.Some? ==> NodeError(failure.value)
    ensures failure.Some? ==> SomeBreak(g, registry, s'.valueMap.Keys)
  {
    ghost var rank: ValueId -> nat, bound: nat :| Ranked(g, rank, bound);
    s' := s;
    var frontier := g.inputs;
    ghost var round: nat := 0;
    while |frontier| > 0
      invariant Extends(s, s')
      invariant Inv(g, s') && InputsRecorded(g, s'.inputValues) && Sound(g, s'.valueMap.Keys)
      invariant forall v :: v in frontier ==> rank(v) >= round && v in s'.valueMap && v !in g.constants
      invariant Closed(g, registry, s'.valueMap.Keys, frontier)
      decreases bound + 1 - round
    {
      assert round <= rank(frontier[0]) <= bound;
      var res;
      ghost var before := s';
      res, s' := TranslateRound(g, registry, s', frontier, rank, bound, round);
      if res.Err? {
        return Some(res.error), s';
      }
      ClosedStep(g, registry, before.valueMap.Keys, s'.valueMap.Keys, frontier, res.value);
      frontier := res.value;
      round := round + 1;
    }
    failure := None;
  }

  /** The body: the declared outputs in order, each looked up in value_map
      (compiler.cpp:192-199); an output the walk never reached is an error. */
  method PackOutputs(g: Graph, vm: map<ValueId, Expr>) returns (r: Result<seq<Expr>>)
    ensures r.Ok? <==> forall k :: 0 <= k < |g.outputs| ==> g.outputs[k] in vm
    ensures r.Ok? ==> |r.value| == |g.outputs| && forall k :: 0 <= k < |g.outputs| ==> r.value[k] == vm[g.outputs[k]]
    ensures r.Err? ==> r.error.UnmappedOutput? && r.error.value in g.outputs && r.error.value !in vm
  {
    var fields: seq<Expr> := [];
    var k := 0;
    while k < |g.outputs|
      invariant 0 <= k <= |g.outputs|
      invariant |fields| == k
      invariant forall j :: 0 <= j < k ==> g.outputs[j] in vm && fields[j] == vm[g.outputs[j]]
    {
      if g.outputs[k] !in vm {
        return Err(UnmappedOutput(g.outputs[k]));
      }
      fields := fields + [vm[g.outputs[k]]];
      k := k + 1;
    }
    r := Ok(fields);
  }

  /** Translates the subgraph into a Relay function whose parameters are the
      runtime inputs and whose body is the tuple of the declared outputs. Besides
      the result it returns what was appended to *input_values, which persists
      in the caller's cache entry even when translation fails. */
  method ConvertGraph(g: Graph, registry: set<string>) returns (r: Result<Function>, inputValues: seq<ValueId>)
    requires WellFormed(g) && Acyclic(g)
    ensures forall i :: 0 <= i < |g.inputs| && i < |inputValues| ==> inputValues[i] == g.inputs[i]
    ensures (exists i :: 0 <= i < |g.inputs| && !IsCompleteTensor(g, g.inputs[i])) ==> r.Err?
    ensures r.Ok? ==> TranslationOf(g, r.value, inputValues)
    ensures r.Err? ==> !r.error.FreeVarCount?
    // translation succeeds exactly when the subgraph translates
    ensures r.Ok? <==> Translates(g, registry)
    ensures r.Err? && r.error.UnmappedOutput? ==>
      && r.error.value in g.outputs
      && r.error.value !in Closure(g) && !ConstMapped(g, Closure(g), r.error.value)
  {
    var failure, s := ConvertInputs(g);
    if failure.Some? {
      return Err(failure.value), s.inputValues;
    }
    assert InputsRecorded(g, s.inputValues);
    StartSound(g, registry);
    ghost var s0 := s;
    failure, s := Walk(g, registry, s);
    assert s0.inputValues <= s.inputValues;
    if failure.Some? {
      BrokenNotTranslates(g, registry, s.valueMap.Keys);
      return Err(failure.value), s.inputValues;
    }
    var packed := PackOutputs(g, s.valueMap);
    if packed.Err? {
      UnmappedOutside(g, registry, s.valueMap.Keys, packed.error.value);
      return Err(packed.error), s.inputValues;
    }
    SettledTranslates(g, registry, s.valueMap.Keys);
    RecordedConstants(g, registry, s);
    var fields := packed.value;
    var body := Tuple(fields);
    forall j | 0 <= j < |fields| ensures forall x :: x in FreeVars(fields[j]) ==> x in s.inputVars {
      DenotedFreeVars(g, s.inputVars, s.inputValues, g.outputs[j], fields[j]);
    }
    CardOfSubset(FreeVars(body), set x | x in s.inputVars);
    CardOfElements(s.inputVars);
    var freeVars := FreeVars(body);
    if |freeVars| > |s.inputVars| {
      return Err(FreeVarCount(|freeVars|, |s.inputVars|)), s.inputValues;
    }
    return Ok(Function(s.inputVars, body)), s.inputValues;
  }
}
