/** The PyTorch side of the bridge: ATen scalar types, concrete tensors,
    interpreter values (IValue) and the captured JIT subgraph. */
module Jit {

  /** ATen's element types (at::ScalarType). */
  datatype ScalarType =
    | Byte | Char | Short | Int | Long | Half | Float | Double
    | ComplexHalf | ComplexFloat | ComplexDouble | Bool
    | QInt8 | QUInt8 | QInt32 | BFloat16 | Undefined

  /** A concrete tensor: its sizes, its element type and the address of its data buffer. */
  datatype Tensor = Tensor(sizes: seq<nat>, scalarType: ScalarType, address: nat)

  /** An interpreter value, restricted to the kinds the translator tells apart.
      IDouble carries the double as a real; IOther stands for every other kind
      (strings, double lists, tuples, devices, ...). */
  datatype IValue =
    | ITensor(tensor: Tensor)
    | IDouble(d: real)
    | IInt(i: int)
    | IBool(b: bool)
    | INone
    | IIntList(elems: seq<int>)
    | IOther

  /** The type the JIT has recorded for a value. */
  datatype ValueType =
    | CompleteTensorType(sizes: seq<nat>, scalarType: ScalarType)
    | IncompleteTensorType
    | NonTensorType

  /** Values are identified by graph identity, nodes by their position in the graph. */
  type ValueId = nat
  type NodeId = nat

  datatype Node = Node(kind: string, inputs: seq<ValueId>, outputs: seq<ValueId>)

  /** A captured subgraph. `constants` is what toIValue knows about a value (the
      outputs of prim::Constant nodes, which are not listed in `nodes`); `types`
      is the type recorded for each value. */
  datatype Graph = Graph(
    inputs: seq<ValueId>,
    outputs: seq<ValueId>,
    nodes: seq<Node>,
    constants: map<ValueId, IValue>,
    types: map<ValueId, ValueType>)

  /** The recorded type of v; a value without a recorded type is not a complete tensor. */
  function TypeOf(g: Graph, v: ValueId): ValueType
  {
    if v in g.types then g.types[v] else IncompleteTensorType
  }

  /** The complete tensor type of a concrete tensor (what inferTypeFrom records). */
  function TensorTypeOf(t: Tensor): (ty: ValueType)
    ensures ty.CompleteTensorType? && ty.sizes == t.sizes && ty.scalarType == t.scalarType
  {
    CompleteTensorType(t.sizes, t.scalarType)
  }

  predicate IsCompleteTensor(g: Graph, v: ValueId)
  {
    TypeOf(g, v).CompleteTensorType?
  }

  /** What the JIT guarantees of a subgraph: every node lists each of its outputs
      once, and toIValue knows nothing of a graph input or of a node output (it
      knows only the outputs of prim::Constant nodes, which are not in `nodes`). */
  ghost predicate WellFormed(g: Graph)
  {
    && (forall n, i, j :: 0 <= n < |g.nodes| && 0 <= i < j < |g.nodes[n].outputs| ==>
          g.nodes[n].outputs[i] != g.nodes[n].outputs[j])
    && (forall k :: 0 <= k < |g.inputs| ==> g.inputs[k] !in g.constants)
    && (forall n, k :: 0 <= n < |g.nodes| && 0 <= k < |g.nodes[n].outputs| ==> g.nodes[n].outputs[k] !in g.constants)
  }

  /** A ranking of the values in which every node's outputs lie strictly above its
      inputs, with every rank at most `bound`: the graph has no cycle. */
  ghost predicate Ranked(g: Graph, rank: ValueId -> nat, bound: nat)
  {
    && (forall n, i, o :: 0 <= n < |g.nodes| && i in g.nodes[n].inputs && o in g.nodes[n].outputs ==>
          rank(i) < rank(o))
    && (forall v :: rank(v) <= bound)
  }

  ghost predicate Acyclic(g: Graph)
  {
    exists rank: ValueId -> nat, bound: nat :: Ranked(g, rank, bound)
  }

  /** Recording types keeps what the JIT guarantees of a subgraph. */
  lemma RetypedWellFormed(g: Graph, g': Graph)
    requires WellFormed(g) && Acyclic(g)
    requires g'.inputs == g.inputs && g'.nodes == g.nodes && g'.constants == g.constants
    ensures WellFormed(g') && Acyclic(g')
  {
    var rank: ValueId -> nat, bound: nat :| Ranked(g, rank, bound);
    assert Ranked(g', rank, bound);
  }

  /** One use of v per input slot of node n that reads v. */
  function SlotUses(ins: seq<ValueId>, v: ValueId, n: NodeId): (us: seq<NodeId>)
    ensures forall k :: 0 <= k < |us| ==> us[k] == n
    ensures multiset(us)[n] == multiset(ins)[v]
    ensures forall m :: m != n ==> multiset(us)[m] == 0
  {
    if ins == [] then []
    else
      assert ins == [ins[0]] + ins[1..];
      (if ins[0] == v then [n] else []) + SlotUses(ins[1..], v, n)
  }

  function UsesFrom(nodes: seq<Node>, v: ValueId, n: nat): (us: seq<NodeId>)
    ensures forall k :: 0 <= k < |us| ==> n <= us[k] < |nodes| && v in nodes[us[k]].inputs
    ensures forall m :: n <= m < |nodes| ==> multiset(us)[m] == multiset(nodes[m].inputs)[v]
    decreases |nodes| - n
  {
    if n >= |nodes| then []
    else
      SlotUses(nodes[n].inputs, v, n) + UsesFrom(nodes, v, n + 1)
  }

  /** Value::uses(): the consumers of v, one entry per input slot that reads v. */
  function Uses(g: Graph, v: ValueId): (us: seq<NodeId>)
    ensures forall k :: 0 <= k < |us| ==> us[k] < |g.nodes| && v in g.nodes[us[k]].inputs
    ensures forall m :: 0 <= m < |g.nodes| ==> multiset(us)[m] == multiset(g.nodes[m].inputs)[v]
  {
    UsesFrom(g.nodes, v, 0)
  }

  lemma {:induction false} UsesFromComplete(nodes: seq<Node>, v: ValueId, n: nat, m: nat)
    requires n <= m < |nodes| && v in nodes[m].inputs
    ensures m in UsesFrom(nodes, v, n)
    decreases m - n
  {
    if n == m {
      assert SlotUses(nodes[m].inputs, v, m)[0] == m;
    } else {
      UsesFromComplete(nodes, v, n + 1, m);
    }
  }

  /** Every node that reads v is among the uses of v. */
  lemma UsesComplete(g: Graph, v: ValueId, m: NodeId)
    requires m < |g.nodes| && v in g.nodes[m].inputs
    ensures m in Uses(g, v)
  {
    UsesFromComplete(g.nodes, v, 0, m);
  }
}
