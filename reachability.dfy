/** What the breadth-first walk of the Graph overload of convertToRelay reaches,
    defined on the subgraph alone. Starting from the declared inputs, a node is
    translated as soon as one of its non-constant inputs has been reached and
    all of its inputs are available (reached, or constants); its outputs are
    then reached. The walk is proved to map exactly this closure, and to fail
    exactly when a node of it cannot be translated. */
module Reachability {
  import opened Jit
  import opened ValueConversion

  /** A constant toIValue knows and whose conversion succeeds: a tensor constant
      becomes a placeholder, any other constant a Relay constant. */
  predicate Convertible(g: Graph, x: ValueId)
  {
    x in g.constants &&
    if g.constants[x].ITensor? then ConvertPlaceholder(g, x).Ok? else ConvertConstant(g.constants[x]).Ok?
  }

  /** A constant whose conversion raises. */
  predicate ConstantFails(g: Graph, x: ValueId)
  {
    x in g.constants && !Convertible(g, x)
  }

  /** x is available once the values in K are mapped: mapped, or a constant. */
  predicate Avail(g: Graph, K: set<ValueId>, x: ValueId)
  {
    x in K || x in g.constants
  }

  /** The inputs before position j are all available. */
  predicate PrefixAvail(g: Graph, K: set<ValueId>, ins: seq<ValueId>, j: nat)
  {
    forall i :: 0 <= i < j && i < |ins| ==> Avail(g, K, ins[i])
  }

  /** Resolving ins in order with K mapped reaches a constant whose conversion
      raises, before any input that cannot be resolved. */
  predicate PrefixFails(g: Graph, K: set<ValueId>, ins: seq<ValueId>)
  {
    exists j :: 0 <= j < |ins| && ConstantFails(g, ins[j]) && PrefixAvail(g, K, ins, j)
  }

  /** Every input of the node is available. */
  predicate Ready(g: Graph, K: set<ValueId>, node: Node)
  {
    forall j :: 0 <= j < |node.inputs| ==> Avail(g, K, node.inputs[j])
  }

  /** The node reads a reached non-constant value: the walk visits it as a use. */
  predicate Reached(g: Graph, K: set<ValueId>, node: Node)
  {
    exists j :: 0 <= j < |node.inputs| && node.inputs[j] !in g.constants && node.inputs[j] in K
  }

  predicate OutputsIn(node: Node, K: set<ValueId>)
  {
    forall k :: 0 <= k < |node.outputs| ==> node.outputs[k] in K
  }

  /** Visiting the node with K mapped raises: a constant input fails to convert,
      or every input resolves and the operator table lacks its kind. */
  predicate Breaks(g: Graph, registry: set<string>, K: set<ValueId>, node: Node)
  {
    PrefixFails(g, K, node.inputs) || (Ready(g, K, node) && |node.outputs| >= 1 && node.kind !in registry)
  }

  /** A visit made with K0 mapped succeeded and K holds all it mapped: the
      outputs when every input was available, and every constant input
      before the first unavailable one. */
  predicate SettledFrom(g: Graph, registry: set<string>, K0: set<ValueId>, K: set<ValueId>, node: Node)
  {
    && !Breaks(g, registry, K0, node)
    && (Ready(g, K0, node) && |node.outputs| >= 1 ==> OutputsIn(node, K))
    && forall j :: 0 <= j < |node.inputs| && node.inputs[j] in g.constants && PrefixAvail(g, K0, node.inputs, j) ==>
         node.inputs[j] in K
  }

  /** The node reads a non-constant value mapped in K but not in K0. */
  predicate Fresh(g: Graph, K0: set<ValueId>, K: set<ValueId>, node: Node)
  {
    exists j :: 0 <= j < |node.inputs| && node.inputs[j] !in g.constants && node.inputs[j] in K && node.inputs[j] !in K0
  }

  /** The node reads a non-constant value of the frontier, so the next round visits it. */
  predicate Pending(g: Graph, frontier: seq<ValueId>, node: Node)
  {
    exists j :: 0 <= j < |node.inputs| && node.inputs[j] !in g.constants && node.inputs[j] in frontier
  }

  /** The visit of node n, made with K0 mapped, settled it or mapped a new
      input of it. */
  predicate Covered(g: Graph, registry: set<string>, K0: set<ValueId>, K: set<ValueId>, n: NodeId)
  {
    n < |g.nodes| && (Fresh(g, K0, K, g.nodes[n]) || SettledFrom(g, registry, K0, K, g.nodes[n]))
  }

  /** The first i nodes of ns are covered. */
  predicate CoveredUpTo(g: Graph, registry: set<string>, K0: set<ValueId>, K: set<ValueId>, ns: seq<NodeId>, i: nat)
  {
    i <= |ns| && forall k :: 0 <= k < i ==> Covered(g, registry, K0, K, ns[k])
  }

  /** Every visit of a use of v, made with K0 mapped, either settled the use or
      mapped a new input of it (so that a later round visits it again). */
  predicate Handled(g: Graph, registry: set<string>, K0: set<ValueId>, K: set<ValueId>, v: ValueId)
  {
    CoveredUpTo(g, registry, K0, K, Uses(g, v), |Uses(g, v)|)
  }

  /** The first i values of vs are handled. */
  predicate HandledUpTo(g: Graph, registry: set<string>, K0: set<ValueId>, K: set<ValueId>, vs: seq<ValueId>, i: nat)
  {
    i <= |vs| && forall k :: 0 <= k < i ==> Handled(g, registry, K0, K, vs[k])
  }

  /** The walk's progress invariant: every visited node is settled, or the next
      round visits it. */
  predicate Closed(g: Graph, registry: set<string>, K: set<ValueId>, frontier: seq<ValueId>)
  {
    forall n :: 0 <= n < |g.nodes| && Reached(g, K, g.nodes[n]) ==>
      Pending(g, frontier, g.nodes[n]) || SettledFrom(g, registry, K, K, g.nodes[n])
  }

  /** The outputs of the nodes from position n on that are visited with every
      input available. */
  function Produced(g: Graph, K: set<ValueId>, n: nat): set<ValueId>
    decreases |g.nodes| - n
  {
    if n >= |g.nodes| then {}
    else
      (if Ready(g, K, g.nodes[n]) && Reached(g, K, g.nodes[n]) then set o | o in g.nodes[n].outputs else {}) +
      Produced(g, K, n + 1)
  }

  /** One step of the closure: the outputs of the visited nodes all of whose
      inputs are available. */
  function Step(g: Graph, K: set<ValueId>): (K': set<ValueId>)
    ensures K <= K'
  {
    K + Produced(g, K, 0)
  }

  function Reach(g: Graph, k: nat): set<ValueId>
  {
    if k == 0 then set v | v in g.inputs else Step(g, Reach(g, k - 1))
  }

  /** Every value the walk could reach: a declared input or a node output. */
  function Universe(g: Graph): set<ValueId>
  {
    (set v | v in g.inputs) + set n, o | 0 <= n < |g.nodes| && o in g.nodes[n].outputs :: o
  }

  /** The values reached from the declared inputs. */
  ghost function Closure(g: Graph): set<ValueId>
  {
    set v | v in Universe(g) && exists k: nat :: v in Reach(g, k)
  }

  /** Constant v is read at a position of a visited node before which every
      input is available, so the visit maps it. */
  predicate ConstMapped(g: Graph, K: set<ValueId>, v: ValueId)
  {
    v in g.constants &&
    exists n, j :: 0 <= n < |g.nodes| && 0 <= j < |g.nodes[n].inputs| && g.nodes[n].inputs[j] == v &&
      Reached(g, K, g.nodes[n]) && PrefixAvail(g, K, g.nodes[n].inputs, j)
  }

  /** Everything mapped in K is justified by the closure. */
  ghost predicate Sound(g: Graph, K: set<ValueId>)
  {
    forall v :: v in K ==> if v in g.constants then ConstMapped(g, Closure(g), v) else v in Closure(g)
  }

  /** The subgraph translates: every declared input is a complete tensor whose
      placeholder converts, no node of the closure breaks, and every declared
      output is reached or a constant some visit maps. */
  ghost predicate Translates(g: Graph, registry: set<string>)
  {
    var C := Closure(g);
    && (forall k :: 0 <= k < |g.inputs| ==> IsCompleteTensor(g, g.inputs[k]) && ConvertPlaceholder(g, g.inputs[k]).Ok?)
    && (forall n :: 0 <= n < |g.nodes| && Reached(g, C, g.nodes[n]) ==> !Breaks(g, registry, C, g.nodes[n]))
    && (forall k :: 0 <= k < |g.outputs| ==> g.outputs[k] in C || ConstMapped(g, C, g.outputs[k]))
  }

  /** Some node visited with K mapped breaks. */
  predicate SomeBreak(g: Graph, registry: set<string>, K: set<ValueId>)
  {
    exists n :: 0 <= n < |g.nodes| && Reached(g, K, g.nodes[n]) && Breaks(g, registry, K, g.nodes[n])
  }

  // ---------------------------------------------------------------------------
  // The closure

  lemma {:induction false} ReachMono(g: Graph, k: nat, k': nat)
    requires k <= k'
    ensures Reach(g, k) <= Reach(g, k')
    decreases k' - k
  {
    if k < k' {
      ReachMono(g, k, k' - 1);
    }
  }

  lemma {:induction false} ReachInUniverse(g: Graph, k: nat)
    ensures Reach(g, k) <= Universe(g)
  {
    if k > 0 {
      ReachInUniverse(g, k - 1);
      var R := Reach(g, k - 1);
      forall o | o in Produced(g, R, 0) ensures o in Universe(g) {
        var n := ProducedOnly(g, R, 0, o);
      }
    }
  }

  lemma InClosure(g: Graph, v: ValueId, k: nat)
    requires v in Reach(g, k)
    ensures v in Closure(g)
  {
    ReachInUniverse(g, k);
  }

  /** Finitely many values of the closure are all reached by one round. */
  lemma {:induction false} CommonLevel(g: Graph, vs: seq<ValueId>) returns (k: nat)
    ensures forall j :: 0 <= j < |vs| && vs[j] in Closure(g) ==> vs[j] in Reach(g, k)
  {
    if vs == [] {
      return 0;
    }
    var k1 := CommonLevel(g, vs[1..]);
    k := k1;
    if vs[0] in Closure(g) {
      var k0: nat :| vs[0] in Reach(g, k0);
      if k0 > k1 {
        k := k0;
      }
      ReachMono(g, k0, k);
    }
    ReachMono(g, k1, k);
    forall j | 0 <= j < |vs| && vs[j] in Closure(g) ensures vs[j] in Reach(g, k) {
      if j > 0 {
        assert vs[j] == vs[1..][j - 1];
      }
    }
  }

  lemma ReachSucc(g: Graph, k: nat)
    ensures Reach(g, k + 1) == Step(g, Reach(g, k))
  {
  }

  lemma StepInClosure(g: Graph, k: nat, o: ValueId)
    requires o in Step(g, Reach(g, k))
    ensures o in Closure(g)
  {
    ReachSucc(g, k);
    InClosure(g, o, k + 1);
  }

  lemma {:induction false} ProducedHas(g: Graph, K: set<ValueId>, m: nat, n: NodeId, o: ValueId)
    requires m <= n < |g.nodes| && o in g.nodes[n].outputs
    requires Ready(g, K, g.nodes[n]) && Reached(g, K, g.nodes[n])
    ensures o in Produced(g, K, m)
    decreases n - m
  {
    if m < n {
      ProducedHas(g, K, m + 1, n, o);
    }
  }

  lemma {:induction false} ProducedOnly(g: Graph, K: set<ValueId>, m: nat, o: ValueId) returns (n: NodeId)
    requires o in Produced(g, K, m)
    ensures m <= n < |g.nodes| && o in g.nodes[n].outputs
    ensures Ready(g, K, g.nodes[n]) && Reached(g, K, g.nodes[n])
    decreases |g.nodes| - m
  {
    if Ready(g, K, g.nodes[m]) && Reached(g, K, g.nodes[m]) && o in g.nodes[m].outputs {
      n := m;
    } else {
      n := ProducedOnly(g, K, m + 1, o);
    }
  }

  lemma StepHas(g: Graph, K: set<ValueId>, n: NodeId, o: ValueId)
    requires n < |g.nodes| && o in g.nodes[n].outputs
    requires Ready(g, K, g.nodes[n]) && Reached(g, K, g.nodes[n])
    ensures o in Step(g, K)
  {
    ProducedHas(g, K, 0, n, o);
  }

  /** The closure is closed under a visit of a ready node. */
  lemma ClosureStep(g: Graph, n: NodeId)
    requires n < |g.nodes|
    requires Ready(g, Closure(g), g.nodes[n]) && Reached(g, Closure(g), g.nodes[n])
    ensures OutputsIn(g.nodes[n], Closure(g))
  {
    var node := g.nodes[n];
    var k := CommonLevel(g, node.inputs);
    var K := Reach(g, k);
    assert Ready(g, K, node);
    var j :| 0 <= j < |node.inputs| && node.inputs[j] !in g.constants && node.inputs[j] in Closure(g);
    assert Reached(g, K, node);
    forall i | 0 <= i < |node.outputs| ensures node.outputs[i] in Closure(g) {
      StepHas(g, K, n, node.outputs[i]);
      StepInClosure(g, k, node.outputs[i]);
    }
  }

  lemma {:induction false} ReachWithin(g: Graph, K: set<ValueId>, k: nat)
    requires forall i :: 0 <= i < |g.inputs| ==> g.inputs[i] in K
    requires forall n :: 0 <= n < |g.nodes| && Reached(g, K, g.nodes[n]) && Ready(g, K, g.nodes[n]) ==>
      OutputsIn(g.nodes[n], K)
    ensures Reach(g, k) <= K
  {
    if k > 0 {
      ReachWithin(g, K, k - 1);
      var R := Reach(g, k - 1);
      forall o | o in Produced(g, R, 0) ensures o in K {
        var n := ProducedOnly(g, R, 0, o);
        assert Ready(g, K, g.nodes[n]) && Reached(g, K, g.nodes[n]);
      }
    }
  }

  /** A mapped set that holds the inputs and the outputs of every ready visited
      node holds the whole closure. */
  lemma ClosureWithin(g: Graph, K: set<ValueId>)
    requires forall i :: 0 <= i < |g.inputs| ==> g.inputs[i] in K
    requires forall n :: 0 <= n < |g.nodes| && Reached(g, K, g.nodes[n]) && Ready(g, K, g.nodes[n]) ==>
      OutputsIn(g.nodes[n], K)
    ensures Closure(g) <= K
  {
    forall v | v in Closure(g) ensures v in K {
      var k: nat :| v in Reach(g, k);
      ReachWithin(g, K, k);
    }
  }

  // ---------------------------------------------------------------------------
  // Growth of the mapped set

  /** More values mapped: more nodes ready and visited, and errors persist. */
  lemma Grow(g: Graph, registry: set<string>, K: set<ValueId>, K': set<ValueId>, node: Node)
    requires forall x :: Avail(g, K, x) ==> Avail(g, K', x)
    ensures Ready(g, K, node) ==> Ready(g, K', node)
    ensures Reached(g, K, node) && K <= K' ==> Reached(g, K', node)
    ensures PrefixFails(g, K, node.inputs) ==> PrefixFails(g, K', node.inputs)
    ensures Breaks(g, registry, K, node) ==> Breaks(g, registry, K', node)
    ensures forall j :: PrefixAvail(g, K, node.inputs, j) ==> PrefixAvail(g, K', node.inputs, j)
  {
    if PrefixFails(g, K, node.inputs) {
      var j :| 0 <= j < |node.inputs| && ConstantFails(g, node.inputs[j]) && PrefixAvail(g, K, node.inputs, j);
      assert PrefixAvail(g, K', node.inputs, j);
    }
  }

  /** What Sound(K) gives: everything available with K is available with the closure. */
  lemma SoundAvail(g: Graph, registry: set<string>, K: set<ValueId>, node: Node)
    requires Sound(g, K)
    ensures Reached(g, K, node) ==> Reached(g, Closure(g), node)
    ensures Ready(g, K, node) ==> Ready(g, Closure(g), node)
    ensures Breaks(g, registry, K, node) ==> Breaks(g, registry, Closure(g), node)
    ensures forall j :: PrefixAvail(g, K, node.inputs, j) ==> PrefixAvail(g, Closure(g), node.inputs, j)
  {
    var C := Closure(g);
    assert forall x :: Avail(g, K, x) ==> Avail(g, C, x);
    Grow(g, registry, K, C, node);
    if Reached(g, K, node) {
      var j :| 0 <= j < |node.inputs| && node.inputs[j] !in g.constants && node.inputs[j] in K;
      assert node.inputs[j] in C;
    }
  }

  lemma SettledMono(g: Graph, registry: set<string>, K0: set<ValueId>, K: set<ValueId>, K': set<ValueId>, node: Node)
    requires K <= K'
    ensures Fresh(g, K0, K, node) ==> Fresh(g, K0, K', node)
    ensures SettledFrom(g, registry, K0, K, node) ==> SettledFrom(g, registry, K0, K', node)
  {
  }

  /** A visit made later, with more mapped, still accounts for an earlier state:
      either it mapped a new input, or it settled the node from the earlier state. */
  lemma SettledEarlier(g: Graph, registry: set<string>, K0: set<ValueId>, Kb: set<ValueId>, Ka: set<ValueId>, node: Node)
    requires K0 <= Kb <= Ka
    requires SettledFrom(g, registry, Kb, Ka, node)
    ensures Fresh(g, K0, Ka, node) || SettledFrom(g, registry, K0, Ka, node)
  {
    if !Fresh(g, K0, Ka, node) {
      assert forall j :: 0 <= j < |node.inputs| ==> (Avail(g, Kb, node.inputs[j]) <==> Avail(g, K0, node.inputs[j]));
      SameAvail(g, registry, K0, Kb, Ka, node);
    }
  }

  lemma CoveredUpToGrow(g: Graph, registry: set<string>, K0: set<ValueId>, K: set<ValueId>,
                        K': set<ValueId>, ns: seq<NodeId>, i: nat)
    requires K <= K' && CoveredUpTo(g, registry, K0, K, ns, i)
    ensures CoveredUpTo(g, registry, K0, K', ns, i)
  {
    forall k | 0 <= k < i ensures Covered(g, registry, K0, K', ns[k]) {
      SettledMono(g, registry, K0, K, K', g.nodes[ns[k]]);
    }
  }

  lemma HandledUpToGrow(g: Graph, registry: set<string>, K0: set<ValueId>, K: set<ValueId>,
                        K': set<ValueId>, vs: seq<ValueId>, i: nat)
    requires K <= K' && HandledUpTo(g, registry, K0, K, vs, i)
    ensures HandledUpTo(g, registry, K0, K', vs, i)
  {
    forall k | 0 <= k < i ensures Handled(g, registry, K0, K', vs[k]) {
      var uses := Uses(g, vs[k]);
      CoveredUpToGrow(g, registry, K0, K, K', uses, |uses|);
    }
  }

  /** A value handled once the first i are extends the handled prefix by one. */
  lemma HandledSnoc(g: Graph, registry: set<string>, K0: set<ValueId>, K: set<ValueId>,
                    K': set<ValueId>, vs: seq<ValueId>, i: nat)
    requires K <= K' && i < |vs| && HandledUpTo(g, registry, K0, K, vs, i)
    requires Handled(g, registry, K0, K', vs[i])
    ensures HandledUpTo(g, registry, K0, K', vs, i + 1)
  {
    HandledUpToGrow(g, registry, K0, K, K', vs, i);
  }

  /** States whose available inputs of node agree settle it alike. */
  lemma SameAvail(g: Graph, registry: set<string>, K0: set<ValueId>, K1: set<ValueId>, K: set<ValueId>, node: Node)
    requires forall j :: 0 <= j < |node.inputs| ==> (Avail(g, K0, node.inputs[j]) <==> Avail(g, K1, node.inputs[j]))
    requires SettledFrom(g, registry, K1, K, node)
    ensures SettledFrom(g, registry, K0, K, node)
  {
    assert Ready(g, K0, node) <==> Ready(g, K1, node);
    assert forall j :: PrefixAvail(g, K0, node.inputs, j) <==> PrefixAvail(g, K1, node.inputs, j);
  }

  /** A round that maps every fresh non-constant value into the next frontier and
      handles every use of the old frontier keeps the progress invariant. */
  lemma ClosedStep(g: Graph, registry: set<string>, K: set<ValueId>, K': set<ValueId>,
                   frontier: seq<ValueId>, frontier': seq<ValueId>)
    requires K <= K'
    requires Closed(g, registry, K, frontier)
    requires forall v :: v in K' && v !in K && v !in g.constants ==> v in frontier'
    requires HandledUpTo(g, registry, K, K', frontier, |frontier|)
    ensures Closed(g, registry, K', frontier')
  {
    forall n | 0 <= n < |g.nodes| && Reached(g, K', g.nodes[n])
      ensures Pending(g, frontier', g.nodes[n]) || SettledFrom(g, registry, K', K', g.nodes[n])
    {
      var node := g.nodes[n];
      if !Pending(g, frontier', node) {
        assert !Fresh(g, K, K', node);
        var j :| 0 <= j < |node.inputs| && node.inputs[j] !in g.constants && node.inputs[j] in K';
        assert Reached(g, K, node);
        assert forall i :: 0 <= i < |node.inputs| ==> (Avail(g, K', node.inputs[i]) <==> Avail(g, K, node.inputs[i]));
        if Pending(g, frontier, node) {
          var i :| 0 <= i < |node.inputs| && node.inputs[i] !in g.constants && node.inputs[i] in frontier;
          var f :| 0 <= f < |frontier| && frontier[f] == node.inputs[i];
          UsesComplete(g, node.inputs[i], n);
          assert Handled(g, registry, K, K', frontier[f]);
          var uses := Uses(g, frontier[f]);
          var k :| 0 <= k < |uses| && uses[k] == n;
          assert Covered(g, registry, K, K', uses[k]);
          assert SettledFrom(g, registry, K, K', node);
        } else {
          SettledMono(g, registry, K, K, K', node);
        }
        SameAvail(g, registry, K', K, K', node);
      }
    }
  }

  // ---------------------------------------------------------------------------
  // The outcome of the walk

  /** A finished walk that settled every node it visited, with a sound mapped
      set holding the inputs and the outputs, means the subgraph translates. */
  lemma SettledTranslates(g: Graph, registry: set<string>, K: set<ValueId>)
    requires Sound(g, K)
    requires forall k :: 0 <= k < |g.inputs| ==> IsCompleteTensor(g, g.inputs[k]) && ConvertPlaceholder(g, g.inputs[k]).Ok?
    requires forall i :: 0 <= i < |g.inputs| ==> g.inputs[i] in K
    requires forall n :: 0 <= n < |g.nodes| && Reached(g, K, g.nodes[n]) ==> SettledFrom(g, registry, K, K, g.nodes[n])
    requires forall k :: 0 <= k < |g.outputs| ==> g.outputs[k] in K
    ensures Translates(g, registry)
  {
    var C := Closure(g);
    ClosureWithin(g, K);
    forall n | 0 <= n < |g.nodes| && Reached(g, C, g.nodes[n]) ensures !Breaks(g, registry, C, g.nodes[n]) {
      Grow(g, registry, C, K, g.nodes[n]);
    }
  }

  /** With every visited node settled, an output the walk did not map is
      neither reached nor a constant any visit maps. */
  lemma UnmappedOutside(g: Graph, registry: set<string>, K: set<ValueId>, o: ValueId)
    requires Sound(g, K)
    requires forall i :: 0 <= i < |g.inputs| ==> g.inputs[i] in K
    requires forall n :: 0 <= n < |g.nodes| && Reached(g, K, g.nodes[n]) ==> SettledFrom(g, registry, K, K, g.nodes[n])
    requires o !in K
    ensures o !in Closure(g) && !ConstMapped(g, Closure(g), o)
  {
    var C := Closure(g);
    ClosureWithin(g, K);
    if ConstMapped(g, C, o) {
      var n, j :| 0 <= n < |g.nodes| && 0 <= j < |g.nodes[n].inputs| && g.nodes[n].inputs[j] == o &&
        Reached(g, C, g.nodes[n]) && PrefixAvail(g, C, g.nodes[n].inputs, j);
      Grow(g, registry, C, K, g.nodes[n]);
      assert false;
    }
  }

  /** A visited node that breaks, with a sound mapped set, means the subgraph
      does not translate. */
  lemma BrokenNotTranslates(g: Graph, registry: set<string>, K: set<ValueId>)
    requires Sound(g, K) && SomeBreak(g, registry, K)
    ensures !Translates(g, registry)
  {
    var n :| 0 <= n < |g.nodes| && Reached(g, K, g.nodes[n]) && Breaks(g, registry, K, g.nodes[n]);
    SoundAvail(g, registry, K, g.nodes[n]);
  }

  /** The declared inputs, mapped first, are sound, and every node they reach is
      pending for the first round. */
  lemma StartSound(g: Graph, registry: set<string>)
    requires WellFormed(g)
    ensures Sound(g, (set v | v in g.inputs))
    ensures Closed(g, registry, (set v | v in g.inputs), g.inputs)
  {
    forall v | v in g.inputs ensures v !in g.constants && v in Closure(g) {
      InClosure(g, v, 0);
    }
  }
}
