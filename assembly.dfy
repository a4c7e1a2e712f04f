/**
 * Concrete ability graphs.  Node instances and typed values live in an arena
 * (`PowerGraph.values`, `PowerGraph.nodes`); a value records the index of the
 * node that produced it (`TypedValue.source`), a node the indices of its
 * argument and output values (`Node.args`, `Node.out`).  The class methods
 * are `Node.__init__`, `Node.bake` and one step of
 * `PowerGraph.FromListOfNodeTypes`; the pools `unused_vars` and `used_vars`
 * are sets of value indices.
 */
module Assembly {
  import opened Wrappers
  import opened Templates
  import opened Library
  import Search
  import Subsets

  /** A `TypedValue`: its type, its description and the node that produced it. */
  datatype Value = Value(ty: Ty, description: string, source: nat)

  /** A `Node` instance: its node type, its argument values and its output values. */
  datatype Node = Node(nodeType: NodeType, args: seq<nat>, out: seq<nat>)

  function Members(s: seq<nat>): (r: set<nat>)
    ensures forall x :: x in r <==> x in s
  {
    set x | x in s
  }

  lemma MembersSnoc(s: seq<nat>, x: nat)
    ensures Members(s + [x]) == Members(s) + {x}
  {
  }

  function Range(base: nat, count: nat): (r: seq<nat>)
    ensures |r| == count && forall j :: 0 <= j < count ==> r[j] == base + j
  {
    seq(count, j requires 0 <= j < count => base + j)
  }

  /** `tuple(TypedValue(t, "uninitialized") for t in OUTTYPES)`, each with `source` set to node `i`. */
  function NewOutputs(outtypes: seq<Ty>, i: nat): (r: seq<Value>)
    ensures |r| == |outtypes|
    ensures forall j :: 0 <= j < |r| ==> r[j] == Value(outtypes[j], "uninitialized", i)
  {
    seq(|outtypes|, j requires 0 <= j < |outtypes| => Value(outtypes[j], "uninitialized", i))
  }

  /** `assert(tv.type == t)` for every pair of `zip(args, INTYPES)`: only the common length is checked. */
  predicate ArgsMatch(values: seq<Value>, args: seq<nat>, intypes: seq<Ty>)
    requires forall m :: 0 <= m < |args| ==> args[m] < |values|
  {
    forall m :: 0 <= m < |args| && m < |intypes| ==> values[args[m]].ty == intypes[m]
  }

  /** Node `i` owns its outputs, typed by its output types, and takes arguments produced by earlier nodes. */
  ghost predicate NodeWellFormed(values: seq<Value>, nodes: seq<Node>, i: nat)
    requires i < |nodes|
  {
    var n := nodes[i];
    && |n.out| == |n.nodeType.outtypes|
    && (forall j :: 0 <= j < |n.out| ==>
          n.out[j] < |values| && values[n.out[j]].source == i && values[n.out[j]].ty == n.nodeType.outtypes[j])
    && (forall j, k :: 0 <= j < k < |n.out| ==> n.out[j] < n.out[k])
    && (forall m :: 0 <= m < |n.args| ==> n.args[m] < |values| && values[n.args[m]].source < i)
    && ArgsMatch(values, n.args, n.nodeType.intypes)
  }

  /**
   * The arena is a graph: every value is an output of the node it names as
   * its source, and every node is well formed.  Arguments come from earlier
   * nodes, so the graph is acyclic by construction.
   */
  ghost predicate WellFormedArena(values: seq<Value>, nodes: seq<Node>)
  {
    && (forall v :: 0 <= v < |values| ==> values[v].source < |nodes| && v in nodes[values[v].source].out)
    && (forall i :: 0 <= i < |nodes| ==> NodeWellFormed(values, nodes, i))
  }

  /** Appending values and a node leaves an existing node well formed. */
  lemma OldNodeKept(values: seq<Value>, nodes: seq<Node>, extra: seq<Value>, node: Node, i: nat)
    requires i < |nodes| && NodeWellFormed(values, nodes, i)
    ensures NodeWellFormed(values + extra, nodes + [node], i)
  {
    var values', nodes' := values + extra, nodes + [node];
    var n := nodes[i];
    assert nodes'[i] == n;
    forall j | 0 <= j < |n.out| ensures values'[n.out[j]] == values[n.out[j]] {
    }
    forall m | 0 <= m < |n.args| ensures values'[n.args[m]] == values[n.args[m]] {
    }
  }

  /** The node appended by `Node.__init__` is well formed. */
  lemma NewNodeWellFormed(values: seq<Value>, nodes: seq<Node>, nt: NodeType, args: seq<nat>)
    requires forall v :: 0 <= v < |values| ==> values[v].source < |nodes|
    requires forall m :: 0 <= m < |args| ==> args[m] < |values|
    requires ArgsMatch(values, args, nt.intypes)
    ensures NodeWellFormed(values + NewOutputs(nt.outtypes, |nodes|),
                           nodes + [Node(nt, args, Range(|values|, |nt.outtypes|))], |nodes|)
  {
    var outputs := NewOutputs(nt.outtypes, |nodes|);
    var values' := values + outputs;
    var out := Range(|values|, |nt.outtypes|);
    forall j | 0 <= j < |out|
      ensures out[j] < |values'| && values'[out[j]].source == |nodes| && values'[out[j]].ty == nt.outtypes[j]
    {
      assert values'[out[j]] == outputs[j];
    }
    forall m | 0 <= m < |args| ensures values'[args[m]] == values[args[m]] {
    }
    assert ArgsMatch(values', args, nt.intypes);
  }

  lemma AppendNodeKeepsArena(values: seq<Value>, nodes: seq<Node>, nt: NodeType, args: seq<nat>)
    requires WellFormedArena(values, nodes)
    requires forall m :: 0 <= m < |args| ==> args[m] < |values|
    requires ArgsMatch(values, args, nt.intypes)
    ensures WellFormedArena(values + NewOutputs(nt.outtypes, |nodes|),
                            nodes + [Node(nt, args, Range(|values|, |nt.outtypes|))])
  {
    var node := Node(nt, args, Range(|values|, |nt.outtypes|));
    var values', nodes' := values + NewOutputs(nt.outtypes, |nodes|), nodes + [node];
    forall v | 0 <= v < |values'|
      ensures values'[v].source < |nodes'| && v in nodes'[values'[v].source].out
    {
      if v >= |values| {
        assert Range(|values|, |nt.outtypes|)[v - |values|] == v;
      } else {
        assert values'[v] == values[v] && nodes'[values[v].source] == nodes[values[v].source];
      }
    }
    forall i | 0 <= i < |nodes'| ensures NodeWellFormed(values', nodes', i) {
      if i < |nodes| {
        OldNodeKept(values, nodes, NewOutputs(nt.outtypes, |nodes|), node, i);
      } else {
        NewNodeWellFormed(values, nodes, nt, args);
      }
    }
  }

  /** Changing descriptions only (as `bake` does) keeps the arena well formed. */
  lemma SameShapeKeepsArena(values: seq<Value>, values': seq<Value>, nodes: seq<Node>)
    requires WellFormedArena(values, nodes)
    requires |values'| == |values|
    requires forall v :: 0 <= v < |values| ==> values'[v].ty == values[v].ty && values'[v].source == values[v].source
    ensures WellFormedArena(values', nodes)
  {
    forall i | 0 <= i < |nodes| ensures NodeWellFormed(values', nodes, i) {
      assert NodeWellFormed(values, nodes, i);
    }
  }

  // ---------------------------------------------------------------------------
  // bake
  // ---------------------------------------------------------------------------

  /** `[arg.description for arg in self.args]`. */
  function ArgDescriptions(values: seq<Value>, args: seq<nat>): (r: seq<string>)
    requires forall m :: 0 <= m < |args| ==> args[m] < |values|
    ensures |r| == |args| && forall m :: 0 <= m < |args| ==> r[m] == values[args[m]].description
  {
    seq(|args|, m requires 0 <= m < |args| => values[args[m]].description)
  }

  /**
   * The loop over `zip(self.out, self.FORMATSTRINGS)`: each output in turn
   * receives its formatted template; the first template that raises stops
   * the loop, leaving the earlier outputs updated.
   */
  function BakeOutputs(values: seq<Value>, out: seq<nat>, templates: seq<Template>, descs: seq<string>)
    : (r: seq<Value>)
    requires forall j :: 0 <= j < |out| ==> out[j] < |values|
    ensures |r| == |values|
    ensures forall v :: 0 <= v < |values| ==> r[v].ty == values[v].ty && r[v].source == values[v].source
    decreases |out|
  {
    if out == [] || templates == [] then values
    else
      match Format(templates[0], descs)
      case Err(_) => values
      case Ok(d) => BakeOutputs(values[out[0] := values[out[0]].(description := d)], out[1..], templates[1..], descs)
  }

  ghost predicate OutputsInRange(values: seq<Value>, n: Node)
  {
    forall j :: 0 <= j < |n.out| ==> n.out[j] < |values|
  }

  ghost predicate ArgsInRange(values: seq<Value>, n: Node)
  {
    forall m :: 0 <= m < |n.args| ==> n.args[m] < |values|
  }

  /** The values after `n.bake()`. */
  function Baked(values: seq<Value>, n: Node): seq<Value>
    requires OutputsInRange(values, n) && ArgsInRange(values, n)
  {
    BakeOutputs(values, n.out, n.nodeType.templates, ArgDescriptions(values, n.args))
  }

  /** Whether `n.bake()` returns normally: no template it reaches names a missing argument. */
  predicate BakeSucceeds(n: Node)
  {
    forall j :: 0 <= j < |n.out| && j < |n.nodeType.templates| ==> SlotsBelow(n.nodeType.templates[j], |n.args|)
  }

  lemma {:induction false} BakeFrame(values: seq<Value>, out: seq<nat>, templates: seq<Template>,
                                     descs: seq<string>, x: nat)
    requires forall j :: 0 <= j < |out| ==> out[j] < |values|
    requires x < |values| && x !in out
    ensures BakeOutputs(values, out, templates, descs)[x] == values[x]
    decreases |out|
  {
    if out != [] && templates != [] {
      match Format(templates[0], descs)
      case Err(_) =>
      case Ok(d) =>
        BakeFrame(values[out[0] := values[out[0]].(description := d)], out[1..], templates[1..], descs, x);
    }
  }

  lemma {:induction false} BakeOutputsAt(values: seq<Value>, out: seq<nat>, templates: seq<Template>,
                                         descs: seq<string>, j: nat)
    requires forall k :: 0 <= k < |out| ==> out[k] < |values|
    requires forall k, k' :: 0 <= k < k' < |out| ==> out[k] != out[k']
    requires j < |out| && j < |templates|
    requires forall k :: 0 <= k <= j ==> SlotsBelow(templates[k], |descs|)
    ensures BakeOutputs(values, out, templates, descs)[out[j]]
            == values[out[j]].(description := Format(templates[j], descs).value)
    decreases j
  {
    var d := Format(templates[0], descs).value;
    var values' := values[out[0] := values[out[0]].(description := d)];
    if j == 0 {
      assert out[0] !in out[1..];
      BakeFrame(values', out[1..], templates[1..], descs, out[0]);
    } else {
      BakeOutputsAt(values', out[1..], templates[1..], descs, j - 1);
    }
  }

  lemma {:induction false} BakeOutputsTwice(values: seq<Value>, out: seq<nat>, templates: seq<Template>,
                                            descs: seq<string>)
    requires forall k :: 0 <= k < |out| ==> out[k] < |values|
    requires forall k, k' :: 0 <= k < k' < |out| ==> out[k] != out[k']
    ensures BakeOutputs(BakeOutputs(values, out, templates, descs), out, templates, descs)
            == BakeOutputs(values, out, templates, descs)
    decreases |out|
  {
    if out != [] && templates != [] {
      match Format(templates[0], descs)
      case Err(_) =>
      case Ok(d) =>
        var values' := values[out[0] := values[out[0]].(description := d)];
        var w := BakeOutputs(values', out[1..], templates[1..], descs);
        assert out[0] !in out[1..];
        BakeFrame(values', out[1..], templates[1..], descs, out[0]);
        assert w[out[0] := w[out[0]].(description := d)] == w;
        BakeOutputsTwice(values', out[1..], templates[1..], descs);
    }
  }

  /**
   * Baking is idempotent: the outputs of a node are not among its
   * arguments, so a second `bake` sees the same argument descriptions and
   * writes the same strings.
   */
  lemma BakeIdempotent(values: seq<Value>, nodes: seq<Node>, i: nat)
    requires WellFormedArena(values, nodes) && i < |nodes|
    ensures OutputsInRange(values, nodes[i]) && ArgsInRange(values, nodes[i])
    ensures OutputsInRange(Baked(values, nodes[i]), nodes[i]) && ArgsInRange(Baked(values, nodes[i]), nodes[i])
    ensures Baked(Baked(values, nodes[i]), nodes[i]) == Baked(values, nodes[i])
  {
    var n := nodes[i];
    assert NodeWellFormed(values, nodes, i);
    var descs := ArgDescriptions(values, n.args);
    var once := Baked(values, n);
    forall m | 0 <= m < |n.args| ensures once[n.args[m]] == values[n.args[m]] {
      assert values[n.args[m]].source < i;
      assert n.args[m] !in n.out;
      BakeFrame(values, n.out, n.nodeType.templates, descs, n.args[m]);
    }
    assert ArgDescriptions(once, n.args) == descs;
    BakeOutputsTwice(values, n.out, n.nodeType.templates, descs);
  }

  /**
   * On a well-formed node type with one argument per input, `bake` returns
   * normally and output j's description is template j with every `{k}`
   * replaced by the description of argument k.
   */
  lemma BakedDescriptions(values: seq<Value>, nodes: seq<Node>, i: nat, j: nat)
    requires WellFormedArena(values, nodes) && i < |nodes|
    requires WellFormed(nodes[i].nodeType) && |nodes[i].args| == |nodes[i].nodeType.intypes|
    requires j < |nodes[i].out|
    ensures OutputsInRange(values, nodes[i]) && ArgsInRange(values, nodes[i])
    ensures j < |nodes[i].nodeType.templates|
    ensures BakeSucceeds(nodes[i])
    ensures Baked(values, nodes[i])[nodes[i].out[j]].description
            == Format(nodes[i].nodeType.templates[j], ArgDescriptions(values, nodes[i].args)).value
  {
    var n := nodes[i];
    assert NodeWellFormed(values, nodes, i);
    BakeOutputsAt(values, n.out, n.nodeType.templates, ArgDescriptions(values, n.args), j);
  }

  lemma {:induction false} BakeOutputsStops(values: seq<Value>, out: seq<nat>, templates: seq<Template>,
                                            descs: seq<string>, j: nat)
    requires forall k :: 0 <= k < |out| ==> out[k] < |values|
    requires j <= |out| && j <= |templates|
    requires forall k :: 0 <= k < j ==> SlotsBelow(templates[k], |descs|)
    ensures j < |out| && j < |templates| && !SlotsBelow(templates[j], |descs|) ==>
              BakeOutputs(values, out[j..], templates[j..], descs) == values
    ensures (forall k, k' :: 0 <= k < k' < |out| ==> out[k] != out[k'])
            && j < |out| && j < |templates| && !SlotsBelow(templates[j], |descs|) ==>
              forall k :: j <= k < |out| ==> BakeOutputs(values, out, templates, descs)[out[k]] == values[out[k]]
  {
    if (forall k, k' :: 0 <= k < k' < |out| ==> out[k] != out[k'])
       && j < |out| && j < |templates| && !SlotsBelow(templates[j], |descs|) {
      BakeStopsRest(values, out, templates, descs, j);
    }
  }

  /** The loop run over the whole node: from the first failing template on, no output changes. */
  lemma {:induction false} BakeStopsRest(values: seq<Value>, out: seq<nat>, templates: seq<Template>,
                                         descs: seq<string>, j: nat)
    requires forall k :: 0 <= k < |out| ==> out[k] < |values|
    requires forall k, k' :: 0 <= k < k' < |out| ==> out[k] != out[k']
    requires j < |out| && j < |templates|
    requires forall k :: 0 <= k < j ==> SlotsBelow(templates[k], |descs|)
    requires !SlotsBelow(templates[j], |descs|)
    ensures forall k :: j <= k < |out| ==> BakeOutputs(values, out, templates, descs)[out[k]] == values[out[k]]
    decreases j
  {
    if j > 0 {
      assert SlotsBelow(templates[0], |descs|);
      var d := Format(templates[0], descs).value;
      var values' := values[out[0] := values[out[0]].(description := d)];
      assert BakeOutputs(values, out, templates, descs) == BakeOutputs(values', out[1..], templates[1..], descs);
      BakeStopsRest(values', out[1..], templates[1..], descs, j - 1);
      forall k | j <= k < |out|
        ensures BakeOutputs(values, out, templates, descs)[out[k]] == values[out[k]]
      {
        assert out[1..][k - 1] == out[k];
      }
    }
  }

  /** `[var.description for var in self.out]`. */
  function ValuesOf(values: seq<Value>, n: Node): (r: seq<string>)
    requires OutputsInRange(values, n)
  {
    seq(|n.out|, j requires 0 <= j < |n.out| => values[n.out[j]].description)
  }

  /** After baking a well-formed library node, `values()` lists its formatted templates in order. */
  lemma BakedValues(values: seq<Value>, nodes: seq<Node>, i: nat)
    requires WellFormedArena(values, nodes) && i < |nodes|
    requires WellFormed(nodes[i].nodeType) && |nodes[i].args| == |nodes[i].nodeType.intypes|
    ensures OutputsInRange(values, nodes[i]) && ArgsInRange(values, nodes[i])
    ensures |nodes[i].out| == |nodes[i].nodeType.templates|
    ensures OutputsInRange(Baked(values, nodes[i]), nodes[i])
    ensures var n := nodes[i];
            var descs := ArgDescriptions(values, n.args);
            ValuesOf(Baked(values, n), n) == seq(|n.out|, j requires 0 <= j < |n.out| => Format(n.nodeType.templates[j], descs).value)
  {
    var n := nodes[i];
    assert NodeWellFormed(values, nodes, i);
    forall j | 0 <= j < |n.out|
      ensures ValuesOf(Baked(values, n), n)[j] == Format(n.nodeType.templates[j], ArgDescriptions(values, n.args)).value
    {
      BakedDescriptions(values, nodes, i, j);
    }
  }

  // ---------------------------------------------------------------------------
  // Pools of values
  // ---------------------------------------------------------------------------

  /** The values of type `t` in `pool`. */
  ghost function OfType(values: seq<Value>, pool: set<nat>, t: Ty): set<nat>
  {
    set v | v in pool && v < |values| && values[v].ty == t
  }

  /** The number of values of type `t` in `pool`. */
  ghost function Count(values: seq<Value>, pool: set<nat>, t: Ty): nat
  {
    |OfType(values, pool, t)|
  }

  /** `bag` counts, type by type, the values in `pool`. */
  ghost predicate Tracks(values: seq<Value>, pool: set<nat>, bag: multiset<Ty>)
  {
    forall t :: Count(values, pool, t) == bag[t]
  }

  lemma OfTypeRemove(values: seq<Value>, pool: set<nat>, x: nat, t: Ty)
    requires x in pool && x < |values|
    ensures values[x].ty == t ==> OfType(values, pool - {x}, t) == OfType(values, pool, t) - {x}
    ensures values[x].ty != t ==> OfType(values, pool - {x}, t) == OfType(values, pool, t)
  {
    var a, b := OfType(values, pool, t), OfType(values, pool - {x}, t);
    forall v ensures v in b <==> v in a && v != x {}
  }

  lemma OfTypeAdd(values: seq<Value>, pool: set<nat>, x: nat, t: Ty)
    requires x !in pool && x < |values|
    ensures values[x].ty == t ==> OfType(values, pool + {x}, t) == OfType(values, pool, t) + {x}
    ensures values[x].ty != t ==> OfType(values, pool + {x}, t) == OfType(values, pool, t)
  {
    var a, b := OfType(values, pool, t), OfType(values, pool + {x}, t);
    forall v ensures v in b <==> v in a || (v == x && values[x].ty == t) {}
  }

  lemma CountRemove(values: seq<Value>, pool: set<nat>, x: nat, t: Ty)
    requires x in pool && x < |values|
    ensures Count(values, pool - {x}, t) == Count(values, pool, t) - (if values[x].ty == t then 1 else 0)
  {
    OfTypeRemove(values, pool, x, t);
    if values[x].ty == t {
      assert x in OfType(values, pool, t);
    }
  }

  lemma CountAdd(values: seq<Value>, pool: set<nat>, x: nat, t: Ty)
    requires x !in pool && x < |values|
    ensures Count(values, pool + {x}, t) == Count(values, pool, t) + (if values[x].ty == t then 1 else 0)
  {
    OfTypeAdd(values, pool, x, t);
  }

  lemma CountSameTypes(values: seq<Value>, values': seq<Value>, pool: set<nat>, t: Ty)
    requires forall v :: v in pool ==> v < |values| && v < |values'| && values'[v].ty == values[v].ty
    ensures Count(values', pool, t) == Count(values, pool, t)
  {
    var a, b := OfType(values, pool, t), OfType(values', pool, t);
    forall v ensures v in a <==> v in b {}
    assert a == b;
  }

  lemma CountPositive(values: seq<Value>, pool: set<nat>, t: Ty)
    ensures Count(values, pool, t) > 0 <==> exists v :: v in pool && v < |values| && values[v].ty == t
  {
    var a := OfType(values, pool, t);
    if exists v :: v in pool && v < |values| && values[v].ty == t {
      var v :| v in pool && v < |values| && values[v].ty == t;
      assert v in a;
    }
  }

  lemma TracksRemove(values: seq<Value>, pool: set<nat>, bag: multiset<Ty>, x: nat)
    requires Tracks(values, pool, bag) && x in pool && x < |values|
    ensures Tracks(values, pool - {x}, bag - multiset{values[x].ty})
  {
    forall t ensures Count(values, pool - {x}, t) == (bag - multiset{values[x].ty})[t] {
      CountRemove(values, pool, x, t);
    }
  }

  lemma TracksAdd(values: seq<Value>, pool: set<nat>, bag: multiset<Ty>, x: nat)
    requires Tracks(values, pool, bag) && x !in pool && x < |values|
    ensures Tracks(values, pool + {x}, bag + multiset{values[x].ty})
  {
    forall t ensures Count(values, pool + {x}, t) == (bag + multiset{values[x].ty})[t] {
      CountAdd(values, pool, x, t);
    }
  }

  lemma TracksSameTypes(values: seq<Value>, values': seq<Value>, pool: set<nat>, bag: multiset<Ty>)
    requires Tracks(values, pool, bag)
    requires forall v :: v in pool ==> v < |values| && v < |values'| && values'[v].ty == values[v].ty
    ensures Tracks(values', pool, bag)
  {
    forall t ensures Count(values', pool, t) == bag[t] {
      CountSameTypes(values, values', pool, t);
    }
  }

  lemma TracksHas(values: seq<Value>, pool: set<nat>, bag: multiset<Ty>, t: Ty)
    requires Tracks(values, pool, bag)
    ensures bag[t] > 0 <==> exists v :: v in pool && v < |values| && values[v].ty == t
  {
    CountPositive(values, pool, t);
  }

  /** Input `m` finds no value left: the whole input list cannot be bound. */
  lemma PrefixShort(ins: seq<Ty>, m: nat, bag: multiset<Ty>)
    requires m < |ins| && multiset(ins[..m]) <= bag && (bag - multiset(ins[..m]))[ins[m]] == 0
    ensures !(multiset(ins) <= bag)
  {
    assert ins == ins[..m] + [ins[m]] + ins[m + 1..];
    assert multiset(ins)[ins[m]] >= multiset(ins[..m])[ins[m]] + 1;
  }

  /** Input `m` finds a value: one more input is bound. */
  lemma PrefixGrow(ins: seq<Ty>, m: nat, bag: multiset<Ty>)
    requires m < |ins| && multiset(ins[..m]) <= bag && (bag - multiset(ins[..m]))[ins[m]] > 0
    ensures multiset(ins[..m + 1]) <= bag
    ensures bag - multiset(ins[..m + 1]) == (bag - multiset(ins[..m])) - multiset{ins[m]}
  {
    assert ins[..m + 1] == ins[..m] + [ins[m]];
  }

  /** No value is the argument of two node inputs. */
  ghost predicate BoundOnce(nodes: seq<Node>)
  {
    forall i, m, i', m' ::
      (0 <= i < |nodes| && 0 <= m < |nodes[i].args| && 0 <= i' < |nodes| && 0 <= m' < |nodes[i'].args| &&
       nodes[i].args[m] == nodes[i'].args[m']) ==> i == i' && m == m'
  }

  /**
   * `unused_vars` and `used_vars` split the arena's values, every argument
   * is a used value, and no value is bound twice.
   */
  ghost predicate Binding(values: seq<Value>, nodes: seq<Node>, unused: set<nat>, used: set<nat>)
  {
    && unused !! used
    && (forall v :: v in unused ==> v < |values|)
    && (forall v :: v in used ==> v < |values|)
    && (forall v :: 0 <= v < |values| ==> v in unused || v in used)
    && (forall i, m :: 0 <= i < |nodes| && 0 <= m < |nodes[i].args| ==> nodes[i].args[m] in used)
    && BoundOnce(nodes)
  }

  lemma BindingAfterAdd(values: seq<Value>, nodes: seq<Node>, unused: set<nat>, used: set<nat>,
                        nt: NodeType, args: seq<nat>)
    requires Binding(values, nodes, unused, used)
    requires forall m :: 0 <= m < |args| ==> args[m] in unused
    requires forall m, m' :: 0 <= m < m' < |args| ==> args[m] != args[m']
    ensures var values' := values + NewOutputs(nt.outtypes, |nodes|);
            var outs := Range(|values|, |nt.outtypes|);
            var nodes' := nodes + [Node(nt, args, outs)];
            Binding(values', nodes', (unused - Members(args)) + Members(outs), used + Members(args))
  {
    var values' := values + NewOutputs(nt.outtypes, |nodes|);
    var outs := Range(|values|, |nt.outtypes|);
    var nodes' := nodes + [Node(nt, args, outs)];
    var unused', used' := (unused - Members(args)) + Members(outs), used + Members(args);
    forall v | 0 <= v < |values'| ensures v in unused' || v in used' {
      if v >= |values| {
        assert outs[v - |values|] == v;
      }
    }
    forall i, m | 0 <= i < |nodes'| && 0 <= m < |nodes'[i].args| ensures nodes'[i].args[m] in used' {
      if i < |nodes| {
        assert nodes'[i] == nodes[i];
      }
    }
    forall i, m, i', m' |
      0 <= i < |nodes'| && 0 <= m < |nodes'[i].args| && 0 <= i' < |nodes'| && 0 <= m' < |nodes'[i'].args| &&
      nodes'[i].args[m] == nodes'[i'].args[m']
      ensures i == i' && m == m'
    {
      if i < |nodes| {
        assert nodes'[i] == nodes[i];
        assert nodes[i].args[m] in used;
      }
      if i' < |nodes| {
        assert nodes'[i'] == nodes[i'];
        assert nodes[i'].args[m'] in used;
      }
    }
  }

  /**
   * Whether `FromListOfNodeTypes` completes: node by node, the pool (counted
   * by type) holds a value for every input, and after binding the node's
   * outputs join the pool.  Which value `random.choice` picks does not
   * matter for the counts.
   */
  ghost predicate Feasible(bag: multiset<Ty>, nts: seq<NodeType>)
    decreases |nts|
  {
    nts == [] ||
    (multiset(nts[0].intypes) <= bag &&
     Feasible(bag - multiset(nts[0].intypes) + multiset(nts[0].outtypes), nts[1..]))
  }

  /**
   * A sequence that applies forward on type sets, from a set whose every
   * type the pool holds, always finds a value for each input.
   */
  lemma {:induction false} ChainIsFeasible(state: Search.State, bag: multiset<Ty>, nts: seq<NodeType>)
    requires Search.ForwardChain(state, nts)
    requires forall t :: t in state ==> t in bag
    ensures Feasible(bag, nts)
    decreases |nts|
  {
    if nts != [] {
      var n := nts[0];
      Search.CanAddForwardIff(state, n);
      forall t ensures multiset(n.intypes)[t] <= bag[t] {
        Search.AtMostOnce(n.intypes, t);
      }
      var bag' := bag - multiset(n.intypes) + multiset(n.outtypes);
      var state' := Search.ForwardStep(state, n);
      forall t | t in state' ensures t in bag' {
        if t !in n.outtypes {
          assert t !in n.intypes;
        }
      }
      ChainIsFeasible(state', bag', nts[1..]);
    }
  }

  /** Assembling any sequence the search yields never runs out of values (no `IndexError`). */
  lemma SearchOutputAssembles(nts: seq<NodeType>)
    requires Search.ForwardChain({}, nts)
    ensures Feasible(multiset{}, nts)
  {
    ChainIsFeasible({}, multiset{}, nts);
  }

  /** `". ".join(parts)`. */
  function Join(sep: string, parts: seq<string>): string
  {
    if parts == [] then "" else if |parts| == 1 then parts[0] else parts[0] + sep + Join(sep, parts[1..])
  }

  /** The descriptions of a node's `GameEffect` outputs, in output order. */
  function GameEffectsOf(values: seq<Value>, out: seq<nat>): seq<string>
    requires forall j :: 0 <= j < |out| ==> out[j] < |values|
  {
    if out == [] then []
    else
      var rest := GameEffectsOf(values, out[..|out| - 1]);
      var v := values[out[|out| - 1]];
      if v.ty == GameEffect then rest + [v.description] else rest
  }

  ghost predicate AllOutputsInRange(values: seq<Value>, nodes: seq<Node>)
  {
    forall i :: 0 <= i < |nodes| ==> OutputsInRange(values, nodes[i])
  }

  /** Every entry of `order` indexes a node. */
  predicate IndicesBelow(order: seq<nat>, count: nat)
  {
    forall k :: 0 <= k < |order| ==> order[k] < count
  }

  /** The pieces `description` joins, visiting the nodes in `order` (the set's iteration order). */
  function EffectDescriptions(values: seq<Value>, nodes: seq<Node>, order: seq<nat>): seq<string>
    requires AllOutputsInRange(values, nodes) && IndicesBelow(order, |nodes|)
  {
    if order == [] then []
    else EffectDescriptions(values, nodes, order[..|order| - 1]) + GameEffectsOf(values, nodes[order[|order| - 1]].out)
  }

  lemma {:induction false} EffectDescriptionsAppend(values: seq<Value>, nodes: seq<Node>, a: seq<nat>, b: seq<nat>)
    requires AllOutputsInRange(values, nodes) && IndicesBelow(a, |nodes|) && IndicesBelow(b, |nodes|)
    ensures IndicesBelow(a + b, |nodes|)
    ensures EffectDescriptions(values, nodes, a + b)
            == EffectDescriptions(values, nodes, a) + EffectDescriptions(values, nodes, b)
    decreases |b|
  {
    JoinBelow(a, b, |nodes|);
    if b == [] {
      assert a + b == a;
    } else {
      var b0, x := b[..|b| - 1], b[|b| - 1];
      assert (a + b)[..|a + b| - 1] == a + b0;
      assert (a + b)[|a + b| - 1] == x;
      EffectDescriptionsAppend(values, nodes, a, b0);
      calc {
        EffectDescriptions(values, nodes, a + b);
        EffectDescriptions(values, nodes, a + b0) + GameEffectsOf(values, nodes[x].out);
        EffectDescriptions(values, nodes, a) + (EffectDescriptions(values, nodes, b0) + GameEffectsOf(values, nodes[x].out));
      }
    }
  }

  lemma EffectDescriptionsSplit(values: seq<Value>, nodes: seq<Node>, before: seq<nat>, x: nat, after: seq<nat>)
    requires AllOutputsInRange(values, nodes) && IndicesBelow(before, |nodes|) && IndicesBelow(after, |nodes|)
    requires x < |nodes|
    ensures IndicesBelow(before + [x] + after, |nodes|) && IndicesBelow(before + after, |nodes|)
    ensures EffectDescriptions(values, nodes, before + [x] + after)
            == EffectDescriptions(values, nodes, before) + GameEffectsOf(values, nodes[x].out)
               + EffectDescriptions(values, nodes, after)
    ensures EffectDescriptions(values, nodes, before + after)
            == EffectDescriptions(values, nodes, before) + EffectDescriptions(values, nodes, after)
  {
    EffectDescriptionsSingle(values, nodes, x);
    var xa := [x] + after;
    EffectDescriptionsAppend(values, nodes, [x], after);
    EffectDescriptionsAppend(values, nodes, before, xa);
    Subsets.AppendAssociates(before, [x], after);
    Subsets.AppendAssociates(EffectDescriptions(values, nodes, before), GameEffectsOf(values, nodes[x].out),
                     EffectDescriptions(values, nodes, after));
    EffectDescriptionsAppend(values, nodes, before, after);
  }

  lemma EffectDescriptionsSingle(values: seq<Value>, nodes: seq<Node>, x: nat)
    requires AllOutputsInRange(values, nodes) && x < |nodes|
    ensures IndicesBelow([x], |nodes|)
    ensures EffectDescriptions(values, nodes, [x]) == GameEffectsOf(values, nodes[x].out)
  {
    assert [x][..0] == [];
  }

  lemma RemoveAt(o: seq<nat>, p: nat)
    requires p < |o|
    ensures o == o[..p] + [o[p]] + o[p + 1..]
    ensures multiset(o) == multiset(o[..p] + o[p + 1..]) + multiset{o[p]}
  {
    assert o[p..] == [o[p]] + o[p + 1..];
    assert o == o[..p] + o[p..];
  }

  lemma JoinBelow(a: seq<nat>, b: seq<nat>, count: nat)
    requires IndicesBelow(a, count) && IndicesBelow(b, count)
    ensures IndicesBelow(a + b, count)
  {
    forall k | 0 <= k < |a + b| ensures (a + b)[k] < count {
      if k >= |a| {
        assert (a + b)[k] == b[k - |a|];
      }
    }
  }

  /** The last entry of `o1` sits at some position `p` of its permutation `o2`; removing both leaves permutations. */
  lemma PickMatch(o1: seq<nat>, o2: seq<nat>, count: nat) returns (p: nat)
    requires o1 != [] && multiset(o1) == multiset(o2)
    requires IndicesBelow(o1, count) && IndicesBelow(o2, count)
    ensures p < |o2| && o2[p] == o1[|o1| - 1]
    ensures o2 == o2[..p] + [o2[p]] + o2[p + 1..]
    ensures multiset(o1[..|o1| - 1]) == multiset(o2[..p] + o2[p + 1..])
    ensures IndicesBelow(o1[..|o1| - 1], count)
    ensures IndicesBelow(o2[..p], count) && IndicesBelow(o2[p + 1..], count)
    ensures IndicesBelow(o2[..p] + o2[p + 1..], count)
  {
    var init, x := o1[..|o1| - 1], o1[|o1| - 1];
    assert o1 == init + [x];
    assert x in multiset(o2);
    p :| 0 <= p < |o2| && o2[p] == x;
    RemoveAt(o2, p);
    var before, after := o2[..p], o2[p + 1..];
    var rest := before + after;
    Subsets.CancelOne(multiset(init), multiset(rest), x);
    JoinBelow(before, after, count);
  }

  /**
   * `description` visits `self.nodes`, a set, in no fixed order; whatever the
   * order, the same `GameEffect` descriptions are joined, each as often.
   */
  lemma {:induction false} EffectDescriptionsPermutation(values: seq<Value>, nodes: seq<Node>,
                                                         o1: seq<nat>, o2: seq<nat>)
    requires AllOutputsInRange(values, nodes) && IndicesBelow(o1, |nodes|) && IndicesBelow(o2, |nodes|)
    requires multiset(o1) == multiset(o2)
    ensures multiset(EffectDescriptions(values, nodes, o1)) == multiset(EffectDescriptions(values, nodes, o2))
    decreases |o1|
  {
    if o1 != [] {
      var p := PickMatch(o1, o2, |nodes|);
      var init, x := o1[..|o1| - 1], o1[|o1| - 1];
      var before, after := o2[..p], o2[p + 1..];
      EffectDescriptionsPermutation(values, nodes, init, before + after);
      EffectDescriptionsSplit(values, nodes, before, x, after);
    }
  }

  /** `args` holds distinct values of `pool`, of the types `ins` in order. */
  ghost predicate Picked(values: seq<Value>, ins: seq<Ty>, pool: set<nat>, args: seq<nat>)
  {
    && |args| == |ins|
    && (forall k :: 0 <= k < |args| ==> args[k] in pool && args[k] < |values| && values[args[k]].ty == ins[k])
    && (forall k, k' :: 0 <= k < k' < |args| ==> args[k] != args[k'])
  }

  lemma PickedSnoc(values: seq<Value>, ins: seq<Ty>, pool: set<nat>, args: seq<nat>, t: Ty, arg: nat)
    requires Picked(values, ins, pool, args)
    requires arg in pool && arg !in Members(args) && arg < |values| && values[arg].ty == t
    ensures Picked(values, ins + [t], pool, args + [arg])
  {
  }

  /** Binding one more input keeps every invariant of the binding loop. */
  lemma BindStep(values: seq<Value>, ins: seq<Ty>, m: nat, bag: multiset<Ty>, unused: set<nat>, used: set<nat>,
                 args: seq<nat>, rest: set<nat>, taken: set<nat>, arg: nat)
    requires m < |ins| && Picked(values, ins[..m], unused, args)
    requires rest == unused - Members(args) && taken == used + Members(args)
    requires multiset(ins[..m]) <= bag && Tracks(values, rest, bag - multiset(ins[..m]))
    requires arg in rest && arg < |values| && values[arg].ty == ins[m]
    ensures Picked(values, ins[..m + 1], unused, args + [arg])
    ensures rest - {arg} == unused - Members(args + [arg]) && taken + {arg} == used + Members(args + [arg])
    ensures multiset(ins[..m + 1]) <= bag
    ensures Tracks(values, rest - {arg}, bag - multiset(ins[..m + 1]))
  {
    TracksHas(values, rest, bag - multiset(ins[..m]), ins[m]);
    PrefixGrow(ins, m, bag);
    PickedSnoc(values, ins[..m], unused, args, ins[m], arg);
    assert ins[..m + 1] == ins[..m] + [ins[m]];
    TracksRemove(values, rest, bag - multiset(ins[..m]), arg);
    MembersSnoc(args, arg);
  }

  /**
   * The loop of `bake`: each output in turn receives its formatted template,
   * until the first template that names a missing argument.
   */
  method WriteDescriptions(values: seq<Value>, out: seq<nat>, templates: seq<Template>, descs: seq<string>)
    returns (values': seq<Value>, ok: bool)
    requires forall k :: 0 <= k < |out| ==> out[k] < |values|
    ensures values' == BakeOutputs(values, out, templates, descs)
    ensures ok <==> forall k :: 0 <= k < |out| && k < |templates| ==> SlotsBelow(templates[k], |descs|)
  {
    values' := values;
    var j := 0;
    while j < |out| && j < |templates|
      invariant 0 <= j <= |out| && j <= |templates|
      invariant |values'| == |values|
      invariant BakeOutputs(values', out[j..], templates[j..], descs) == BakeOutputs(values, out, templates, descs)
      invariant forall k :: 0 <= k < j ==> SlotsBelow(templates[k], |descs|)
    {
      var d := Format(templates[j], descs);
      if d.Err? {
        BakeOutputsStops(values', out, templates, descs, j);
        return values', false;
      }
      assert out[j..][0] == out[j] && templates[j..][0] == templates[j];
      assert out[j..][1..] == out[j + 1..] && templates[j..][1..] == templates[j + 1..];
      values' := values'[out[j] := values'[out[j]].(description := d.value)];
      j := j + 1;
    }
    ok := true;
  }

  /** Returns the values `outs`, of types `outtypes`, to the pool, one at a time. */
  method AddValues(values: seq<Value>, outs: seq<nat>, outtypes: seq<Ty>, pool: set<nat>, ghost bag: multiset<Ty>)
    returns (pool': set<nat>)
    requires Tracks(values, pool, bag) && |outs| == |outtypes|
    requires forall j :: 0 <= j < |outs| ==> outs[j] < |values| && values[outs[j]].ty == outtypes[j] && outs[j] !in pool
    requires forall j, k :: 0 <= j < k < |outs| ==> outs[j] < outs[k]
    ensures pool' == pool + Members(outs)
    ensures Tracks(values, pool', bag + multiset(outtypes))
  {
    pool' := pool;
    for j := 0 to |outs|
      invariant pool' == pool + Members(outs[..j])
      invariant Tracks(values, pool', bag + multiset(outtypes[..j]))
    {
      assert outs[j] !in pool' by {
        assert forall k :: 0 <= k < j ==> outs[..j][k] < outs[j];
      }
      TracksAdd(values, pool', bag + multiset(outtypes[..j]), outs[j]);
      assert outtypes[..j + 1] == outtypes[..j] + [outtypes[j]];
      assert outs[..j + 1] == outs[..j] + [outs[j]];
      pool' := pool' + {outs[j]};
    }
    assert outs[..|outs|] == outs && outtypes[..|outs|] == outtypes;
  }

  /**
   * Picks, input by input, an unused value of the input's type, as the
   * assembler does; succeeds exactly when the pool holds enough values of
   * every type.
   */
method BindInputs(values: seq<Value>, ins: seq<Ty>, unused: set<nat>, used: set<nat>, ghost bag: multiset<Ty>)
    returns (ok: bool, args: seq<nat>, unused': set<nat>, used': set<nat>)
    requires Tracks(values, unused, bag)
    ensures ok <==> multiset(ins) <= bag
    ensures ok ==> |args| == |ins|
    ensures ok ==> forall m :: 0 <= m < |args| ==> args[m] in unused && args[m] < |values| && values[args[m]].ty == ins[m]
    ensures ok ==> forall m, m' :: 0 <= m < m' < |args| ==> args[m] != args[m']
    ensures ok ==> unused' == unused - Members(args) && used' == used + Members(args)
    ensures ok ==> Tracks(values, unused', bag - multiset(ins))
  {
    args := [];
    unused', used' := unused, used;
    for m := 0 to |ins|
      invariant Picked(values, ins[..m], unused, args)
      invariant unused' == unused - Members(args) && used' == used + Members(args)
      invariant multiset(ins[..m]) <= bag
      invariant Tracks(values, unused', bag - multiset(ins[..m]))
    {
      TracksHas(values, unused', bag - multiset(ins[..m]), ins[m]);
      if !exists v :: v in unused' && v < |values| && values[v].ty == ins[m] {
        PrefixShort(ins, m, bag);
        return false, args, unused', used';
      }
      var arg :| arg in unused' && arg < |values| && values[arg].ty == ins[m];
      BindStep(values, ins, m, bag, unused, used, args, unused', used', arg);
      unused' := unused' - {arg};
      used' := used' + {arg};
      args := args + [arg];
    }
    assert ins[..|ins|] == ins;
    ok := true;
  }

  class PowerGraph {
    var values: seq<Value>
    var nodes: seq<Node>

    ghost predicate Valid()
      reads this
    {
      WellFormedArena(values, nodes)
    }

    /** An empty graph. */
    constructor ()
      ensures Valid() && values == [] && nodes == []
    {
      values, nodes := [], [];
    }

    /**
     * `Node.__init__`: check argument types over the zipped length (a length
     * mismatch only logs a warning), keep `args` as given, and allocate one
     * output per output type, uninitialized, whose source is the new node.
     */
    method NewNode(nt: NodeType, args: seq<nat>) returns (r: Result<nat, nat>)
      requires Valid()
      requires forall m :: 0 <= m < |args| ==> args[m] < |values|
      modifies this
      ensures Valid()
      ensures r.Ok? <==> ArgsMatch(old(values), args, nt.intypes)
      ensures r.Err? ==> values == old(values) && nodes == old(nodes)
      ensures r.Err? ==> r.error < |args| && r.error < |nt.intypes| && old(values)[args[r.error]].ty != nt.intypes[r.error]
      ensures r.Ok? ==> r.value == old(|nodes|)
      ensures r.Ok? ==> nodes == old(nodes) + [Node(nt, args, Range(old(|values|), |nt.outtypes|))]
      ensures r.Ok? ==> values == old(values) + NewOutputs(nt.outtypes, old(|nodes|))
    {
      var m := 0;
      while m < |args| && m < |nt.intypes|
        invariant 0 <= m <= |args|
        invariant forall k :: 0 <= k < m && k < |nt.intypes| ==> values[args[k]].ty == nt.intypes[k]
      {
        if values[args[m]].ty != nt.intypes[m] {
          return Err(m);
        }
        m := m + 1;
      }
      AppendNodeKeepsArena(values, nodes, nt, args);
      r := Ok(|nodes|);
      nodes := nodes + [Node(nt, args, Range(|values|, |nt.outtypes|))];
      values := values + NewOutputs(nt.outtypes, r.value);
    }

    /** `Node.bake` on node `i`; `false` when a template raises `IndexError`. */
    method Bake(i: nat) returns (ok: bool)
      requires Valid() && i < |nodes|
      modifies this
      ensures Valid() && nodes == old(nodes)
      ensures OutputsInRange(old(values), nodes[i]) && ArgsInRange(old(values), nodes[i])
      ensures values == Baked(old(values), nodes[i])
      ensures ok <==> BakeSucceeds(nodes[i])
    {
      var n := nodes[i];
      assert NodeWellFormed(values, nodes, i);
      ghost var v0 := values;
      var descs := ArgDescriptions(values, n.args);
      var baked;
      baked, ok := WriteDescriptions(values, n.out, n.nodeType.templates, descs);
      values := baked;
      SameShapeKeepsArena(v0, values, nodes);
    }

    /** `Node.values` of node `i`. */
    function Values(i: nat): (r: seq<string>)
      reads this
      requires Valid() && i < |nodes|
      ensures OutputsInRange(values, nodes[i])
      ensures |r| == |nodes[i].out|
      ensures forall j :: 0 <= j < |r| ==> r[j] == values[nodes[i].out[j]].description
    {
      assert NodeWellFormed(values, nodes, i);
      ValuesOf(values, nodes[i])
    }

    /**
     * `PowerGraph.description`: the descriptions of the `GameEffect` outputs,
     * joined by `". "`, visiting each node once in `order`, the iteration
     * order of the node set.  Whatever that order, the parts joined are the
     * ones node order `0, 1, ...` gives, rearranged.
     */
    function Description(order: seq<nat>): (r: string)
      reads this
      requires Valid() && multiset(order) == multiset(Range(0, |nodes|))
      ensures AllOutputsInRange(values, nodes) && IndicesBelow(order, |nodes|) && IndicesBelow(Range(0, |nodes|), |nodes|)
      ensures r == Join(". ", EffectDescriptions(values, nodes, order))
      ensures multiset(EffectDescriptions(values, nodes, order))
              == multiset(EffectDescriptions(values, nodes, Range(0, |nodes|)))
    {
      assert AllOutputsInRange(values, nodes) by {
        forall i | 0 <= i < |nodes| ensures OutputsInRange(values, nodes[i]) {
          assert NodeWellFormed(values, nodes, i);
        }
      }
      assert IndicesBelow(order, |nodes|) by {
        forall k | 0 <= k < |order| ensures order[k] < |nodes| {
          assert order[k] in multiset(Range(0, |nodes|));
        }
      }
      EffectDescriptionsPermutation(values, nodes, order, Range(0, |nodes|));
      Join(". ", EffectDescriptions(values, nodes, order))
    }

    /**
     * The argument loop of `addNodeType`: for each input type in order, bind
     * a random unused value of that type (`random.choice` raises on an empty
     * list) and move it to the used values.
     */
    method ChooseArguments(ins: seq<Ty>, unused: set<nat>, used: set<nat>, ghost bag: multiset<Ty>)
      returns (ok: bool, args: seq<nat>, unused': set<nat>, used': set<nat>)
      requires Binding(values, nodes, unused, used) && Tracks(values, unused, bag)
      ensures ok <==> multiset(ins) <= bag
      ensures ok ==> |args| == |ins|
      ensures ok ==> forall m :: 0 <= m < |args| ==> args[m] in unused && args[m] < |values| && values[args[m]].ty == ins[m]
      ensures ok ==> forall m, m' :: 0 <= m < m' < |args| ==> args[m] != args[m']
      ensures ok ==> unused' == unused - Members(args) && used' == used + Members(args)
      ensures ok ==> Tracks(values, unused', bag - multiset(ins))
    {
      ok, args, unused', used' := BindInputs(values, ins, unused, used, bag);
    }

    /** The loop adding node `i`'s outputs to the unused values. */
    method ReleaseOutputs(i: nat, pool: set<nat>, ghost bag: multiset<Ty>) returns (pool': set<nat>)
      requires Valid() && i < |nodes| && Tracks(values, pool, bag)
      requires forall j :: 0 <= j < |nodes[i].out| ==> nodes[i].out[j] !in pool
      ensures pool' == pool + Members(nodes[i].out)
      ensures Tracks(values, pool', bag + multiset(nodes[i].nodeType.outtypes))
    {
      assert NodeWellFormed(values, nodes, i);
      pool' := AddValues(values, nodes[i].out, nodes[i].nodeType.outtypes, pool, bag);
    }

    /**
     * `addNodeType`: bind the arguments, build the node, and add its outputs
     * to the unused values.
     */
    method AddNodeType(nt: NodeType, unused: set<nat>, used: set<nat>, ghost bag: multiset<Ty>)
      returns (ok: bool, unused': set<nat>, used': set<nat>)
      requires Valid() && Binding(values, nodes, unused, used) && Tracks(values, unused, bag)
      modifies this
      ensures Valid()
      ensures ok <==> multiset(nt.intypes) <= bag
      ensures !ok ==> nodes == old(nodes) && values == old(values)
      ensures ok ==> |nodes| == old(|nodes|) + 1 && nodes[..old(|nodes|)] == old(nodes)
      ensures ok ==> var n := nodes[old(|nodes|)];
                     && n.nodeType == nt && |n.args| == |nt.intypes|
                     && (forall m :: 0 <= m < |n.args| ==> n.args[m] in unused)
                     && unused' == (unused - Members(n.args)) + Members(n.out)
                     && used' == used + Members(n.args)
      ensures ok ==> values == old(values) + NewOutputs(nt.outtypes, old(|nodes|))
      ensures ok ==> nodes[old(|nodes|)].out == Range(old(|values|), |nt.outtypes|)
      ensures ok ==> Binding(values, nodes, unused', used')
      ensures ok ==> Tracks(values, unused', bag - multiset(nt.intypes) + multiset(nt.outtypes))
    {
      var args, unused1, used1;
      ok, args, unused1, used1 := ChooseArguments(nt.intypes, unused, used, bag);
      if !ok {
        return false, unused1, used1;
      }
      BindingAfterAdd(values, nodes, unused, used, nt, args);
      ghost var vs := values;
      var r := NewNode(nt, args);
      var outs := nodes[r.value].out;
      ghost var bag' := bag - multiset(nt.intypes);
      TracksSameTypes(vs, values, unused1, bag');
      assert forall j :: 0 <= j < |outs| ==> outs[j] == |vs| + j;
      unused' := ReleaseOutputs(r.value, unused1, bag');
      used' := used1;
    }
  }

  /** One step of `Feasible` on a suffix. */
  lemma FeasibleStep(bag: multiset<Ty>, nts: seq<NodeType>, i: nat)
    requires i < |nts|
    ensures Feasible(bag, nts[i..]) <==>
            multiset(nts[i].intypes) <= bag &&
            Feasible(bag - multiset(nts[i].intypes) + multiset(nts[i].outtypes), nts[i + 1..])
  {
    assert nts[i..][0] == nts[i] && nts[i..][1..] == nts[i + 1..];
  }

  /** Node k has node type `nts[k]` and one argument per input type. */
  ghost predicate Realizes(nodes: seq<Node>, nts: seq<NodeType>)
  {
    |nodes| == |nts| &&
    forall k :: 0 <= k < |nts| ==> nodes[k].nodeType == nts[k] && |nodes[k].args| == |nts[k].intypes|
  }

  lemma RealizesSnoc(before: seq<Node>, nodes: seq<Node>, nts: seq<NodeType>, i: nat)
    requires i < |nts| && Realizes(before, nts[..i])
    requires |nodes| == i + 1 && nodes[..i] == before
    requires nodes[i].nodeType == nts[i] && |nodes[i].args| == |nts[i].intypes|
    ensures Realizes(nodes, nts[..i + 1])
  {
    forall k | 0 <= k < i ensures nodes[k] == before[k] {
      assert nodes[..i][k] == nodes[k];
    }
  }

  /**
   * `PowerGraph.FromListOfNodeTypes`: add the node types in order, starting
   * from empty pools.  It completes exactly when the sequence is feasible;
   * then the graph has one node per entry, each with one argument of exactly
   * its input type per input, and no value is bound twice.  Nothing is
   * baked yet: every value is still described as `"uninitialized"`.
   */
  method FromListOfNodeTypes(nts: seq<NodeType>) returns (r: Option<PowerGraph>)
    ensures r.Some? <==> Feasible(multiset{}, nts)
    ensures r.Some? ==> fresh(r.value) && r.value.Valid()
    ensures r.Some? ==> Realizes(r.value.nodes, nts) && BoundOnce(r.value.nodes)
    ensures r.Some? ==> forall j :: 0 <= j < |r.value.values| ==> r.value.values[j].description == "uninitialized"
  {
    var g := new PowerGraph();
    var unused: set<nat> := {};
    var used: set<nat> := {};
    ghost var bag: multiset<Ty> := multiset{};
    for i := 0 to |nts|
      invariant g.Valid() && Binding(g.values, g.nodes, unused, used) && Tracks(g.values, unused, bag)
      invariant Feasible(multiset{}, nts) <==> Feasible(bag, nts[i..])
      invariant Realizes(g.nodes, nts[..i])
      invariant forall j :: 0 <= j < |g.values| ==> g.values[j].description == "uninitialized"
    {
      FeasibleStep(bag, nts, i);
      ghost var before := g.nodes;
      var ok;
      ok, unused, used := g.AddNodeType(nts[i], unused, used, bag);
      if !ok {
        return None;
      }
      RealizesSnoc(before, g.nodes, nts, i);
      bag := bag - multiset(nts[i].intypes) + multiset(nts[i].outtypes);
    }
    assert nts[|nts|..] == [] && nts[..|nts|] == nts;
    r := Some(g);
  }
}
