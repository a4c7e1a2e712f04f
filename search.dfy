/**
 * `findValidNodeTypes`: a bidirectional breadth-first search over sets of
 * "unused" types.  Forward states grow from subsets of the start types by
 * appending node types whose inputs fit; backward states shrink from the end
 * type by prepending node types whose outputs cover the target.  A sequence
 * is emitted whenever a forward state meets a cached backward state of the
 * same key, or the other way round.  States are sets, so repeated types collapse.
 */
module Search {
  import opened Library
  import opened Subsets

  type State = set<Ty>

  /** `frozenset(ts)`. */
  function Elems(ts: seq<Ty>): (r: State)
    ensures forall t :: t in r <==> t in ts
  {
    set t | t in ts
  }

  // ---------------------------------------------------------------------------
  // One step in each direction
  // ---------------------------------------------------------------------------

  /** Forward `canAddNodeType`: `not Counter(INTYPES) - Counter(available_types)`. */
  predicate CanAddForward(state: State, nt: NodeType)
  {
    multiset(nt.intypes) <= multiset(state)
  }

  /** `(available_types - frozenset(INTYPES)) | frozenset(OUTTYPES)`. */
  function ForwardStep(state: State, nt: NodeType): State
  {
    (state - Elems(nt.intypes)) + Elems(nt.outtypes)
  }

  /** Backward `canAddNodeType`: `not Counter(target_types) - Counter(OUTTYPES)`. */
  predicate CanAddBackward(target: State, nt: NodeType)
  {
    multiset(target) <= multiset(nt.outtypes)
  }

  /** `(target_types - frozenset(OUTTYPES)) | frozenset(INTYPES)`. */
  function BackwardStep(target: State, nt: NodeType): State
  {
    (target - Elems(nt.outtypes)) + Elems(nt.intypes)
  }

  /** The default search predicate `lambda types: len(types) < 4`. */
  function Small(types: State): bool
  {
    |types| < 4
  }

  lemma {:induction false} AtMostOnce(s: seq<Ty>, t: Ty)
    requires DistinctTypes(s)
    ensures multiset(s)[t] <= 1
  {
    if s != [] {
      var init := s[..|s| - 1];
      assert s == init + [s[|s| - 1]];
      assert DistinctTypes(init);
      AtMostOnce(init, t);
      assert s[|s| - 1] !in init;
    }
  }

  lemma TwiceCountsTwice(s: seq<Ty>, i: nat, j: nat)
    requires i < j < |s| && s[i] == s[j]
    ensures multiset(s)[s[i]] >= 2
  {
    assert s == s[..j] + [s[j]] + s[j + 1..];
    assert s[i] in s[..j];
  }

  /**
   * A node type extends a forward state exactly when every input type is in
   * the state and no input type is listed twice (a set holds each type once).
   */
  lemma CanAddForwardIff(state: State, nt: NodeType)
    ensures CanAddForward(state, nt) <==>
            (forall i :: 0 <= i < |nt.intypes| ==> nt.intypes[i] in state) && DistinctTypes(nt.intypes)
  {
    var ins := nt.intypes;
    if CanAddForward(state, nt) {
      forall i | 0 <= i < |ins| ensures ins[i] in state {
        assert multiset(ins)[ins[i]] >= 1;
      }
      forall i, j | 0 <= i < j < |ins| ensures ins[i] != ins[j] {
        if ins[i] == ins[j] {
          TwiceCountsTwice(ins, i, j);
        }
      }
    }
    if (forall i :: 0 <= i < |ins| ==> ins[i] in state) && DistinctTypes(ins) {
      forall t ensures multiset(ins)[t] <= multiset(state)[t] {
        AtMostOnce(ins, t);
      }
    }
  }

  /** A node type extends a backward state exactly when its outputs cover the whole target. */
  lemma CanAddBackwardIff(target: State, nt: NodeType)
    ensures CanAddBackward(target, nt) <==> target <= Elems(nt.outtypes)
  {
    if CanAddBackward(target, nt) {
      forall t | t in target ensures t in Elems(nt.outtypes) {
        assert multiset(target)[t] == 1;
      }
    }
    if target <= Elems(nt.outtypes) {
      forall t ensures multiset(target)[t] <= multiset(nt.outtypes)[t] {
        if t in target {
          assert t in nt.outtypes;
        }
      }
    }
  }

  /** After a permitted backward step the new target is exactly the set of the node's inputs. */
  lemma BackwardStepIsInputs(target: State, nt: NodeType)
    requires CanAddBackward(target, nt)
    ensures BackwardStep(target, nt) == Elems(nt.intypes)
  {
    CanAddBackwardIff(target, nt);
  }

  // ---------------------------------------------------------------------------
  // Prefixes and suffixes
  // ---------------------------------------------------------------------------

  /** Every node of `ns` fits the state reached by the nodes before it. */
  predicate ForwardChain(state: State, ns: seq<NodeType>)
    decreases |ns|
  {
    ns == [] || (CanAddForward(state, ns[0]) && ForwardChain(ForwardStep(state, ns[0]), ns[1..]))
  }

  function RunForward(state: State, ns: seq<NodeType>): State
    decreases |ns|
  {
    if ns == [] then state else RunForward(ForwardStep(state, ns[0]), ns[1..])
  }

  /** Appending one node type to a prefix, as the forward search does. */
  lemma {:induction false} ChainSnoc(state: State, ns: seq<NodeType>, nt: NodeType)
    ensures ForwardChain(state, ns + [nt]) <==> ForwardChain(state, ns) && CanAddForward(RunForward(state, ns), nt)
    ensures RunForward(state, ns + [nt]) == ForwardStep(RunForward(state, ns), nt)
    decreases |ns|
  {
    if ns == [] {
      assert ns + [nt] == [nt];
      assert [nt][1..] == [];
    } else {
      assert (ns + [nt])[0] == ns[0];
      assert (ns + [nt])[1..] == ns[1..] + [nt];
      ChainSnoc(ForwardStep(state, ns[0]), ns[1..], nt);
    }
  }

  lemma {:induction false} ChainAppend(state: State, p: seq<NodeType>, q: seq<NodeType>)
    requires ForwardChain(state, p) && ForwardChain(RunForward(state, p), q)
    ensures ForwardChain(state, p + q)
    ensures RunForward(state, p + q) == RunForward(RunForward(state, p), q)
    decreases |p|
  {
    if p == [] {
      assert p + q == q;
    } else {
      assert (p + q)[0] == p[0];
      assert (p + q)[1..] == p[1..] + q;
      ChainAppend(ForwardStep(state, p[0]), p[1..], q);
    }
  }

  /** `[typ for n in subset for typ in n.OUTTYPES]`. */
  function Outputs(ns: seq<NodeType>): seq<Ty>
  {
    if ns == [] then [] else ns[0].outtypes + Outputs(ns[1..])
  }

  predicate NoInputs(ns: seq<NodeType>)
  {
    forall i :: 0 <= i < |ns| ==> ns[i].intypes == []
  }

  /** Node types without inputs always fit and only add their outputs. */
  lemma {:induction false} RunSources(state: State, ns: seq<NodeType>)
    requires NoInputs(ns)
    ensures ForwardChain(state, ns)
    ensures RunForward(state, ns) == state + Elems(Outputs(ns))
    decreases |ns|
  {
    if ns != [] {
      assert Elems(ns[0].intypes) == {};
      assert CanAddForward(state, ns[0]);
      RunSources(ForwardStep(state, ns[0]), ns[1..]);
      assert Elems(Outputs(ns)) == Elems(ns[0].outtypes) + Elems(Outputs(ns[1..]));
    }
  }

  /** The state a suffix needs before its first node: the end type for an empty suffix. */
  function Target(s: seq<NodeType>, end: Ty): State
  {
    if s == [] then {end} else Elems(s[0].intypes)
  }

  /** Every node of `s` covers, with its outputs, the target of the nodes after it. */
  predicate BackwardChain(s: seq<NodeType>, end: Ty)
    decreases |s|
  {
    s == [] || (CanAddBackward(Target(s[1..], end), s[0]) && BackwardChain(s[1..], end))
  }

  /**
   * A suffix found by the backward search runs forward from any state that
   * contains its target, provided its node types never repeat an input type,
   * and it ends in a state holding the end type.
   */
  lemma {:induction false} SuffixRunsForward(state: State, s: seq<NodeType>, end: Ty)
    requires Target(s, end) <= state && BackwardChain(s, end)
    requires forall j :: 0 <= j < |s| ==> DistinctTypes(s[j].intypes)
    ensures ForwardChain(state, s) && end in RunForward(state, s)
    decreases |s|
  {
    if s != [] {
      CanAddForwardIff(state, s[0]);
      CanAddBackwardIff(Target(s[1..], end), s[0]);
      SuffixRunsForward(ForwardStep(state, s[0]), s[1..], end);
    }
  }

  /**
   * What the search emits: a forward chain from nothing followed by a
   * backward chain of library node types whose target is the state the
   * forward part reaches.
   */
  ghost predicate IsAbility(o: seq<NodeType>, end: Ty, nts: seq<NodeType>)
  {
    exists i ::
      && 0 <= i <= |o|
      && ForwardChain({}, o[..i])
      && BackwardChain(o[i..], end)
      && RunForward({}, o[..i]) == Target(o[i..], end)
      && forall j :: i <= j < |o| ==> o[j] in nts
  }

  /**
   * Every emitted sequence can be applied forward from the empty state, node
   * by node, and the last state holds the end type.
   */
  lemma AbilityIsSound(o: seq<NodeType>, end: Ty, nts: seq<NodeType>)
    requires IsAbility(o, end, nts)
    requires forall n :: n in nts ==> DistinctTypes(n.intypes)
    ensures ForwardChain({}, o) && end in RunForward({}, o)
  {
    var i :| 0 <= i <= |o| && ForwardChain({}, o[..i]) && BackwardChain(o[i..], end)
             && RunForward({}, o[..i]) == Target(o[i..], end) && forall j :: i <= j < |o| ==> o[j] in nts;
    var p, s := o[..i], o[i..];
    assert o == p + s;
    forall j | 0 <= j < |s| ensures DistinctTypes(s[j].intypes) {
      assert s[j] == o[i + j];
    }
    SuffixRunsForward(RunForward({}, p), s, end);
    ChainAppend({}, p, s);
  }

  lemma JoinIsAbility(p: seq<NodeType>, s: seq<NodeType>, end: Ty, nts: seq<NodeType>)
    requires ForwardChain({}, p) && BackwardChain(s, end) && RunForward({}, p) == Target(s, end)
    requires forall j :: 0 <= j < |s| ==> s[j] in nts
    ensures IsAbility(p + s, end, nts)
  {
    var o := p + s;
    assert o[..|p|] == p && o[|p|..] == s;
    forall j | |p| <= j < |o| ensures o[j] in nts {
      assert o[j] == s[j - |p|];
    }
  }

  // ---------------------------------------------------------------------------
  // Queues and caches
  // ---------------------------------------------------------------------------

  /**
   * Keys of `prefixcache`: the initial prefixes are filed under the tuple of
   * their output types, later prefixes under a frozenset.  Lookups use
   * frozensets, and a tuple never equals a frozenset.
   */
  datatype CacheKey = TupleKey(types: seq<Ty>) | SetKey(state: State)

  type Entry = (State, seq<NodeType>)

  type PrefixCache = map<CacheKey, seq<seq<NodeType>>>

  type SuffixCache = map<State, seq<seq<NodeType>>>

  /** `defaultdict(list)` lookup that does not insert. */
  function Lookup<K>(cache: map<K, seq<seq<NodeType>>>, key: K): seq<seq<NodeType>>
  {
    if key in cache then cache[key] else []
  }

  /** `cache[key].append(value)` on a `defaultdict(list)`. */
  function Append<K>(cache: map<K, seq<seq<NodeType>>>, key: K, value: seq<NodeType>): map<K, seq<seq<NodeType>>>
  {
    cache[key := Lookup(cache, key) + [value]]
  }

  /** The queue entries of the initial loop: `(frozenset(a), subset)` per subset. */
  function InitialEntries(subsets: seq<seq<NodeType>>): (r: seq<Entry>)
    ensures |r| == |subsets|
    ensures forall i :: 0 <= i < |subsets| ==> r[i] == (Elems(Outputs(subsets[i])), subsets[i])
  {
    seq(|subsets|, i requires 0 <= i < |subsets| => (Elems(Outputs(subsets[i])), subsets[i]))
  }

  /** `prefixcache[tuple(a)].append(subset)` for every subset in turn. */
  function CacheInitial(subsets: seq<seq<NodeType>>): PrefixCache
  {
    if subsets == [] then map[]
    else
      var u := subsets[|subsets| - 1];
      Append(CacheInitial(subsets[..|subsets| - 1]), TupleKey(Outputs(u)), u)
  }

  /** The entries one forward step queues, in the order of `nts`. */
  function ForwardSuccessors(state: State, prefix: seq<NodeType>, nts: seq<NodeType>, pred: State -> bool)
    : seq<Entry>
  {
    if nts == [] then []
    else
      var nt := nts[|nts| - 1];
      var rest := ForwardSuccessors(state, prefix, nts[..|nts| - 1], pred);
      var next := ForwardStep(state, nt);
      if CanAddForward(state, nt) && pred(next) then rest + [(next, prefix + [nt])] else rest
  }

  /** The entries one backward step queues, in the order of `nts`. */
  function BackwardSuccessors(target: State, suffix: seq<NodeType>, nts: seq<NodeType>, pred: State -> bool)
    : seq<Entry>
  {
    if nts == [] then []
    else
      var nt := nts[|nts| - 1];
      var rest := BackwardSuccessors(target, suffix, nts[..|nts| - 1], pred);
      var next := BackwardStep(target, nt);
      if CanAddBackward(target, nt) && pred(next) then rest + [(next, [nt] + suffix)] else rest
  }

  lemma BackwardSuccessorsStep(target: State, suffix: seq<NodeType>, nts: seq<NodeType>, i: nat, pred: State -> bool)
    requires i < |nts|
    ensures CanAddBackward(target, nts[i]) && pred(BackwardStep(target, nts[i])) ==>
              BackwardSuccessors(target, suffix, nts[..i + 1], pred)
              == BackwardSuccessors(target, suffix, nts[..i], pred) + [(BackwardStep(target, nts[i]), [nts[i]] + suffix)]
    ensures !(CanAddBackward(target, nts[i]) && pred(BackwardStep(target, nts[i]))) ==>
              BackwardSuccessors(target, suffix, nts[..i + 1], pred) == BackwardSuccessors(target, suffix, nts[..i], pred)
  {
    assert nts[..i + 1][..i] == nts[..i];
  }

  /** `prefixcache[new_args].append(new_nodetypes_prefix)` for each queued entry. */
  function CachePrefixes(cache: PrefixCache, entries: seq<Entry>): PrefixCache
  {
    if entries == [] then cache
    else
      var e := entries[|entries| - 1];
      Append(CachePrefixes(cache, entries[..|entries| - 1]), SetKey(e.0), e.1)
  }

  lemma ForwardSuccessorsStep(state: State, prefix: seq<NodeType>, nts: seq<NodeType>, i: nat, pred: State -> bool)
    requires i < |nts|
    ensures CanAddForward(state, nts[i]) && pred(ForwardStep(state, nts[i])) ==>
              ForwardSuccessors(state, prefix, nts[..i + 1], pred)
              == ForwardSuccessors(state, prefix, nts[..i], pred) + [(ForwardStep(state, nts[i]), prefix + [nts[i]])]
    ensures !(CanAddForward(state, nts[i]) && pred(ForwardStep(state, nts[i]))) ==>
              ForwardSuccessors(state, prefix, nts[..i + 1], pred) == ForwardSuccessors(state, prefix, nts[..i], pred)
  {
    assert nts[..i + 1][..i] == nts[..i];
  }

  lemma CachePrefixesSnoc(cache: PrefixCache, entries: seq<Entry>, e: Entry)
    ensures CachePrefixes(cache, entries + [e]) == Append(CachePrefixes(cache, entries), SetKey(e.0), e.1)
  {
    assert (entries + [e])[..|entries|] == entries;
  }

  lemma CacheSuffixesSnoc(cache: SuffixCache, entries: seq<Entry>, e: Entry)
    ensures CacheSuffixes(cache, entries + [e]) == Append(CacheSuffixes(cache, entries), e.0, e.1)
  {
    assert (entries + [e])[..|entries|] == entries;
  }

  /** `suffixcache[new_args].append(new_nodetypes_suffix)` for each queued entry. */
  function CacheSuffixes(cache: SuffixCache, entries: seq<Entry>): SuffixCache
  {
    if entries == [] then cache
    else
      var e := entries[|entries| - 1];
      Append(CacheSuffixes(cache, entries[..|entries| - 1]), e.0, e.1)
  }

  function JoinSuffixes(prefix: seq<NodeType>, suffixes: seq<seq<NodeType>>): (r: seq<seq<NodeType>>)
    ensures |r| == |suffixes| && forall j :: 0 <= j < |r| ==> r[j] == prefix + suffixes[j]
  {
    seq(|suffixes|, j requires 0 <= j < |suffixes| => prefix + suffixes[j])
  }

  function JoinPrefixes(prefixes: seq<seq<NodeType>>, suffix: seq<NodeType>): (r: seq<seq<NodeType>>)
    ensures |r| == |prefixes| && forall j :: 0 <= j < |r| ==> r[j] == prefixes[j] + suffix
  {
    seq(|prefixes|, j requires 0 <= j < |prefixes| => prefixes[j] + suffix)
  }

  /** A forward entry: when the start types need no inputs, its prefix runs from nothing to its state. */
  ghost predicate PrefixOk(start: seq<NodeType>, state: State, p: seq<NodeType>)
  {
    NoInputs(start) ==> ForwardChain({}, p) && RunForward({}, p) == state
  }

  /** A backward entry: its suffix is a backward chain of library node types whose target is its key. */
  ghost predicate SuffixOk(end: Ty, nts: seq<NodeType>, target: State, s: seq<NodeType>)
  {
    && BackwardChain(s, end)
    && Target(s, end) == target
    && forall j :: 0 <= j < |s| ==> s[j] in nts
  }

  ghost predicate SearchInvariant(start: seq<NodeType>, end: Ty, nts: seq<NodeType>,
                                  forwardq: seq<Entry>, backwardq: seq<Entry>,
                                  prefixcache: PrefixCache, suffixcache: SuffixCache)
  {
    && (forall e :: e in forwardq ==> PrefixOk(start, e.0, e.1))
    && (forall key :: key in prefixcache && key.SetKey? ==>
          forall p :: p in prefixcache[key] ==> PrefixOk(start, key.state, p) && p != [] && p[|p| - 1] in nts)
    && (forall key :: key in prefixcache && key.TupleKey? ==>
          forall p :: p in prefixcache[key] ==> p in Powerset(start) && Outputs(p) == key.types)
    && (forall e :: e in backwardq ==> SuffixOk(end, nts, e.0, e.1))
    && (forall k :: k in suffixcache ==> forall s :: s in suffixcache[k] ==> SuffixOk(end, nts, k, s))
  }

  lemma {:induction false} InitialEntriesOk(start: seq<NodeType>, subsets: seq<seq<NodeType>>)
    requires forall u :: u in subsets ==> IsSubsequence(u, start)
    ensures forall e :: e in InitialEntries(subsets) ==> PrefixOk(start, e.0, e.1)
  {
    forall e | e in InitialEntries(subsets) ensures PrefixOk(start, e.0, e.1) {
      var i :| 0 <= i < |subsets| && InitialEntries(subsets)[i] == e;
      if NoInputs(start) {
        var u := subsets[i];
        SubsequenceElements(u, start);
        RunSources({}, u);
      }
    }
  }

  lemma {:induction false} CacheInitialShape(subsets: seq<seq<NodeType>>)
    ensures forall key :: key in CacheInitial(subsets) ==>
              (key.TupleKey? && forall p :: p in CacheInitial(subsets)[key] ==> p in subsets && Outputs(p) == key.types)
  {
    if subsets != [] {
      var init := subsets[..|subsets| - 1];
      CacheInitialShape(init);
      forall u | u in init ensures u in subsets {
      }
    }
  }

  /** The state `findValidNodeTypes` builds before its main loop satisfies the invariant. */
  lemma InitialInvariant(start: seq<NodeType>, end: Ty, nts: seq<NodeType>)
    ensures SearchInvariant(start, end, nts, InitialEntries(Powerset(start)), [({end}, [])],
                            CacheInitial(Powerset(start)), map[{end} := [[]]])
  {
    var subsets := Powerset(start);
    PowersetProperties(start);
    InitialEntriesOk(start, subsets);
    CacheInitialShape(subsets);
    assert SuffixOk(end, nts, {end}, []);
  }

  /** Prepending a node type whose outputs cover the target keeps a suffix valid. */
  lemma ExtendSuffix(end: Ty, nts: seq<NodeType>, target: State, suffix: seq<NodeType>, nt: NodeType)
    requires SuffixOk(end, nts, target, suffix) && CanAddBackward(target, nt) && nt in nts
    ensures SuffixOk(end, nts, BackwardStep(target, nt), [nt] + suffix)
  {
    BackwardStepIsInputs(target, nt);
    var s := [nt] + suffix;
    assert s[1..] == suffix;
    forall j | 0 <= j < |s| ensures s[j] in nts {
      if j > 0 {
        assert s[j] == suffix[j - 1];
      }
    }
  }

  /** Joining a popped prefix with the suffixes cached under its state yields abilities. */
  lemma JoinedSuffixesAreAbilities(start: seq<NodeType>, end: Ty, nts: seq<NodeType>, fq: seq<Entry>,
                                   bq: seq<Entry>, pc: PrefixCache, sc: SuffixCache,
                                   state: State, prefix: seq<NodeType>)
    requires SearchInvariant(start, end, nts, fq, bq, pc, sc)
    requires PrefixOk(start, state, prefix) && NoInputs(start)
    ensures forall o :: o in JoinSuffixes(prefix, Lookup(sc, state)) ==> IsAbility(o, end, nts)
  {
    var out := JoinSuffixes(prefix, Lookup(sc, state));
    forall o | o in out ensures IsAbility(o, end, nts) {
      var j :| 0 <= j < |out| && out[j] == o;
      var s := sc[state][j];
      assert s in sc[state];
      JoinIsAbility(prefix, s, end, nts);
    }
  }

  /** Joining the prefixes cached under a popped target with its suffix yields abilities. */
  lemma JoinedPrefixesAreAbilities(start: seq<NodeType>, end: Ty, nts: seq<NodeType>, fq: seq<Entry>,
                                   bq: seq<Entry>, pc: PrefixCache, sc: SuffixCache,
                                   target: State, suffix: seq<NodeType>)
    requires SearchInvariant(start, end, nts, fq, bq, pc, sc)
    requires SuffixOk(end, nts, target, suffix) && NoInputs(start)
    ensures forall o :: o in JoinPrefixes(Lookup(pc, SetKey(target)), suffix) ==> IsAbility(o, end, nts)
  {
    var out := JoinPrefixes(Lookup(pc, SetKey(target)), suffix);
    forall o | o in out ensures IsAbility(o, end, nts) {
      var j :| 0 <= j < |out| && out[j] == o;
      var p := pc[SetKey(target)][j];
      assert p in pc[SetKey(target)];
      JoinIsAbility(p, suffix, end, nts);
    }
  }

  lemma PopForward(start: seq<NodeType>, end: Ty, nts: seq<NodeType>, fq: seq<Entry>, bq: seq<Entry>,
                   pc: PrefixCache, sc: SuffixCache)
    requires SearchInvariant(start, end, nts, fq, bq, pc, sc) && fq != []
    ensures PrefixOk(start, fq[0].0, fq[0].1)
    ensures SearchInvariant(start, end, nts, fq[1..], bq, pc, sc)
  {
    assert fq[0] in fq;
    forall e | e in fq[1..] ensures e in fq {
    }
  }

  lemma PushForward(start: seq<NodeType>, end: Ty, nts: seq<NodeType>, fq: seq<Entry>, bq: seq<Entry>,
                    pc: PrefixCache, sc: SuffixCache, next: State, p: seq<NodeType>)
    requires SearchInvariant(start, end, nts, fq, bq, pc, sc)
    requires PrefixOk(start, next, p) && p != [] && p[|p| - 1] in nts
    ensures SearchInvariant(start, end, nts, fq + [(next, p)], bq, Append(pc, SetKey(next), p), sc)
  {
    var pc' := Append(pc, SetKey(next), p);
    forall key | key in pc' && key.SetKey?
      ensures forall q :: q in pc'[key] ==> PrefixOk(start, key.state, q) && q != [] && q[|q| - 1] in nts
    {
      if key != SetKey(next) {
        assert pc'[key] == pc[key];
      }
    }
    forall key | key in pc' && key.TupleKey?
      ensures forall q :: q in pc'[key] ==> q in Powerset(start) && Outputs(q) == key.types
    {
      assert pc'[key] == pc[key];
    }
  }

  lemma PopBackward(start: seq<NodeType>, end: Ty, nts: seq<NodeType>, fq: seq<Entry>, bq: seq<Entry>,
                    pc: PrefixCache, sc: SuffixCache)
    requires SearchInvariant(start, end, nts, fq, bq, pc, sc) && bq != []
    ensures SuffixOk(end, nts, bq[0].0, bq[0].1)
    ensures SearchInvariant(start, end, nts, fq, bq[1..], pc, sc)
  {
    assert bq[0] in bq;
    forall e | e in bq[1..] ensures e in bq {
    }
  }

  lemma PushBackward(start: seq<NodeType>, end: Ty, nts: seq<NodeType>, fq: seq<Entry>, bq: seq<Entry>,
                     pc: PrefixCache, sc: SuffixCache, next: State, s: seq<NodeType>)
    requires SearchInvariant(start, end, nts, fq, bq, pc, sc)
    requires SuffixOk(end, nts, next, s)
    ensures SearchInvariant(start, end, nts, fq, bq + [(next, s)], pc, Append(sc, next, s))
  {
    var sc' := Append(sc, next, s);
    forall k | k in sc' ensures forall q :: q in sc'[k] ==> SuffixOk(end, nts, k, q) {
      if k != next {
        assert sc'[k] == sc[k];
      }
    }
  }

  /** Every entry a forward step queues is a valid prefix that ends in one of the node types tried. */
  lemma {:induction false} ForwardSuccessorsOk(start: seq<NodeType>, all: seq<NodeType>, state: State,
                                               prefix: seq<NodeType>, nts: seq<NodeType>, pred: State -> bool)
    requires PrefixOk(start, state, prefix) && forall x :: x in nts ==> x in all
    ensures forall e :: e in ForwardSuccessors(state, prefix, nts, pred) ==>
              PrefixOk(start, e.0, e.1) && e.1 != [] && e.1[|e.1| - 1] in all
    decreases |nts|
  {
    if nts != [] {
      var init, nt := nts[..|nts| - 1], nts[|nts| - 1];
      assert forall x :: x in init ==> x in nts;
      ForwardSuccessorsOk(start, all, state, prefix, init, pred);
      if NoInputs(start) {
        ChainSnoc({}, prefix, nt);
      }
      var np := prefix + [nt];
      assert np[|np| - 1] == nt;
    }
  }

  /** Queueing and caching valid prefixes one after another keeps the search invariant. */
  lemma {:induction false} PushForwardAll(start: seq<NodeType>, end: Ty, nts: seq<NodeType>, fq: seq<Entry>,
                                          bq: seq<Entry>, pc: PrefixCache, sc: SuffixCache, entries: seq<Entry>)
    requires SearchInvariant(start, end, nts, fq, bq, pc, sc)
    requires forall e :: e in entries ==> PrefixOk(start, e.0, e.1) && e.1 != [] && e.1[|e.1| - 1] in nts
    ensures SearchInvariant(start, end, nts, fq + entries, bq, CachePrefixes(pc, entries), sc)
    decreases |entries|
  {
    if entries == [] {
      assert fq + entries == fq;
    } else {
      var init, e := entries[..|entries| - 1], entries[|entries| - 1];
      assert forall x :: x in init ==> x in entries;
      PushForwardAll(start, end, nts, fq, bq, pc, sc, init);
      assert e in entries;
      PushForward(start, end, nts, fq + init, bq, CachePrefixes(pc, init), sc, e.0, e.1);
      assert fq + init + [e] == fq + entries;
    }
  }

  /** Every entry a backward step queues is a valid suffix. */
  lemma {:induction false} BackwardSuccessorsOk(end: Ty, all: seq<NodeType>, target: State, suffix: seq<NodeType>,
                                                nts: seq<NodeType>, pred: State -> bool)
    requires SuffixOk(end, all, target, suffix) && forall x :: x in nts ==> x in all
    ensures forall e :: e in BackwardSuccessors(target, suffix, nts, pred) ==> SuffixOk(end, all, e.0, e.1)
    decreases |nts|
  {
    if nts != [] {
      var init, nt := nts[..|nts| - 1], nts[|nts| - 1];
      assert forall x :: x in init ==> x in nts;
      BackwardSuccessorsOk(end, all, target, suffix, init, pred);
      if CanAddBackward(target, nt) {
        ExtendSuffix(end, all, target, suffix, nt);
      }
    }
  }

  /** Queueing and caching valid suffixes one after another keeps the search invariant. */
  lemma {:induction false} PushBackwardAll(start: seq<NodeType>, end: Ty, nts: seq<NodeType>, fq: seq<Entry>,
                                           bq: seq<Entry>, pc: PrefixCache, sc: SuffixCache, entries: seq<Entry>)
    requires SearchInvariant(start, end, nts, fq, bq, pc, sc)
    requires forall e :: e in entries ==> SuffixOk(end, nts, e.0, e.1)
    ensures SearchInvariant(start, end, nts, fq, bq + entries, pc, CacheSuffixes(sc, entries))
    decreases |entries|
  {
    if entries == [] {
      assert bq + entries == bq;
    } else {
      var init, e := entries[..|entries| - 1], entries[|entries| - 1];
      assert forall x :: x in init ==> x in entries;
      PushBackwardAll(start, end, nts, fq, bq, pc, sc, init);
      assert e in entries;
      PushBackward(start, end, nts, fq, bq + init, pc, CacheSuffixes(sc, init), e.0, e.1);
      assert bq + init + [e] == bq + entries;
    }
  }

  /**
   * The loop of `process_forwardq` over `nodetypes`: queue and cache every
   * extension of `prefix` by a node type that fits `state` and whose
   * successor state satisfies `pred`.
   */
  method CollectForward(state: State, prefix: seq<NodeType>, nts: seq<NodeType>, pred: State -> bool,
                        fq: seq<Entry>, pc: PrefixCache)
    returns (fq': seq<Entry>, pc': PrefixCache)
    ensures fq' == fq + ForwardSuccessors(state, prefix, nts, pred)
    ensures pc' == CachePrefixes(pc, ForwardSuccessors(state, prefix, nts, pred))
  {
    fq', pc' := fq, pc;
    for i := 0 to |nts|
      invariant fq' == fq + ForwardSuccessors(state, prefix, nts[..i], pred)
      invariant pc' == CachePrefixes(pc, ForwardSuccessors(state, prefix, nts[..i], pred))
    {
      var nt := nts[i];
      ForwardSuccessorsStep(state, prefix, nts, i, pred);
      if CanAddForward(state, nt) {
        var next := ForwardStep(state, nt);
        var newPrefix := prefix + [nt];
        if pred(next) {
          CachePrefixesSnoc(pc, ForwardSuccessors(state, prefix, nts[..i], pred), (next, newPrefix));
          fq' := fq' + [(next, newPrefix)];
          pc' := Append(pc', SetKey(next), newPrefix);
        }
      }
    }
    assert nts[..|nts|] == nts;
  }

  /**
   * The loop of `process_backwardq` over `nodetypes`: queue and cache every
   * node type whose outputs cover `target`, prepended to `suffix`, when its
   * inputs satisfy `pred`.
   */
  method CollectBackward(target: State, suffix: seq<NodeType>, nts: seq<NodeType>, pred: State -> bool,
                         bq: seq<Entry>, sc: SuffixCache)
    returns (bq': seq<Entry>, sc': SuffixCache)
    ensures bq' == bq + BackwardSuccessors(target, suffix, nts, pred)
    ensures sc' == CacheSuffixes(sc, BackwardSuccessors(target, suffix, nts, pred))
  {
    bq', sc' := bq, sc;
    for i := 0 to |nts|
      invariant bq' == bq + BackwardSuccessors(target, suffix, nts[..i], pred)
      invariant sc' == CacheSuffixes(sc, BackwardSuccessors(target, suffix, nts[..i], pred))
    {
      var nt := nts[i];
      BackwardSuccessorsStep(target, suffix, nts, i, pred);
      if CanAddBackward(target, nt) {
        var next := BackwardStep(target, nt);
        var newSuffix := [nt] + suffix;
        if pred(next) {
          CacheSuffixesSnoc(sc, BackwardSuccessors(target, suffix, nts[..i], pred), (next, newSuffix));
          bq' := bq' + [(next, newSuffix)];
          sc' := Append(sc', next, newSuffix);
        }
      }
    }
    assert nts[..|nts|] == nts;
  }

  /** Queues every subset of the starting node types, caching each under its outputs. */
  method SeedForward(subsets: seq<seq<NodeType>>) returns (fq: seq<Entry>, pc: PrefixCache)
    ensures fq == InitialEntries(subsets) && pc == CacheInitial(subsets)
  {
    fq, pc := [], map[];
    for i := 0 to |subsets|
      invariant fq == InitialEntries(subsets[..i])
      invariant pc == CacheInitial(subsets[..i])
    {
      var u := subsets[i];
      var a := Outputs(u);
      assert subsets[..i + 1][..i] == subsets[..i];
      fq := fq + [(Elems(a), u)];
      pc := Append(pc, TupleKey(a), u);
    }
    assert subsets[..|subsets|] == subsets;
  }

  /** The two queues and the two caches of a running search. */
  datatype Frontier = Frontier(forwardq: seq<Entry>, backwardq: seq<Entry>,
                               prefixcache: PrefixCache, suffixcache: SuffixCache)

  ghost predicate FrontierOk(start: seq<NodeType>, end: Ty, nts: seq<NodeType>, f: Frontier)
  {
    SearchInvariant(start, end, nts, f.forwardq, f.backwardq, f.prefixcache, f.suffixcache)
  }

  /** The queues and caches `findValidNodeTypes` sets up before its main loop. */
  function InitialFrontier(start: seq<NodeType>, end: Ty): Frontier
  {
    Frontier(InitialEntries(Powerset(start)), [({end}, [])], CacheInitial(Powerset(start)), map[{end} := [[]]])
  }

  /** What one `process_forwardq` yields, and the frontier it leaves behind. */
  function ForwardRound(nts: seq<NodeType>, pred: State -> bool, f: Frontier): (seq<seq<NodeType>>, Frontier)
    requires f.forwardq != []
  {
    var (state, prefix) := f.forwardq[0];
    var succ := ForwardSuccessors(state, prefix, nts, pred);
    (JoinSuffixes(prefix, Lookup(f.suffixcache, state)),
     Frontier(f.forwardq[1..] + succ, f.backwardq, CachePrefixes(f.prefixcache, succ), f.suffixcache))
  }

  /** What one `process_backwardq` yields, and the frontier it leaves behind. */
  function BackwardRound(nts: seq<NodeType>, pred: State -> bool, f: Frontier): (seq<seq<NodeType>>, Frontier)
    requires f.backwardq != []
  {
    var (target, suffix) := f.backwardq[0];
    var succ := BackwardSuccessors(target, suffix, nts, pred);
    (JoinPrefixes(Lookup(f.prefixcache, SetKey(target)), suffix),
     Frontier(f.forwardq, f.backwardq[1..] + succ, f.prefixcache, CacheSuffixes(f.suffixcache, succ)))
  }

  /** One turn of the main loop: a forward step when that queue is non-empty, then likewise a backward step. */
  function Round(nts: seq<NodeType>, pred: State -> bool, f: Frontier): (seq<seq<NodeType>>, Frontier)
  {
    var (o1, f1) := if f.forwardq != [] then ForwardRound(nts, pred, f) else ([], f);
    var (o2, f2) := if f1.backwardq != [] then BackwardRound(nts, pred, f1) else ([], f1);
    (o1 + o2, f2)
  }

  /**
   * Everything yielded by at most `fuel` turns of the main loop, which stops
   * once both queues are empty, and the frontier left behind.
   */
  function Rounds(nts: seq<NodeType>, pred: State -> bool, fuel: nat, f: Frontier): (seq<seq<NodeType>>, Frontier)
    decreases fuel
  {
    if fuel == 0 || (f.forwardq == [] && f.backwardq == []) then ([], f)
    else
      var (o, f') := Round(nts, pred, f);
      var (rest, last) := Rounds(nts, pred, fuel - 1, f');
      (o + rest, last)
  }

  /** A turn of the main loop is its forward step, if any, followed by its backward step, if any. */
  lemma RoundIs(nts: seq<NodeType>, pred: State -> bool, f: Frontier, o1: seq<seq<NodeType>>, middle: Frontier,
                 o2: seq<seq<NodeType>>, last: Frontier)
    requires (o1, middle) == if f.forwardq != [] then ForwardRound(nts, pred, f) else ([], f)
    requires (o2, last) == if middle.backwardq != [] then BackwardRound(nts, pred, middle) else ([], middle)
    ensures Round(nts, pred, f) == (o1 + o2, last)
  {
  }

  /** Out of fuel or out of work, the main loop yields nothing more. */
  lemma RoundsDone(nts: seq<NodeType>, pred: State -> bool, fuel: nat, f: Frontier)
    requires fuel == 0 || (f.forwardq == [] && f.backwardq == [])
    ensures Rounds(nts, pred, fuel, f) == ([], f)
  {
  }

  /** One more turn of the main loop, while it has fuel and work. */
  lemma RoundsUnfold(nts: seq<NodeType>, pred: State -> bool, fuel: nat, f: Frontier)
    requires fuel > 0 && (f.forwardq != [] || f.backwardq != [])
    ensures Rounds(nts, pred, fuel, f)
            == (Round(nts, pred, f).0 + Rounds(nts, pred, fuel - 1, Round(nts, pred, f).1).0,
                Rounds(nts, pred, fuel - 1, Round(nts, pred, f).1).1)
  {
  }

  /** A forward step keeps the search invariant and, from input-free start types, yields only abilities. */
  lemma ForwardRoundOk(start: seq<NodeType>, end: Ty, nts: seq<NodeType>, pred: State -> bool, f: Frontier)
    requires FrontierOk(start, end, nts, f) && f.forwardq != []
    ensures FrontierOk(start, end, nts, ForwardRound(nts, pred, f).1)
    ensures NoInputs(start) ==> forall o :: o in ForwardRound(nts, pred, f).0 ==> IsAbility(o, end, nts)
  {
    var (state, prefix) := f.forwardq[0];
    var fq, bq, pc, sc := f.forwardq, f.backwardq, f.prefixcache, f.suffixcache;
    PopForward(start, end, nts, fq, bq, pc, sc);
    if NoInputs(start) {
      JoinedSuffixesAreAbilities(start, end, nts, fq[1..], bq, pc, sc, state, prefix);
    }
    ForwardSuccessorsOk(start, nts, state, prefix, nts, pred);
    PushForwardAll(start, end, nts, fq[1..], bq, pc, sc, ForwardSuccessors(state, prefix, nts, pred));
  }

  /** A backward step keeps the search invariant and, from input-free start types, yields only abilities. */
  lemma BackwardRoundOk(start: seq<NodeType>, end: Ty, nts: seq<NodeType>, pred: State -> bool, f: Frontier)
    requires FrontierOk(start, end, nts, f) && f.backwardq != []
    ensures FrontierOk(start, end, nts, BackwardRound(nts, pred, f).1)
    ensures NoInputs(start) ==> forall o :: o in BackwardRound(nts, pred, f).0 ==> IsAbility(o, end, nts)
  {
    var (target, suffix) := f.backwardq[0];
    var fq, bq, pc, sc := f.forwardq, f.backwardq, f.prefixcache, f.suffixcache;
    PopBackward(start, end, nts, fq, bq, pc, sc);
    if NoInputs(start) {
      JoinedPrefixesAreAbilities(start, end, nts, fq, bq[1..], pc, sc, target, suffix);
    }
    BackwardSuccessorsOk(end, nts, target, suffix, nts, pred);
    PushBackwardAll(start, end, nts, fq, bq[1..], pc, sc, BackwardSuccessors(target, suffix, nts, pred));
  }

  /**
   * However many turns the main loop takes, the search invariant holds
   * throughout and, from input-free start types, everything yielded is an
   * ability.
   */
  lemma {:induction false} RoundsSound(start: seq<NodeType>, end: Ty, nts: seq<NodeType>, pred: State -> bool,
                                       fuel: nat, f: Frontier)
    requires FrontierOk(start, end, nts, f)
    ensures FrontierOk(start, end, nts, Rounds(nts, pred, fuel, f).1)
    ensures NoInputs(start) ==> forall o :: o in Rounds(nts, pred, fuel, f).0 ==> IsAbility(o, end, nts)
    decreases fuel
  {
    if fuel > 0 && (f.forwardq != [] || f.backwardq != []) {
      var f1 := f;
      if f.forwardq != [] {
        ForwardRoundOk(start, end, nts, pred, f);
        f1 := ForwardRound(nts, pred, f).1;
      }
      if f1.backwardq != [] {
        BackwardRoundOk(start, end, nts, pred, f1);
      }
      RoundsSound(start, end, nts, pred, fuel - 1, Round(nts, pred, f).1);
    }
  }

  class BidirectionalSearch {
    const startTypes: seq<NodeType>
    const endType: Ty
    const pred: State -> bool
    /** The module-level `nodetypes` list the search draws from. */
    const nodetypes: seq<NodeType>

    var forwardq: seq<Entry>
    var backwardq: seq<Entry>
    var prefixcache: PrefixCache
    var suffixcache: SuffixCache

    ghost predicate Valid()
      reads this
    {
      SearchInvariant(startTypes, endType, nodetypes, forwardq, backwardq, prefixcache, suffixcache)
    }

    /** The queues and caches as they stand. */
    ghost function Current(): Frontier
      reads this
    {
      Frontier(forwardq, backwardq, prefixcache, suffixcache)
    }

    /** The set-up part of `findValidNodeTypes`, before its main loop. */
    constructor (startTypes: seq<NodeType>, endType: Ty, pred: State -> bool)
      ensures this.startTypes == startTypes && this.endType == endType && this.pred == pred
      ensures nodetypes == NodeTypes
      ensures forwardq == InitialEntries(Powerset(startTypes))
      ensures prefixcache == CacheInitial(Powerset(startTypes))
      ensures backwardq == [({endType}, [])] && suffixcache == map[{endType} := [[]]]
      ensures Valid()
    {
      var subsets := Powerset(startTypes);
      var fq, pc := SeedForward(subsets);
      InitialInvariant(startTypes, endType, NodeTypes);
      this.startTypes := startTypes;
      this.endType := endType;
      this.pred := pred;
      nodetypes := NodeTypes;
      forwardq := fq;
      prefixcache := pc;
      backwardq := [({endType}, [])];
      suffixcache := map[{endType} := [[]]];
    }

    /** `process_forwardq`: pop one forward entry, join it with the suffixes cached under its state, extend it. */
    method ProcessForward() returns (out: seq<seq<NodeType>>)
      requires forwardq != []
      modifies this
      ensures (out, Current()) == ForwardRound(nodetypes, pred, old(Current()))
      ensures old(Valid()) ==> Valid()
      ensures old(Valid()) && NoInputs(startTypes) ==> forall o :: o in out ==> IsAbility(o, endType, nodetypes)
    {
      ghost var before, wasValid := Current(), Valid();
      var state, prefix := forwardq[0].0, forwardq[0].1;
      out := JoinSuffixes(prefix, Lookup(suffixcache, state));
      forwardq, prefixcache := CollectForward(state, prefix, nodetypes, pred, forwardq[1..], prefixcache);
      if wasValid {
        ForwardRoundOk(startTypes, endType, nodetypes, pred, before);
      }
    }

    /** `process_backwardq`: pop one backward entry, join it with the prefixes cached under its state, extend it. */
    method ProcessBackward() returns (out: seq<seq<NodeType>>)
      requires backwardq != []
      modifies this
      ensures (out, Current()) == BackwardRound(nodetypes, pred, old(Current()))
      ensures old(Valid()) ==> Valid()
      ensures old(Valid()) && NoInputs(startTypes) ==> forall o :: o in out ==> IsAbility(o, endType, nodetypes)
    {
      ghost var before, wasValid := Current(), Valid();
      var target, suffix := backwardq[0].0, backwardq[0].1;
      out := JoinPrefixes(Lookup(prefixcache, SetKey(target)), suffix);
      backwardq, suffixcache := CollectBackward(target, suffix, nodetypes, pred, backwardq[1..], suffixcache);
      if wasValid {
        BackwardRoundOk(startTypes, endType, nodetypes, pred, before);
      }
    }

    /** One turn of the main loop: `process_forwardq` when its queue is non-empty, then `process_backwardq` likewise. */
    method Step(ghost fuel: nat) returns (out: seq<seq<NodeType>>)
      requires fuel > 0 && (forwardq != [] || backwardq != [])
      modifies this
      ensures (out, Current()) == Round(nodetypes, pred, old(Current()))
      ensures Rounds(nodetypes, pred, fuel, old(Current()))
              == (out + Rounds(nodetypes, pred, fuel - 1, Current()).0, Rounds(nodetypes, pred, fuel - 1, Current()).1)
    {
      ghost var before := Current();
      var first: seq<seq<NodeType>> := [];
      if forwardq != [] {
        first := ProcessForward();
      }
      ghost var middle := Current();
      assert (first, middle) == if before.forwardq != [] then ForwardRound(nodetypes, pred, before) else ([], before);
      var second: seq<seq<NodeType>> := [];
      if backwardq != [] {
        second := ProcessBackward();
      }
      assert (second, Current()) == if middle.backwardq != [] then BackwardRound(nodetypes, pred, middle) else ([], middle);
      RoundIs(nodetypes, pred, before, first, middle, second, Current());
      out := first + second;
      RoundsUnfold(nodetypes, pred, fuel, before);
    }

    /**
     * The main loop `while forwardq.qsize() or backwardq.qsize()`, run for at
     * most `fuel` rounds: the generator keeps no visited set and need not stop.
     */
    method Run(fuel: nat) returns (out: seq<seq<NodeType>>)
      modifies this
      ensures (out, Current()) == Rounds(nodetypes, pred, fuel, old(Current()))
    {
      out := [];
      var rounds := fuel;
      ghost var start := Current();
      ghost var now := start;
      ghost var rest := Rounds(nodetypes, pred, fuel, start);
      ghost var total := rest;
      AppendEmpty(rest.0);
      while rounds > 0 && (forwardq != [] || backwardq != [])
        invariant now == Current()
        invariant rest == Rounds(nodetypes, pred, rounds, now)
        invariant total == (out + rest.0, rest.1)
      {
        var more := Step(rounds);
        now := Current();
        rest := Rounds(nodetypes, pred, rounds - 1, now);
        AppendAssociates(out, more, rest.0);
        out := out + more;
        rounds := rounds - 1;
      }
      RoundsDone(nodetypes, pred, rounds, now);
      AppendEmpty(out);
    }
  }

  /**
   * `findValidNodeTypes()` with its defaults (start from the universals, end
   * at `GameEffect`, fewer than four unused types), for `fuel` rounds: every
   * sequence it yields applies forward from nothing and ends holding a
   * `GameEffect`.
   */
  method FindValidNodeTypes(fuel: nat) returns (out: seq<seq<NodeType>>)
    ensures out == Rounds(NodeTypes, Small, fuel, InitialFrontier(Universals, GameEffect)).0
    ensures forall o :: o in out ==> ForwardChain({}, o) && GameEffect in RunForward({}, o)
  {
    var search := new BidirectionalSearch(Universals, GameEffect, Small);
    assert search.Current() == InitialFrontier(Universals, GameEffect);
    out := search.Run(fuel);
    UniversalsHaveNoInputs();
    InitialInvariant(Universals, GameEffect, NodeTypes);
    RoundsSound(Universals, GameEffect, NodeTypes, Small, fuel, InitialFrontier(Universals, GameEffect));
    NodeTypesWellFormed();
    forall o | o in out ensures ForwardChain({}, o) && GameEffect in RunForward({}, o) {
      AbilityIsSound(o, GameEffect, NodeTypes);
    }
  }
}
