/**
 * The applicator/consumer matcher: an applicator emits typed data units, a
 * consumer consumes a list of types and renders a format string; a
 * converter selects, for each consumed type, a distinct emission of that
 * type.
 */
module Powers {
  import opened Wrappers
  import opened Templates

  /** The types data units carry; `Float` is Python's `float`. */
  datatype PType = Position | Direction | EnemyEntityId | FriendlyEntityId | Float

  datatype DataUnit = DataUnit(ty: PType, description: string)

  datatype Applicator = Applicator(name: string, emissions: seq<DataUnit>)

  datatype Consumer = Consumer(name: string, consumptions: seq<PType>, formatString: Template)

  datatype Element = Element(name: string, consumers: seq<Consumer>, passives: seq<string>)

  /** `Applicator.signature`: the types of the emissions, in order. */
  function ApplicatorSignature(a: Applicator): (r: seq<PType>)
    ensures |r| == |a.emissions| && forall i :: 0 <= i < |r| ==> r[i] == a.emissions[i].ty
  {
    seq(|a.emissions|, i requires 0 <= i < |a.emissions| => a.emissions[i].ty)
  }

  /** `Consumer.signature`. */
  function ConsumerSignature(c: Consumer): seq<PType>
  {
    c.consumptions
  }

  function Descriptions(args: seq<DataUnit>): (r: seq<string>)
    ensures |r| == |args| && forall i :: 0 <= i < |r| ==> r[i] == args[i].description
  {
    seq(|args|, i requires 0 <= i < |args| => args[i].description)
  }

  /**
   * `Consumer.prettyprint`: the format string with `{k}` replaced by the
   * description of `args[k]`; a slot past the end raises `IndexError`.
   */
  function Prettyprint(c: Consumer, args: seq<DataUnit>): (r: Result<string, FormatError>)
    ensures r.Ok? <==> SlotsBelow(c.formatString, |args|)
    ensures r.Err? ==> r.error.index >= |args|
  {
    Format(c.formatString, Descriptions(args))
  }

  /** `applicator_matches_consumer`: every consumed type is the type of some emission. */
  predicate Matches(a: Applicator, c: Consumer)
  {
    forall t :: t in c.consumptions ==> exists e :: e in a.emissions && e.ty == t
  }

  /** `isConvertible`: `set(outTypes)` is a subset of `set(inTypes)`. */
  predicate IsConvertible(inTypes: seq<PType>, outTypes: seq<PType>)
  {
    TypeSet(outTypes) <= TypeSet(inTypes)
  }

  /** Python's `set(ts)`. */
  function TypeSet(ts: seq<PType>): set<PType>
  {
    set t | t in ts
  }

  /** Convertibility, element by element: every output type occurs among the inputs. */
  lemma ConvertibleIff(inTypes: seq<PType>, outTypes: seq<PType>)
    ensures IsConvertible(inTypes, outTypes) <==> forall t :: t in outTypes ==> t in inTypes
  {
    if IsConvertible(inTypes, outTypes) {
      forall t | t in outTypes ensures t in inTypes {
        assert t in TypeSet(outTypes);
      }
    }
  }

  /** The matcher and the convertibility test agree on the signatures. */
  lemma MatchesIsConvertible(a: Applicator, c: Consumer)
    ensures Matches(a, c) <==> IsConvertible(ApplicatorSignature(a), ConsumerSignature(c))
  {
    var sig := ApplicatorSignature(a);
    if Matches(a, c) {
      forall t | t in c.consumptions ensures t in sig {
        var e :| e in a.emissions && e.ty == t;
        var i :| 0 <= i < |a.emissions| && a.emissions[i] == e;
        assert sig[i] == t;
      }
    }
    if IsConvertible(sig, ConsumerSignature(c)) {
      forall t | t in c.consumptions ensures exists e :: e in a.emissions && e.ty == t {
        ConvertibleIff(sig, ConsumerSignature(c));
        var i :| 0 <= i < |sig| && sig[i] == t;
        assert a.emissions[i] in a.emissions;
      }
    }
  }

  // ---------------------------------------------------------------------------
  // createConverter
  // ---------------------------------------------------------------------------

  /** `[l[i] for i in input_indices]`. */
  function Select<T>(l: seq<T>, idx: seq<nat>): (r: seq<T>)
    requires forall k :: 0 <= k < |idx| ==> idx[k] < |l|
    ensures |r| == |idx| && forall k :: 0 <= k < |idx| ==> r[k] == l[idx[k]]
  {
    seq(|idx|, k requires 0 <= k < |idx| => l[idx[k]])
  }

  /** `idx` picks, for each output type in order, a distinct input position of that type. */
  predicate ValidSelection(inTypes: seq<PType>, outTypes: seq<PType>, idx: seq<nat>)
  {
    && |idx| == |outTypes|
    && (forall k :: 0 <= k < |idx| ==> idx[k] < |inTypes| && inTypes[idx[k]] == outTypes[k])
    && (forall k, k' :: 0 <= k < k' < |idx| ==> idx[k] != idx[k'])
  }

  /** The function `createConverter` returns: the input length it asserts, and the chosen positions. */
  datatype Converter = Converter(arity: nat, indices: seq<nat>)

  predicate ConverterWellFormed(c: Converter)
  {
    forall k :: 0 <= k < |c.indices| ==> c.indices[k] < c.arity
  }

  /** The returned `f`: `assert len(l) == len(inTypes)`, then the selected elements. */
  function Apply<T>(c: Converter, l: seq<T>): (r: Result<seq<T>, ()>)
    requires ConverterWellFormed(c)
    ensures r.Ok? <==> |l| == c.arity
    ensures r.Ok? ==> |r.value| == |c.indices| && forall k :: 0 <= k < |c.indices| ==> r.value[k] == l[c.indices[k]]
  {
    if |l| != c.arity then Err(()) else Ok(Select(l, c.indices))
  }

  /** Why `createConverter` raises `ValueError`. */
  datatype ConverterError = NotConvertible | NoCandidate(position: nat)

  /**
   * `possible_indices`: the positions below `n` whose type is `t` and that
   * are not already chosen, in increasing order.
   */
  function Candidates(inTypes: seq<PType>, t: PType, chosen: seq<nat>, n: nat): (r: seq<nat>)
    requires n <= |inTypes|
    ensures forall i: nat :: i in r <==> i < n && inTypes[i] == t && i !in chosen
  {
    if n == 0 then []
    else
      var rest := Candidates(inTypes, t, chosen, n - 1);
      if inTypes[n - 1] == t && n - 1 !in chosen then rest + [n - 1] else rest
  }

  /** The positions of `l` holding `t`. */
  ghost function Occurrences(l: seq<PType>, t: PType): set<nat>
  {
    set i: nat | i < |l| && l[i] == t
  }

  lemma {:induction false} OccurrencesCount(l: seq<PType>, t: PType)
    ensures |Occurrences(l, t)| == multiset(l)[t]
    decreases |l|
  {
    if l != [] {
      var init := l[..|l| - 1];
      OccurrencesCount(init, t);
      assert l == init + [l[|l| - 1]];
      if l[|l| - 1] == t {
        assert Occurrences(l, t) == Occurrences(init, t) + {|l| - 1};
      } else {
        assert Occurrences(l, t) == Occurrences(init, t);
      }
    }
  }

  /** The chosen positions holding `t`. */
  ghost function ChosenOf(inTypes: seq<PType>, idx: seq<nat>, t: PType): set<nat>
  {
    set i | i in idx && i < |inTypes| && inTypes[i] == t
  }

  /** A valid selection uses exactly as many positions of type `t` as `t` occurs among the outputs. */
  lemma ChosenSnoc(inTypes: seq<PType>, idx: seq<nat>, i: nat, t: PType)
    requires i !in idx
    ensures ChosenOf(inTypes, idx + [i], t)
            == ChosenOf(inTypes, idx, t) + (if i < |inTypes| && inTypes[i] == t then {i} else {})
  {
  }

  lemma {:induction false} ChosenCount(inTypes: seq<PType>, outTypes: seq<PType>, idx: seq<nat>, t: PType)
    requires ValidSelection(inTypes, outTypes, idx)
    ensures |ChosenOf(inTypes, idx, t)| == multiset(outTypes)[t]
    decreases |idx|
  {
    if idx != [] {
      var n := |idx| - 1;
      var idx0, out0 := idx[..n], outTypes[..n];
      assert ValidSelection(inTypes, out0, idx0);
      ChosenCount(inTypes, out0, idx0, t);
      assert idx == idx0 + [idx[n]];
      assert outTypes == out0 + [outTypes[n]];
      assert idx[n] !in idx0 by {
        forall k | 0 <= k < n ensures idx0[k] != idx[n] {
          assert idx0[k] == idx[k];
        }
      }
      ChosenSnoc(inTypes, idx0, idx[n], t);
    }
  }

  lemma SubsetSmaller<T>(a: set<T>, b: set<T>, x: T)
    requires a <= b && x in b && x !in a
    ensures |a| < |b|
  {
    assert a <= b - {x};
    assert |b - {x}| == |b| - 1;
    SubsetCard(a, b - {x});
  }

  lemma SubsetCard<T>(a: set<T>, b: set<T>)
    requires a <= b
    ensures |a| <= |b|
  {
    assert b == a + (b - a);
  }

  /**
   * Step `k` of the selection loop finds a candidate exactly when type
   * `outTypes[k]` is still available: fewer of its occurrences are used
   * than the input holds.
   */
  lemma CandidatesStep(inTypes: seq<PType>, outTypes: seq<PType>, idx: seq<nat>, k: nat)
    requires k < |outTypes| && ValidSelection(inTypes, outTypes[..k], idx)
    ensures Candidates(inTypes, outTypes[k], idx, |inTypes|) != [] <==>
            multiset(outTypes[..k])[outTypes[k]] < multiset(inTypes)[outTypes[k]]
  {
    var t := outTypes[k];
    var chosen, occ := ChosenOf(inTypes, idx, t), Occurrences(inTypes, t);
    ChosenCount(inTypes, outTypes[..k], idx, t);
    OccurrencesCount(inTypes, t);
    assert chosen <= occ;
    var cands := Candidates(inTypes, t, idx, |inTypes|);
    if cands != [] {
      assert cands[0] in cands;
      SubsetSmaller(chosen, occ, cands[0]);
    } else {
      assert occ <= chosen;
      SubsetCard(occ, chosen);
    }
  }

  /** Whether every type occurs among the outputs no more often than among the inputs. */
  lemma CountsFitAreConvertible(inTypes: seq<PType>, outTypes: seq<PType>)
    requires multiset(outTypes) <= multiset(inTypes)
    ensures IsConvertible(inTypes, outTypes)
  {
    forall t | t in outTypes ensures t in inTypes {
      assert t in multiset(outTypes);
    }
  }

  /**
   * `createConverter`: `ValueError` when the type sets do not fit, or when
   * some output type has run out of unused input positions; otherwise the
   * converter choosing, for each output in turn, an arbitrary unused input
   * position of its type.
   */
  method CreateConverter(inTypes: seq<PType>, outTypes: seq<PType>) returns (r: Result<Converter, ConverterError>)
    ensures r.Ok? <==> multiset(outTypes) <= multiset(inTypes)
    ensures r == Err(NotConvertible) <==> !IsConvertible(inTypes, outTypes)
    ensures r.Ok? ==> r.value.arity == |inTypes| && ValidSelection(inTypes, outTypes, r.value.indices)
    ensures r.Ok? ==> ConverterWellFormed(r.value)
  {
    if !IsConvertible(inTypes, outTypes) {
      if multiset(outTypes) <= multiset(inTypes) {
        CountsFitAreConvertible(inTypes, outTypes);
      }
      return Err(NotConvertible);
    }
    var idx: seq<nat> := [];
    for k := 0 to |outTypes|
      invariant ValidSelection(inTypes, outTypes[..k], idx)
      invariant multiset(outTypes[..k]) <= multiset(inTypes)
    {
      var t := outTypes[k];
      var possible := Candidates(inTypes, t, idx, |inTypes|);
      CandidatesStep(inTypes, outTypes, idx, k);
      assert outTypes[..k + 1] == outTypes[..k] + [t];
      if possible == [] {
        assert outTypes == outTypes[..k + 1] + outTypes[k + 1..];
        assert multiset(outTypes)[t] >= multiset(outTypes[..k + 1])[t];
        return Err(NoCandidate(k));
      }
      assert possible[0] in possible;
      var i :| i in possible;
      idx := idx + [i];
    }
    assert outTypes[..|outTypes|] == outTypes;
    r := Ok(Converter(|inTypes|, idx));
  }

  /** Applied to values typed by `inTypes`, the converter's result is typed by `outTypes`. */
  lemma ApplyTyped(inTypes: seq<PType>, outTypes: seq<PType>, c: Converter, l: seq<DataUnit>)
    requires c.arity == |inTypes| && ValidSelection(inTypes, outTypes, c.indices)
    requires |l| == |inTypes| && forall i :: 0 <= i < |l| ==> l[i].ty == inTypes[i]
    ensures ConverterWellFormed(c) && Apply(c, l).Ok?
    ensures |Apply(c, l).value| == |outTypes|
    ensures forall k :: 0 <= k < |outTypes| ==> Apply(c, l).value[k].ty == outTypes[k]
  {
  }

  predicate DistinctTypes(ts: seq<PType>)
  {
    forall i, j :: 0 <= i < j < |ts| ==> ts[i] != ts[j]
  }

  /** With pairwise distinct input types there is only one valid selection. */
  lemma SelectionForced(inTypes: seq<PType>, outTypes: seq<PType>, idx: seq<nat>, idx': seq<nat>)
    requires DistinctTypes(inTypes)
    requires ValidSelection(inTypes, outTypes, idx) && ValidSelection(inTypes, outTypes, idx')
    ensures idx == idx'
  {
  }

  /** `(a, b, c, d)` to `(a, b, c)`: the converter drops the last element. */
  lemma DropLastExample(a: PType, b: PType, c: PType, d: PType, idx: seq<nat>, l: seq<DataUnit>)
    requires DistinctTypes([a, b, c, d])
    requires ValidSelection([a, b, c, d], [a, b, c], idx)
    requires |l| == 4
    ensures Apply(Converter(4, idx), l) == Ok(l[..3])
  {
    assert ValidSelection([a, b, c, d], [a, b, c], [0, 1, 2]);
    SelectionForced([a, b, c, d], [a, b, c], idx, [0, 1, 2]);
    assert Select(l, [0, 1, 2]) == l[..3];
  }

  /** `(a, a, a)` to `(a, a)`: any two distinct positions, in either order. */
  lemma RepeatedTypeExample(idx: seq<nat>)
    ensures ValidSelection([Position, Position, Position], [Position, Position], idx)
            <==> |idx| == 2 && idx[0] < 3 && idx[1] < 3 && idx[0] != idx[1]
  {
  }

  /** `(a, b)` to `(a, b, c)` raises `ValueError`. */
  lemma MissingTypeExample()
    ensures !IsConvertible([Position, Direction], [Position, Direction, EnemyEntityId])
    ensures !(multiset([Position, Direction, EnemyEntityId]) <= multiset([Position, Direction]))
  {
    ConvertibleIff([Position, Direction], [Position, Direction, EnemyEntityId]);
    assert EnemyEntityId in [Position, Direction, EnemyEntityId];
    assert multiset([Position, Direction])[EnemyEntityId] == 0;
    assert multiset([Position, Direction, EnemyEntityId])[EnemyEntityId] == 1;
  }

  // ---------------------------------------------------------------------------
  // The library
  // ---------------------------------------------------------------------------

  const Applicators: seq<Applicator> := [
    Applicator("TouchEnemyEntity", [DataUnit(EnemyEntityId, "touched entity")]),
    Applicator("Spray", [DataUnit(EnemyEntityId, "enemies hit by your spray of projectiles")]),
    Applicator("Click", [DataUnit(FriendlyEntityId, "you"), DataUnit(Position, "wherever you click")]),
    Applicator("ClickAndDrag", [DataUnit(Position, "mouse down position"), DataUnit(Position, "mouse up position"),
                                DataUnit(Float, "time mouse held down for")]),
    Applicator("Bullet", [DataUnit(Position, "where your bullets impact"), DataUnit(Float, "projectile flight duration")]),
    Applicator("BulletHumanOnly", [DataUnit(EnemyEntityId, "who your bullets hit"),
                                   DataUnit(Float, "projectile flight duration")]),
    Applicator("SelfToggle", [DataUnit(FriendlyEntityId, "you")]),
    Applicator("Mines", [DataUnit(Position, "where your mines detonate"), DataUnit(Float, "time since mine was placed")])
  ]

  /** A template `before({0})after`. */
  function Around(before: string, after: string): Template
  {
    [Lit(before + "("), Slot(0), Lit(")" + after)]
  }

  const SwapTemplate: Template := [Lit("("), Slot(0), Lit(") swaps positions with ("), Slot(1), Lit(")")]

  const Elements: seq<Element> := [
    Element("Spark",
      [Consumer("SparkDirection", [EnemyEntityId], Around("Superheated motes that inflict burning on ", ""))],
      ["Immunity to fire and heat"]),
    Element("Static",
      [Consumer("StaticTarget", [EnemyEntityId], Around("Bright arcs of electricity shock and damage ", "")),
       Consumer("StaticArea", [Position], Around("Bright arcs of electricity shock and damage the area around ", ""))],
      ["Immunity to shocks"]),
    Element("Chill",
      [Consumer("ChillTarget", [EnemyEntityId], Around("Frigid motes condense around ", ", chilling them")),
       Consumer("ChillArmorSelf", [FriendlyEntityId],
                Around("Frigid motes condense around ", ", forming a layer of icy armor"))],
      ["Immunity to chill and cold"]),
    Element("Blade",
      [Consumer("BladeTarget", [Position],
                Around("Blades fly through the air towards ", ", cleaving through terrain and causing bleeding"))],
      []),
    Element("Swap",
      [Consumer("SwapWithTarget", [EnemyEntityId, EnemyEntityId], SwapTemplate),
       Consumer("SwapWithTarget", [FriendlyEntityId, EnemyEntityId], SwapTemplate),
       Consumer("SwapWithTarget", [FriendlyEntityId, FriendlyEntityId], SwapTemplate),
       Consumer("SwapWithTarget", [Position, Position, Float],
                [Lit("Swaps objects near ("), Slot(0), Lit(") with objects near ("), Slot(1),
                 Lit(") within radius that scales with ("), Slot(2), Lit(")")])],
      [])
  ]

  /** `prettyprint` cannot raise: every field names one of the consumed values. */
  predicate ConsumerWellFormed(c: Consumer)
  {
    SlotsBelow(c.formatString, |c.consumptions|)
  }

  predicate ConsumersWellFormed(elems: seq<Element>)
  {
    forall e, k :: 0 <= e < |elems| && 0 <= k < |elems[e].consumers| ==> ConsumerWellFormed(elems[e].consumers[k])
  }

  lemma LibraryConsumersWellFormed()
    ensures ConsumersWellFormed(Elements)
  {
    var elems := Elements;
    forall e, k | 0 <= e < |elems| && 0 <= k < |elems[e].consumers|
      ensures ConsumerWellFormed(elems[e].consumers[k])
    {
      var t := elems[e].consumers[k].formatString;
      assert forall i :: 0 <= i < |t| && t[i].Slot? ==> t[i].index < |elems[e].consumers[k].consumptions|;
    }
  }

  // ---------------------------------------------------------------------------
  // generateAllPowers
  // ---------------------------------------------------------------------------

  /** The (applicator, consumer) pairs of one applicator with the consumers `cs`, in order. */
  function ConsumerPairs(a: Applicator, cs: seq<Consumer>): (r: seq<(Applicator, Consumer)>)
    ensures |r| == |cs| && forall k :: 0 <= k < |cs| ==> r[k] == (a, cs[k])
  {
    seq(|cs|, k requires 0 <= k < |cs| => (a, cs[k]))
  }

  /** The pairs of one applicator with every consumer of every element, element by element. */
  function ElementPairs(a: Applicator, elems: seq<Element>): seq<(Applicator, Consumer)>
  {
    if elems == [] then []
    else ElementPairs(a, elems[..|elems| - 1]) + ConsumerPairs(a, elems[|elems| - 1].consumers)
  }

  /** The nested-loop order of `generateAllPowers`: applicators, then elements, then consumers. */
  function AllPairs(apps: seq<Applicator>, elems: seq<Element>): seq<(Applicator, Consumer)>
  {
    if apps == [] then []
    else AllPairs(apps[..|apps| - 1], elems) + ElementPairs(apps[|apps| - 1], elems)
  }

  /** `createConverter` succeeds on the pair's signatures. */
  predicate Convertible(p: (Applicator, Consumer))
  {
    multiset(ConsumerSignature(p.1)) <= multiset(ApplicatorSignature(p.0))
  }

  /** `text` is what the consumer prints for the emissions under some valid selection. */
  ghost predicate Renders(p: (Applicator, Consumer), text: string)
  {
    exists idx :: ValidSelection(ApplicatorSignature(p.0), ConsumerSignature(p.1), idx)
                  && Prettyprint(p.1, Select(p.0.emissions, idx)) == Ok(text)
  }

  /**
   * `powers` holds one `(applicator name, text)` entry per convertible pair,
   * in the order of `pairs`, and nothing for the others.
   */
  ghost predicate Realized(pairs: seq<(Applicator, Consumer)>, powers: seq<(string, string)>)
    decreases |pairs|
  {
    if pairs == [] then powers == []
    else
      var p := pairs[|pairs| - 1];
      if Convertible(p) then
        && powers != []
        && Realized(pairs[..|pairs| - 1], powers[..|powers| - 1])
        && powers[|powers| - 1].0 == p.0.name
        && Renders(p, powers[|powers| - 1].1)
      else Realized(pairs[..|pairs| - 1], powers)
  }

  /** No convertible pair has a consumer whose format string raises `IndexError`. */
  predicate NoFormatError(pairs: seq<(Applicator, Consumer)>)
  {
    forall m :: 0 <= m < |pairs| && Convertible(pairs[m]) ==> ConsumerWellFormed(pairs[m].1)
  }

  function CountConvertible(pairs: seq<(Applicator, Consumer)>): nat
  {
    if pairs == [] then 0
    else CountConvertible(pairs[..|pairs| - 1]) + (if Convertible(pairs[|pairs| - 1]) then 1 else 0)
  }

  /** The list has exactly one entry per convertible pair. */
  lemma {:induction false} RealizedLength(pairs: seq<(Applicator, Consumer)>, powers: seq<(string, string)>)
    requires Realized(pairs, powers)
    ensures |powers| == CountConvertible(pairs)
    decreases |pairs|
  {
    if pairs != [] {
      if Convertible(pairs[|pairs| - 1]) {
        RealizedLength(pairs[..|pairs| - 1], powers[..|powers| - 1]);
      } else {
        RealizedLength(pairs[..|pairs| - 1], powers);
      }
    }
  }

  lemma RealizedSkip(pairs: seq<(Applicator, Consumer)>, p: (Applicator, Consumer), powers: seq<(string, string)>)
    requires Realized(pairs, powers) && !Convertible(p)
    ensures Realized(pairs + [p], powers)
  {
    assert (pairs + [p])[..|pairs|] == pairs;
  }

  lemma RealizedAdd(pairs: seq<(Applicator, Consumer)>, p: (Applicator, Consumer), powers: seq<(string, string)>,
                    power: (string, string))
    requires Realized(pairs, powers) && Convertible(p)
    requires power.0 == p.0.name && Renders(p, power.1)
    ensures Realized(pairs + [p], powers + [power])
  {
    assert (pairs + [p])[..|pairs|] == pairs;
    assert (powers + [power])[..|powers|] == powers;
  }

  lemma NoFormatErrorAppend(x: seq<(Applicator, Consumer)>, y: seq<(Applicator, Consumer)>)
    ensures NoFormatError(x + y) <==> NoFormatError(x) && NoFormatError(y)
  {
    if NoFormatError(x) && NoFormatError(y) {
      forall m | 0 <= m < |x + y| && Convertible((x + y)[m]) ensures ConsumerWellFormed((x + y)[m].1) {
        if m >= |x| {
          assert (x + y)[m] == y[m - |x|];
        }
      }
    }
    if NoFormatError(x + y) {
      forall m | 0 <= m < |x| && Convertible(x[m]) ensures ConsumerWellFormed(x[m].1) {
        assert (x + y)[m] == x[m];
      }
      forall m | 0 <= m < |y| && Convertible(y[m]) ensures ConsumerWellFormed(y[m].1) {
        assert (x + y)[|x| + m] == y[m];
      }
    }
  }

  lemma NoFormatErrorPrefix(x: seq<(Applicator, Consumer)>, y: seq<(Applicator, Consumer)>)
    requires x <= y && NoFormatError(y)
    ensures NoFormatError(x)
  {
    assert y == x + y[|x|..];
    NoFormatErrorAppend(x, y[|x|..]);
  }

  lemma PrefixExtend<T>(x: seq<T>, y: seq<T>, z: seq<T>)
    requires y <= z
    ensures x + y <= x + z
  {
    assert x + y == (x + z)[..|x + y|];
  }

  lemma {:induction false} ElementPairsPrefix(a: Applicator, elems: seq<Element>, j: nat)
    requires j <= |elems|
    ensures ElementPairs(a, elems[..j]) <= ElementPairs(a, elems)
    decreases |elems|
  {
    if j < |elems| {
      var init := elems[..|elems| - 1];
      assert init[..j] == elems[..j];
      ElementPairsPrefix(a, init, j);
    } else {
      assert elems[..j] == elems;
    }
  }

  lemma {:induction false} AllPairsPrefix(apps: seq<Applicator>, elems: seq<Element>, i: nat)
    requires i <= |apps|
    ensures AllPairs(apps[..i], elems) <= AllPairs(apps, elems)
    decreases |apps|
  {
    if i < |apps| {
      var init := apps[..|apps| - 1];
      assert init[..i] == apps[..i];
      AllPairsPrefix(init, elems, i);
    } else {
      assert apps[..i] == apps;
    }
  }

  /** The pairs the three loops have visited when they stand at indices `i`, `j`, `k`. */
  function Visited(apps: seq<Applicator>, elems: seq<Element>, i: nat, j: nat, k: nat): seq<(Applicator, Consumer)>
    requires i < |apps| && j < |elems| && k <= |elems[j].consumers|
  {
    AllPairs(apps[..i], elems) + ElementPairs(apps[i], elems[..j]) + ConsumerPairs(apps[i], elems[j].consumers[..k])
  }

  lemma PrefixTrans<T>(x: seq<T>, y: seq<T>, z: seq<T>)
    requires x <= y && y <= z
    ensures x <= z
  {
    assert z[..|y|][..|x|] == z[..|x|];
  }

  /** Finishing the consumers of element `j` completes the pairs of elements up to `j`. */
  lemma VisitedElement(apps: seq<Applicator>, elems: seq<Element>, i: nat, j: nat)
    requires i < |apps| && j < |elems|
    ensures Visited(apps, elems, i, j, |elems[j].consumers|)
            == AllPairs(apps[..i], elems) + ElementPairs(apps[i], elems[..j + 1])
  {
    var cs := elems[j].consumers;
    assert cs[..|cs|] == cs;
    assert elems[..j + 1][..j] == elems[..j];
  }

  lemma VisitedPrefix(apps: seq<Applicator>, elems: seq<Element>, i: nat, j: nat, k: nat)
    requires i < |apps| && j < |elems| && k <= |elems[j].consumers|
    ensures Visited(apps, elems, i, j, k) <= AllPairs(apps, elems)
  {
    var a, cs := apps[i], elems[j].consumers;
    var done := AllPairs(apps[..i], elems);
    var whole := Visited(apps, elems, i, j, |cs|);
    assert Visited(apps, elems, i, j, k) <= whole by {
      assert ConsumerPairs(a, cs[..k]) <= ConsumerPairs(a, cs[..|cs|]);
      PrefixExtend(done + ElementPairs(a, elems[..j]), ConsumerPairs(a, cs[..k]), ConsumerPairs(a, cs[..|cs|]));
    }
    VisitedElement(apps, elems, i, j);
    var upToApp := AllPairs(apps[..i + 1], elems);
    assert whole <= upToApp by {
      ElementPairsPrefix(a, elems, j + 1);
      PrefixExtend(done, ElementPairs(a, elems[..j + 1]), ElementPairs(a, elems));
      assert apps[..i + 1][..i] == apps[..i];
    }
    AllPairsPrefix(apps, elems, i + 1);
    PrefixTrans(Visited(apps, elems, i, j, k), whole, upToApp);
    PrefixTrans(Visited(apps, elems, i, j, k), upToApp, AllPairs(apps, elems));
  }

  lemma VisitedStep(apps: seq<Applicator>, elems: seq<Element>, i: nat, j: nat, k: nat)
    requires i < |apps| && j < |elems| && k < |elems[j].consumers|
    ensures Visited(apps, elems, i, j, k + 1) == Visited(apps, elems, i, j, k) + [(apps[i], elems[j].consumers[k])]
  {
    var a, cs := apps[i], elems[j].consumers;
    assert ConsumerPairs(a, cs[..k + 1]) == ConsumerPairs(a, cs[..k]) + [(a, cs[k])];
  }

  /** A convertible pair whose format string is bad makes the whole enumeration raise. */
  lemma FormatErrorReached(apps: seq<Applicator>, elems: seq<Element>, i: nat, j: nat, k: nat)
    requires i < |apps| && j < |elems| && k < |elems[j].consumers|
    requires Convertible((apps[i], elems[j].consumers[k])) && !ConsumerWellFormed(elems[j].consumers[k])
    ensures !NoFormatError(AllPairs(apps, elems))
  {
    var p := (apps[i], elems[j].consumers[k]);
    var upTo := Visited(apps, elems, i, j, k + 1);
    VisitedStep(apps, elems, i, j, k);
    assert upTo[|upTo| - 1] == p;
    VisitedPrefix(apps, elems, i, j, k + 1);
    if NoFormatError(AllPairs(apps, elems)) {
      NoFormatErrorPrefix(upTo, AllPairs(apps, elems));
      assert false;
    }
  }

  /**
   * The body of the `try` in `generateAllPowers` for one pair: `None` when
   * `createConverter` raises `ValueError`, the printed text otherwise; an
   * `IndexError` from the format string is passed on.
   */
  method RenderPair(a: Applicator, c: Consumer) returns (r: Result<Option<string>, FormatError>)
    ensures r == Ok(None) <==> !Convertible((a, c))
    ensures r.Err? <==> Convertible((a, c)) && !ConsumerWellFormed(c)
    ensures r.Ok? && r.value.Some? ==> Renders((a, c), r.value.value)
  {
    var conv := CreateConverter(ApplicatorSignature(a), ConsumerSignature(c));
    if conv.Err? {
      return Ok(None);
    }
    var args := Apply(conv.value, a.emissions).value;
    var text := Prettyprint(c, args);
    if text.Err? {
      return Err(text.error);
    }
    r := Ok(Some(text.value));
  }

  /**
   * `generateAllPowers` over the given applicators and elements: for each
   * (applicator, element, consumer) in nested-loop order, the applicator's
   * name and the consumer's rendering of the converted emissions, skipping
   * the pairs whose converter raises `ValueError`.  An `IndexError` from a
   * format string is not caught and ends the whole computation.
   */
  method GenerateAllPowers(apps: seq<Applicator>, elems: seq<Element>) returns (r: Result<seq<(string, string)>, FormatError>)
    ensures r.Ok? <==> NoFormatError(AllPairs(apps, elems))
    ensures r.Ok? ==> Realized(AllPairs(apps, elems), r.value)
  {
    var powers: seq<(string, string)> := [];
    ghost var visited: seq<(Applicator, Consumer)> := [];
    for i := 0 to |apps|
      invariant visited == AllPairs(apps[..i], elems)
      invariant NoFormatError(visited) && Realized(visited, powers)
    {
      var a := apps[i];
      assert apps[..i + 1][..i] == apps[..i];
      assert ElementPairs(a, elems[..0]) == [];
      assert visited + [] == visited;
      for j := 0 to |elems|
        invariant visited == AllPairs(apps[..i], elems) + ElementPairs(a, elems[..j])
        invariant NoFormatError(visited) && Realized(visited, powers)
      {
        var cs := elems[j].consumers;
        assert ConsumerPairs(a, cs[..0]) == [];
        assert visited + [] == visited;
        for k := 0 to |cs|
          invariant visited == Visited(apps, elems, i, j, k)
          invariant NoFormatError(visited) && Realized(visited, powers)
        {
          var c := cs[k];
          VisitedStep(apps, elems, i, j, k);
          NoFormatErrorAppend(visited, [(a, c)]);
          var attempt := RenderPair(a, c);
          match attempt {
            case Err(e) =>
              FormatErrorReached(apps, elems, i, j, k);
              return Err(e);
            case Ok(None) =>
              RealizedSkip(visited, (a, c), powers);
            case Ok(Some(text)) =>
              RealizedAdd(visited, (a, c), powers, (a.name, text));
              powers := powers + [(a.name, text)];
          }
          visited := visited + [(a, c)];
        }
        VisitedElement(apps, elems, i, j);
      }
      assert elems[..|elems|] == elems;
    }
    assert apps[..|apps|] == apps;
    assert visited == AllPairs(apps, elems);
    r := Ok(powers);
  }

  lemma {:induction false} NoFormatErrorFromConsumers(apps: seq<Applicator>, elems: seq<Element>)
    requires ConsumersWellFormed(elems)
    ensures NoFormatError(AllPairs(apps, elems))
    decreases |apps|
  {
    if apps != [] {
      NoFormatErrorFromConsumers(apps[..|apps| - 1], elems);
      ElementsNoFormatError(apps[|apps| - 1], elems);
      NoFormatErrorAppend(AllPairs(apps[..|apps| - 1], elems), ElementPairs(apps[|apps| - 1], elems));
    }
  }

  lemma {:induction false} ElementsNoFormatError(a: Applicator, elems: seq<Element>)
    requires ConsumersWellFormed(elems)
    ensures NoFormatError(ElementPairs(a, elems))
    decreases |elems|
  {
    if elems != [] {
      var init := elems[..|elems| - 1];
      assert ConsumersWellFormed(init) by {
        forall e, k | 0 <= e < |init| && 0 <= k < |init[e].consumers| ensures ConsumerWellFormed(init[e].consumers[k]) {
          assert init[e] == elems[e];
        }
      }
      ElementsNoFormatError(a, init);
      var last := elems[|elems| - 1].consumers;
      assert NoFormatError(ConsumerPairs(a, last)) by {
        forall m | 0 <= m < |last| ensures ConsumerWellFormed(ConsumerPairs(a, last)[m].1) {
          assert ConsumerWellFormed(elems[|elems| - 1].consumers[m]);
        }
      }
      NoFormatErrorAppend(ElementPairs(a, init), ConsumerPairs(a, last));
    }
  }

  /** On the library, `generateAllPowers` never meets an `IndexError`. */
  lemma LibraryHasNoFormatError()
    ensures NoFormatError(AllPairs(Applicators, Elements))
  {
    LibraryConsumersWellFormed();
    NoFormatErrorFromConsumers(Applicators, Elements);
  }
}
