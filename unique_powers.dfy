/**
 * `createUniquePowers`: draw up to `100 * n` candidate graphs, keep those
 * the predicate accepts, and keep only the first graph of each signature,
 * the sorted tuple of its nodes' classes; stop once `n` graphs are kept.
 * The graph builder is a parameter indexed by attempt number, and a graph
 * is seen only through the classes of its nodes (`kinds`).
 */
module UniquePowers {
  import opened Wrappers
  import opened Library
  import Subsets

  /** The node classes in declaration order. */
  const KindOrder: seq<NodeKind> :=
    [ConstantFloat, OwningEntity, InKey, InputClick, InputPerpendicularLine, InputClickDragReleaseDirection,
     InputClickCharge, InputPlaceMines, InputUnitTargetEnemy, InputToggle, PositionToArea,
     TimeBoolToRandomDirection, PositionFromEntity, EntitiesInArea, DirectionToProjectile, CloudFollowingPath,
     PathToArea, AddDamageOnEntity, ConditionOnEntity, TeleportPlayer, Wall, TerminateDamage]

  function Position(k: NodeKind, s: seq<NodeKind>): nat
  {
    if s == [] || s[0] == k then 0 else 1 + Position(k, s[1..])
  }

  lemma {:induction false} PositionFound(k: NodeKind, s: seq<NodeKind>)
    requires k in s
    ensures Position(k, s) < |s| && s[Position(k, s)] == k
  {
    if s[0] != k {
      PositionFound(k, s[1..]);
    }
  }

  /**
   * `sorted` orders class objects by a key the interpreter fixes (Python 2
   * compares old-style classes by an arbitrary but consistent key), so the
   * order is a parameter `rank`: distinct classes, distinct keys.
   */
  ghost predicate Injective(rank: NodeKind -> nat)
  {
    forall a, b :: rank(a) == rank(b) ==> a == b
  }

  /** The declaration order of the node classes. */
  function DeclarationRank(k: NodeKind): nat
  {
    Position(k, KindOrder)
  }

  lemma EveryKindOrdered(k: NodeKind)
    ensures k in KindOrder
  {
  }

  /** Two members of a list at the same position are equal. */
  lemma PositionInjective(a: NodeKind, b: NodeKind, s: seq<NodeKind>)
    requires a in s && b in s && Position(a, s) == Position(b, s)
    ensures a == b
  {
    PositionFound(a, s);
    PositionFound(b, s);
  }

  /** Declaration order is one such order. */
  lemma DeclarationRankInjective()
    ensures Injective(DeclarationRank)
  {
    forall a, b | DeclarationRank(a) == DeclarationRank(b) ensures a == b {
      EveryKindOrdered(a);
      EveryKindOrdered(b);
      PositionInjective(a, b, KindOrder);
    }
  }

  predicate SortedByRank(s: seq<NodeKind>, rank: NodeKind -> nat)
  {
    forall i, j :: 0 <= i < j < |s| ==> rank(s[i]) <= rank(s[j])
  }

  /** Insert `k` before the first element of `s` of higher rank. */
  function Insert(k: NodeKind, s: seq<NodeKind>, rank: NodeKind -> nat): seq<NodeKind>
  {
    if s == [] then [k]
    else if rank(k) <= rank(s[0]) then [k] + s
    else [s[0]] + Insert(k, s[1..], rank)
  }

  lemma ConsSorted(x: NodeKind, s: seq<NodeKind>, rank: NodeKind -> nat)
    requires SortedByRank(s, rank)
    requires forall i :: 0 <= i < |s| ==> rank(x) <= rank(s[i])
    ensures SortedByRank([x] + s, rank)
  {
    forall i, j | 0 <= i < j < |[x] + s| ensures rank(([x] + s)[i]) <= rank(([x] + s)[j]) {
      assert ([x] + s)[j] == s[j - 1];
      if i > 0 {
        assert ([x] + s)[i] == s[i - 1];
      }
    }
  }

  lemma {:induction false} InsertPermutes(k: NodeKind, s: seq<NodeKind>, rank: NodeKind -> nat)
    ensures multiset(Insert(k, s, rank)) == multiset(s) + multiset{k}
  {
    if s != [] && rank(k) > rank(s[0]) {
      InsertPermutes(k, s[1..], rank);
      assert s == [s[0]] + s[1..];
    }
  }

  /** A lower bound on the ranks of `s` and of `k` bounds the ranks of any rearrangement of them. */
  lemma LowerBoundKept(lo: nat, s: seq<NodeKind>, k: NodeKind, t: seq<NodeKind>, rank: NodeKind -> nat)
    requires forall x :: x in s ==> lo <= rank(x)
    requires lo <= rank(k) && multiset(t) == multiset(s) + multiset{k}
    ensures forall i :: 0 <= i < |t| ==> lo <= rank(t[i])
  {
    forall i | 0 <= i < |t| ensures lo <= rank(t[i]) {
      assert t[i] in multiset(t);
      if t[i] != k {
        assert t[i] in multiset(s);
      }
    }
  }

  lemma {:induction false} InsertSorted(k: NodeKind, s: seq<NodeKind>, rank: NodeKind -> nat)
    requires SortedByRank(s, rank)
    ensures SortedByRank(Insert(k, s, rank), rank)
    ensures multiset(Insert(k, s, rank)) == multiset(s) + multiset{k}
  {
    InsertPermutes(k, s, rank);
    if s == [] {
    } else if rank(k) <= rank(s[0]) {
      ConsSorted(k, s, rank);
    } else {
      var t := Insert(k, s[1..], rank);
      SortedTail(s, rank);
      InsertSorted(k, s[1..], rank);
      LowerBoundKept(rank(s[0]), s[1..], k, t, rank);
      ConsSorted(s[0], t, rank);
    }
  }

  /** `tuple(sorted(node.__class__ for node in nodes))`: insertion sort by `rank`. */
  function Signature(ks: seq<NodeKind>, rank: NodeKind -> nat): seq<NodeKind>
  {
    if ks == [] then [] else Insert(ks[0], Signature(ks[1..], rank), rank)
  }

  /** The signature lists the graph's classes, each as often as it occurs, in rank order. */
  lemma {:induction false} SignatureSorted(ks: seq<NodeKind>, rank: NodeKind -> nat)
    ensures SortedByRank(Signature(ks, rank), rank)
    ensures multiset(Signature(ks, rank)) == multiset(ks)
  {
    if ks != [] {
      SignatureSorted(ks[1..], rank);
      InsertSorted(ks[0], Signature(ks[1..], rank), rank);
      assert ks == [ks[0]] + ks[1..];
    }
  }

  /** The head of a sorted sequence has the least rank. */
  lemma SortedHeadLeast(s: seq<NodeKind>, rank: NodeKind -> nat, x: NodeKind)
    requires SortedByRank(s, rank) && x in s
    ensures rank(s[0]) <= rank(x)
  {
    var i :| 0 <= i < |s| && s[i] == x;
    if i > 0 {
      assert rank(s[0]) <= rank(s[i]);
    }
  }

  lemma SortedTail(s: seq<NodeKind>, rank: NodeKind -> nat)
    requires s != [] && SortedByRank(s, rank)
    ensures SortedByRank(s[1..], rank)
    ensures forall x :: x in s ==> rank(s[0]) <= rank(x)
    ensures forall x :: x in s[1..] ==> rank(s[0]) <= rank(x)
  {
    forall i, j | 0 <= i < j < |s[1..]| ensures rank(s[1..][i]) <= rank(s[1..][j]) {
      assert s[1..][i] == s[i + 1] && s[1..][j] == s[j + 1];
    }
  }
  /** Two sorted rearrangements of each other start with the same element. */
  lemma SortedHeads(a: seq<NodeKind>, b: seq<NodeKind>, rank: NodeKind -> nat)
    requires Injective(rank) && a != []
    requires SortedByRank(a, rank) && SortedByRank(b, rank) && multiset(a) == multiset(b)
    ensures b != [] && a[0] == b[0]
  {
    assert a[0] in multiset(b);
    assert b[0] in multiset(a);
    SortedHeadLeast(b, rank, a[0]);
    SortedHeadLeast(a, rank, b[0]);
  }

  lemma TailsPermuted(a: seq<NodeKind>, b: seq<NodeKind>)
    requires a != [] && b != [] && a[0] == b[0] && multiset(a) == multiset(b)
    ensures multiset(a[1..]) == multiset(b[1..])
  {
    assert a == [a[0]] + a[1..] && b == [b[0]] + b[1..];
    assert multiset(a) == multiset(a[1..]) + multiset{a[0]};
    assert multiset(b) == multiset(b[1..]) + multiset{a[0]};
    Subsets.CancelOne(multiset(a[1..]), multiset(b[1..]), a[0]);
  }

  lemma {:induction false} SortedUnique(a: seq<NodeKind>, b: seq<NodeKind>, rank: NodeKind -> nat)
    requires Injective(rank)
    requires SortedByRank(a, rank) && SortedByRank(b, rank) && multiset(a) == multiset(b)
    ensures a == b
    decreases |a|
  {
    if a != [] {
      SortedHeads(a, b, rank);
      SortedTail(a, rank);
      SortedTail(b, rank);
      TailsPermuted(a, b);
      SortedUnique(a[1..], b[1..], rank);
    }
  }

  /** Two graphs share a signature exactly when they hold the same classes, each as often. */
  lemma SignatureIff(a: seq<NodeKind>, b: seq<NodeKind>, rank: NodeKind -> nat)
    requires Injective(rank)
    ensures Signature(a, rank) == Signature(b, rank) <==> multiset(a) == multiset(b)
  {
    SignatureSorted(a, rank);
    SignatureSorted(b, rank);
    if multiset(a) == multiset(b) {
      SortedUnique(Signature(a, rank), Signature(b, rank), rank);
    }
  }

  /** The signatures `sigs` holds for the graphs kept so far. */
  function SignaturesOf<G(==)>(powers: seq<G>, kinds: G -> seq<NodeKind>, rank: NodeKind -> nat): set<seq<NodeKind>>
  {
    set g | g in powers :: Signature(kinds(g), rank)
  }

  /** Whether attempt `t` yields a graph given the graphs `kept` before it. */
  predicate Yielded<G(==)>(attempt: nat -> Option<G>, kinds: G -> seq<NodeKind>, rank: NodeKind -> nat, accept: G -> bool,
                       kept: seq<G>, t: nat)
  {
    attempt(t).Some? && accept(attempt(t).value) && Signature(kinds(attempt(t).value), rank) !in SignaturesOf(kept, kinds, rank)
  }

  /** The graphs yielded by the first `m` attempts, in order. */
  function Yields<G(==)>(attempt: nat -> Option<G>, kinds: G -> seq<NodeKind>, rank: NodeKind -> nat, accept: G -> bool, m: nat): seq<G>
  {
    if m == 0 then []
    else
      var kept := Yields(attempt, kinds, rank, accept, m - 1);
      if Yielded(attempt, kinds, rank, accept, kept, m - 1) then kept + [attempt(m - 1).value] else kept
  }

  lemma SignaturesOfSnoc<G>(ps: seq<G>, g: G, kinds: G -> seq<NodeKind>, rank: NodeKind -> nat)
    ensures SignaturesOf(ps + [g], kinds, rank) == SignaturesOf(ps, kinds, rank) + {Signature(kinds(g), rank)}
  {
    assert forall h :: h in ps + [g] <==> h in ps || h == g;
  }

  predicate AllAccepted<G>(ps: seq<G>, accept: G -> bool)
  {
    forall k :: 0 <= k < |ps| ==> accept(ps[k])
  }

  /** Each of `ps` is the outcome of one of the first `m` attempts. */
  ghost predicate FromAttempts<G>(ps: seq<G>, attempt: nat -> Option<G>, m: nat)
  {
    forall k :: 0 <= k < |ps| ==> exists t :: 0 <= t < m && attempt(t) == Some(ps[k])
  }

  /** No two of `ps` hold the same classes with the same multiplicities. */
  ghost predicate DistinctClasses<G>(ps: seq<G>, kinds: G -> seq<NodeKind>)
  {
    forall k, k' :: 0 <= k < k' < |ps| ==> multiset(kinds(ps[k])) != multiset(kinds(ps[k']))
  }

  /** Each graph yielded by the first `m` attempts is an accepted outcome of one of them. */
  lemma {:induction false} YieldsAccepted<G>(attempt: nat -> Option<G>, kinds: G -> seq<NodeKind>,
                                             rank: NodeKind -> nat, accept: G -> bool, m: nat)
    ensures AllAccepted(Yields(attempt, kinds, rank, accept, m), accept)
    ensures FromAttempts(Yields(attempt, kinds, rank, accept, m), attempt, m)
  {
    if m > 0 {
      YieldsAccepted(attempt, kinds, rank, accept, m - 1);
      var kept := Yields(attempt, kinds, rank, accept, m - 1);
      var ps := Yields(attempt, kinds, rank, accept, m);
      forall k | 0 <= k < |ps| ensures exists t :: 0 <= t < m && attempt(t) == Some(ps[k]) {
        if k < |kept| {
          assert ps[k] == kept[k];
          var t :| 0 <= t < m - 1 && attempt(t) == Some(kept[k]);
        } else {
          assert attempt(m - 1) == Some(ps[k]);
        }
      }
    }
  }

  /** No two yielded graphs hold the same classes with the same multiplicities. */
  lemma {:induction false} YieldsDistinct<G>(attempt: nat -> Option<G>, kinds: G -> seq<NodeKind>,
                                             rank: NodeKind -> nat, accept: G -> bool, m: nat)
    requires Injective(rank)
    ensures DistinctClasses(Yields(attempt, kinds, rank, accept, m), kinds)
  {
    if m > 0 {
      YieldsDistinct(attempt, kinds, rank, accept, m - 1);
      var kept := Yields(attempt, kinds, rank, accept, m - 1);
      if Yielded(attempt, kinds, rank, accept, kept, m - 1) {
        var g := attempt(m - 1).value;
        var ps := kept + [g];
        forall k | 0 <= k < |kept| ensures multiset(kinds(kept[k])) != multiset(kinds(g)) {
          assert kept[k] in kept;
          SignatureIff(kinds(kept[k]), kinds(g), rank);
        }
        forall k, k' | 0 <= k < k' < |ps| ensures multiset(kinds(ps[k])) != multiset(kinds(ps[k'])) {
          if k' == |kept| {
            assert ps[k] == kept[k] && ps[k'] == g;
          } else {
            assert ps[k] == kept[k] && ps[k'] == kept[k'];
          }
        }
      }
    }
  }

  /** Every accepted outcome among the first `m` attempts shares its signature with a yielded graph. */
  lemma {:induction false} YieldsComplete<G>(attempt: nat -> Option<G>, kinds: G -> seq<NodeKind>,
                                             rank: NodeKind -> nat, accept: G -> bool, m: nat, t: nat)
    requires t < m && attempt(t).Some? && accept(attempt(t).value)
    ensures Signature(kinds(attempt(t).value), rank) in SignaturesOf(Yields(attempt, kinds, rank, accept, m), kinds, rank)
    decreases m
  {
    var kept := Yields(attempt, kinds, rank, accept, m - 1);
    var sig := Signature(kinds(attempt(t).value), rank);
    var ps := Yields(attempt, kinds, rank, accept, m);
    if Yielded(attempt, kinds, rank, accept, kept, m - 1) {
      assert ps == kept + [attempt(m - 1).value];
      SignaturesOfSnoc(kept, attempt(m - 1).value, kinds, rank);
      if t < m - 1 {
        YieldsComplete(attempt, kinds, rank, accept, m - 1, t);
      }
    } else {
      assert ps == kept;
      if t < m - 1 {
        YieldsComplete(attempt, kinds, rank, accept, m - 1, t);
      } else {
        assert sig in SignaturesOf(kept, kinds, rank);
      }
    }
  }

  lemma YieldsNext<G>(attempt: nat -> Option<G>, kinds: G -> seq<NodeKind>,
                      rank: NodeKind -> nat, accept: G -> bool, m: nat)
    ensures var kept := Yields(attempt, kinds, rank, accept, m);
            Yields(attempt, kinds, rank, accept, m + 1)
            == if Yielded(attempt, kinds, rank, accept, kept, m) then kept + [attempt(m).value] else kept
  {
  }

  /**
   * `createUniquePowers(n, predicate)`, run until the generator is
   * exhausted.  It returns the graphs it yields, in order, and the number of
   * attempts it made.
   */
  method CreateUniquePowers<G(==)>(n: nat, attempt: nat -> Option<G>, kinds: G -> seq<NodeKind>, rank: NodeKind -> nat, accept: G -> bool)
    returns (powers: seq<G>, attempts: nat)
    requires Injective(rank)
    ensures powers == Yields(attempt, kinds, rank, accept, attempts)
    ensures attempts <= 100 * n && |powers| <= n
    ensures |powers| < n ==> attempts == 100 * n
    ensures AllAccepted(powers, accept) && FromAttempts(powers, attempt, attempts)
    ensures DistinctClasses(powers, kinds)
    ensures forall t :: 0 <= t < attempts && attempt(t).Some? && accept(attempt(t).value) ==>
              exists k :: 0 <= k < |powers| && multiset(kinds(powers[k])) == multiset(kinds(attempt(t).value))
  {
    var sigs: set<seq<NodeKind>> := {};
    var tries := 100 * n;
    powers, attempts := [], 0;
    while |sigs| < n && tries > 0
      invariant 0 <= tries && attempts + tries == 100 * n
      invariant powers == Yields(attempt, kinds, rank, accept, attempts)
      invariant sigs == SignaturesOf(powers, kinds, rank) && |sigs| == |powers| <= n
      decreases tries
    {
      tries := tries - 1;
      var candidate := attempt(attempts);
      YieldsNext(attempt, kinds, rank, accept, attempts);
      if candidate.Some? && accept(candidate.value) {
        var types := Signature(kinds(candidate.value), rank);
        if types !in sigs {
          SignaturesOfSnoc(powers, candidate.value, kinds, rank);
          sigs := sigs + {types};
          powers := powers + [candidate.value];
        }
      }
      attempts := attempts + 1;
    }
    YieldsAccepted(attempt, kinds, rank, accept, attempts);
    YieldsDistinct(attempt, kinds, rank, accept, attempts);
    forall t | 0 <= t < attempts && attempt(t).Some? && accept(attempt(t).value)
      ensures exists k :: 0 <= k < |powers| && multiset(kinds(powers[k])) == multiset(kinds(attempt(t).value))
    {
      YieldsComplete(attempt, kinds, rank, accept, attempts, t);
      var g :| g in powers && Signature(kinds(g), rank) == Signature(kinds(attempt(t).value), rank);
      SignatureIff(kinds(g), kinds(attempt(t).value), rank);
      var k :| 0 <= k < |powers| && powers[k] == g;
    }
  }
}
