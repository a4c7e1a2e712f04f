/**
 * `powerset(iterable)` of the search: `itertools.combinations(s, r)` for
 * r = 0, 1, ..., len(s), chained.  Combinations come in lexicographic order
 * of their positions, so every one keeps the order of `s`.
 */
module Subsets {

  /** `itertools.combinations(s, r)`: those starting with s[0] first, then those without it. */
  function Combinations<T>(s: seq<T>, r: nat): seq<seq<T>>
    decreases |s|
  {
    if r == 0 then [[]]
    else if s == [] then []
    else PrependAll(s[0], Combinations(s[1..], r - 1)) + Combinations(s[1..], r)
  }

  function PrependAll<T>(x: T, xss: seq<seq<T>>): (r: seq<seq<T>>)
    ensures |r| == |xss|
    ensures forall i :: 0 <= i < |xss| ==> r[i] == [x] + xss[i]
  {
    seq(|xss|, i requires 0 <= i < |xss| => [x] + xss[i])
  }

  /** The combinations of every size from `r` up to `|s|`, smallest first. */
  function PowersetFrom<T>(s: seq<T>, r: nat): seq<seq<T>>
    decreases |s| + 1 - r
  {
    if r > |s| then [] else Combinations(s, r) + PowersetFrom(s, r + 1)
  }

  function Powerset<T>(s: seq<T>): seq<seq<T>>
  {
    PowersetFrom(s, 0)
  }

  /** `x` is obtained from `s` by deleting elements, keeping the order of the rest. */
  predicate IsSubsequence<T(==)>(x: seq<T>, s: seq<T>)
    decreases |s|
  {
    if x == [] then true
    else if s == [] then false
    else (x[0] == s[0] && IsSubsequence(x[1..], s[1..])) || IsSubsequence(x, s[1..])
  }

  function Binomial(n: nat, k: nat): nat
  {
    if k == 0 then 1 else if n == 0 then 0 else Binomial(n - 1, k - 1) + Binomial(n - 1, k)
  }

  function Pow2(n: nat): nat
  {
    if n == 0 then 1 else 2 * Pow2(n - 1)
  }

  /** Sum of Binomial(n, j) for r <= j <= n. */
  function BinomialSumFrom(n: nat, r: nat): nat
    decreases n + 1 - r
  {
    if r > n then 0 else Binomial(n, r) + BinomialSumFrom(n, r + 1)
  }

  /** Every combination of size r is an order-preserving subsequence with r elements. */
  lemma {:induction false} CombinationsAreSubsequences<T>(s: seq<T>, r: nat, x: seq<T>)
    requires x in Combinations(s, r)
    ensures |x| == r && IsSubsequence(x, s)
    decreases |s|
  {
    if r == 0 {
    } else if s == [] {
    } else {
      var front := PrependAll(s[0], Combinations(s[1..], r - 1));
      if x in front {
        var i :| 0 <= i < |front| && front[i] == x;
        var y := Combinations(s[1..], r - 1)[i];
        CombinationsAreSubsequences(s[1..], r - 1, y);
        assert x == [s[0]] + y && x[1..] == y;
      } else {
        CombinationsAreSubsequences(s[1..], r, x);
      }
    }
  }

  lemma {:induction false} CombinationsCount<T>(s: seq<T>, r: nat)
    ensures |Combinations(s, r)| == Binomial(|s|, r)
    decreases |s|
  {
    if r != 0 && s != [] {
      CombinationsCount(s[1..], r - 1);
      CombinationsCount(s[1..], r);
    }
  }

  lemma {:induction false} BinomialAbove(n: nat, k: nat)
    requires k > n
    ensures Binomial(n, k) == 0
    decreases n
  {
    if n != 0 {
      BinomialAbove(n - 1, k - 1);
      BinomialAbove(n - 1, k);
    }
  }

  /** Pascal's rule summed: the tail sums of row n split into tail sums of row n - 1. */
  lemma {:induction false} BinomialSumSplit(n: nat, r: nat)
    requires n >= 1 && r >= 1
    ensures BinomialSumFrom(n, r) == BinomialSumFrom(n - 1, r - 1) + BinomialSumFrom(n - 1, r)
    decreases n + 1 - r
  {
    if r > n {
    } else if r == n {
      BinomialAbove(n - 1, n);
      BinomialSumSplit(n, r + 1);
    } else {
      BinomialSumSplit(n, r + 1);
    }
  }

  lemma {:induction false} BinomialSumIsPow2(n: nat)
    ensures BinomialSumFrom(n, 0) == Pow2(n)
  {
    if n != 0 {
      BinomialSumSplit(n, 1);
      BinomialSumIsPow2(n - 1);
    }
  }

  lemma {:induction false} PowersetFromCount<T>(s: seq<T>, r: nat)
    ensures |PowersetFrom(s, r)| == BinomialSumFrom(|s|, r)
    decreases |s| + 1 - r
  {
    if r <= |s| {
      CombinationsCount(s, r);
      PowersetFromCount(s, r + 1);
    }
  }

  /**
   * `powerset` of an n-element list yields exactly 2^n tuples: each is an
   * order-preserving subsequence of the list, and every such subsequence
   * is among them.
   */
  lemma PowersetProperties<T>(s: seq<T>)
    ensures |Powerset(s)| == Pow2(|s|)
    ensures forall x :: x in Powerset(s) ==> IsSubsequence(x, s)
    ensures forall x :: IsSubsequence(x, s) ==> x in Powerset(s)
  {
    PowersetFromCount(s, 0);
    BinomialSumIsPow2(|s|);
    forall x | x in Powerset(s) ensures IsSubsequence(x, s) {
      PowersetFromMembers(s, 0, x);
    }
    forall x | IsSubsequence(x, s) ensures x in Powerset(s) {
      CombinationsComplete(s, x);
      SubsequenceLength(x, s);
      PowersetFromComplete(s, 0, x);
    }
  }

  /** Every order-preserving subsequence of `s` is among the combinations of its length. */
  lemma {:induction false} CombinationsComplete<T>(s: seq<T>, x: seq<T>)
    requires IsSubsequence(x, s)
    ensures x in Combinations(s, |x|)
    decreases |s|
  {
    if x == [] {
    } else if x[0] == s[0] && IsSubsequence(x[1..], s[1..]) {
      CombinationsComplete(s[1..], x[1..]);
      var rest := Combinations(s[1..], |x| - 1);
      var i :| 0 <= i < |rest| && rest[i] == x[1..];
      assert PrependAll(s[0], rest)[i] == x;
    } else {
      CombinationsComplete(s[1..], x);
    }
  }

  /** A combination of size between `r` and `|s|` is in the chained tail starting at size `r`. */
  lemma {:induction false} PowersetFromComplete<T>(s: seq<T>, r: nat, x: seq<T>)
    requires r <= |x| <= |s| && x in Combinations(s, |x|)
    ensures x in PowersetFrom(s, r)
    decreases |x| - r
  {
    if r < |x| {
      PowersetFromComplete(s, r + 1, x);
    }
  }

  lemma {:induction false} PowersetFromMembers<T>(s: seq<T>, r: nat, x: seq<T>)
    requires x in PowersetFrom(s, r)
    ensures r <= |x| <= |s| && IsSubsequence(x, s)
    decreases |s| + 1 - r
  {
    assert r <= |s|;
    var here, later := Combinations(s, r), PowersetFrom(s, r + 1);
    assert PowersetFrom(s, r) == here + later;
    if x in here {
      CombinationsAreSubsequences(s, r, x);
      SubsequenceLength(x, s);
    } else {
      assert x in later;
      PowersetFromMembers(s, r + 1, x);
    }
  }

  lemma {:induction false} SubsequenceLength<T>(x: seq<T>, s: seq<T>)
    requires IsSubsequence(x, s)
    ensures |x| <= |s|
    decreases |s|
  {
    if x != [] {
      if x[0] == s[0] && IsSubsequence(x[1..], s[1..]) {
        SubsequenceLength(x[1..], s[1..]);
      } else {
        SubsequenceLength(x, s[1..]);
      }
    }
  }

  /** A subsequence only holds elements of the original sequence. */
  lemma {:induction false} SubsequenceElements<T>(x: seq<T>, s: seq<T>)
    requires IsSubsequence(x, s)
    ensures forall i :: 0 <= i < |x| ==> x[i] in s
    decreases |s|
  {
    if x != [] {
      if x[0] == s[0] && IsSubsequence(x[1..], s[1..]) {
        SubsequenceElements(x[1..], s[1..]);
        forall i | 1 <= i < |x| ensures x[i] in s {
          assert x[i] == x[1..][i - 1];
        }
      } else {
        SubsequenceElements(x, s[1..]);
      }
    }
  }

  /** Removing one occurrence of the same element from two equal multisets leaves equal multisets. */
  lemma CancelOne<T>(a: multiset<T>, b: multiset<T>, x: T)
    requires a + multiset{x} == b + multiset{x}
    ensures a == b
  {
    assert forall t :: a[t] == (a + multiset{x})[t] - (if t == x then 1 else 0);
    assert forall t :: b[t] == (b + multiset{x})[t] - (if t == x then 1 else 0);
  }

  /** Concatenation of sequences is associative. */
  lemma AppendAssociates<T>(a: seq<T>, b: seq<T>, c: seq<T>)
    ensures a + b + c == a + (b + c)
  {
  }

  /** The empty sequence is a unit of concatenation on both sides. */
  lemma AppendEmpty<T>(a: seq<T>)
    ensures [] + a == a && a + [] == a
  {
  }
}
