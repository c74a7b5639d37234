/**
 * Integer-vector enumerations: `itertools.permutations` of a list, and (for the
 * termination argument of the isotopologue search) the bounded space of
 * non-negative vectors with a fixed length and total.
 */
module Combinatorics {

  function Sum(s: seq<int>): int
  {
    if |s| == 0 then 0 else s[0] + Sum(s[1..])
  }

  predicate NonNegative(s: seq<int>)
  {
    forall i :: 0 <= i < |s| ==> s[i] >= 0
  }

  lemma {:induction false} SumAppend(a: seq<int>, b: seq<int>)
    ensures Sum(a + b) == Sum(a) + Sum(b)
  {
    if |a| > 0 {
      SumAppend(a[1..], b);
      assert (a + b)[1..] == a[1..] + b;
    } else {
      assert a + b == b;
    }
  }

  lemma {:induction false} SumNonNegative(s: seq<int>)
    requires NonNegative(s)
    ensures Sum(s) >= 0
  {
    if |s| > 0 {
      SumNonNegative(s[1..]);
    }
  }

  /** `[x] + p` for every `p`. */
  function PrependEach<T>(x: T, ps: seq<seq<T>>): (r: seq<seq<T>>)
    ensures |r| == |ps| && forall k :: 0 <= k < |r| ==> r[k] == [x] + ps[k]
  {
    seq(|ps|, k requires 0 <= k < |ps| => [x] + ps[k])
  }

  /** `xs` with its `i`-th element taken out. */
  function Without<T>(xs: seq<T>, i: nat): (r: seq<T>)
    requires i < |xs|
    ensures |r| == |xs| - 1
  {
    xs[..i] + xs[i + 1..]
  }

  /**
   * `itertools.permutations(xs)`: every ordering of the positions of `xs`, in
   * lexicographic order of positions; equal values are not merged, so a list
   * with repeated values yields repeated tuples.
   */
  function Permutations(xs: seq<int>): seq<seq<int>>
    decreases |xs|, 1, 0
  {
    if |xs| == 0 then [[]] else PermutationsFrom(xs, 0)
  }

  /** The permutations whose first entry is taken from position `i` or later. */
  function PermutationsFrom(xs: seq<int>, i: nat): seq<seq<int>>
    requires i <= |xs|
    decreases |xs|, 0, |xs| - i
  {
    if i == |xs| then []
    else PrependEach(xs[i], Permutations(Without(xs, i))) + PermutationsFrom(xs, i + 1)
  }

  lemma {:induction false} WithoutSum(xs: seq<int>, i: nat)
    requires i < |xs|
    ensures Sum(Without(xs, i)) + xs[i] == Sum(xs)
  {
    if i == 0 {
      assert Without(xs, 0) == xs[1..];
    } else {
      var w := Without(xs[1..], i - 1);
      WithoutSum(xs[1..], i - 1);
      assert Without(xs, i) == [xs[0]] + w;
      assert ([xs[0]] + w)[1..] == w;
    }
  }

  /** Every permutation has the length and the total of the list it permutes. */
  lemma {:induction false} PermutationShape(xs: seq<int>, p: seq<int>)
    requires p in Permutations(xs)
    ensures |p| == |xs| && Sum(p) == Sum(xs)
    decreases |xs|, 1, 0
  {
    if |xs| > 0 {
      PermutationsFromShape(xs, 0, p);
    }
  }

  lemma {:induction false} PermutationsFromShape(xs: seq<int>, i: nat, p: seq<int>)
    requires i <= |xs| && p in PermutationsFrom(xs, i)
    ensures |p| == |xs| && Sum(p) == Sum(xs)
    decreases |xs|, 0, |xs| - i
  {
    var first := PrependEach(xs[i], Permutations(Without(xs, i)));
    if p in first {
      var k :| 0 <= k < |first| && first[k] == p;
      PermutationShape(Without(xs, i), Permutations(Without(xs, i))[k]);
      WithoutSum(xs, i);
    } else {
      PermutationsFromShape(xs, i + 1, p);
    }
  }

  function Factorial(n: nat): nat
  {
    if n == 0 then 1 else n * Factorial(n - 1)
  }

  /** There are n! of them, repeated tuples included. */
  lemma {:induction false} PermutationsCount(xs: seq<int>)
    ensures |Permutations(xs)| == Factorial(|xs|)
    decreases |xs|, 1
  {
    if |xs| > 0 {
      PermutationsFromCount(xs, 0);
    }
  }

  lemma {:induction false} PermutationsFromCount(xs: seq<int>, i: nat)
    requires 0 < |xs| && i <= |xs|
    ensures |PermutationsFrom(xs, i)| == (|xs| - i) * Factorial(|xs| - 1)
    decreases |xs|, 0, |xs| - i
  {
    if i < |xs| {
      PermutationsCount(Without(xs, i));
      PermutationsFromCount(xs, i + 1);
      var f := Factorial(|xs| - 1);
      var m := |xs| - i;
      assert m * f == f + (m - 1) * f;
    }
  }

  /**
   * Every vector of `n` non-negative integers with total `t`, first entry
   * slowest. Only the termination argument uses it, hence ghost.
   */
  ghost function Compositions(n: nat, t: nat): seq<seq<int>>
    decreases n, 1, 0
  {
    if n == 0 then (if t == 0 then [[]] else []) else CompositionsFrom(n, t, 0)
  }

  ghost function CompositionsFrom(n: nat, t: nat, f: nat): seq<seq<int>>
    requires n > 0
    decreases n, 0, t + 1 - f
  {
    if f > t then [] else PrependEach(f, Compositions(n - 1, t - f)) + CompositionsFrom(n, t, f + 1)
  }

  lemma {:induction false} CompositionsFromHolds(n: nat, t: nat, g: nat, f: nat, v: seq<int>)
    requires n > 0 && g <= f <= t && v in PrependEach(f, Compositions(n - 1, t - f))
    ensures v in CompositionsFrom(n, t, g)
    decreases f - g
  {
    if g < f {
      CompositionsFromHolds(n, t, g + 1, f, v);
    }
  }

  /** Every non-negative vector of length n and total t is enumerated. */
  lemma {:induction false} CompositionsComplete(n: nat, t: nat, v: seq<int>)
    requires |v| == n && NonNegative(v) && Sum(v) == t
    ensures v in Compositions(n, t)
    decreases n
  {
    if n > 0 {
      var f := v[0];
      SumNonNegative(v[1..]);
      CompositionsComplete(n - 1, t - f, v[1..]);
      var tails := Compositions(n - 1, t - f);
      var k :| 0 <= k < |tails| && tails[k] == v[1..];
      assert PrependEach(f, tails)[k] == v;
      CompositionsFromHolds(n, t, 0, f, v);
    }
  }
}
