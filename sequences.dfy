/** Facts about sequences shared by the cart, the search filter and the cache model. */
module Sequences {

  /** `xs` can be obtained from `ys` by deleting elements, keeping the order of the rest. */
  ghost predicate IsSubsequence<T>(xs: seq<T>, ys: seq<T>)
    decreases |ys|
  {
    if xs == [] then true
    else if ys == [] then false
    else (xs[0] == ys[0] && IsSubsequence(xs[1..], ys[1..])) || IsSubsequence(xs, ys[1..])
  }

  /** No element occurs twice. */
  predicate NoDuplicates<T(==)>(xs: seq<T>)
  {
    forall i, j :: 0 <= i < j < |xs| ==> xs[i] != xs[j]
  }

  /** The elements of `xs` that are not in `gone`, in their order. */
  function Keep<T(==)>(xs: seq<T>, gone: set<T>): seq<T>
  {
    if xs == [] then []
    else if xs[0] in gone then Keep(xs[1..], gone)
    else [xs[0]] + Keep(xs[1..], gone)
  }

  /** An element is kept exactly when it occurs and is not removed. */
  lemma {:induction false} KeepMembership<T>(xs: seq<T>, gone: set<T>, x: T)
    ensures x in Keep(xs, gone) <==> x in xs && x !in gone
  {
    if xs != [] {
      KeepMembership(xs[1..], gone, x);
      assert xs == [xs[0]] + xs[1..];
    }
  }

  /** Keeping preserves the absence of duplicates. */
  lemma {:induction false} KeepNoDuplicates<T>(xs: seq<T>, gone: set<T>)
    requires NoDuplicates(xs)
    ensures NoDuplicates(Keep(xs, gone))
  {
    if xs != [] {
      assert NoDuplicates(xs[1..]);
      KeepNoDuplicates(xs[1..], gone);
      if xs[0] !in gone {
        var rest := Keep(xs[1..], gone);
        forall k | 0 <= k < |rest|
          ensures rest[k] != xs[0]
        {
          KeepMembership(xs[1..], gone, rest[k]);
        }
      }
    }
  }

  /** Removing `a` and then `b` is removing both at once. */
  lemma {:induction false} KeepTwice<T>(xs: seq<T>, a: set<T>, b: set<T>)
    ensures Keep(Keep(xs, a), b) == Keep(xs, a + b)
  {
    if xs != [] {
      KeepTwice(xs[1..], a, b);
      if xs[0] !in a {
        var rest := Keep(xs[1..], a);
        assert ([xs[0]] + rest)[0] == xs[0];
        assert ([xs[0]] + rest)[1..] == rest;
      }
    }
  }

  /** Removing nothing keeps everything. */
  lemma {:induction false} KeepNothing<T>(xs: seq<T>)
    ensures Keep(xs, {}) == xs
  {
    if xs != [] {
      KeepNothing(xs[1..]);
    }
  }

  /** In a sequence whose elements all equal `c`, the first two are equal. */
  lemma FirstTwoEqual<T>(xs: seq<T>, c: T)
    requires |xs| >= 2
    requires forall x :: x in xs ==> x == c
    ensures xs[0] == xs[1]
  {
    assert xs[0] in xs && xs[1] in xs;
  }

  /** A sequence without duplicates whose elements all equal `c` is `[c]` or empty. */
  lemma OnlyElement<T>(xs: seq<T>, c: T)
    requires NoDuplicates(xs)
    requires forall x :: x in xs ==> x == c
    ensures xs == if c in xs then [c] else []
  {
    if |xs| >= 2 {
      FirstTwoEqual(xs, c);
      assert false;
    } else if |xs| == 1 {
      assert xs[0] in xs;
    }
  }
}
