/** Generic sequence helpers standing for Python list slicing and `list(set(..))`. */
module Lists {

  /** Python's `xs[:n]`. */
  function Take<T>(xs: seq<T>, n: nat): (r: seq<T>)
    ensures |r| == if |xs| <= n then |xs| else n
    ensures r == xs[..|r|]
  {
    if |xs| <= n then xs else xs[..n]
  }

  /** A shorter slice of a slice is a slice of the list. */
  lemma TakeOfTake<T>(xs: seq<T>, m: nat, n: nat)
    requires n <= m
    ensures Take(Take(xs, m), n) == Take(xs, n)
  {
  }

  /** A prefix one element longer is the prefix and that element. */
  lemma PrefixStep<T>(xs: seq<T>, i: nat)
    requires i < |xs|
    ensures xs[..i + 1] == xs[..i] + [xs[i]]
  {
  }

  lemma AppendAssoc<T>(a: seq<T>, b: seq<T>, c: seq<T>)
    ensures a + (b + c) == (a + b) + c
  {
  }

  /** The first three elements of a concatenation come from its first part. */
  lemma Front3<T>(a: seq<T>, b: seq<T>, c: seq<T>)
    requires |a| > 3
    ensures var xs := a + b + c; |xs| > 3 && xs[0] == a[0] && xs[1] == a[1] && xs[2] == a[2]
  {
  }

  /** Splitting a list in two, one element at a time, keeps every element exactly once. */
  lemma SplitStep<T>(xs: seq<T>, x: T, a: seq<T>, b: seq<T>, a': seq<T>, b': seq<T>)
    requires multiset(a) + multiset(b) == multiset(xs)
    requires (a' == a + [x] && b' == b) || (a' == a && b' == b + [x])
    ensures multiset(a') + multiset(b') == multiset(xs + [x])
  {
    assert multiset(xs + [x]) == multiset(xs) + multiset{x};
  }

  lemma PrefixFull<T>(xs: seq<T>)
    ensures xs[..|xs|] == xs
  {
  }

  predicate NoDuplicates<T(==)>(xs: seq<T>)
  {
    forall i, j :: 0 <= i < j < |xs| ==> xs[i] != xs[j]
  }

  /** `a` is `b` with some elements left out, the rest in their order. */
  predicate IsSubsequence<T(==)>(a: seq<T>, b: seq<T>)
    decreases |b|
  {
    || a == []
    || (&& |b| > 0
        && (|| (|a| > 0 && a[|a| - 1] == b[|b| - 1] && IsSubsequence(a[..|a| - 1], b[..|b| - 1]))
            || IsSubsequence(a, b[..|b| - 1])))
  }

  /** The distinct elements of `xs`, each kept at its first occurrence. */
  function Dedup<T(==, !new)>(xs: seq<T>): (r: seq<T>)
    ensures NoDuplicates(r)
    ensures forall x :: x in r <==> x in xs
    ensures |r| <= |xs|
  {
    if xs == [] then []
    else
      var d := Dedup(xs[..|xs| - 1]);
      var x := xs[|xs| - 1];
      assert forall y :: y in xs <==> y in xs[..|xs| - 1] || y == x by {
        assert xs == xs[..|xs| - 1] + [x];
      }
      if x in d then d else d + [x]
  }
}
