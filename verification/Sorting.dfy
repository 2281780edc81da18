/** Stands for Go's sort.Slice: some ordering of the same elements. */
module Sorting {
  ghost predicate SortedBy<T(!new)>(xs: seq<T>, leq: (T, T) -> bool) {
    forall i, j | 0 <= i < j < |xs| :: leq(xs[i], xs[j])
  }

  /** On the elements of `xs`, `leq` compares everything and is transitive. */
  ghost predicate Orders<T(!new)>(leq: (T, T) -> bool, xs: seq<T>) {
    && (forall a, b | a in xs && b in xs :: leq(a, b) || leq(b, a))
    && (forall a, b, c | a in xs && b in xs && c in xs && leq(a, b) && leq(b, c) :: leq(a, c))
  }

  method Sort<T(!new)>(xs: seq<T>, leq: (T, T) -> bool) returns (sorted: seq<T>)
    requires Orders(leq, xs)
    ensures SortedBy(sorted, leq) && multiset(sorted) == multiset(xs)
  {
    sorted := [];
    for n := 0 to |xs|
      invariant SortedBy(sorted, leq)
      invariant multiset(sorted) == multiset(xs[..n])
    {
      assert xs[..n + 1] == xs[..n] + [xs[n]];
      PartOf(sorted, xs[..n], xs);
      sorted := Insert(sorted, xs[n], xs, leq);
    }
    assert xs[..|xs|] == xs;
  }

  lemma PartOf<T>(part: seq<T>, prefix: seq<T>, xs: seq<T>)
    requires multiset(part) == multiset(prefix) && prefix <= xs
    ensures forall a | a in part :: a in xs
  {
    SameMembers(part, prefix);
  }

  method Insert<T(!new)>(sorted: seq<T>, x: T, ghost xs: seq<T>, leq: (T, T) -> bool) returns (r: seq<T>)
    requires Orders(leq, xs) && x in xs && forall a | a in sorted :: a in xs
    requires SortedBy(sorted, leq)
    ensures SortedBy(r, leq) && multiset(r) == multiset(sorted) + multiset{x}
  {
    var p := 0;
    while p < |sorted| && leq(sorted[p], x)
      invariant 0 <= p <= |sorted|
      invariant forall i | 0 <= i < p :: leq(sorted[i], x)
    {
      p := p + 1;
    }
    assert sorted == sorted[..p] + sorted[p..];
    r := sorted[..p] + [x] + sorted[p..];
    forall i | p <= i < |sorted| ensures leq(x, sorted[i]) {
      assert sorted[p] in sorted && sorted[i] in sorted;
      assert leq(x, sorted[p]);
      assert i == p || leq(sorted[p], sorted[i]);
    }
  }

  lemma SameMembers<T>(a: seq<T>, b: seq<T>)
    requires multiset(a) == multiset(b)
    ensures |a| == |b| && forall x :: x in a <==> x in b
  {
    assert |a| == |multiset(a)| && |b| == |multiset(b)|;
    assert forall x :: x in a <==> x in multiset(a);
    assert forall x :: x in b <==> x in multiset(b);
  }

  /** No two of the elements have the same key. */
  ghost predicate DistinctBy<T(!new), K(!new)>(xs: seq<T>, key: T -> K) {
    forall i, j | 0 <= i < j < |xs| :: key(xs[i]) != key(xs[j])
  }

  lemma SortingKeepsDistinct<T(!new), K(!new)>(a: seq<T>, b: seq<T>, key: T -> K)
    requires multiset(a) == multiset(b) && DistinctBy(a, key)
    ensures DistinctBy(b, key)
  {
    SameMembers(a, b);
    forall i, j | 0 <= i < j < |b| ensures key(b[i]) != key(b[j]) {
      if key(b[i]) == key(b[j]) {
        assert b[i] in a && b[j] in a;
        var p :| 0 <= p < |a| && a[p] == b[i];
        var q :| 0 <= q < |a| && a[q] == b[j];
        assert p == q;
        TwiceInSequence(b, i, j);
        OnceInSequence(a, p, key);
      }
    }
  }

  lemma TwiceInSequence<T>(s: seq<T>, i: nat, j: nat)
    requires i < j < |s| && s[i] == s[j]
    ensures multiset(s)[s[i]] >= 2
  {
    assert s == s[..i] + [s[i]] + s[i + 1..j] + [s[j]] + s[j + 1..];
  }

  lemma OnceInSequence<T(!new), K(!new)>(s: seq<T>, p: nat, key: T -> K)
    requires p < |s| && DistinctBy(s, key)
    ensures multiset(s)[s[p]] == 1
  {
    assert s == s[..p] + [s[p]] + s[p + 1..];
    assert s[p] !in s[..p] && s[p] !in s[p + 1..];
  }
}
