/**
 Facts about sequences that hold the same elements in a different order, used
 to show that the statistics and the sorted table do not depend on the order
 of the store.
 */
module Permutations {

  /** A sequence is its part before `k`, its element at `k`, and its part after `k`. */
  lemma SplitAt<T>(s: seq<T>, k: nat)
    requires k < |s|
    ensures s == (s[..k] + [s[k]]) + s[k + 1..]
  {
  }

  /** Removing the element at `k` removes one occurrence of it. */
  lemma RemoveAt<T>(s: seq<T>, k: nat)
    requires k < |s|
    ensures multiset(s) == multiset(s[..k] + s[k + 1..]) + multiset{s[k]}
  {
    assert s == s[..k] + [s[k]] + s[k + 1..];
  }

  /** Adding the same element to two multisets keeps them apart or equal. */
  lemma MultisetCancel<T>(p: multiset<T>, q: multiset<T>, x: T)
    requires multiset{x} + p == q + multiset{x}
    ensures p == q
  {
    forall y
      ensures p[y] == q[y]
    {
      assert (multiset{x} + p)[y] == (q + multiset{x})[y];
    }
  }

  /** The first element of `a` occurs somewhere in any reordering `b` of it. */
  lemma FindIn<T>(a: seq<T>, b: seq<T>) returns (k: nat)
    requires multiset(a) == multiset(b) && |a| > 0
    ensures k < |b| && b[k] == a[0]
  {
    assert a[0] in multiset(b);
    k :| 0 <= k < |b| && b[k] == a[0];
  }

  /** Taking the matched element out of both sides leaves reorderings of each other. */
  lemma DropMatched<T>(a: seq<T>, b: seq<T>, k: nat)
    requires multiset(a) == multiset(b) && |a| > 0 && k < |b| && b[k] == a[0]
    ensures multiset(a[1..]) == multiset(b[..k] + b[k + 1..])
  {
    var x := a[0];
    var rest, other := a[1..], b[..k] + b[k + 1..];
    assert a == [x] + rest;
    assert multiset(a) == multiset{x} + multiset(rest);
    RemoveAt(b, k);
    MultisetCancel(multiset(rest), multiset(other), x);
  }
}
