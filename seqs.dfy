/**
 * `Array.prototype.filter` and the subsequence relation it establishes,
 * shared by the low-stock view and both searches.
 */
module Seqs {

  /** `a` is `b` with some elements dropped and the rest kept in their order. */
  predicate IsSubsequence<T(==)>(a: seq<T>, b: seq<T>)
    decreases |b|
  {
    if b == [] then a == []
    else
      (a != [] && a[|a| - 1] == b[|b| - 1] && IsSubsequence(a[..|a| - 1], b[..|b| - 1]))
      || IsSubsequence(a, b[..|b| - 1])
  }

  /** `s.filter(p)`: the elements of `s` that satisfy `p`, in their original order. */
  function Keep<T(==,!new)>(s: seq<T>, p: T -> bool): (r: seq<T>)
    ensures |r| <= |s|
    ensures forall k :: 0 <= k < |r| ==> r[k] in s && p(r[k])
    ensures forall k :: 0 <= k < |s| && p(s[k]) ==> s[k] in r
    ensures IsSubsequence(r, s)
    ensures forall x :: multiset(r)[x] == if p(x) then multiset(s)[x] else 0
  {
    if s == [] then []
    else
      var init := Keep(s[..|s| - 1], p);
      assert s == s[..|s| - 1] + [s[|s| - 1]];
      assert multiset(s) == multiset(s[..|s| - 1]) + multiset{s[|s| - 1]};
      if p(s[|s| - 1]) then
        assert (init + [s[|s| - 1]])[..|init|] == init;
        assert multiset(init + [s[|s| - 1]]) == multiset(init) + multiset{s[|s| - 1]};
        init + [s[|s| - 1]]
      else init
  }

  /** A predicate every element satisfies keeps the whole sequence. */
  lemma {:induction false} KeepAll<T(!new)>(s: seq<T>, p: T -> bool)
    requires forall k :: 0 <= k < |s| ==> p(s[k])
    ensures Keep(s, p) == s
  {
    if s != [] {
      var init := s[..|s| - 1];
      KeepAll(init, p);
      assert Keep(s, p) == Keep(init, p) + [s[|s| - 1]];
      assert s == init + [s[|s| - 1]];
    }
  }

  /** Two predicates that agree on the elements of `s` keep the same elements. */
  lemma {:induction false} KeepAgree<T(!new)>(s: seq<T>, p: T -> bool, q: T -> bool)
    requires forall k :: 0 <= k < |s| ==> p(s[k]) == q(s[k])
    ensures Keep(s, p) == Keep(s, q)
  {
    if s != [] {
      KeepAgree(s[..|s| - 1], p, q);
    }
  }
}
