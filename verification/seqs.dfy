/** Order-preserving selection from a list, the shape of both detection filters. */
module Seqs {

  /** `a` can be obtained from `b` by deleting elements, keeping the order of the rest. */
  predicate IsSubseq<T(==)>(a: seq<T>, b: seq<T>)
    decreases |b|
  {
    |a| == 0 || (|b| > 0 && ((a[0] == b[0] && IsSubseq(a[1..], b[1..])) || IsSubseq(a, b[1..])))
  }

  /** The Python list comprehension `[x for x in s if f(x)]`.
      The result keeps every passing element with its multiplicity, drops
      every failing one, and keeps the input order. */
  function Filter<T(==,!new)>(f: T -> bool, s: seq<T>): (r: seq<T>)
    ensures |r| <= |s|
    ensures forall i :: 0 <= i < |r| ==> f(r[i])
    ensures forall x :: multiset(r)[x] == if f(x) then multiset(s)[x] else 0
    ensures IsSubseq(r, s)
  {
    if |s| == 0 then []
    else
      var rest := Filter(f, s[1..]);
      assert s == [s[0]] + s[1..];
      if f(s[0]) then
        assert ([s[0]] + rest)[1..] == rest;
        [s[0]] + rest
      else rest
  }

  /** One step of the filter: the head is kept exactly when it passes. */
  lemma FilterStep<T(!new)>(f: T -> bool, s: seq<T>)
    requires |s| > 0
    ensures Filter(f, s) == if f(s[0]) then [s[0]] + Filter(f, s[1..]) else Filter(f, s[1..])
  {
  }

  /** A list whose every element passes is returned unchanged. */
  lemma {:induction false} FilterAllPass<T(!new)>(f: T -> bool, s: seq<T>)
    requires forall i :: 0 <= i < |s| ==> f(s[i])
    ensures Filter(f, s) == s
  {
    if |s| > 0 {
      FilterAllPass(f, s[1..]);
      assert s == [s[0]] + s[1..];
    }
  }

  /** Filtering twice with the same predicate is filtering once. */
  lemma FilterIdempotent<T(!new)>(f: T -> bool, s: seq<T>)
    ensures Filter(f, Filter(f, s)) == Filter(f, s)
  {
    FilterAllPass(f, Filter(f, s));
  }

  /** Filtering by f and then by g is filtering once by their conjunction h. */
  lemma {:induction false} FilterCompose<T(!new)>(f: T -> bool, g: T -> bool, h: T -> bool, s: seq<T>)
    requires forall x :: h(x) == (f(x) && g(x))
    ensures Filter(g, Filter(f, s)) == Filter(h, s)
  {
    if |s| > 0 {
      FilterCompose(f, g, h, s[1..]);
      var rest := Filter(f, s[1..]);
      if f(s[0]) {
        assert Filter(f, s) == [s[0]] + rest;
        assert ([s[0]] + rest)[1..] == rest;
      }
    }
  }
}
