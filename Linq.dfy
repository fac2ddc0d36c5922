/** The LINQ operator the catalog's queries are written with: Where. */
module Linq {

  /**
   * `r` is obtained from `s` by deleting elements: its elements occur in `s`
   * in the same order.
   */
  predicate IsSubsequence<T(==, !new)>(r: seq<T>, s: seq<T>)
    decreases |s|
  {
    || r == []
    || (s != [] && ((r[0] == s[0] && IsSubsequence(r[1..], s[1..])) || IsSubsequence(r, s[1..])))
  }

  /**
   * Enumerable.Where: every occurrence in `s` of an element that `keep`
   * accepts, in its order in `s`, and nothing else.
   */
  function Where<T(==, !new)>(s: seq<T>, keep: T -> bool): (r: seq<T>)
    ensures |r| <= |s|
    ensures forall x :: x in r <==> x in s && keep(x)
    ensures IsSubsequence(r, s)
  {
    if s == [] then []
    else if keep(s[0]) then [s[0]] + Where(s[1..], keep)
    else Where(s[1..], keep)
  }


  /**
   * Where keeps every occurrence of an accepted element and no occurrence of
   * a rejected one.
   */
  lemma {:induction false} WhereCounts<T(!new)>(s: seq<T>, keep: T -> bool)
    ensures forall x :: multiset(Where(s, keep))[x] == if keep(x) then multiset(s)[x] else 0
  {
    if s != [] {
      WhereCounts(s[1..], keep);
      assert s == [s[0]] + s[1..];
    }
  }
}
