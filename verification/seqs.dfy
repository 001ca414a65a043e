/** Order-preserving filtering, the one list operation every view of the
    application uses (`Array.prototype.filter`). */
module Seqs {

  /** `a` can be obtained from `b` by deleting elements (greedy matching). */
  predicate IsSubsequence<T(==)>(a: seq<T>, b: seq<T>)
    decreases |b|
  {
    if |a| == 0 then true
    else if |b| == 0 then false
    else if a[0] == b[0] then IsSubsequence(a[1..], b[1..])
    else IsSubsequence(a, b[1..])
  }

  /** The elements of `s` satisfying `f`, in their original order. */
  function Filter<T>(s: seq<T>, f: T -> bool): (r: seq<T>)
    ensures |r| <= |s|
    ensures forall x :: x in r ==> x in s && f(x)
    ensures forall x :: x in s && f(x) ==> x in r
  {
    if |s| == 0 then []
    else
      var rest := Filter(s[1..], f);
      assert forall x :: x in s ==> x == s[0] || x in s[1..];
      if f(s[0]) then [s[0]] + rest else rest
  }

  /** Filtering keeps every passing element as often as it occurs, and no other. */
  lemma {:induction false} FilterCount<T>(s: seq<T>, f: T -> bool)
    ensures forall x :: x in s ==> multiset(Filter(s, f))[x] == if f(x) then multiset(s)[x] else 0
  {
    if |s| > 0 {
      FilterCount(s[1..], f);
      assert s == [s[0]] + s[1..];
      assert forall x :: x in s ==> x == s[0] || x in s[1..];
    }
  }

  /** Filtering keeps the relative order of what it keeps. */
  lemma {:induction false} FilterSubsequence<T>(s: seq<T>, f: T -> bool)
    ensures IsSubsequence(Filter(s, f), s)
  {
    if |s| > 0 {
      FilterSubsequence(s[1..], f);
      var rest := Filter(s[1..], f);
      if !f(s[0]) {
        assert |rest| > 0 ==> rest[0] in rest && rest[0] != s[0];
      }
    }
  }

  /** Filtering a list whose elements all pass leaves it as it is. */
  lemma {:induction false} FilterKeepsAll<T>(s: seq<T>, f: T -> bool)
    requires forall x :: x in s ==> f(x)
    ensures Filter(s, f) == s
  {
    if |s| > 0 {
      assert s[0] in s;
      assert forall x :: x in s[1..] ==> x in s;
      FilterKeepsAll(s[1..], f);
      assert s == [s[0]] + s[1..];
    }
  }

  /** Filtering is idempotent. */
  lemma FilterIdempotent<T>(s: seq<T>, f: T -> bool)
    ensures Filter(Filter(s, f), f) == Filter(s, f)
  {
    FilterKeepsAll(Filter(s, f), f);
  }

  /** When exactly one element of `s` is rejected, the result is one shorter. */
  lemma {:induction false} FilterDropsOne<T>(s: seq<T>, f: T -> bool, k: nat)
    requires k < |s| && !f(s[k])
    requires forall i :: 0 <= i < |s| && i != k ==> f(s[i])
    ensures |Filter(s, f)| == |s| - 1
  {
    if k == 0 {
      assert forall x :: x in s[1..] ==> f(x) by {
        forall x | x in s[1..] ensures f(x) {
          var i :| 0 <= i < |s[1..]| && s[1..][i] == x;
          assert x == s[i+1];
        }
      }
      FilterKeepsAll(s[1..], f);
    } else {
      assert f(s[0]);
      FilterDropsOne(s[1..], f, k - 1);
    }
  }

  /** A relation holding between every earlier and later element survives filtering. */
  lemma {:induction false} FilterPairwise<T>(s: seq<T>, f: T -> bool, rel: (T, T) -> bool)
    requires forall i, j :: 0 <= i < j < |s| ==> rel(s[i], s[j])
    ensures forall i, j :: 0 <= i < j < |Filter(s, f)| ==> rel(Filter(s, f)[i], Filter(s, f)[j])
  {
    if |s| > 0 {
      var tail := s[1..];
      assert forall i :: 0 <= i < |tail| ==> tail[i] == s[i+1];
      FilterPairwise(tail, f, rel);
      var rest := Filter(tail, f);
      var r := Filter(s, f);
      if f(s[0]) {
        assert r == [s[0]] + rest;
        forall i, j | 0 <= i < j < |r| ensures rel(r[i], r[j]) {
          if i == 0 {
            assert r[j] == rest[j-1] && rest[j-1] in tail;
            var m :| 0 <= m < |tail| && tail[m] == r[j];
            assert rel(s[0], s[m+1]);
          } else {
            assert r[i] == rest[i-1] && r[j] == rest[j-1];
          }
        }
      } else {
        assert r == rest;
      }
    }
  }

  /** One step of filtering. */
  lemma FilterCons<T>(s: seq<T>, f: T -> bool)
    requires |s| > 0
    ensures Filter(s, f) == if f(s[0]) then [s[0]] + Filter(s[1..], f) else Filter(s[1..], f)
  {
  }

  /** Every list is a subsequence of itself. */
  lemma {:induction false} SubsequenceReflexive<T>(s: seq<T>)
    ensures IsSubsequence(s, s)
  {
    if |s| > 0 {
      SubsequenceReflexive(s[1..]);
    }
  }
}
