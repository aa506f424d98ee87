/** `Array.prototype.filter` and the facts about it that every removal in the application relies on. */
module Seqs {

  /** The elements of `s` that satisfy `keep`, in their original order. */
  function Filter<T(==)>(keep: T -> bool, s: seq<T>): (r: seq<T>)
    ensures |r| <= |s|
    ensures forall i :: 0 <= i < |r| ==> r[i] in s && keep(r[i])
    ensures forall i :: 0 <= i < |s| && keep(s[i]) ==> s[i] in r
  {
    if |s| == 0 then []
    else if keep(s[0]) then [s[0]] + Filter(keep, s[1..])
    else Filter(keep, s[1..])
  }

  /** `filter` keeps every element that passes as many times as it occurs, and nothing else:
      no element is kept more often than it occurs, and one that passes is kept exactly as often. */
  lemma {:induction false} FilterCounts<T>(keep: T -> bool, s: seq<T>)
    ensures multiset(Filter(keep, s)) <= multiset(s)
    ensures forall i :: 0 <= i < |s| && keep(s[i]) ==> multiset(Filter(keep, s))[s[i]] == multiset(s)[s[i]]
  {
    if |s| > 0 {
      var tail := s[1..];
      var rest := Filter(keep, tail);
      FilterCounts(keep, tail);
      assert s == [s[0]] + tail;
      forall i | 0 <= i < |s| && keep(s[i])
        ensures multiset(Filter(keep, s))[s[i]] == multiset(s)[s[i]]
      {
        if s[i] in tail {
          var k :| 0 <= k < |tail| && tail[k] == s[i];
          assert multiset(rest)[s[i]] == multiset(tail)[s[i]];
        } else {
          assert multiset(rest)[s[i]] == 0;
        }
      }
    }
  }

  /** `a` can be obtained from `b` by deleting elements: the relative order of what is kept is `b`'s. */
  predicate IsSubsequence<T(==)>(a: seq<T>, b: seq<T>)
    decreases |b|
  {
    if |a| == 0 then true
    else if |b| == 0 then false
    else (a[0] == b[0] && IsSubsequence(a[1..], b[1..])) || IsSubsequence(a, b[1..])
  }

  lemma {:induction false} FilterIsSubsequence<T>(keep: T -> bool, s: seq<T>)
    ensures IsSubsequence(Filter(keep, s), s)
  {
    if |s| > 0 {
      FilterIsSubsequence(keep, s[1..]);
      var rest := Filter(keep, s[1..]);
      if keep(s[0]) {
        assert ([s[0]] + rest)[1..] == rest;
      } else if |rest| > 0 {
        assert IsSubsequence(rest, s[1..]);
      }
    }
  }

  /** Filtering what is already filtered changes nothing. */
  lemma {:induction false} FilterIdempotent<T>(keep: T -> bool, s: seq<T>)
    ensures Filter(keep, Filter(keep, s)) == Filter(keep, s)
  {
    if |s| > 0 {
      FilterIdempotent(keep, s[1..]);
      var rest := Filter(keep, s[1..]);
      if keep(s[0]) {
        assert ([s[0]] + rest)[1..] == rest;
      }
    }
  }

  /** When every element passes, the filter returns its input. */
  lemma {:induction false} FilterKeepsAll<T>(keep: T -> bool, s: seq<T>)
    ensures (forall i :: 0 <= i < |s| ==> keep(s[i])) ==> Filter(keep, s) == s
  {
    if |s| > 0 && forall i :: 0 <= i < |s| ==> keep(s[i]) {
      FilterKeepsAll(keep, s[1..]);
      assert [s[0]] + s[1..] == s;
    }
  }
}
