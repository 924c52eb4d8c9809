/** Small types shared by every component of the model. */
module Basics {

  datatype Option<+T> = None | Some(value: T)

  /** A timestamp, or a reading of a monotonic clock, in seconds. */
  type Time = real

  /** No element of the sequence appears twice. */
  ghost predicate NoDuplicates<T>(s: seq<T>) {
    forall i, j :: 0 <= i < j < |s| ==> s[i] != s[j]
  }

  lemma ConcatKeepsDistinct<T>(s: seq<T>, t: seq<T>)
    requires NoDuplicates(s) && NoDuplicates(t)
    requires forall x :: x in s ==> x !in t
    ensures NoDuplicates(s + t)
  {
    forall i, j | 0 <= i < j < |s + t|
      ensures (s + t)[i] != (s + t)[j]
    {
      if i < |s| <= j {
        assert s[i] in s && t[j - |s|] in t;
      }
    }
  }

  /** The numbers below n. */
  ghost function Range(n: nat): (r: set<nat>)
    ensures |r| == n
    ensures forall x: nat :: x in r <==> x < n
  {
    if n == 0 then {} else Range(n - 1) + {n - 1}
  }

  /** Distinct numbers below n: there are at most n of them. */
  lemma DistinctBound(s: seq<nat>, n: nat)
    requires NoDuplicates(s)
    requires forall x :: x in s ==> x < n
    ensures |s| <= n
  {
    DistinctSize(s);
    SubsetSize((set x | x in s), Range(n));
  }

  lemma {:induction false} DistinctSize<T>(s: seq<T>)
    requires NoDuplicates(s)
    ensures |set x | x in s| == |s|
  {
    if s != [] {
      var front := s[..|s| - 1];
      DistinctSize(front);
      assert forall x :: x in s <==> x in front || x == s[|s| - 1];
      assert (set x | x in s) == (set x | x in front) + {s[|s| - 1]};
    }
  }

  lemma {:induction false} SubsetSize<T>(a: set<T>, b: set<T>)
    requires a <= b
    ensures |a| <= |b|
    ensures |a| == |b| ==> a == b
  {
    assert b == a + (b - a);
    assert |b| == |a| + |b - a|;
  }
}
