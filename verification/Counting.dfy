/** Counting arguments about finite sets and sequences. */
module Counting {

  /** The numbers below `n`. */
  ghost function Below(n: nat): (s: set<nat>)
    ensures |s| == n
    ensures forall k: nat :: k in s <==> k < n
  {
    if n == 0 then {} else Below(n - 1) + {n - 1}
  }

  /** The elements of a sequence. */
  ghost function Elements<T(!new)>(s: seq<T>): (r: set<T>)
    ensures forall x :: x in r <==> x in s
    ensures (forall i, j :: 0 <= i < j < |s| ==> s[i] != s[j]) ==> |r| == |s|
  {
    if s == [] then {}
    else
      assert forall x :: x in s <==> x in s[..|s| - 1] || x == s[|s| - 1];
      Elements(s[..|s| - 1]) + {s[|s| - 1]}
  }

  lemma SubsetCount<T>(a: set<T>, b: set<T>)
    requires a <= b
    ensures |a| <= |b| && (|a| == |b| ==> a == b)
  {
    assert b == a + (b - a);
  }

  /** Distinct numbers below a bound: at most that many, and if that many then all of them. */
  lemma Pigeonhole(m: seq<nat>, n: nat)
    requires forall i :: 0 <= i < |m| ==> m[i] < n
    requires forall i, j :: 0 <= i < j < |m| ==> m[i] != m[j]
    ensures |m| <= n
    ensures |m| == n ==> forall k :: 0 <= k < n ==> k in m
  {
    SubsetCount(Elements(m), Below(n));
    if |m| == n {
      assert Elements(m) == Below(n);
      forall k | 0 <= k < n
        ensures k in m
      {
        assert k in Elements(m);
      }
    }
  }
}
