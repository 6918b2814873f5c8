// Facts about sequences without repetition, shared by the link lists, the
// spot stack and the session pool.
module Sequences {

  ghost predicate Distinct<X>(s: seq<X>) {
    forall i, j :: 0 <= i < j < |s| ==> s[i] != s[j]
  }

  lemma DistinctAppend<X>(s: seq<X>, x: X)
    ensures Distinct(s + [x]) <==> Distinct(s) && x !in s
    ensures forall y :: y in s + [x] <==> y in s || y == x
  {
    var t := s + [x];
    assert t[|s|] == x;
    assert forall i :: 0 <= i < |s| ==> s[i] == t[i];
  }

  /** The elements of a sequence. */
  ghost function Elems<X>(s: seq<X>): set<X> {
    set x | x in s
  }

  /** `s` with its first occurrence of `x` deleted; `s` itself when there is none. */
  ghost function Without<X>(s: seq<X>, x: X): seq<X> {
    if s == [] then [] else if s[0] == x then s[1..] else [s[0]] + Without(s[1..], x)
  }

  /** On a sequence without repetition `Without` deletes the position of `x`. */
  lemma {:induction false} WithoutAt<X>(s: seq<X>, k: nat)
    requires Distinct(s) && k < |s|
    ensures Without(s, s[k]) == s[..k] + s[k + 1..]
  {
    if k > 0 {
      WithoutAt(s[1..], k - 1);
      assert s[..k] == [s[0]] + s[1..][..k - 1];
      assert s[k + 1..] == s[1..][k..];
    }
  }

  lemma {:induction false} WithoutAbsent<X>(s: seq<X>, x: X)
    requires x !in s
    ensures Without(s, x) == s
  {
    if s != [] {
      WithoutAbsent(s[1..], x);
    }
  }

  lemma DistinctWithout<X>(s: seq<X>, x: X)
    requires Distinct(s) && x in s
    ensures Distinct(Without(s, x))
    ensures |Without(s, x)| == |s| - 1
    ensures forall y :: y in Without(s, x) <==> y in s && y != x
  {
    var k :| 0 <= k < |s| && s[k] == x;
    WithoutAt(s, k);
    assert Without(s, x) == s[..k] + s[k + 1..];
    forall y | y in s && y != x
      ensures y in Without(s, x)
    {
      var i :| 0 <= i < |s| && s[i] == y;
      if i < k {
        assert Without(s, x)[i] == y;
      } else {
        assert Without(s, x)[i - 1] == y;
      }
    }
  }

  /** Deletes `x` and says where every other element went. */
  lemma Deletion<X>(s: seq<X>, x: X) returns (k: nat, t: seq<X>)
    requires Distinct(s) && x in s
    ensures k < |s| && s[k] == x && t == Without(s, x)
    ensures |t| == |s| - 1 && Distinct(t)
    ensures forall y :: y in t <==> y in s && y != x
    ensures forall i {:trigger t[i]} :: 0 <= i < |t| ==> t[i] == s[if i < k then i else i + 1]
  {
    k :| 0 <= k < |s| && s[k] == x;
    WithoutAt(s, k);
    DistinctWithout(s, x);
    t := s[..k] + s[k + 1..];
  }

  lemma {:induction false} CardSubset<X>(a: set<X>, b: set<X>)
    requires a <= b
    ensures |a| <= |b|
  {
    if x :| x in a {
      CardSubset(a - {x}, b - {x});
    }
  }

  lemma SubsetFull<X>(a: set<X>, b: set<X>)
    requires a <= b && |a| == |b|
    ensures a == b
  {
    assert b == a + (b - a);
  }

  lemma {:induction false} DistinctCard<X>(s: seq<X>)
    requires Distinct(s)
    ensures |Elems(s)| == |s|
  {
    if s != [] {
      DistinctCard(s[1..]);
      assert Elems(s) == {s[0]} + Elems(s[1..]);
      assert s[0] !in s[1..];
    }
  }

  /** Two disjoint sets inside a set of their total size cover it. */
  lemma Covers<X>(a: set<X>, b: set<X>, whole: set<X>, x: X)
    requires a !! b && a <= whole && b <= whole && |a| + |b| == |whole| && x in whole
    ensures x in a || x in b
  {
    assert |a + b| == |a| + |b|;
    SubsetFull(a + b, whole);
  }

  lemma {:induction false} FullSet(s: set<nat>, n: nat)
    requires forall i: nat :: i in s <==> i < n
    ensures |s| == n
  {
    if n == 0 {
      assert s == {};
    } else {
      FullSet(s - {n - 1}, n - 1);
    }
  }

  /** The numbers below `n`. */
  ghost function Below(n: nat): (s: set<int>)
    ensures |s| == n && forall i :: i in s <==> 0 <= i < n
  {
    if n == 0 then {} else Below(n - 1) + {n - 1}
  }
}
