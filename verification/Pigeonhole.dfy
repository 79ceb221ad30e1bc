/**
 * Counting arguments over sequences: what taking one element out does to a sequence, to its images and to its sum, and
 * that as many distinct elements as there are places fill them all. The validators compare charges with units or with
 * allocations by looking each one up and comparing the two lengths, and it is these arguments that make such a
 * comparison an equality of multisets.
 */
module Pigeonhole {

  predicate Distinct<T(==)>(s: seq<T>) {
    forall i, j :: 0 <= i < j < |s| ==> s[i] != s[j]
  }

  function Without<T>(s: seq<T>, i: nat): (r: seq<T>)
    requires i < |s|
    ensures |r| == |s| - 1
  {
    s[..i] + s[i + 1..]
  }

  lemma RemoveAt<T>(s: seq<T>, i: nat)
    requires i < |s|
    ensures multiset(s) == multiset(Without(s, i)) + multiset{s[i]}
    ensures forall x :: x in s && x != s[i] ==> x in Without(s, i)
  {
    assert s == s[..i] + ([s[i]] + s[i + 1..]);
    assert multiset(s) == multiset(s[..i]) + (multiset{s[i]} + multiset(s[i + 1..]));
  }

  lemma Cancel<T>(a: multiset<T>, b: multiset<T>, x: T)
    requires a + multiset{x} == b + multiset{x}
    ensures a == b
  {
    assert a == (a + multiset{x}) - multiset{x};
    assert b == (b + multiset{x}) - multiset{x};
  }

  /** The place of the first element of a in its permutation b, and what is left of both without it. */
  lemma MatchFirst<T>(a: seq<T>, b: seq<T>) returns (j: nat)
    requires a != [] && multiset(a) == multiset(b)
    ensures j < |b| && b[j] == a[0] && multiset(a[1..]) == multiset(Without(b, j))
  {
    assert a[0] in multiset(b);
    j :| 0 <= j < |b| && b[j] == a[0];
    RemoveAt(a, 0);
    RemoveAt(b, j);
    assert Without(a, 0) == a[1..];
    Cancel(multiset(a[1..]), multiset(Without(b, j)), a[0]);
  }

  /** As many distinct elements as there are places, each in some place, fill all places exactly once. */
  lemma {:induction false} DistinctFill<T>(a: seq<T>, b: seq<T>)
    requires Distinct(a) && |a| == |b| && forall i :: 0 <= i < |a| ==> a[i] in b
    ensures multiset(a) == multiset(b)
  {
    if a != [] {
      var j :| 0 <= j < |b| && b[j] == a[0];
      RemoveAt(b, j);
      DistinctFill(a[1..], Without(b, j));
      RemoveAt(a, 0);
      assert Without(a, 0) == a[1..];
    } else {
      assert a == b;
    }
  }

  function Sum(s: seq<int>): int {
    if s == [] then 0 else s[0] + Sum(s[1..])
  }

  lemma {:induction false} SumRemoveAt(s: seq<int>, i: nat)
    requires i < |s|
    ensures Sum(s) == s[i] + Sum(Without(s, i))
  {
    var r := Without(s, i);
    if i == 0 {
      assert r == s[1..];
    } else {
      SumRemoveAt(s[1..], i - 1);
      assert r[0] == s[0] && r[1..] == Without(s[1..], i - 1);
    }
  }

  lemma {:induction false} SumPermuted(a: seq<int>, b: seq<int>)
    requires multiset(a) == multiset(b)
    ensures Sum(a) == Sum(b)
    decreases |a|
  {
    if a == [] {
      assert |multiset(b)| == 0;
    } else {
      var j := MatchFirst(a, b);
      SumRemoveAt(b, j);
      SumPermuted(a[1..], Without(b, j));
    }
  }

  function Map<A, B>(f: A -> B, s: seq<A>): (r: seq<B>)
    ensures |r| == |s| && forall i :: 0 <= i < |s| ==> r[i] == f(s[i])
  {
    if s == [] then [] else [f(s[0])] + Map(f, s[1..])
  }

  lemma {:induction false} MapWithout<A, B>(f: A -> B, s: seq<A>, i: nat)
    requires i < |s|
    ensures Map(f, Without(s, i)) == Without(Map(f, s), i)
  {
  }

  lemma {:induction false} MapSplit<A, B>(f: A -> B, s: seq<A>, i: nat)
    requires i < |s|
    ensures multiset(Map(f, s)) == multiset(Map(f, Without(s, i))) + multiset{f(s[i])}
  {
    MapWithout(f, s, i);
    RemoveAt(Map(f, s), i);
  }

  /** The images of a permutation are a permutation. */
  lemma {:induction false} MapPermuted<A, B>(f: A -> B, a: seq<A>, b: seq<A>)
    requires multiset(a) == multiset(b)
    ensures multiset(Map(f, a)) == multiset(Map(f, b))
    decreases |a|
  {
    if a == [] {
      assert |multiset(b)| == 0;
    } else {
      var j := MatchFirst(a, b);
      MapPermuted(f, a[1..], Without(b, j));
      MapSplit(f, a, 0);
      MapSplit(f, b, j);
      assert Without(a, 0) == a[1..];
    }
  }

  lemma {:induction false} DistinctCount<T>(a: seq<T>, x: T)
    requires Distinct(a)
    ensures multiset(a)[x] <= 1
  {
    if a == [] {
    } else {
      DistinctCount(a[1..], x);
      RemoveAt(a, 0);
      assert Without(a, 0) == a[1..];
      if x == a[0] {
        assert x !in a[1..];
      }
    }
  }

  /** A permutation of distinct elements is distinct. */
  lemma DistinctPermuted<T>(a: seq<T>, b: seq<T>)
    requires Distinct(a) && multiset(a) == multiset(b)
    ensures Distinct(b)
  {
    forall i, j | 0 <= i < j < |b| ensures b[i] != b[j] {
      RemoveAt(b, j);
      assert Without(b, j)[i] == b[i];
      DistinctCount(a, b[j]);
    }
  }

  lemma SameMembers<T>(a: seq<T>, b: seq<T>)
    requires multiset(a) == multiset(b)
    ensures forall x :: x in a <==> x in b
  {
    forall x ensures x in a <==> x in b {
      assert x in a <==> x in multiset(a);
    }
  }

  lemma DistinctFillIff<T>(a: seq<T>, b: seq<T>)
    requires Distinct(a) && |a| == |b|
    ensures multiset(a) == multiset(b) <==> forall x :: x in a ==> x in b
  {
    if multiset(a) == multiset(b) {
      SameMembers(a, b);
    }
    if forall x :: x in a ==> x in b {
      DistinctFill(a, b);
    }
  }

  lemma HasMember<T>(s: seq<T>)
    ensures s == [] || exists x :: x in s
  {
    if s != [] {
      assert s[0] in s;
    }
  }
}
