/** Sequences without duplicates, rearrangements, and sums that ignore order. */
module Permutations {

  predicate NoDuplicates<T(==)>(s: seq<T>) {
    forall i, j | 0 <= i < j < |s| :: s[i] != s[j]
  }

  function Members<T>(s: seq<T>): set<T> {
    set x | x in s
  }

  lemma {:induction false} MembersBound<T>(s: seq<T>)
    ensures |Members(s)| <= |s|
    ensures |Members(s)| == |s| <==> NoDuplicates(s)
  {
    if s == [] {
      assert Members(s) == {};
    } else {
      var rest := s[1..];
      MembersBound(rest);
      assert Members(s) == {s[0]} + Members(rest);
      if s[0] in rest {
        assert Members(s) == Members(rest);
        var j :| 0 <= j < |rest| && rest[j] == s[0];
        assert s[0] == s[j + 1];
      } else {
        assert |Members(s)| == 1 + |Members(rest)|;
        if NoDuplicates(rest) {
          forall i, j | 0 <= i < j < |s| ensures s[i] != s[j] {
            assert s[j] == rest[j - 1];
            if i > 0 { assert s[i] == rest[i - 1]; }
          }
        }
        if NoDuplicates(s) {
          forall i, j | 0 <= i < j < |rest| ensures rest[i] != rest[j] { assert s[i + 1] != s[j + 1]; }
        }
      }
    }
  }

  lemma {:induction false} CountOnce<T>(s: seq<T>, x: T)
    requires NoDuplicates(s)
    ensures multiset(s)[x] == if x in s then 1 else 0
  {
    if s != [] {
      var rest := s[1..];
      assert s == [s[0]] + rest;
      assert forall i, j | 0 <= i < j < |rest| :: rest[i] == s[i + 1] && rest[j] == s[j + 1];
      CountOnce(rest, x);
      forall j | 0 <= j < |rest| ensures rest[j] != s[0] { assert rest[j] == s[j + 1]; }
    }
  }

  /** Pigeonhole: a list of the same length and with the same members as a list without
      duplicates is a rearrangement of it. */
  lemma Pigeonhole<T>(s: seq<T>, t: seq<T>)
    requires NoDuplicates(t) && |s| == |t| && Members(s) == Members(t)
    ensures NoDuplicates(s) && multiset(s) == multiset(t)
  {
    MembersBound(s);
    MembersBound(t);
    forall x ensures multiset(s)[x] == multiset(t)[x] {
      CountOnce(s, x);
      CountOnce(t, x);
      assert x in s <==> x in Members(s);
      assert x in t <==> x in Members(t);
    }
  }

  /** Distinct members of a list of the same length exhaust it. */
  lemma Exhausts<T>(s: seq<T>, t: seq<T>)
    requires NoDuplicates(s) && |s| == |t| && forall x | x in s :: x in t
    ensures NoDuplicates(t) && multiset(s) == multiset(t)
  {
    MembersBound(s);
    MembersBound(t);
    assert Members(s) <= Members(t);
    SubsetSize(Members(s), Members(t));
    Pigeonhole(t, s);
  }

  lemma {:induction false} SubsetSize<T>(a: set<T>, b: set<T>)
    requires a <= b
    ensures |a| <= |b|
    ensures |a| == |b| ==> a == b
  {
    var rest := b - a;
    assert b == a + rest;
  }

  function SumOf<T>(f: T -> int, s: seq<T>): int {
    if s == [] then 0 else f(s[0]) + SumOf(f, s[1..])
  }

  lemma {:induction false} SumSplit<T>(f: T -> int, s: seq<T>, k: nat)
    requires k < |s|
    ensures SumOf(f, s) == f(s[k]) + SumOf(f, s[..k] + s[k + 1..])
  {
    if k > 0 {
      var rest := s[1..];
      SumSplit(f, rest, k - 1);
      var less := s[..k] + s[k + 1..];
      assert less[0] == s[0] && less[1..] == rest[..k - 1] + rest[k..];
    } else {
      assert s[..0] + s[1..] == s[1..];
    }
  }

  /** A sum over a list depends only on which elements it holds, and how often. */
  lemma {:induction false} SumRearranged<T>(f: T -> int, s: seq<T>, t: seq<T>)
    requires multiset(s) == multiset(t)
    ensures SumOf(f, s) == SumOf(f, t)
    decreases |s|
  {
    if s == [] {
      assert multiset(t) == multiset([]);
      assert |t| == |multiset(t)| == 0;
    } else {
      assert s[0] in multiset(t);
      var k :| 0 <= k < |t| && t[k] == s[0];
      var rest := t[..k] + t[k + 1..];
      assert s == [s[0]] + s[1..];
      assert t == t[..k] + [t[k]] + t[k + 1..];
      assert multiset(rest) == multiset(t) - multiset{t[k]};
      assert multiset(s[1..]) == multiset(s) - multiset{s[0]};
      SumSplit(f, t, k);
      SumRearranged(f, s[1..], rest);
    }
  }
}
