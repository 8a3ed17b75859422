/** Sequences without repetition. */
module Sequences {

  ghost predicate EachOnce<T>(s: seq<T>) {
    forall i, j | 0 <= i < j < |s| :: s[i] != s[j]
  }

  lemma EachOnceConcat<T>(a: seq<T>, b: seq<T>)
    requires EachOnce(a) && EachOnce(b) && forall x | x in b :: x !in a
    ensures EachOnce(a + b)
  {
    forall i, j | 0 <= i < j < |a + b|
      ensures (a + b)[i] != (a + b)[j]
    {
      if i < |a| <= j {
        assert b[j - |a|] in b;
      }
    }
  }

  lemma {:induction false} CountedOnce<T>(s: seq<T>, x: T)
    requires EachOnce(s)
    ensures multiset(s)[x] <= 1
  {
    if s != [] {
      var front := s[..|s| - 1];
      CountedOnce(front, x);
      assert s == front + [s[|s| - 1]];
      if s[|s| - 1] == x {
        assert x !in front;
      }
    }
  }

  lemma TwoPlaces<T>(s: seq<T>, i: nat, j: nat)
    requires i < j < |s| && s[i] == s[j]
    ensures multiset(s)[s[i]] >= 2
  {
    assert s == s[..i] + [s[i]] + s[i + 1..j] + [s[j]] + s[j + 1..];
  }

  /** A rearrangement repeats nothing either. */
  lemma RearrangedOnce<T>(a: seq<T>, b: seq<T>)
    requires EachOnce(a) && multiset(a) == multiset(b)
    ensures EachOnce(b)
  {
    forall i, j | 0 <= i < j < |b|
      ensures b[i] != b[j]
    {
      CountedOnce(a, b[i]);
      if b[i] == b[j] {
        TwoPlaces(b, i, j);
      }
    }
  }

  /** Two sequences without repetition that hold the same are rearrangements of each other. */
  lemma SameOnce<T>(a: seq<T>, b: seq<T>)
    requires EachOnce(a) && EachOnce(b) && forall x :: x in a <==> x in b
    ensures multiset(a) == multiset(b)
  {
    forall x | x in multiset(a) || x in multiset(b)
      ensures multiset(a)[x] == multiset(b)[x]
    {
      CountedOnce(a, x);
      CountedOnce(b, x);
      assert x in a <==> x in multiset(a);
      assert x in b <==> x in multiset(b);
    }
  }
}
