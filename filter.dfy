/**
 The list filter the draw machine uses to derive its "available" lists:
 `list.filter(x => !excluded.includes(x))` keeps, in their original
 order, the elements of `list` that are not excluded.
 */
module Filter {

  /** The elements of `s` that are not in `excluded`, in the order of `s`. */
  function Without<T(==,!new)>(s: seq<T>, excluded: set<T>): (r: seq<T>)
    ensures forall x :: x in r <==> x in s && x !in excluded
    ensures |r| <= |s|
  {
    if s == [] then []
    else if s[0] in excluded then Without(s[1..], excluded)
    else [s[0]] + Without(s[1..], excluded)
  }

  /** Filtering distributes over concatenation: the order of the kept
      elements is the order they had in the input. */
  lemma {:induction false} WithoutAppend<T(!new)>(a: seq<T>, b: seq<T>, excluded: set<T>)
    ensures Without(a + b, excluded) == Without(a, excluded) + Without(b, excluded)
  {
    if a == [] {
      assert a + b == b;
    } else {
      assert (a + b)[0] == a[0];
      assert (a + b)[1..] == a[1..] + b;
      WithoutAppend(a[1..], b, excluded);
    }
  }

  /** Every kept element keeps all its occurrences; every excluded one loses all. */
  lemma {:induction false} WithoutCount<T(!new)>(s: seq<T>, excluded: set<T>, x: T)
    ensures multiset(Without(s, excluded))[x] == if x in excluded then 0 else multiset(s)[x]
  {
    if s != [] {
      assert s == [s[0]] + s[1..];
      assert multiset(s) == multiset{s[0]} + multiset(s[1..]);
      WithoutCount(s[1..], excluded, x);
    }
  }

  /** Filtering twice is filtering once by both exclusions. */
  lemma {:induction false} WithoutWithout<T(!new)>(s: seq<T>, a: set<T>, b: set<T>)
    ensures Without(Without(s, a), b) == Without(s, a + b)
  {
    if s != [] {
      WithoutWithout(s[1..], a, b);
      if s[0] !in a {
        assert ([s[0]] + Without(s[1..], a))[1..] == Without(s[1..], a);
      }
    }
  }

  /** A list none of whose elements is excluded passes unchanged. */
  lemma {:induction false} WithoutNone<T(!new)>(s: seq<T>, excluded: set<T>)
    requires forall i :: 0 <= i < |s| ==> s[i] !in excluded
    ensures Without(s, excluded) == s
  {
    if s != [] {
      WithoutNone(s[1..], excluded);
      assert s == [s[0]] + s[1..];
    }
  }
}
