// The library sort the Python code relies on: stable, by a strict weak order.
module Sorting {
  ghost predicate StrictWeakOrder<T(!new)>(before: (T, T) -> bool) {
    && (forall a, b :: before(a, b) ==> !before(b, a))
    && (forall a, b, c :: !before(a, b) && !before(b, c) ==> !before(a, c))
  }

  ghost predicate Sorted<T>(s: seq<T>, before: (T, T) -> bool) {
    forall i, j :: 0 <= i < j < |s| ==> !before(s[j], s[i])
  }

  function Insert<T>(x: T, s: seq<T>, before: (T, T) -> bool): seq<T> {
    if s == [] || !before(s[0], x) then [x] + s
    else [s[0]] + Insert(x, s[1..], before)
  }

  function Sort<T>(s: seq<T>, before: (T, T) -> bool): seq<T> {
    if s == [] then [] else Insert(s[0], Sort(s[1..], before), before)
  }

  lemma {:induction false} InsertAddsOne<T>(x: T, s: seq<T>, before: (T, T) -> bool)
    ensures multiset(Insert(x, s, before)) == multiset(s) + multiset{x}
  {
    if s != [] {
      assert s == [s[0]] + s[1..];
      if before(s[0], x) {
        InsertAddsOne(x, s[1..], before);
      }
    }
  }

  lemma {:induction false} InsertKeepsOrder<T(!new)>(x: T, s: seq<T>, before: (T, T) -> bool)
    requires StrictWeakOrder(before) && Sorted(s, before)
    ensures Sorted(Insert(x, s, before), before)
  {
    if s != [] && before(s[0], x) {
      InsertKeepsOrder(x, s[1..], before);
      InsertAddsOne(x, s[1..], before);
      var rest := Insert(x, s[1..], before);
      forall i | 0 <= i < |rest|
        ensures !before(rest[i], s[0])
      {
        assert rest[i] in multiset(rest);
        assert rest[i] in multiset(s[1..]) || rest[i] == x;
      }
    } else if s != [] {
      forall i | 0 <= i < |s|
        ensures !before(s[i], x)
      {
        assert !before(s[i], s[0]);
      }
    }
  }

  lemma {:induction false} SortIsSortedPermutation<T(!new)>(s: seq<T>, before: (T, T) -> bool)
    requires StrictWeakOrder(before)
    ensures Sorted(Sort(s, before), before)
    ensures multiset(Sort(s, before)) == multiset(s)
    ensures |Sort(s, before)| == |s|
  {
    if s != [] {
      assert s == [s[0]] + s[1..];
      SortIsSortedPermutation(s[1..], before);
      InsertKeepsOrder(s[0], Sort(s[1..], before), before);
      InsertAddsOne(s[0], Sort(s[1..], before), before);
    }
    assert |Sort(s, before)| == |multiset(Sort(s, before))|;
  }

  lemma SortKeepsMembers<T(!new)>(s: seq<T>, before: (T, T) -> bool)
    requires StrictWeakOrder(before)
    ensures forall x :: x in Sort(s, before) <==> x in s
  {
    SortIsSortedPermutation(s, before);
    forall x: T
      ensures x in Sort(s, before) <==> x in s
    {
      assert x in Sort(s, before) <==> x in multiset(Sort(s, before));
      assert x in s <==> x in multiset(s);
    }
  }

  // Distinct elements stay distinct.
  ghost predicate Distinct<T>(s: seq<T>) {
    forall i, j :: 0 <= i < j < |s| ==> s[i] != s[j]
  }

  lemma {:induction false} DistinctByMultiplicity<T>(s: seq<T>)
    ensures Distinct(s) <==> forall x :: x in s ==> multiset(s)[x] == 1
  {
    if s != [] {
      assert s == [s[0]] + s[1..];
      DistinctByMultiplicity(s[1..]);
      assert multiset(s) == multiset{s[0]} + multiset(s[1..]);
      if Distinct(s) {
        assert Distinct(s[1..]);
        assert s[0] !in s[1..];
      }
      if forall x :: x in s ==> multiset(s)[x] == 1 {
        assert multiset(s)[s[0]] == 1;
        assert s[0] !in multiset(s[1..]);
        assert s[0] !in s[1..];
        forall x | x in s[1..]
          ensures multiset(s[1..])[x] == 1
        {
          assert x in s;
        }
      }
    }
  }

  lemma SortKeepsDistinct<T(!new)>(s: seq<T>, before: (T, T) -> bool)
    requires StrictWeakOrder(before) && Distinct(s)
    ensures Distinct(Sort(s, before))
  {
    SortIsSortedPermutation(s, before);
    SortKeepsMembers(s, before);
    DistinctByMultiplicity(s);
    DistinctByMultiplicity(Sort(s, before));
  }
}
