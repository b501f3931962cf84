/** Stable insertion sort by a strict order, for the lists that are published sorted. */
module Sorting {

  predicate InOrder<T(!new)>(before: (T, T) -> bool, s: seq<T>) {
    forall i, j | 0 <= i < j < |s| :: !before(s[j], s[i])
  }

  /** An element joins an ordered list behind every one it does not precede, which is what makes the sort stable. */
  function Insert<T>(before: (T, T) -> bool, s: seq<T>, x: T): seq<T> {
    if s == [] then [x]
    else if before(x, s[|s| - 1]) then Insert(before, s[..|s| - 1], x) + [s[|s| - 1]]
    else s + [x]
  }

  function Sorted<T>(before: (T, T) -> bool, s: seq<T>): seq<T> {
    if s == [] then [] else Insert(before, Sorted(before, s[..|s| - 1]), s[|s| - 1])
  }

  /** A strict order on these elements in which "does not come after" is transitive; ties are allowed. */
  ghost predicate WeakOrder<T(!new)>(before: (T, T) -> bool, on: set<T>) {
    && (forall a, b | a in on && b in on && before(a, b) :: !before(b, a))
    && (forall a, b, c | a in on && b in on && c in on && !before(b, a) && !before(c, b) :: !before(c, a))
  }

  lemma {:induction false} InsertIsPermutation<T>(before: (T, T) -> bool, s: seq<T>, x: T)
    ensures multiset(Insert(before, s, x)) == multiset(s) + multiset{x}
  {
    if s != [] {
      assert s == s[..|s| - 1] + [s[|s| - 1]];
      InsertIsPermutation(before, s[..|s| - 1], x);
    }
  }

  lemma SameElements<T>(a: seq<T>, b: seq<T>)
    requires multiset(a) == multiset(b)
    ensures |a| == |b|
    ensures forall x :: x in a <==> x in b
  {
    assert |multiset(a)| == |multiset(b)|;
    forall x
      ensures x in a <==> x in b
    {
      assert x in multiset(a) <==> x in multiset(b);
    }
  }

  lemma {:induction false} SortedIsPermutation<T>(before: (T, T) -> bool, s: seq<T>)
    ensures multiset(Sorted(before, s)) == multiset(s)
    ensures |Sorted(before, s)| == |s|
    ensures forall x :: x in Sorted(before, s) <==> x in s
  {
    if s != [] {
      var front, last := s[..|s| - 1], s[|s| - 1];
      assert s == front + [last];
      SortedIsPermutation(before, front);
      InsertIsPermutation(before, Sorted(before, front), last);
    }
    SameElements(Sorted(before, s), s);
  }

  lemma NothingOvertakes<T>(before: (T, T) -> bool, front: seq<T>, x: T, last: T)
    requires !before(last, x) && forall y | y in front :: !before(last, y)
    ensures forall y | y in Insert(before, front, x) :: !before(last, y)
  {
    InsertIsPermutation(before, front, x);
    forall y | y in Insert(before, front, x)
      ensures !before(last, y)
    {
      assert y in multiset(Insert(before, front, x));
    }
  }

  lemma {:induction false} InsertKeepsOrder<T(!new)>(before: (T, T) -> bool, on: set<T>, s: seq<T>, x: T)
    requires WeakOrder(before, on) && x in on && forall y | y in s :: y in on
    requires InOrder(before, s)
    ensures InOrder(before, Insert(before, s, x))
  {
    if s != [] {
      var front, last := s[..|s| - 1], s[|s| - 1];
      assert last in s;
      if before(x, last) {
        InsertKeepsOrder(before, on, front, x);
        NothingOvertakes(before, front, x, last);
      } else {
        forall i | 0 <= i < |front|
          ensures !before(x, s[i])
        {
          assert s[i] in on && !before(last, s[i]);
        }
      }
    }
  }

  lemma {:induction false} SortedIsInOrder<T(!new)>(before: (T, T) -> bool, on: set<T>, s: seq<T>)
    requires WeakOrder(before, on) && forall y | y in s :: y in on
    ensures InOrder(before, Sorted(before, s))
  {
    if s != [] {
      var front, last := s[..|s| - 1], s[|s| - 1];
      assert last in s && forall y | y in front :: y in s;
      SortedIsInOrder(before, on, front);
      SortedIsPermutation(before, front);
      InsertKeepsOrder(before, on, Sorted(before, front), last);
    }
  }
}
