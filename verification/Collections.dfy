/** Small facts about collections that several modules lean on. */
module Collections {

  /** Concatenation is associative, which the solver has to be told. */
  lemma Regroup<T>(a: seq<T>, b: seq<T>, c: seq<T>)
    ensures a + b + c == a + (b + c)
  {
  }

  /** One member of a non-empty set, whichever. */
  method AnyMember<T(==)>(s: set<T>) returns (x: T)
    requires s != {}
    ensures x in s
  {
    SomeMember(s);
    x :| x in s;
  }

  lemma SomeMember<T>(s: set<T>)
    ensures s == {} || exists x :: x in s
  {
    if forall x :: x !in s {
      assert s == {};
    }
  }

  lemma HeldTwice<T>(s: seq<T>, i: nat, j: nat)
    requires i < j < |s| && s[i] == s[j]
    ensures multiset(s)[s[i]] >= 2
  {
    assert s == s[..j] + [s[j]] + s[j + 1..];
    assert s[..j][i] == s[i];
    assert s[i] in multiset(s[..j]);
  }
}
