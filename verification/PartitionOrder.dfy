/** The order of published partitions: newest patch first, then region, queue and bracket. */
module PartitionOrder {
  import opened Options
  import Sorting

  /** `rest` stands for everything a partition carries besides the path elements that name it. */
  datatype Partition = Partition(patch: string, region: string, queue: int, bracket: string, rest: string)

  datatype Key = Key(patch: string, region: string, queue: int, bracket: string)

  function KeyOf(p: Partition): Key {
    Key(p.patch, p.region, p.queue, p.bracket)
  }

  /** How a patch text reads as major and minor, if it does. */
  type Reader = string -> Option<(int, int)>

  function ComparePatch(read: Reader, a: string, b: string): int {
    if read(a).None? || read(b).None? then 0
    else
      var (x, y) := (read(a).value, read(b).value);
      if x.0 != y.0 then (if x.0 < y.0 then -1 else 1)
      else if x.1 != y.1 then (if x.1 < y.1 then -1 else 1)
      else 0
  }

  /** Lexicographic order on strings, which Dafny's own `<` (proper prefix) is not. */
  predicate TextLess(a: string, b: string) {
    b != [] && (a == [] || a[0] < b[0] || (a[0] == b[0] && TextLess(a[1..], b[1..])))
  }

  lemma {:induction false} TextTotal(a: string, b: string)
    ensures a != b ==> TextLess(a, b) || TextLess(b, a)
  {
    if a != [] && b != [] {
      TextTotal(a[1..], b[1..]);
      assert a == [a[0]] + a[1..] && b == [b[0]] + b[1..];
    }
  }

  lemma {:induction false} TextAsymmetric(a: string, b: string)
    ensures TextLess(a, b) ==> !TextLess(b, a) && a != b
  {
    if a != [] && b != [] {
      TextAsymmetric(a[1..], b[1..]);
    }
  }

  lemma {:induction false} TextTransitive(a: string, b: string, c: string)
    ensures TextLess(a, b) && TextLess(b, c) ==> TextLess(a, c)
  {
    if a != [] && b != [] && c != [] {
      TextTransitive(a[1..], b[1..], c[1..]);
    }
  }

  predicate Before(read: Reader, a: Partition, b: Partition) {
    var c := ComparePatch(read, a.patch, b.patch);
    if c != 0 then c > 0
    else if a.region != b.region then TextLess(a.region, b.region)
    else if a.queue != b.queue then a.queue < b.queue
    else TextLess(a.bracket, b.bracket)
  }

  predicate Readable(read: Reader, p: Partition) {
    read(p.patch).Some?
  }

  predicate AllReadable(read: Reader, ps: seq<Partition>) {
    forall p | p in ps :: Readable(read, p)
  }

  /** Each patch has one spelling: readable, and not the other name of a listed patch (`16.9` and `16.09`). */
  predicate Canonical(read: Reader, ps: seq<Partition>) {
    AllReadable(read, ps)
    && forall a, b | a in ps && b in ps && read(a.patch) == read(b.patch) :: a.patch == b.patch
  }

  lemma BeforeAsymmetric(read: Reader, a: Partition, b: Partition)
    requires Before(read, a, b)
    ensures !Before(read, b, a)
  {
    TextAsymmetric(a.region, b.region);
    TextAsymmetric(a.bracket, b.bracket);
  }

  lemma NotAfterTransitive(read: Reader, a: Partition, b: Partition, c: Partition)
    requires Readable(read, a) && Readable(read, b) && Readable(read, c)
    requires !Before(read, b, a) && !Before(read, c, b)
    ensures !Before(read, c, a)
  {
    TextTotal(a.region, b.region);
    TextTotal(b.region, c.region);
    TextAsymmetric(a.region, c.region);
    TextTransitive(a.region, b.region, c.region);
    TextTotal(a.bracket, b.bracket);
    TextTotal(b.bracket, c.bracket);
    TextAsymmetric(a.bracket, c.bracket);
    TextTransitive(a.bracket, b.bracket, c.bracket);
  }

  predicate InOrder(read: Reader, ps: seq<Partition>) {
    forall i, j | 0 <= i < j < |ps| :: !Before(read, ps[j], ps[i])
  }

  function Order(read: Reader): (Partition, Partition) -> bool {
    (a, b) => Before(read, a, b)
  }

  lemma BeforeIsAWeakOrder(read: Reader, on: set<Partition>)
    requires forall p | p in on :: Readable(read, p)
    ensures Sorting.WeakOrder(Order(read), on)
  {
    forall a, b | a in on && b in on && Before(read, a, b)
      ensures !Before(read, b, a)
    {
      BeforeAsymmetric(read, a, b);
    }
    forall a, b, c | a in on && b in on && c in on && !Before(read, b, a) && !Before(read, c, b)
      ensures !Before(read, c, a)
    {
      NotAfterTransitive(read, a, b, c);
    }
  }

  /** Readable patches sort into the published order. */
  lemma SortedIsInOrder(read: Reader, ps: seq<Partition>)
    requires AllReadable(read, ps)
    ensures InOrder(read, Sorting.Sorted(Order(read), ps))
  {
    var on := set p | p in ps;
    BeforeIsAWeakOrder(read, on);
    Sorting.SortedIsInOrder(Order(read), on, ps);
  }

  predicate UniqueKeys(ps: seq<Partition>) {
    forall i, j | 0 <= i < j < |ps| :: KeyOf(ps[i]) != KeyOf(ps[j])
  }

  lemma KeyDecides(read: Reader, a: Partition, b: Partition)
    requires Readable(read, a) && Readable(read, b) && (read(a.patch) == read(b.patch) ==> a.patch == b.patch)
    requires !Before(read, a, b) && !Before(read, b, a)
    ensures KeyOf(a) == KeyOf(b)
  {
    TextTotal(a.region, b.region);
    TextTotal(a.bracket, b.bracket);
  }

  predicate SameHoldings(a: seq<Partition>, b: seq<Partition>) {
    (forall p | p in a :: p in b) && (forall p | p in b :: p in a)
  }

  /** An ordered list of canonical partitions with unique keys is fixed by what it holds. */
  lemma {:induction false} OrderIsDetermined(read: Reader, a: seq<Partition>, b: seq<Partition>)
    requires Canonical(read, a) && InOrder(read, a) && InOrder(read, b) && UniqueKeys(a) && UniqueKeys(b)
    requires SameHoldings(a, b)
    ensures a == b
    decreases |a|
  {
    if a == [] {
      assert forall i | 0 <= i < |b| :: b[i] in b;
    } else {
      assert a[0] in b;
      FirstsAgree(read, a, b);
      TailsHoldTheSame(a, b);
      CanonicalTail(read, a);
      OrderIsDetermined(read, a[1..], b[1..]);
      assert a == [a[0]] + a[1..] && b == [b[0]] + b[1..];
    }
  }

  lemma CanonicalTail(read: Reader, ps: seq<Partition>)
    requires ps != [] && Canonical(read, ps)
    ensures Canonical(read, ps[1..])
  {
    assert forall p | p in ps[1..] :: p in ps;
  }

  lemma TailsHoldTheSame(a: seq<Partition>, b: seq<Partition>)
    requires a != [] && b != [] && a[0] == b[0] && UniqueKeys(a) && UniqueKeys(b) && SameHoldings(a, b)
    ensures SameHoldings(a[1..], b[1..])
  {
    forall p | p in a[1..]
      ensures p in b[1..]
    {
      TailHolds(a, p);
      TailHolds(b, p);
    }
    forall p | p in b[1..]
      ensures p in a[1..]
    {
      TailHolds(a, p);
      TailHolds(b, p);
    }
  }

  lemma TailHolds(ps: seq<Partition>, p: Partition)
    requires ps != [] && UniqueKeys(ps)
    ensures p in ps[1..] <==> p in ps && p != ps[0]
  {
    if p in ps[1..] {
      var i :| 0 <= i < |ps[1..]| && ps[1..][i] == p;
      assert KeyOf(ps[0]) != KeyOf(ps[i + 1]);
    }
  }

  lemma FirstsAgree(read: Reader, a: seq<Partition>, b: seq<Partition>)
    requires a != [] && b != []
    requires Canonical(read, a) && InOrder(read, a) && InOrder(read, b) && UniqueKeys(a)
    requires SameHoldings(a, b)
    ensures a[0] == b[0]
  {
    assert a[0] in b && b[0] in a;
    var i :| 0 <= i < |b| && b[i] == a[0];
    var j :| 0 <= j < |a| && a[j] == b[0];
    assert j > 0 ==> KeyOf(a[0]) != KeyOf(a[j]);
    if i > 0 && j > 0 {
      assert !Before(read, b[i], b[0]) && !Before(read, a[j], a[0]);
      KeyDecides(read, a[0], b[0]);
    }
  }
}
