/** Stable insertion sort, standing for the sort of the Rust standard library. */
module Sorting {
  import opened Sequences

  ghost predicate TotalPreorder<T(!new)>(leq: (T, T) -> bool) {
    && (forall a, b :: leq(a, b) || leq(b, a))
    && (forall a, b, c :: leq(a, b) && leq(b, c) ==> leq(a, c))
  }

  ghost predicate Reflexive<T(!new)>(leq: (T, T) -> bool) {
    forall a :: leq(a, a)
  }

  ghost predicate Antisymmetric<T(!new)>(leq: (T, T) -> bool) {
    forall a, b :: leq(a, b) && leq(b, a) ==> a == b
  }

  ghost predicate SortedBy<T>(leq: (T, T) -> bool, s: seq<T>) {
    forall i, j :: 0 <= i < j < |s| ==> leq(s[i], s[j])
  }

  /** Puts x behind every entry that is not greater, so that equal entries keep their order. */
  function Insert<T>(leq: (T, T) -> bool, s: seq<T>, x: T): seq<T> {
    if s == [] || leq(Last(s), x) then s + [x]
    else Insert(leq, s[..|s| - 1], x) + [Last(s)]
  }

  function Sort<T>(leq: (T, T) -> bool, s: seq<T>): seq<T> {
    if s == [] then [] else Insert(leq, Sort(leq, s[..|s| - 1]), Last(s))
  }

  lemma {:induction false} InsertAdds<T>(leq: (T, T) -> bool, s: seq<T>, x: T)
    ensures multiset(Insert(leq, s, x)) == multiset(s) + multiset{x}
  {
    if !(s == [] || leq(Last(s), x)) {
      var front := s[..|s| - 1];
      InsertAdds(leq, front, x);
      assert s == front + [Last(s)];
    }
  }

  lemma {:induction false} InsertKeepsOrder<T(!new)>(leq: (T, T) -> bool, s: seq<T>, x: T)
    requires TotalPreorder(leq) && SortedBy(leq, s)
    ensures SortedBy(leq, Insert(leq, s, x))
  {
    if s == [] {
    } else if leq(Last(s), x) {
      forall i | 0 <= i < |s| ensures leq(s[i], x) {
        assert leq(s[i], Last(s)) || i == |s| - 1;
      }
    } else {
      var front := s[..|s| - 1];
      InsertKeepsOrder(leq, front, x);
      InsertAdds(leq, front, x);
      var t := Insert(leq, front, x);
      forall y | y in t ensures leq(y, Last(s)) {
        assert y in multiset(t);
        assert y == x || y in front;
      }
    }
  }

  lemma {:induction false} SortPermutes<T>(leq: (T, T) -> bool, s: seq<T>)
    ensures multiset(Sort(leq, s)) == multiset(s)
    ensures |Sort(leq, s)| == |s|
  {
    if s != [] {
      var front := s[..|s| - 1];
      SortPermutes(leq, front);
      InsertAdds(leq, Sort(leq, front), Last(s));
      assert s == front + [Last(s)];
    }
    assert |Sort(leq, s)| == |multiset(Sort(leq, s))|;
  }

  lemma {:induction false} SortOrders<T(!new)>(leq: (T, T) -> bool, s: seq<T>)
    requires TotalPreorder(leq)
    ensures SortedBy(leq, Sort(leq, s))
  {
    if s != [] {
      SortOrders(leq, s[..|s| - 1]);
      InsertKeepsOrder(leq, Sort(leq, s[..|s| - 1]), Last(s));
    }
  }

  lemma SortKeepsEntries<T>(leq: (T, T) -> bool, s: seq<T>)
    ensures forall x :: x in Sort(leq, s) <==> x in s
  {
    SortPermutes(leq, s);
    assert forall x :: x in Sort(leq, s) <==> x in multiset(Sort(leq, s));
  }

  /** Every entry of the sorted sequence is one of the sequence. */
  lemma SortedEntry<T>(leq: (T, T) -> bool, s: seq<T>, k: nat) returns (j: nat)
    requires k < |Sort(leq, s)|
    ensures j < |s| && s[j] == Sort(leq, s)[k]
  {
    SortPermutes(leq, s);
    assert Sort(leq, s)[k] in multiset(Sort(leq, s));
    assert Sort(leq, s)[k] in s;
    j :| 0 <= j < |s| && s[j] == Sort(leq, s)[k];
  }

  lemma GreatestIsLast<T(!new)>(leq: (T, T) -> bool, a: seq<T>, b: seq<T>)
    requires Reflexive(leq) && SortedBy(leq, a) && multiset(a) == multiset(b) && a != []
    ensures b != [] && leq(Last(b), Last(a))
  {
    assert Last(a) in multiset(a);
    assert b != [];
    assert Last(b) in multiset(b);
    assert Last(b) in a;
  }

  lemma FrontMultiset<T>(a: seq<T>)
    requires a != []
    ensures multiset(a[..|a| - 1]) == multiset(a) - multiset{Last(a)}
  {
    assert a == a[..|a| - 1] + [Last(a)];
  }

  /** Entries that are not ordered strictly are the same entry. */
  ghost predicate AntisymmetricOn<T>(leq: (T, T) -> bool, s: seq<T>) {
    forall a, b :: a in s && b in s && leq(a, b) && leq(b, a) ==> a == b
  }

  lemma LastsAgree<T(!new)>(leq: (T, T) -> bool, s: seq<T>, a: seq<T>, b: seq<T>)
    requires Reflexive(leq) && AntisymmetricOn(leq, s) && a != []
    requires forall i :: 0 <= i < |a| ==> a[i] in s
    requires SortedBy(leq, a) && SortedBy(leq, b) && multiset(a) == multiset(b)
    ensures b != [] && Last(a) == Last(b)
  {
    GreatestIsLast(leq, a, b);
    GreatestIsLast(leq, b, a);
    assert Last(b) in multiset(a);
    assert Last(b) in a;
  }

  /** Two sorted permutations of each other are the same sequence. */
  lemma {:induction false} SortedIsUniqueOn<T(!new)>(leq: (T, T) -> bool, s: seq<T>, a: seq<T>, b: seq<T>)
    requires Reflexive(leq) && AntisymmetricOn(leq, s)
    requires forall i :: 0 <= i < |a| ==> a[i] in s
    requires SortedBy(leq, a) && SortedBy(leq, b) && multiset(a) == multiset(b)
    ensures a == b
    decreases |a|
  {
    if a == [] {
      assert |multiset(b)| == 0;
    } else {
      LastsAgree(leq, s, a, b);
      var p, q := a[..|a| - 1], b[..|b| - 1];
      assert p == q by {
        FrontMultiset(a);
        FrontMultiset(b);
        SortedIsUniqueOn(leq, s, p, q);
      }
      assert a == p + [Last(a)] && b == q + [Last(b)];
    }
  }

  lemma RemoveAtMultiset<T>(s: seq<T>, i: nat)
    requires i < |s|
    ensures multiset(s) == multiset{s[i]} + multiset(RemoveAt(s, i))
  {
    assert s == s[..i] + [s[i]] + s[i + 1..];
  }

  lemma SortedCons<T(!new)>(leq: (T, T) -> bool, x: T, s: seq<T>)
    requires SortedBy(leq, s) && forall i :: 0 <= i < |s| ==> leq(x, s[i])
    ensures SortedBy(leq, [x] + s)
  {
  }

  /** A least entry in front of the rest, sorted, is a sorted arrangement of the whole. */
  lemma LeastFirstIsSorted<T(!new)>(leq: (T, T) -> bool, s: seq<T>, k: nat)
    requires TotalPreorder(leq) && k < |s| && forall i :: 0 <= i < |s| ==> leq(s[k], s[i])
    ensures var t := [s[k]] + Sort(leq, RemoveAt(s, k)); SortedBy(leq, t) && multiset(t) == multiset(s)
  {
    var rest := RemoveAt(s, k);
    var tail := Sort(leq, rest);
    SortOrders(leq, rest);
    SortPermutes(leq, rest);
    RemoveAtMultiset(s, k);
    SortKeepsEntries(leq, rest);
    forall i | 0 <= i < |tail| ensures leq(s[k], tail[i]) {
      assert tail[i] in rest;
    }
    SortedCons(leq, s[k], tail);
  }

  /** Taking a least entry out and sorting the rest is sorting the whole. */
  lemma LeastComesFirst<T(!new)>(leq: (T, T) -> bool, s: seq<T>, k: nat)
    requires TotalPreorder(leq) && AntisymmetricOn(leq, s) && k < |s|
    requires forall i :: 0 <= i < |s| ==> leq(s[k], s[i])
    ensures Sort(leq, s) == [s[k]] + Sort(leq, RemoveAt(s, k))
  {
    LeastFirstIsSorted(leq, s, k);
    SortOrders(leq, s);
    SortPermutes(leq, s);
    var sorted := Sort(leq, s);
    forall i | 0 <= i < |sorted| ensures sorted[i] in s {
      SortKeepsEntries(leq, s);
    }
    SortedIsUniqueOn(leq, s, sorted, [s[k]] + Sort(leq, RemoveAt(s, k)));
  }

  lemma {:induction false} DistinctFromMultiset<T>(s: seq<T>)
    ensures Distinct(s) <==> forall x :: x in multiset(s) ==> multiset(s)[x] == 1
  {
    if s != [] {
      var front := s[..|s| - 1];
      assert s == front + [Last(s)];
      DistinctFromMultiset(front);
      if Distinct(s) {
        assert Last(s) !in multiset(front);
      } else if Distinct(front) {
        assert Last(s) in front;
        assert multiset(s)[Last(s)] > 1;
      } else {
        var x :| x in multiset(front) && multiset(front)[x] != 1;
        assert multiset(s)[x] > 1;
      }
    }
  }

  lemma SortKeepsDistinct<T>(leq: (T, T) -> bool, s: seq<T>)
    requires Distinct(s)
    ensures Distinct(Sort(leq, s))
  {
    SortPermutes(leq, s);
    DistinctFromMultiset(s);
    DistinctFromMultiset(Sort(leq, s));
  }

  /** Sorting is canonical: it does not depend on the order of the input. */
  lemma SortIsCanonical<T(!new)>(leq: (T, T) -> bool, a: seq<T>, b: seq<T>)
    requires TotalPreorder(leq) && Antisymmetric(leq) && multiset(a) == multiset(b)
    ensures Sort(leq, a) == Sort(leq, b)
  {
    SortPermutes(leq, a);
    SortPermutes(leq, b);
    SortOrders(leq, a);
    SortOrders(leq, b);
    SortedIsUniqueOn(leq, Sort(leq, a), Sort(leq, a), Sort(leq, b));
  }

  // ---------------------------------------------------------------- stability

  /** The entries that satisfy keep, in order. */
  function Keeping<T>(keep: T -> bool, s: seq<T>): seq<T> {
    if s == [] then [] else Keeping(keep, s[..|s| - 1]) + if keep(Last(s)) then [Last(s)] else []
  }

  lemma {:induction false} InsertIsStable<T>(leq: (T, T) -> bool, keep: T -> bool, s: seq<T>, x: T)
    requires forall i :: 0 <= i < |s| && keep(s[i]) && keep(x) ==> leq(s[i], x)
    ensures Keeping(keep, Insert(leq, s, x)) == Keeping(keep, s) + if keep(x) then [x] else []
  {
    var t := Insert(leq, s, x);
    if s == [] || leq(Last(s), x) {
      assert t[..|t| - 1] == s;
    } else {
      var front := s[..|s| - 1];
      InsertIsStable(leq, keep, front, x);
      assert t[..|t| - 1] == Insert(leq, front, x) && Last(t) == Last(s);
      if keep(Last(s)) {
        assert !keep(x);
        assert Keeping(keep, front) + [] == Keeping(keep, front);
      } else {
        assert Keeping(keep, t) == Keeping(keep, Insert(leq, front, x)) + [];
      }
    }
  }

  /** None of the entries that satisfy keep comes strictly before another. */
  ghost predicate Alike<T>(leq: (T, T) -> bool, keep: T -> bool, s: seq<T>) {
    forall a, b :: a in s && b in s && keep(a) && keep(b) ==> leq(a, b)
  }

  lemma SortedFrontNotAfter<T>(leq: (T, T) -> bool, keep: T -> bool, s: seq<T>, i: nat)
    requires Alike(leq, keep, s) && s != [] && i < |Sort(leq, s[..|s| - 1])|
    ensures var y := Sort(leq, s[..|s| - 1])[i]; keep(y) && keep(Last(s)) ==> leq(y, Last(s))
  {
    var front := s[..|s| - 1];
    var sorted := Sort(leq, front);
    SortPermutes(leq, front);
    assert sorted[i] in multiset(sorted);
    assert sorted[i] in front;
    assert s == front + [Last(s)];
  }

  /** Such entries are left in their order. */
  lemma {:induction false} SortIsStable<T>(leq: (T, T) -> bool, keep: T -> bool, s: seq<T>)
    requires Alike(leq, keep, s)
    ensures Keeping(keep, Sort(leq, s)) == Keeping(keep, s)
  {
    if s != [] {
      var front := s[..|s| - 1];
      assert s == front + [Last(s)];
      SortIsStable(leq, keep, front);
      forall i | 0 <= i < |Sort(leq, front)| && keep(Sort(leq, front)[i]) && keep(Last(s))
        ensures leq(Sort(leq, front)[i], Last(s))
      {
        SortedFrontNotAfter(leq, keep, s, i);
      }
      InsertIsStable(leq, keep, Sort(leq, front), Last(s));
    }
  }

  // ---------------------------------------------------------------- removing repeats

  /** Drops every entry equal to the one before it. */
  function Dedup<T(==)>(s: seq<T>): seq<T> {
    if |s| <= 1 then s
    else
      var front := Dedup(s[..|s| - 1]);
      if s[|s| - 2] == Last(s) then front else front + [Last(s)]
  }

  ghost predicate NoAdjacentRepeat<T>(s: seq<T>) {
    forall i :: 0 <= i < |s| - 1 ==> s[i] != s[i + 1]
  }

  lemma {:induction false} DedupKeepsEntries<T>(s: seq<T>)
    ensures forall x :: x in Dedup(s) <==> x in s
    ensures s != [] ==> Dedup(s) != [] && Last(Dedup(s)) == Last(s)
    ensures NoAdjacentRepeat(Dedup(s))
  {
    if |s| > 1 {
      var front := s[..|s| - 1];
      DedupKeepsEntries(front);
      assert s == front + [Last(s)];
      assert Last(front) == s[|s| - 2];
    }
  }

  lemma {:induction false} DedupKeepsOrder<T(!new)>(leq: (T, T) -> bool, s: seq<T>)
    requires SortedBy(leq, s)
    ensures SortedBy(leq, Dedup(s))
  {
    if |s| > 1 {
      var front := s[..|s| - 1];
      DedupKeepsOrder(leq, front);
      DedupKeepsEntries(front);
      forall x | x in Dedup(front) ensures leq(x, Last(s)) {
        assert x in front;
      }
    }
  }
}
