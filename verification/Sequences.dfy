/** Small vocabulary on sequences shared by the other modules. */
module Sequences {
  datatype Option<+T> = None | Some(value: T) {
    predicate IsFailure() {
      None?
    }

    function PropagateFailure<U>(): Option<U>
      requires None?
    {
      None
    }

    function Extract(): T
      requires Some?
    {
      value
    }
  }

  function Last<T>(s: seq<T>): T
    requires s != []
  {
    s[|s| - 1]
  }

  ghost predicate Distinct<T>(s: seq<T>) {
    forall i, j :: 0 <= i < j < |s| ==> s[i] != s[j]
  }

  lemma DistinctSnoc<T>(s: seq<T>, x: T)
    requires Distinct(s) && x !in s
    ensures Distinct(s + [x])
  {
    var t := s + [x];
    forall i, j | 0 <= i < j < |t| ensures t[i] != t[j] {
      assert t[i] == s[i] && s[i] in s;
    }
  }

  function RemoveAt<T>(s: seq<T>, i: nat): seq<T>
    requires i < |s|
  {
    s[..i] + s[i + 1..]
  }

  lemma ConcatAssociates<T>(a: seq<T>, b: seq<T>, c: seq<T>)
    ensures a + (b + c) == (a + b) + c
  {
  }

  // ---------------------------------------------------------------- places

  /** In rising order, exactly the places of s whose entries satisfy keep. */
  ghost predicate ArePlaces<T>(s: seq<T>, keep: T -> bool, places: seq<nat>) {
    && (forall k :: 0 <= k < |places| ==> places[k] < |s| && keep(s[places[k]]))
    && (forall k, m :: 0 <= k < m < |places| ==> places[k] < places[m])
    && (forall i: nat :: i < |s| && keep(s[i]) ==> i in places)
  }

  /** The images of the entries at the given places, one for one. */
  ghost predicate ReadsOff<T, U>(s: seq<T>, f: T -> U, places: seq<nat>, image: seq<U>) {
    |places| == |image| && forall k :: 0 <= k < |places| ==> places[k] < |s| && f(s[places[k]]) == image[k]
  }

  /** The images of exactly the entries that satisfy keep, in the order of s. */
  ghost predicate IsSelection<T, U>(s: seq<T>, keep: T -> bool, f: T -> U, image: seq<U>) {
    exists places: seq<nat> :: ArePlaces(s, keep, places) && ReadsOff(s, f, places, image)
  }

  lemma PlacesStay<T>(s: seq<T>, x: T, keep: T -> bool, places: seq<nat>)
    requires ArePlaces(s, keep, places) && !keep(x)
    ensures ArePlaces(s + [x], keep, places)
  {
    var t := s + [x];
    forall i: nat | i < |t| && keep(t[i]) ensures i in places {
      assert s[i] == t[i];
    }
  }

  lemma PlacesGrow<T>(s: seq<T>, x: T, keep: T -> bool, places: seq<nat>)
    requires ArePlaces(s, keep, places) && keep(x)
    ensures ArePlaces(s + [x], keep, places + [|s|])
  {
    var t, more := s + [x], places + [|s|];
    forall i: nat | i < |t| && keep(t[i]) ensures i in more {
      if i < |s| {
        assert s[i] == t[i] && i in places;
      } else {
        assert more[|places|] == i;
      }
    }
  }

  /** One entry more adds its own image, if it is kept. */
  lemma SelectionSnoc<T, U>(s: seq<T>, x: T, keep: T -> bool, f: T -> U, image: seq<U>)
    requires IsSelection(s, keep, f, image)
    ensures IsSelection(s + [x], keep, f, image + if keep(x) then [f(x)] else [])
  {
    var places: seq<nat> :| ArePlaces(s, keep, places) && ReadsOff(s, f, places, image);
    if keep(x) {
      PlacesGrow(s, x, keep, places);
      assert ReadsOff(s + [x], f, places + [|s|], image + [f(x)]);
    } else {
      PlacesStay(s, x, keep, places);
      assert image + [] == image;
      assert ReadsOff(s + [x], f, places, image);
    }
  }

  lemma NothingSelected<T, U>(keep: T -> bool, f: T -> U)
    ensures IsSelection([], keep, f, [])
  {
    assert ArePlaces<T>([], keep, []) && ReadsOff<T, U>([], f, [], []);
  }

  /** What f makes of the entries, where it makes something of them. */
  function Collect<T, U>(f: T -> Option<U>, s: seq<T>): seq<U> {
    if s == [] then []
    else
      Collect(f, s[..|s| - 1]) +
      match f(Last(s))
      case None => []
      case Some(x) => [x]
  }

  lemma {:induction false} CollectAppend<T, U>(f: T -> Option<U>, a: seq<T>, b: seq<T>)
    ensures Collect(f, a + b) == Collect(f, a) + Collect(f, b)
  {
    if b == [] {
      assert a + b == a;
    } else {
      CollectAppend(f, a, b[..|b| - 1]);
      assert (a + b)[..|a + b| - 1] == a + b[..|b| - 1];
    }
  }

  // ---------------------------------------------------------------- sums

  function SumOf<T>(f: T -> nat, s: seq<T>): nat {
    if s == [] then 0 else SumOf(f, s[..|s| - 1]) + f(Last(s))
  }

  lemma {:induction false} SumUpdate<T>(f: T -> nat, s: seq<T>, i: nat, x: T)
    requires i < |s|
    ensures SumOf(f, s[i := x]) + f(s[i]) == SumOf(f, s) + f(x)
  {
    var t := s[i := x];
    if i == |s| - 1 {
      assert t[..|t| - 1] == s[..|s| - 1];
    } else {
      assert t[..|t| - 1] == s[..|s| - 1][i := x];
      SumUpdate(f, s[..|s| - 1], i, x);
    }
  }

  lemma SumAppend<T>(f: T -> nat, s: seq<T>, x: T)
    ensures SumOf(f, s + [x]) == SumOf(f, s) + f(x)
  {
    assert (s + [x])[..|s|] == s;
  }

  lemma {:induction false} SumRemove<T>(f: T -> nat, s: seq<T>, i: nat)
    requires i < |s|
    ensures SumOf(f, s) == SumOf(f, RemoveAt(s, i)) + f(s[i])
  {
    if i == |s| - 1 {
      assert RemoveAt(s, i) == s[..i];
    } else {
      var front := s[..|s| - 1];
      SumRemove(f, front, i);
      assert RemoveAt(s, i) == RemoveAt(front, i) + [Last(s)];
      SumAppend(f, RemoveAt(front, i), Last(s));
    }
  }

  lemma {:induction false} SumZero<T>(f: T -> nat, s: seq<T>)
    requires forall i :: 0 <= i < |s| ==> f(s[i]) == 0
    ensures SumOf(f, s) == 0
  {
    if s != [] {
      SumZero(f, s[..|s| - 1]);
    }
  }

  /** Where g is below f everywhere, and by d at place i, its sum is below by at least d. */
  lemma {:induction false} SumBelow<T>(g: T -> nat, f: T -> nat, s: seq<T>, i: nat, d: nat)
    requires i < |s| && g(s[i]) + d <= f(s[i])
    requires forall j :: 0 <= j < |s| ==> g(s[j]) <= f(s[j])
    ensures SumOf(g, s) + d <= SumOf(f, s)
  {
    var front := s[..|s| - 1];
    if i == |s| - 1 {
      SumAtMost(g, f, front);
    } else {
      SumBelow(g, f, front, i, d);
    }
  }

  lemma {:induction false} SumAtMost<T>(g: T -> nat, f: T -> nat, s: seq<T>)
    requires forall j :: 0 <= j < |s| ==> g(s[j]) <= f(s[j])
    ensures SumOf(g, s) <= SumOf(f, s)
  {
    if s != [] {
      SumAtMost(g, f, s[..|s| - 1]);
    }
  }
}
