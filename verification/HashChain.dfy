/**
 Following a hash chain through an index by predecessor, for any kind of entry: `prev` is the
 hash an entry names as its predecessor, `hash` its own.
 */
module HashChain {
  import opened Sequences
  import opened Sorting

  /** Later entries replace earlier ones with the same predecessor. */
  function IndexBy<E, H>(prev: E -> H, entries: seq<E>): map<H, E> {
    if entries == [] then map[]
    else IndexBy(prev, entries[..|entries| - 1])[prev(Last(entries)) := Last(entries)]
  }

  /** The entries met from h on, at most n of them. */
  function WalkFrom<E, H>(hash: E -> H, index: map<H, E>, h: H, n: nat): seq<E>
    decreases n
  {
    if n == 0 || h !in index then []
    else [index[h]] + WalkFrom(hash, index, hash(index[h]), n - 1)
  }

  /** The hash that entry i of a chain starting at `from` has to name. */
  function PrevOf<E, H>(hash: E -> H, c: seq<E>, from: H, i: nat): H
    requires i < |c|
  {
    if i == 0 then from else hash(c[i - 1])
  }

  /** Each entry names the hash of the one before it, the first one the given hash. */
  ghost predicate Linked<E, H>(prev: E -> H, hash: E -> H, c: seq<E>, from: H) {
    forall i {:trigger PrevOf(hash, c, from, i)} :: 0 <= i < |c| ==> prev(c[i]) == PrevOf(hash, c, from, i)
  }

  /** An entry is known by its hash, and none passes for the start of the chain. */
  ghost predicate HashesIdentify<E, H>(hash: E -> H, entries: seq<E>, from: H) {
    && (forall i, j :: 0 <= i < j < |entries| ==> hash(entries[i]) != hash(entries[j]))
    && (forall i :: 0 <= i < |entries| ==> hash(entries[i]) != from)
  }

  /** No two entries have the same predecessor. */
  ghost predicate PrevsIdentify<E, H>(prev: E -> H, entries: seq<E>) {
    forall i, j :: 0 <= i < |entries| && 0 <= j < |entries| && prev(entries[i]) == prev(entries[j]) ==>
      entries[i] == entries[j]
  }

  lemma SameHashSameEntry<E, H>(hash: E -> H, entries: seq<E>, from: H, a: E, b: E)
    requires HashesIdentify(hash, entries, from) && a in entries && b in entries
    ensures hash(a) == hash(b) ==> a == b
    ensures hash(a) != from
  {
    var i :| 0 <= i < |entries| && entries[i] == a;
    var j :| 0 <= j < |entries| && entries[j] == b;
  }

  lemma IdentifyIgnoresOrder<E, H>(hash: E -> H, entries: seq<E>, c: seq<E>, from: H)
    requires HashesIdentify(hash, entries, from) && multiset(c) == multiset(entries)
    ensures HashesIdentify(hash, c, from)
  {
    assert Distinct(entries);
    DistinctFromMultiset(entries);
    DistinctFromMultiset(c);
    SameEntries(c, entries);
    forall i, j | 0 <= i < j < |c| ensures hash(c[i]) != hash(c[j]) {
      SameHashSameEntry(hash, entries, from, c[i], c[j]);
    }
    forall i | 0 <= i < |c| ensures hash(c[i]) != from {
      SameHashSameEntry(hash, entries, from, c[i], c[i]);
    }
  }

  lemma {:induction false} IndexHolds<E, H>(prev: E -> H, entries: seq<E>)
    ensures forall k :: k in IndexBy(prev, entries) ==>
              IndexBy(prev, entries)[k] in entries && prev(IndexBy(prev, entries)[k]) == k
    ensures forall e :: e in entries ==> prev(e) in IndexBy(prev, entries)
  {
    if entries != [] {
      IndexHolds(prev, entries[..|entries| - 1]);
      assert entries == entries[..|entries| - 1] + [Last(entries)];
    }
  }

  /** The index holds, for each predecessor named, the last entry that names it. */
  lemma {:induction false} IndexHoldsLatest<E, H>(prev: E -> H, entries: seq<E>, h: H) returns (i: nat)
    requires exists j :: 0 <= j < |entries| && prev(entries[j]) == h
    ensures i < |entries| && prev(entries[i]) == h && forall j :: i < j < |entries| ==> prev(entries[j]) != h
    ensures h in IndexBy(prev, entries) && IndexBy(prev, entries)[h] == entries[i]
  {
    var front := entries[..|entries| - 1];
    if prev(Last(entries)) == h {
      i := |entries| - 1;
    } else {
      var j :| 0 <= j < |entries| && prev(entries[j]) == h;
      assert prev(front[j]) == h;
      i := IndexHoldsLatest(prev, front, h);
      forall k | i < k < |entries| ensures prev(entries[k]) != h {
        assert k < |front| ==> entries[k] == front[k];
      }
    }
  }

  lemma LinkedCons<E, H>(prev: E -> H, hash: E -> H, e: E, rest: seq<E>)
    ensures Linked(prev, hash, rest, hash(e)) <==> Linked(prev, hash, [e] + rest, prev(e))
  {
    var c := [e] + rest;
    if Linked(prev, hash, rest, hash(e)) {
      forall i | 0 <= i < |c| ensures prev(c[i]) == PrevOf(hash, c, prev(e), i) {
        if i > 0 {
          assert prev(rest[i - 1]) == PrevOf(hash, rest, hash(e), i - 1);
        }
      }
    }
    if Linked(prev, hash, c, prev(e)) {
      forall i | 0 <= i < |rest| ensures prev(rest[i]) == PrevOf(hash, rest, hash(e), i) {
        assert prev(c[i + 1]) == PrevOf(hash, c, prev(e), i + 1);
      }
    }
  }

  /** What a walk meets is a chain of entries. */
  lemma {:induction false} WalkIsLinked<E, H>(prev: E -> H, hash: E -> H, entries: seq<E>, h: H, n: nat)
    ensures var w := WalkFrom(hash, IndexBy(prev, entries), h, n);
            Linked(prev, hash, w, h) && |w| <= n && forall i :: 0 <= i < |w| ==> w[i] in entries
    decreases n
  {
    var index := IndexBy(prev, entries);
    if n > 0 && h in index {
      IndexHolds(prev, entries);
      WalkIsLinked(prev, hash, entries, hash(index[h]), n - 1);
      LinkedCons(prev, hash, index[h], WalkFrom(hash, index, hash(index[h]), n - 1));
    }
  }

  /** Equal hashes mean equal entries, and none equals the given hash. */
  ghost predicate HashesTell<E, H>(hash: E -> H, w: seq<E>, from: H) {
    && (forall a, b :: 0 <= a < |w| && 0 <= b < |w| && hash(w[a]) == hash(w[b]) ==> w[a] == w[b])
    && (forall a :: 0 <= a < |w| ==> hash(w[a]) != from)
  }

  /** A walk that came back to an entry would have come back to its start before. */
  lemma {:induction false} NoReturn<E, H>(prev: E -> H, hash: E -> H, w: seq<E>, from: H, i: nat, j: nat)
    requires HashesTell(hash, w, from) && Linked(prev, hash, w, from) && i < j < |w|
    ensures prev(w[i]) != prev(w[j])
    decreases i
  {
    assert prev(w[i]) == PrevOf(hash, w, from, i) && prev(w[j]) == PrevOf(hash, w, from, j);
    if i > 0 {
      NoReturn(prev, hash, w, from, i - 1, j - 1);
    }
  }

  /** If equal hashes always come from equal predecessors, all hashes of a chain differ. */
  lemma {:induction false} ChainHashesDiffer<E, H>(prev: E -> H, hash: E -> H, c: seq<E>, from: H, i: nat, j: nat)
    requires Linked(prev, hash, c, from) && i < j < |c|
    requires forall a, b :: 0 <= a < |c| && 0 <= b < |c| && hash(c[a]) == hash(c[b]) ==> prev(c[a]) == prev(c[b])
    requires forall a :: 0 <= a < |c| ==> hash(c[a]) != from
    ensures hash(c[i]) != hash(c[j])
    decreases i
  {
    assert prev(c[i]) == PrevOf(hash, c, from, i) && prev(c[j]) == PrevOf(hash, c, from, j);
    if i > 0 {
      ChainHashesDiffer(prev, hash, c, from, i - 1, j - 1);
    }
  }

  /** Following the index built from any arrangement of a chain goes through it in order. */
  lemma {:induction false} WalkAlong<E, H>(prev: E -> H, hash: E -> H, entries: seq<E>, c: seq<E>, from: H)
    requires Linked(prev, hash, c, from) && PrevsIdentify(prev, entries)
    requires forall k :: 0 <= k < |c| ==> c[k] in entries
    ensures WalkFrom(hash, IndexBy(prev, entries), from, |c|) == c
    decreases |c|
  {
    if c != [] {
      assert c == [c[0]] + c[1..] && prev(c[0]) == PrevOf(hash, c, from, 0);
      LinkedCons(prev, hash, c[0], c[1..]);
      WalkAlong(prev, hash, entries, c[1..], hash(c[0]));
      IndexHolds(prev, entries);
      assert c[0] in entries;
    }
  }

  lemma ChainPrevsIdentify<E, H>(prev: E -> H, hash: E -> H, c: seq<E>, from: H)
    requires Linked(prev, hash, c, from) && HashesIdentify(hash, c, from)
    ensures PrevsIdentify(prev, c)
  {
    forall i, j | 0 <= i < |c| && 0 <= j < |c| && prev(c[i]) == prev(c[j]) ensures c[i] == c[j] {
      assert prev(c[i]) == PrevOf(hash, c, from, i) && prev(c[j]) == PrevOf(hash, c, from, j);
    }
  }

  lemma PrevsIdentifyIgnoresOrder<E, H>(prev: E -> H, entries: seq<E>, c: seq<E>)
    requires PrevsIdentify(prev, c) && multiset(entries) == multiset(c)
    ensures PrevsIdentify(prev, entries)
  {
    SameEntries(entries, c);
    forall i, j | 0 <= i < |entries| && 0 <= j < |entries| && prev(entries[i]) == prev(entries[j])
      ensures entries[i] == entries[j]
    {
      assert entries[i] in c && entries[j] in c;
      var a :| 0 <= a < |c| && c[a] == entries[i];
      var b :| 0 <= b < |c| && c[b] == entries[j];
      assert prev(c[a]) == prev(c[b]);
    }
  }

  /** Whatever arrangement of a chain is indexed, the walk goes through the chain in order. */
  lemma ChainIsWalkedInOrder<E, H>(prev: E -> H, hash: E -> H, entries: seq<E>, c: seq<E>, from: H)
    requires multiset(entries) == multiset(c)
    requires Linked(prev, hash, c, from) && HashesIdentify(hash, c, from)
    ensures |entries| == |c| && WalkFrom(hash, IndexBy(prev, entries), from, |entries|) == c
  {
    SameEntries(entries, c);
    ChainPrevsIdentify(prev, hash, c, from);
    PrevsIdentifyIgnoresOrder(prev, entries, c);
    WalkAlong(prev, hash, entries, c, from);
  }

  /** A walk that meets as many entries as there are has met every entry exactly once. */
  lemma CompletedWalkMeetsAll<E, H>(prev: E -> H, hash: E -> H, entries: seq<E>, from: H)
    requires HashesIdentify(hash, entries, from)
    requires |WalkFrom(hash, IndexBy(prev, entries), from, |entries|)| == |entries|
    ensures var w := WalkFrom(hash, IndexBy(prev, entries), from, |entries|);
            multiset(w) == multiset(entries) && Linked(prev, hash, w, from)
  {
    WalkIsLinked(prev, hash, entries, from, |entries|);
    var w := WalkFrom(hash, IndexBy(prev, entries), from, |entries|);
    assert HashesTell(hash, w, from) by {
      forall a, b | 0 <= a < |w| && 0 <= b < |w|
        ensures (hash(w[a]) == hash(w[b]) ==> w[a] == w[b]) && hash(w[a]) != from
      {
        SameHashSameEntry(hash, entries, from, w[a], w[b]);
      }
    }
    forall i, j | 0 <= i < j < |w| ensures w[i] != w[j] {
      NoReturn(prev, hash, w, from, i, j);
    }
    SameSizeSubset(w, entries);
  }

  /** The walk meets everything exactly when the entries can be arranged into one chain. */
  lemma WalkCompletesIffChain<E, H>(prev: E -> H, hash: E -> H, entries: seq<E>, from: H)
    requires HashesIdentify(hash, entries, from)
    ensures |WalkFrom(hash, IndexBy(prev, entries), from, |entries|)| == |entries| <==>
            exists c :: multiset(c) == multiset(entries) && Linked(prev, hash, c, from)
  {
    if |WalkFrom(hash, IndexBy(prev, entries), from, |entries|)| == |entries| {
      CompletedWalkMeetsAll(prev, hash, entries, from);
    }
    if c :| multiset(c) == multiset(entries) && Linked(prev, hash, c, from) {
      IdentifyIgnoresOrder(hash, entries, c, from);
      ChainIsWalkedInOrder(prev, hash, entries, c, from);
    }
  }

  // ---------------------------------------------------------------- counting

  lemma SameEntries<T>(a: seq<T>, b: seq<T>)
    requires multiset(a) == multiset(b)
    ensures |a| == |b| && forall x :: x in a <==> x in b
  {
    assert |multiset(a)| == |a| && |multiset(b)| == |b|;
    assert forall x :: x in a <==> x in multiset(a);
    assert forall x :: x in b <==> x in multiset(b);
  }

  lemma {:induction false} DistinctCount<T>(s: seq<T>)
    requires Distinct(s)
    ensures |set x | x in s| == |s|
  {
    if s != [] {
      var front := s[..|s| - 1];
      DistinctCount(front);
      assert (set x | x in s) == (set x | x in front) + {Last(s)};
    }
  }

  lemma SubsetOfSameSize<T>(a: set<T>, b: set<T>)
    requires a <= b && |a| == |b|
    ensures a == b
  {
    assert |b - a| == |b| - |a|;
    assert b - a == {};
  }

  /** Equally many distinct entries, all of them taken from the other: the same entries. */
  lemma SameSizeSubset<T>(a: seq<T>, b: seq<T>)
    requires Distinct(a) && Distinct(b) && |a| == |b| && forall i :: 0 <= i < |a| ==> a[i] in b
    ensures multiset(a) == multiset(b)
  {
    DistinctCount(a);
    DistinctCount(b);
    var inA, inB := set x | x in a, set x | x in b;
    SubsetOfSameSize(inA, inB);
    DistinctFromMultiset(a);
    DistinctFromMultiset(b);
    forall x ensures multiset(a)[x] == multiset(b)[x] {
      assert x in inA <==> x in multiset(a);
      assert x in inB <==> x in multiset(b);
    }
  }
}
