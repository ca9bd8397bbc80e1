/**
 Why replay needs ids under which only one execution leaves evidence: two that do so under one id
 both start from "genesis", the walk along the chain cannot meet them both, and the fallback takes
 the outputs of both for the outputs of one.
 */
module ReplayReuse {
  import opened EvidenceLedger
  import opened HashChain
  import opened Kernel
  import KernelAccounting
  import KernelReplay
  import opened Replay
  import opened Sequences
  import opened Sorting
  import opened Text

  // ---------------------------------------------------------------- walks are short

  lemma {:induction false} IndexSize<E, H>(prev: E -> H, entries: seq<E>)
    ensures |IndexBy(prev, entries).Keys| <= |entries|
  {
    if entries != [] {
      var front := entries[..|entries| - 1];
      IndexSize(prev, front);
      assert IndexBy(prev, entries).Keys == IndexBy(prev, front).Keys + {prev(Last(entries))};
    }
  }

  /** Two entries with one predecessor share a place in the index. */
  lemma {:induction false} SharedPlace<E, H>(prev: E -> H, entries: seq<E>, i: nat, j: nat)
    requires i < j < |entries| && prev(entries[i]) == prev(entries[j])
    ensures |IndexBy(prev, entries).Keys| < |entries|
  {
    var front := entries[..|entries| - 1];
    assert IndexBy(prev, entries).Keys == IndexBy(prev, front).Keys + {prev(Last(entries))};
    IndexSize(prev, front);
    if j < |entries| - 1 {
      SharedPlace(prev, front, i, j);
    } else {
      IsIndexed(prev, front, front[i]);
      assert IndexBy(prev, entries).Keys == IndexBy(prev, front).Keys;
    }
  }

  function Prevs<E, H>(prev: E -> H, w: seq<E>): (r: seq<H>)
    ensures |r| == |w| && forall i :: 0 <= i < |r| ==> r[i] == prev(w[i])
  {
    seq(|w|, i requires 0 <= i < |w| => prev(w[i]))
  }

  lemma {:induction false} DistinctWithin<T>(s: seq<T>, within: set<T>)
    requires Distinct(s) && forall i :: 0 <= i < |s| ==> s[i] in within
    ensures |s| <= |within|
  {
    if s != [] {
      DistinctWithin(s[..|s| - 1], within - {Last(s)});
    }
  }

  lemma IsIndexed<E, H>(prev: E -> H, entries: seq<E>, e: E)
    requires e in entries
    ensures prev(e) in IndexBy(prev, entries).Keys
  {
    IndexHolds(prev, entries);
  }

  lemma PrevsAreIndexed<E, H>(prev: E -> H, entries: seq<E>, w: seq<E>)
    requires forall i :: 0 <= i < |w| ==> w[i] in entries
    ensures forall i :: 0 <= i < |w| ==> Prevs(prev, w)[i] in IndexBy(prev, entries).Keys
  {
    forall i | 0 <= i < |w| ensures Prevs(prev, w)[i] in IndexBy(prev, entries).Keys {
      IsIndexed(prev, entries, w[i]);
    }
  }

  /** A walk through distinct predecessors is no longer than the index. */
  lemma WalkWithinIndex<E, H>(prev: E -> H, entries: seq<E>, w: seq<E>)
    requires Distinct(Prevs(prev, w)) && forall i :: 0 <= i < |w| ==> w[i] in entries
    ensures |Prevs(prev, w)| <= |IndexBy(prev, entries).Keys|
  {
    PrevsAreIndexed(prev, entries, w);
    DistinctWithin(Prevs(prev, w), IndexBy(prev, entries).Keys);
  }

  // ---------------------------------------------------------------- hashed events

  /** The event was hashed from one of the texts, and names its predecessor without a colon. */
  ghost predicate HashedIn(digest: Digest, texts: set<string>, e: EvidenceRecord) {
    && Free(e.prevHash, ':')
    && exists prefix ::
         RecordText(prefix, e.prevHash) in texts && e.recordHash == digest(RecordText(prefix, e.prevHash))
  }

  lemma SameHashSamePrev(digest: Digest, texts: set<string>, a: EvidenceRecord, b: EvidenceRecord)
    requires NoCollision(digest, texts) && HashedIn(digest, texts, a) && HashedIn(digest, texts, b)
    ensures a.recordHash == b.recordHash ==> a.prevHash == b.prevHash
  {
    if a.recordHash == b.recordHash {
      var p :| RecordText(p, a.prevHash) in texts && a.recordHash == digest(RecordText(p, a.prevHash));
      var q :| RecordText(q, b.prevHash) in texts && b.recordHash == digest(RecordText(q, b.prevHash));
      PrevHashIsSuffix(p, a.prevHash, q, b.prevHash);
    }
  }

  ghost predicate AllHashed(digest: Digest, texts: set<string>, events: seq<EvidenceRecord>) {
    forall i :: 0 <= i < |events| ==> HashedIn(digest, texts, events[i])
  }

  /** Along any walk the predecessors differ: a repeated one would lead back to "genesis". */
  lemma WalkedPrevsDiffer(digest: Digest, texts: set<string>, w: seq<EvidenceRecord>)
    requires Linked(PrevHash, RecordHash, w, GENESIS) && AllHashed(digest, texts, w)
    requires HexLike(digest) && NoCollision(digest, texts)
    ensures Distinct(Prevs(PrevHash, w))
  {
    forall a, b | 0 <= a < |w| && 0 <= b < |w| && RecordHash(w[a]) == RecordHash(w[b])
      ensures PrevHash(w[a]) == PrevHash(w[b])
    {
      SameHashSamePrev(digest, texts, w[a], w[b]);
    }
    forall a | 0 <= a < |w| ensures RecordHash(w[a]) != GENESIS {
      assert HashedIn(digest, texts, w[a]);
    }
    forall i, j | 0 <= i < j < |w| ensures PrevHash(w[i]) != PrevHash(w[j]) {
      assert PrevHash(w[i]) == PrevOf(RecordHash, w, GENESIS, i) && PrevHash(w[j]) == PrevOf(RecordHash, w, GENESIS, j);
      if i > 0 {
        ChainHashesDiffer(PrevHash, RecordHash, w, GENESIS, i - 1, j - 1);
      }
    }
  }

  /** Where two events name the same predecessor, the walk cannot meet every event. */
  lemma SharedPredecessorBreaksWalk(digest: Digest, texts: set<string>, events: seq<EvidenceRecord>, i: nat, j: nat)
    requires i < j < |events| && events[i].prevHash == events[j].prevHash
    requires AllHashed(digest, texts, events) && HexLike(digest) && NoCollision(digest, texts)
    ensures !WalkCompletes(events)
  {
    var w := Walk(events);
    WalkIsLinked(PrevHash, RecordHash, events, GENESIS, |events|);
    forall k | 0 <= k < |w| ensures HashedIn(digest, texts, w[k]) {
      assert w[k] in events;
    }
    WalkedPrevsDiffer(digest, texts, w);
    WalkWithinIndex(PrevHash, events, w);
    SharedPlace(PrevHash, events, i, j);
  }

  // ---------------------------------------------------------------- the fallback takes everything

  lemma {:induction false} InsertOutputs(s: seq<EvidenceRecord>, e: EvidenceRecord)
    ensures |Outputs(Insert(NotLater, s, e))| == |Outputs(s)| + |OutputOf(e)|
  {
    if s == [] || NotLater(Last(s), e) {
      OutputsSnoc(s, e);
    } else {
      var front := s[..|s| - 1];
      InsertOutputs(front, e);
      OutputsSnoc(Insert(NotLater, front, e), Last(s));
      OutputsSnoc(front, Last(s));
      assert s == front + [Last(s)];
    }
  }

  lemma {:induction false} SortOutputs(s: seq<EvidenceRecord>)
    ensures |Outputs(Sort(NotLater, s))| == |Outputs(s)|
  {
    if s != [] {
      var front := s[..|s| - 1];
      SortOutputs(front);
      InsertOutputs(Sort(NotLater, front), Last(s));
      OutputsSnoc(front, Last(s));
      assert s == front + [Last(s)];
    }
  }

  lemma PayloadEndsInChain(m: Material, a: string, b: string)
    requires a != b
    ensures Payload(m, a) != Payload(m, b)
  {
    var front := FrontParts(m) + [Join(m.canonicalStorePaths, '|')];
    var mid := BackParts(m, a)[..7];
    assert front + BackParts(m, a) == (front + mid) + [a] && front + BackParts(m, b) == (front + mid) + [b];
    JoinAppend(front + mid, [a], '|');
    JoinAppend(front + mid, [b], '|');
    var p := Join(front + mid, '|') + ['|'];
    assert (p + a)[|p|..] == a && (p + b)[|p|..] == b;
  }

  lemma ChainIsHashedIn(digest: Digest, c: seq<EvidenceRecord>, prefixes: seq<string>, texts: set<string>)
    requires IsChain(c) && HashedFrom(digest, c, prefixes) && HexLike(digest) && RecordTexts(c, prefixes) <= texts
    ensures AllHashed(digest, texts, c)
  {
    forall i | 0 <= i < |c| ensures HashedIn(digest, texts, c[i]) {
      PrevHashIsFree(digest, c, prefixes, i);
      assert RecordText(prefixes[i], c[i].prevHash) in RecordTexts(c, prefixes);
    }
  }

  // ---------------------------------------------------------------- executions that share an id

  /** How many events start a chain. */
  function Begins(events: seq<EvidenceRecord>): nat {
    if events == [] then 0
    else Begins(events[..|events| - 1]) + if Last(events).prevHash == GENESIS then 1 else 0
  }

  /** Whether a process has begun a chain under the id. */
  function BegunUnder(id: string): Process -> nat {
    (p: Process) => if p.request.executionId == id && p.chain != [] then 1 else 0
  }

  /** The length of the outputs a process has recorded under the id. */
  function OutputsUnder(id: string): Process -> nat {
    (p: Process) => if p.request.executionId == id then |Outputs(p.chain)| else 0
  }

  /** One of the processes has appended the event under the id. */
  ghost predicate Appended(procs: seq<Process>, id: string, e: EvidenceRecord) {
    exists k :: 0 <= k < |procs| && procs[k].request.executionId == id && e in procs[k].chain
  }

  lemma {:induction false} BeginsTwice(events: seq<EvidenceRecord>) returns (i: nat, j: nat)
    requires Begins(events) >= 2
    ensures i < j < |events| && events[i].prevHash == events[j].prevHash == GENESIS
  {
    var front := events[..|events| - 1];
    if Last(events).prevHash == GENESIS {
      i := BeginsOnce(front);
      j := |front|;
    } else {
      i, j := BeginsTwice(front);
    }
  }

  lemma {:induction false} BeginsOnce(events: seq<EvidenceRecord>) returns (i: nat)
    requires Begins(events) >= 1
    ensures i < |events| && events[i].prevHash == GENESIS
  {
    if Last(events).prevHash == GENESIS {
      i := |events| - 1;
    } else {
      i := BeginsOnce(events[..|events| - 1]);
    }
  }

  lemma {:induction false} TwoParts<T>(f: T -> nat, s: seq<T>, i: nat, j: nat)
    requires i < j < |s|
    ensures f(s[i]) + f(s[j]) <= SumOf(f, s)
  {
    if j == |s| - 1 {
      KernelAccounting.PartOfSum(f, s[..j], i);
    } else {
      TwoParts(f, s[..|s| - 1], i, j);
    }
  }

  /** Under the id the ledger holds what the processes have appended, in whatever order. */
  ghost predicate HoldsAll(ledger: seq<EvidenceRecord>, procs: seq<Process>, id: string) {
    && (forall e :: e in Select(ledger, id) ==> Appended(procs, id, e))
    && Begins(Select(ledger, id)) == SumOf(BegunUnder(id), procs)
    && |Outputs(Select(ledger, id))| == SumOf(OutputsUnder(id), procs)
  }

  lemma AddedOutputs(c: seq<EvidenceRecord>, added: seq<EvidenceRecord>)
    ensures |Outputs(c + added)| == |Outputs(c)| + |Outputs(added)|
  {
    OutputsAppend(c, added);
  }

  /** q is p with at most one more record of its own, which starts a chain if it is the first one. */
  ghost predicate Extends(p: Process, q: Process, added: seq<EvidenceRecord>) {
    && q.request == p.request && q.chain == p.chain + added && |added| <= 1
    && (added != [] ==> added[0].executionId == p.request.executionId)
    && (added != [] ==> (added[0].prevHash == GENESIS <==> p.chain == []))
  }

  lemma AppendedStay(
    ledger: seq<EvidenceRecord>, added: seq<EvidenceRecord>, procs: seq<Process>, pid: nat, q: Process, id: string)
    requires pid < |procs| && Extends(procs[pid], q, added)
    requires forall e :: e in Select(ledger, id) ==> Appended(procs, id, e)
    ensures forall e :: e in Select(ledger + added, id) ==> Appended(procs[pid := q], id, e)
  {
    KernelReplay.SelectSnoc(ledger, added, id);
    var after := procs[pid := q];
    forall e | e in Select(ledger + added, id) ensures Appended(after, id, e) {
      if e in Select(ledger, id) {
        var k :| 0 <= k < |procs| && procs[k].request.executionId == id && e in procs[k].chain;
        assert after[k].request.executionId == id && e in after[k].chain;
      } else {
        assert e == added[0];
        assert after[pid].request.executionId == id && e in after[pid].chain;
      }
    }
  }

  lemma SumsGrow(
    ledger: seq<EvidenceRecord>, added: seq<EvidenceRecord>, procs: seq<Process>, pid: nat, q: Process, id: string)
    requires pid < |procs| && Extends(procs[pid], q, added)
    ensures Begins(Select(ledger + added, id)) + BegunUnder(id)(procs[pid])
         == Begins(Select(ledger, id)) + BegunUnder(id)(q)
    ensures |Outputs(Select(ledger + added, id))| + OutputsUnder(id)(procs[pid])
         == |Outputs(Select(ledger, id))| + OutputsUnder(id)(q)
  {
    var p := procs[pid];
    if added == [] {
      assert q.chain == p.chain && ledger + added == ledger;
    } else {
      KernelReplay.SelectSnoc(ledger, added, id);
      if p.request.executionId == id {
        OneMore(Select(ledger, id), added);
        OneMore(p.chain, added);
      } else {
        assert Select(ledger + added, id) == Select(ledger, id);
      }
    }
  }

  lemma OneMore(before: seq<EvidenceRecord>, added: seq<EvidenceRecord>)
    requires |added| == 1
    ensures Begins(before + added) == Begins(before) + if added[0].prevHash == GENESIS then 1 else 0
    ensures |Outputs(before + added)| == |Outputs(before)| + |Outputs(added)|
  {
    assert (before + added)[..|before|] == before;
    AddedOutputs(before, added);
  }

  lemma AppendHoldsAll(
    ledger: seq<EvidenceRecord>, added: seq<EvidenceRecord>, procs: seq<Process>, pid: nat, q: Process, id: string)
    requires pid < |procs| && Extends(procs[pid], q, added) && HoldsAll(ledger, procs, id)
    ensures HoldsAll(ledger + added, procs[pid := q], id)
  {
    AppendedStay(ledger, added, procs, pid, q, id);
    SumsGrow(ledger, added, procs, pid, q, id);
    SumUpdate(BegunUnder(id), procs, pid, q);
    SumUpdate(OutputsUnder(id), procs, pid, q);
  }

  lemma AddedNamesLast(digest: Digest, p: Process, q: Process, added: seq<EvidenceRecord>)
    requires KernelReplay.ChainFits(digest, q) && HexLike(digest) && q.chain == p.chain + added && added != []
    ensures added[0].prevHash == GENESIS <==> p.chain == []
  {
    var n := |p.chain|;
    assert PrevHash(q.chain[n]) == PrevOf(RecordHash, q.chain, GENESIS, n);
    if n > 0 {
      assert q.chain[n - 1].recordHash == digest(RecordText(q.prefixes[n - 1], q.chain[n - 1].prevHash));
    }
  }

  lemma NextHoldsAll(digest: Digest, s: State, pid: nat, id: string)
    requires pid < |s.procs| && HoldsAll(s.shared.ledger, s.procs, id)
    requires HexLike(digest) && KernelReplay.ChainFits(digest, s.procs[pid])
    ensures var t := Next(digest, s, pid); HoldsAll(t.shared.ledger, t.procs, id)
  {
    var p, q := s.procs[pid], Step(digest, s.shared, s.procs[pid]).1;
    var added := KernelReplay.StepOnLedger(digest, s.shared, p);
    KernelReplay.StepKeepsChain(digest, s.shared, p);
    if added != [] {
      AddedNamesLast(digest, p, q, added);
    }
    AppendHoldsAll(s.shared.ledger, added, s.procs, pid, q, id);
  }

  lemma {:induction false} RunHoldsAll(digest: Digest, s: State, schedule: seq<nat>, id: string)
    requires Started(s) && Select(s.shared.ledger, id) == [] && HexLike(digest)
    ensures var t := Run(digest, s, schedule); HoldsAll(t.shared.ledger, t.procs, id)
  {
    if schedule == [] {
      SumZero(BegunUnder(id), s.procs);
      SumZero(OutputsUnder(id), s.procs);
    } else {
      var before := schedule[..|schedule| - 1];
      RunHoldsAll(digest, s, before, id);
      if Last(schedule) < |s.procs| {
        KernelReplay.RunKeepsChain(digest, s, before, Last(schedule));
        NextHoldsAll(digest, Run(digest, s, before), Last(schedule), id);
      }
    }
  }

  /** The texts hashed by the executions under the id. */
  function TextsUnder(procs: seq<Process>, id: string): set<string> {
    set i, text | 0 <= i < |procs| && procs[i].request.executionId == id
                  && text in RecordTexts(procs[i].chain, procs[i].prefixes) :: text
  }

  lemma EventsAreHashed(digest: Digest, procs: seq<Process>, id: string, events: seq<EvidenceRecord>, m: nat)
    requires m < |events| && Appended(procs, id, events[m]) && HexLike(digest)
    requires forall k :: 0 <= k < |procs| ==> KernelReplay.ChainFits(digest, procs[k])
    ensures HashedIn(digest, TextsUnder(procs, id), events[m])
  {
    var e, texts := events[m], TextsUnder(procs, id);
    var k :| 0 <= k < |procs| && procs[k].request.executionId == id && e in procs[k].chain;
    var p := procs[k];
    assert KernelReplay.ChainFits(digest, p);
    assert RecordTexts(p.chain, p.prefixes) <= texts;
    ChainIsHashedIn(digest, p.chain, p.prefixes, texts);
    var n :| 0 <= n < |p.chain| && p.chain[n] == e;
  }

  /** Two executions under one id that have both begun their chains break the walk, in any interleaving. */
  lemma SharedIdBreaksWalk(
    digest: Digest, ledger: seq<EvidenceRecord>, procs: seq<Process>, id: string, i: nat, j: nat)
    requires HoldsAll(ledger, procs, id) && HexLike(digest)
    requires forall k :: 0 <= k < |procs| ==> KernelReplay.ChainFits(digest, procs[k])
    requires i < j < |procs| && procs[i].request.executionId == procs[j].request.executionId == id
    requires procs[i].chain != [] && procs[j].chain != [] && NoCollision(digest, TextsUnder(procs, id))
    ensures !WalkCompletes(Select(ledger, id))
  {
    var events := Select(ledger, id);
    TwoParts(BegunUnder(id), procs, i, j);
    var k, m := BeginsTwice(events);
    forall n | 0 <= n < |events| ensures HashedIn(digest, TextsUnder(procs, id), events[n]) {
      assert events[n] in events;
      EventsAreHashed(digest, procs, id, events, n);
    }
    SharedPredecessorBreaksWalk(digest, TextsUnder(procs, id), events, k, m);
  }

  /** What replay makes of a ledger in which the walk does not complete: the outputs of all, by time. */
  function OutputsByTime(ledger: seq<EvidenceRecord>, id: string): string {
    Outputs(Sort(NotLater, Select(ledger, id)))
  }

  /** Where the walk does not complete, replay confirms a record exactly when the outputs by time are its own. */
  lemma FallbackMatchesIff(digest: Digest, ledger: seq<EvidenceRecord>, record: ExecutionRecord, mine: string)
    requires !WalkCompletes(Select(ledger, record.executionId)) && Select(ledger, record.executionId) != []
    requires record.fingerprint == Fingerprint(record.material, digest(mine), digest)
    requires var all := OutputsByTime(ledger, record.executionId);
             NoCollision(
               digest, {mine, all, Payload(record.material, digest(mine)), Payload(record.material, digest(all))})
    ensures ReplayCheck(digest, ledger, record) ==
            if OutputsByTime(ledger, record.executionId) == mine then Matches(record.fingerprint) else Mismatch
  {
    var all := OutputsByTime(ledger, record.executionId);
    if all != mine {
      assert digest(all) != digest(mine);
      PayloadEndsInChain(record.material, digest(mine), digest(all));
    }
  }

  /** The texts that must not collide for the fingerprints of a record and of its replay to differ. */
  function ReplayTexts(digest: Digest, ledger: seq<EvidenceRecord>, p: Process, record: ExecutionRecord): set<string> {
    var mine, all := Outputs(p.chain), OutputsByTime(ledger, p.request.executionId);
    {mine, all, Payload(record.material, digest(mine)), Payload(record.material, digest(all))}
  }

  /** Another execution has left evidence under the id of the i-th, too. */
  lemma SecondRecorded(procs: seq<Process>, i: nat) returns (low: nat, high: nat)
    requires i < |procs| && procs[i].chain != [] && !KernelReplay.OnlyOneRecorded(procs, i)
    ensures low < high < |procs| && procs[low].chain != [] && procs[high].chain != []
    ensures procs[low].request.executionId == procs[high].request.executionId == procs[i].request.executionId
  {
    var j :| 0 <= j < |procs| && j != i && procs[j].request.executionId == procs[i].request.executionId
             && procs[j].chain != [];
    low, high := if i < j then i else j, if i < j then j else i;
  }

  lemma OwnTexts(procs: seq<Process>, i: nat)
    requires i < |procs|
    ensures RecordTexts(procs[i].chain, procs[i].prefixes) <= TextsUnder(procs, procs[i].request.executionId)
  {
  }

  /**
   In every interleaving: the walk along the evidence under an id completes exactly when only one
   execution has left evidence under it.
   */
  lemma WalkCompletesIffOnlyOne(digest: Digest, s: State, schedule: seq<nat>, i: nat)
    requires Started(s) && i < |s.procs| && HexLike(digest)
    requires Select(s.shared.ledger, s.procs[i].request.executionId) == []
    requires var t := Run(digest, s, schedule);
             t.procs[i].chain != [] && NoCollision(digest, TextsUnder(t.procs, s.procs[i].request.executionId))
    ensures var t := Run(digest, s, schedule);
            && Select(t.shared.ledger, s.procs[i].request.executionId) != []
            && (WalkCompletes(Select(t.shared.ledger, s.procs[i].request.executionId)) <==>
                KernelReplay.OnlyOneRecorded(t.procs, i))
  {
    var t, id := Run(digest, s, schedule), s.procs[i].request.executionId;
    KernelAccounting.RunKeepsRequests(digest, s, schedule);
    RunHoldsAll(digest, s, schedule, id);
    KernelAccounting.PartOfSum(BegunUnder(id), t.procs, i);
    forall k | 0 <= k < |t.procs| ensures KernelReplay.ChainFits(digest, t.procs[k]) {
      KernelReplay.RunKeepsChain(digest, s, schedule, k);
    }
    if KernelReplay.OnlyOneRecorded(t.procs, i) {
      KernelReplay.RunKeepsOwn(digest, s, schedule, i);
      OwnTexts(t.procs, i);
      ChainWalks(digest, t.procs[i]);
    } else {
      var low, high := SecondRecorded(t.procs, i);
      SharedIdBreaksWalk(digest, t.shared.ledger, t.procs, id, low, high);
    }
  }

  lemma ChainWalks(digest: Digest, p: Process)
    requires KernelReplay.ChainFits(digest, p) && p.chain != [] && HexLike(digest)
    requires NoCollision(digest, RecordTexts(p.chain, p.prefixes))
    ensures WalkCompletes(p.chain)
  {
    ChainIsKnownByHash(digest, p.chain, p.prefixes);
    ChainIsReplayedInOrder(p.chain, p.chain);
  }

  /** The id was not used before, and nothing that decides about the replay of the i-th record collides. */
  ghost predicate Comparable(digest: Digest, s: State, t: State, i: nat)
    requires i < |s.procs| == |t.procs|
  {
    && Started(s) && HexLike(digest) && Select(s.shared.ledger, s.procs[i].request.executionId) == []
    && t.procs[i].phase.Done? && t.procs[i].phase.outcome.Returned? && !KernelReplay.PlanFailed(s.procs[i])
    && NoCollision(digest, TextsUnder(t.procs, s.procs[i].request.executionId))
    && NoCollision(digest, ReplayTexts(digest, t.shared.ledger, t.procs[i], t.procs[i].phase.outcome.record))
  }

  /**
   In every interleaving: a record returned for a plan that ran is confirmed exactly when no other
   execution has left evidence under its id, or the outputs of all of them, by time, happen to be
   its own.
   */
  lemma ReplaysIff(digest: Digest, s: State, schedule: seq<nat>, i: nat)
    requires i < |s.procs| && Comparable(digest, s, Run(digest, s, schedule), i)
    ensures var t := Run(digest, s, schedule);
            var p, record := t.procs[i], t.procs[i].phase.outcome.record;
            ReplayCheck(digest, t.shared.ledger, record) ==
            if KernelReplay.OnlyOneRecorded(t.procs, i)
               || OutputsByTime(t.shared.ledger, p.request.executionId) == Outputs(p.chain)
            then Matches(record.fingerprint) else Mismatch
  {
    var t := Run(digest, s, schedule);
    KernelAccounting.RunKeepsRequests(digest, s, schedule);
    KernelReplay.RunKeepsChain(digest, s, schedule, i);
    KernelReplay.ReturnedEvidence(digest, t.procs[i]);
    WalkCompletesIffOnlyOne(digest, s, schedule, i);
    if KernelReplay.OnlyOneRecorded(t.procs, i) {
      OwnTexts(t.procs, i);
      KernelReplay.ReturnedRecordsReplay(digest, s, schedule, i);
    } else {
      FallbackMatchesIff(digest, t.shared.ledger, t.procs[i].phase.outcome.record, Outputs(t.procs[i].chain));
    }
  }

  /** In particular it is not confirmed once another execution under its id has recorded some output. */
  lemma ReusedIdBreaksReplay(digest: Digest, s: State, schedule: seq<nat>, i: nat, j: nat)
    requires i < |s.procs| && j < |s.procs| && i != j && Comparable(digest, s, Run(digest, s, schedule), i)
    requires s.procs[i].request.executionId == s.procs[j].request.executionId
    requires Outputs(Run(digest, s, schedule).procs[j].chain) != ""
    ensures var t := Run(digest, s, schedule);
            ReplayCheck(digest, t.shared.ledger, t.procs[i].phase.outcome.record) == Mismatch
  {
    var t, id := Run(digest, s, schedule), s.procs[i].request.executionId;
    KernelAccounting.RunKeepsRequests(digest, s, schedule);
    ReplaysIff(digest, s, schedule, i);
    RunHoldsAll(digest, s, schedule, id);
    SortOutputs(Select(t.shared.ledger, id));
    OtherOutputsCount(t.procs, id, i, j);
  }

  lemma OtherOutputsCount(procs: seq<Process>, id: string, i: nat, j: nat)
    requires i < |procs| && j < |procs| && i != j && Outputs(procs[j].chain) != ""
    requires procs[i].request.executionId == procs[j].request.executionId == id
    ensures SumOf(OutputsUnder(id), procs) > |Outputs(procs[i].chain)| && procs[j].chain != []
  {
    TwoParts(OutputsUnder(id), procs, if i < j then i else j, if i < j then j else i);
  }
}
