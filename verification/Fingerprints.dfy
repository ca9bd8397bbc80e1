/**
 What a fingerprint tells: taken apart at the bars, the text behind it is the closure, the supply
 chain and the outputs of the execution, so that two returned records share a fingerprint only
 when these agree.
 */
module Fingerprints {
  import opened Kernel
  import KernelAccounting
  import opened KernelRecords
  import opened Replay
  import Scheduler
  import opened Sorting
  import opened Text

  /** No part of the closure or of the supply chain contains a bar. */
  ghost predicate FreeOfBars(closure: Closure, supply: SupplyChain) {
    && Free(closure.flakeLockDigest, '|') && Free(closure.derivationDigest, '|')
    && AllFree(closure.storePaths, '|') && Free(closure.runtimeClosureHash, '|')
    && Free(closure.generationId, '|') && Free(closure.configDigest, '|')
    && Free(supply.verifierDigest, '|') && Free(supply.policyBundleDigest, '|')
    && Free(supply.capabilityPackageDigest, '|')
  }

  /** The parts in front of the store paths, and those behind them. */
  function BeforePaths(closure: Closure): seq<string> {
    [closure.flakeLockDigest, closure.derivationDigest]
  }

  function BehindPaths(
    digest: Digest, closure: Closure, supply: SupplyChain, paths: seq<string>, outs: seq<Scheduler.Output>): seq<string>
  {
    [digest(Join(paths, '|')), closure.runtimeClosureHash, supply.policyBundleDigest, supply.capabilityPackageDigest,
     supply.verifierDigest, closure.configDigest, closure.generationId, digest(OutputDigests(digest, outs))]
  }

  lemma PathsAreFree(paths: seq<string>, storePaths: seq<string>)
    requires InOrder(paths, storePaths) && AllFree(storePaths, '|')
    ensures AllFree(Padded(paths), '|')
  {
    forall i | 0 <= i < |paths| ensures Free(paths[i], '|') {
      assert paths[i] in multiset(paths);
      assert paths[i] in storePaths;
    }
  }

  /**
   Taken apart at the bars, the text behind a fingerprint is the list of its parts, each store path
   one of its own: eleven pieces where there is at most one path.
   */
  lemma FingerprintPieces(
    digest: Digest, closure: Closure, supply: SupplyChain, paths: seq<string>, outs: seq<Scheduler.Output>)
    requires HexLike(digest) && FreeOfBars(closure, supply) && InOrder(paths, closure.storePaths)
    ensures Split(Join(FingerprintParts(digest, closure, supply, paths, outs), '|'), '|') ==
            BeforePaths(closure) + Padded(paths) + BehindPaths(digest, closure, supply, paths, outs)
    ensures |paths| <= 1 ==> |Split(Join(FingerprintParts(digest, closure, supply, paths, outs), '|'), '|')| == 11
  {
    var front, middle, back :=
      BeforePaths(closure), Padded(paths), BehindPaths(digest, closure, supply, paths, outs);
    PathsAreFree(paths, closure.storePaths);
    assert AllFree(front + middle + back, '|') by {
      assert AllFree(front, '|') && AllFree(back, '|');
      AllFreeAppend(front, middle, '|');
      AllFreeAppend(front + middle, back, '|');
    }
    SplitJoin(front + middle + back, '|');
    PartsAsOne(front, middle, back);
    assert Join(middle, '|') == Join(paths, '|');
    assert front + [Join(paths, '|')] + back == FingerprintParts(digest, closure, supply, paths, outs);
  }

  lemma AllFreeAppend(a: seq<string>, b: seq<string>, c: char)
    requires AllFree(a, c) && AllFree(b, c)
    ensures AllFree(a + b, c)
  {
  }

  lemma PartsAsOne(front: seq<string>, middle: seq<string>, back: seq<string>)
    requires front != [] && middle != [] && back != []
    ensures Join(front + [Join(middle, '|')] + back, '|') == Join(front + middle + back, '|')
  {
    JoinAppend(front + [Join(middle, '|')], back, '|');
    JoinAppend(front, [Join(middle, '|')], '|');
    JoinAppend(front + middle, back, '|');
    JoinAppend(front, middle, '|');
  }

  /** The same closure up to the order of its store paths, not telling no path from one empty path. */
  ghost predicate SameClosure(a: Closure, b: Closure) {
    && multiset(Padded(a.storePaths)) == multiset(Padded(b.storePaths))
    && b == a.(storePaths := b.storePaths)
  }

  lemma SortedPathsAgree(a: seq<string>, b: seq<string>, storeA: seq<string>, storeB: seq<string>)
    requires InOrder(a, storeA) && InOrder(b, storeB)
    ensures multiset(Padded(storeA)) == multiset(Padded(storeB)) <==> Padded(a) == Padded(b)
  {
    assert multiset(Padded(a)) == multiset(Padded(storeA)) by {
      assert a == [] <==> storeA == [] by {
        assert |multiset(a)| == |a| && |multiset(storeA)| == |storeA|;
      }
    }
    assert multiset(Padded(b)) == multiset(Padded(storeB)) by {
      assert b == [] <==> storeB == [] by {
        assert |multiset(b)| == |b| && |multiset(storeB)| == |storeB|;
      }
    }
    if multiset(Padded(storeA)) == multiset(Padded(storeB)) {
      StrLeqIsOrder();
      SortedIsUniqueOn(StrLeq, Padded(a), Padded(a), Padded(b));
    }
  }

  /** What is fingerprinted: the text whose digest the fingerprint is. */
  function Fingerprinted(digest: Digest, r: Request, record: ExecutionRecord, outs: seq<Scheduler.Output>): string {
    Join(FingerprintParts(digest, r.closure, r.supply, record.material.canonicalStorePaths, outs), '|')
  }

  lemma PiecesTellApart(
    digest: Digest, a: Request, pathsA: seq<string>, outsA: seq<Scheduler.Output>,
    b: Request, pathsB: seq<string>, outsB: seq<Scheduler.Output>)
    requires InOrder(pathsA, a.closure.storePaths) && InOrder(pathsB, b.closure.storePaths)
    requires NoCollision(digest, {OutputDigests(digest, outsA), OutputDigests(digest, outsB)})
    requires BeforePaths(a.closure) + Padded(pathsA) + BehindPaths(digest, a.closure, a.supply, pathsA, outsA)
          == BeforePaths(b.closure) + Padded(pathsB) + BehindPaths(digest, b.closure, b.supply, pathsB, outsB)
    ensures a.supply == b.supply && SameClosure(a.closure, b.closure)
    ensures OutputDigests(digest, outsA) == OutputDigests(digest, outsB)
  {
    var backA := BehindPaths(digest, a.closure, a.supply, pathsA, outsA);
    var backB := BehindPaths(digest, b.closure, b.supply, pathsB, outsB);
    SlicesAgree(BeforePaths(a.closure), Padded(pathsA), backA, BeforePaths(b.closure), Padded(pathsB), backB);
    SortedPathsAgree(pathsA, pathsB, a.closure.storePaths, b.closure.storePaths);
    assert BeforePaths(a.closure)[0] == BeforePaths(b.closure)[0];
    assert BeforePaths(a.closure)[1] == BeforePaths(b.closure)[1];
    assert backA[1] == backB[1] && backA[2] == backB[2] && backA[3] == backB[3] && backA[4] == backB[4];
    assert backA[5] == backB[5] && backA[6] == backB[6] && backA[7] == backB[7];
  }

  lemma AgreeingPartsAgree(
    digest: Digest, a: Request, pathsA: seq<string>, outsA: seq<Scheduler.Output>,
    b: Request, pathsB: seq<string>, outsB: seq<Scheduler.Output>)
    requires InOrder(pathsA, a.closure.storePaths) && InOrder(pathsB, b.closure.storePaths)
    requires a.supply == b.supply && SameClosure(a.closure, b.closure)
    requires OutputDigests(digest, outsA) == OutputDigests(digest, outsB)
    ensures FingerprintParts(digest, a.closure, a.supply, pathsA, outsA)
         == FingerprintParts(digest, b.closure, b.supply, pathsB, outsB)
  {
    SortedPathsAgree(pathsA, pathsB, a.closure.storePaths, b.closure.storePaths);
    assert Join(pathsA, '|') == Join(Padded(pathsA), '|') == Join(pathsB, '|');
  }

  /**
   Two records that tell what they should share a fingerprint exactly when their supply chains, their
   closures up to the order of the store paths, and the digests of their outputs are the same.
   */
  lemma RecordsShareFingerprintIff(
    digest: Digest, a: Request, outsA: seq<Scheduler.Output>, recordA: ExecutionRecord,
    b: Request, outsB: seq<Scheduler.Output>, recordB: ExecutionRecord)
    requires FingerprintTold(digest, a, outsA, recordA) && FingerprintTold(digest, b, outsB, recordB)
    requires HexLike(digest) && FreeOfBars(a.closure, a.supply) && FreeOfBars(b.closure, b.supply)
    requires NoCollision(digest, {OutputDigests(digest, outsA), OutputDigests(digest, outsB),
                                  Fingerprinted(digest, a, recordA, outsA), Fingerprinted(digest, b, recordB, outsB)})
    ensures recordA.fingerprint == recordB.fingerprint <==>
            && a.supply == b.supply && SameClosure(a.closure, b.closure)
            && OutputDigests(digest, outsA) == OutputDigests(digest, outsB)
  {
    var pathsA, pathsB := recordA.material.canonicalStorePaths, recordB.material.canonicalStorePaths;
    if recordA.fingerprint == recordB.fingerprint {
      assert Fingerprinted(digest, a, recordA, outsA) == Fingerprinted(digest, b, recordB, outsB);
      FingerprintPieces(digest, a.closure, a.supply, pathsA, outsA);
      FingerprintPieces(digest, b.closure, b.supply, pathsB, outsB);
      PiecesTellApart(digest, a, pathsA, outsA, b, pathsB, outsB);
    }
    if a.supply == b.supply && SameClosure(a.closure, b.closure)
       && OutputDigests(digest, outsA) == OutputDigests(digest, outsB) {
      AgreeingPartsAgree(digest, a, pathsA, outsA, b, pathsB, outsB);
    }
  }

  /** The i-th execution of a run has returned a record, and the outputs of its plan are the given ones. */
  ghost predicate ReturnedFor(digest: Digest, s: State, schedule: seq<nat>, i: nat, outs: seq<Scheduler.Output>) {
    && Started(s) && i < |s.procs| && PlanYields(s.procs[i], outs)
    && var p := Run(digest, s, schedule).procs[i]; p.phase.Done? && p.phase.outcome.Returned?
  }

  function RecordAt(digest: Digest, s: State, schedule: seq<nat>, i: nat): ExecutionRecord
    requires i < |s.procs|
    requires var p := Run(digest, s, schedule).procs[i]; p.phase.Done? && p.phase.outcome.Returned?
  {
    Run(digest, s, schedule).procs[i].phase.outcome.record
  }

  /**
   End to end: two records returned by any two executions, of one kernel or of two, in any
   interleavings, share a fingerprint exactly when the requests agree in supply chain and closure,
   up to the order of the store paths, and the outputs have the same digests.
   */
  lemma ExecutionsShareFingerprintIff(
    digest: Digest, s: State, schedule: seq<nat>, i: nat, outsI: seq<Scheduler.Output>,
    t: State, other: seq<nat>, j: nat, outsJ: seq<Scheduler.Output>)
    requires ReturnedFor(digest, s, schedule, i, outsI) && ReturnedFor(digest, t, other, j, outsJ)
    requires var a, b := s.procs[i].request, t.procs[j].request;
             && HexLike(digest) && FreeOfBars(a.closure, a.supply) && FreeOfBars(b.closure, b.supply)
             && NoCollision(digest, {OutputDigests(digest, outsI), OutputDigests(digest, outsJ),
                                     Fingerprinted(digest, a, RecordAt(digest, s, schedule, i), outsI),
                                     Fingerprinted(digest, b, RecordAt(digest, t, other, j), outsJ)})
    ensures var a, b := s.procs[i].request, t.procs[j].request;
            RecordAt(digest, s, schedule, i).fingerprint == RecordAt(digest, t, other, j).fingerprint <==>
            && a.supply == b.supply && SameClosure(a.closure, b.closure)
            && OutputDigests(digest, outsI) == OutputDigests(digest, outsJ)
  {
    ReturnedRecordTells(digest, s, schedule, i, outsI);
    ReturnedRecordTells(digest, t, other, j, outsJ);
    RequestsStay(digest, s, schedule, i);
    RequestsStay(digest, t, other, j);
    RecordsShareFingerprintIff(
      digest, s.procs[i].request, outsI, RecordAt(digest, s, schedule, i),
      t.procs[j].request, outsJ, RecordAt(digest, t, other, j));
  }

  lemma RequestsStay(digest: Digest, s: State, schedule: seq<nat>, i: nat)
    requires i < |s.procs|
    ensures Run(digest, s, schedule).procs[i].request == s.procs[i].request
  {
    KernelAccounting.RunKeepsRequests(digest, s, schedule);
  }
}
