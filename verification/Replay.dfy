/**
 Rebuilding the digest of an execution's outputs from its evidence records, by following the
 hash chain from "genesis", and the fingerprint made from that digest.
 */
module Replay {
  import opened EvidenceLedger
  import opened HashChain
  import opened Sequences
  import opened Sorting
  import opened Text

  /** The digest service, left abstract; hypotheses about it are stated where they are needed. */
  type Digest = string -> string

  const GENESIS := "genesis"
  const STEP_EXECUTED := "STEP_EXECUTED"

  // ---------------------------------------------------------------- following the chain

  function OutputOf(event: EvidenceRecord): string {
    if event.eventType == STEP_EXECUTED then event.payloadDigest else ""
  }

  /** The output digests of the step events, concatenated in the given order. */
  function Outputs(events: seq<EvidenceRecord>): string {
    if events == [] then "" else OutputOf(events[0]) + Outputs(events[1..])
  }

  lemma {:induction false} OutputsAppend(a: seq<EvidenceRecord>, b: seq<EvidenceRecord>)
    ensures Outputs(a + b) == Outputs(a) + Outputs(b)
  {
    if a == [] {
      assert a + b == b;
    } else {
      assert (a + b)[1..] == a[1..] + b;
      OutputsAppend(a[1..], b);
    }
  }

  lemma OutputsSnoc(c: seq<EvidenceRecord>, e: EvidenceRecord)
    ensures Outputs(c + [e]) == Outputs(c) + OutputOf(e)
  {
    OutputsAppend(c, [e]);
    assert Outputs([e]) == OutputOf(e) + "";
    assert OutputOf(e) + "" == OutputOf(e);
  }

  function PrevHash(event: EvidenceRecord): string {
    event.prevHash
  }

  function RecordHash(event: EvidenceRecord): string {
    event.recordHash
  }

  function IndexByPrev(events: seq<EvidenceRecord>): map<string, EvidenceRecord> {
    IndexBy(PrevHash, events)
  }

  /** The events met from "genesis" on. */
  function Walk(events: seq<EvidenceRecord>): seq<EvidenceRecord> {
    WalkFrom(RecordHash, IndexByPrev(events), GENESIS, |events|)
  }

  /** The walk has met as many events as there are. */
  predicate WalkCompletes(events: seq<EvidenceRecord>) {
    events != [] && |Walk(events)| == |events|
  }

  predicate NotLater(a: EvidenceRecord, b: EvidenceRecord) {
    a.timestampMs < b.timestampMs || (a.timestampMs == b.timestampMs && StrLeq(a.recordId, b.recordId))
  }

  /** The order the outputs are taken in: along the chain, or by time when the chain is broken. */
  function ReplayOrder(events: seq<EvidenceRecord>): seq<EvidenceRecord> {
    if WalkCompletes(events) then Walk(events) else Sort(NotLater, events)
  }

  method BuildIndex(events: seq<EvidenceRecord>) returns (byPrevHash: map<string, EvidenceRecord>)
    ensures byPrevHash == IndexByPrev(events)
  {
    byPrevHash := map[];
    for i := 0 to |events|
      invariant byPrevHash == IndexByPrev(events[..i])
    {
      assert events[..i + 1][..i] == events[..i];
      byPrevHash := byPrevHash[events[i].prevHash := events[i]];
    }
    assert events[..|events|] == events;
  }

  method ConcatOutputs(events: seq<EvidenceRecord>) returns (chain: string)
    ensures chain == Outputs(events)
  {
    chain := "";
    for i := 0 to |events|
      invariant chain == Outputs(events[..i])
    {
      assert events[..i + 1] == events[..i] + [events[i]];
      OutputsAppend(events[..i], [events[i]]);
      if events[i].eventType == STEP_EXECUTED {
        chain := chain + events[i].payloadDigest;
      }
    }
    assert events[..|events|] == events;
  }

  /** What the loop has collected when it has met n more events, or None when it stops before. */
  function Follow(index: map<string, EvidenceRecord>, hash: string, n: nat, chain: string): Option<string>
    decreases n
  {
    if n == 0 then Some(chain)
    else if hash !in index then None
    else Follow(index, index[hash].recordHash, n - 1, chain + OutputOf(index[hash]))
  }

  lemma {:induction false} FollowIsWalk(index: map<string, EvidenceRecord>, hash: string, n: nat, chain: string)
    ensures var w := WalkFrom(RecordHash, index, hash, n);
            Follow(index, hash, n, chain) == if |w| == n then Some(chain + Outputs(w)) else None
    decreases n
  {
    assert chain + "" == chain;
    if n > 0 && hash in index {
      var event := index[hash];
      FollowIsWalk(index, event.recordHash, n - 1, chain + OutputOf(event));
      var rest := WalkFrom(RecordHash, index, event.recordHash, n - 1);
      assert ([event] + rest)[1..] == rest;
      assert (chain + OutputOf(event)) + Outputs(rest) == chain + (OutputOf(event) + Outputs(rest));
    }
  }

  /** The loop ends after at most as many steps as there are events, whatever they contain. */
  method OutputChainDigestFromEvidence(events: seq<EvidenceRecord>, digest: Digest) returns (r: string)
    ensures r == digest(Outputs(ReplayOrder(events)))
  {
    var byPrevHash := BuildIndex(events);
    var chain, nextPrevHash, visited := "", GENESIS, 0;
    FollowIsWalk(byPrevHash, GENESIS, |events|, "");
    assert "" + Outputs(Walk(events)) == Outputs(Walk(events));
    while nextPrevHash in byPrevHash
      invariant visited <= |events| && (visited == |events| ==> events == [])
      invariant Follow(byPrevHash, GENESIS, |events|, "") == Follow(byPrevHash, nextPrevHash, |events| - visited, chain)
      decreases |events| - visited
    {
      assert events != [];
      var event := byPrevHash[nextPrevHash];
      assert chain + "" == chain;
      if event.eventType == STEP_EXECUTED {
        chain := chain + event.payloadDigest;
      }
      nextPrevHash := event.recordHash;
      visited := visited + 1;
      if visited == |events| {
        return digest(chain);
      }
    }
    chain := ConcatOutputs(Sort(NotLater, events));
    r := digest(chain);
  }

  // ---------------------------------------------------------------- chains of evidence

  ghost predicate IsChain(c: seq<EvidenceRecord>) {
    c != [] && Linked(PrevHash, RecordHash, c, GENESIS)
  }

  ghost predicate KnownByHash(events: seq<EvidenceRecord>) {
    HashesIdentify(RecordHash, events, GENESIS)
  }

  /** Whatever order the ledger returns the events of a chain in, they are replayed in chain order. */
  lemma ChainIsReplayedInOrder(events: seq<EvidenceRecord>, c: seq<EvidenceRecord>)
    requires multiset(events) == multiset(c) && IsChain(c) && KnownByHash(c)
    ensures WalkCompletes(events) && ReplayOrder(events) == c
  {
    ChainIsWalkedInOrder(PrevHash, RecordHash, events, c, GENESIS);
  }

  /** The fallback is taken exactly when the events cannot be arranged into one chain from "genesis". */
  lemma WalkCompletesIffEvidenceChain(events: seq<EvidenceRecord>)
    requires KnownByHash(events)
    ensures WalkCompletes(events) <==> exists c :: multiset(c) == multiset(events) && IsChain(c)
    ensures WalkCompletes(events) ==> multiset(Walk(events)) == multiset(events) && IsChain(Walk(events))
  {
    if WalkCompletes(events) {
      CompletedWalkMeetsAll(PrevHash, RecordHash, events, GENESIS);
      assert multiset(Walk(events)) == multiset(events) && IsChain(Walk(events));
    }
    if c: seq<EvidenceRecord> :| multiset(c) == multiset(events) && IsChain(c) {
      IdentifyIgnoresOrder(RecordHash, events, c, GENESIS);
      ChainIsReplayedInOrder(events, c);
    }
  }

  predicate SameMoment(a: EvidenceRecord, b: EvidenceRecord) {
    a.timestampMs == b.timestampMs && a.recordId == b.recordId
  }

  /**
   Where the walk does not meet as many events as there are, all of them are taken in order of time,
   those of one time by their record ids, and those that agree in both in the order of the ledger.
   */
  lemma FallbackIsByTime(events: seq<EvidenceRecord>, e: EvidenceRecord)
    requires !WalkCompletes(events)
    ensures var order := ReplayOrder(events);
            && multiset(order) == multiset(events)
            && (forall i, j :: 0 <= i < j < |order| ==> order[i].timestampMs <= order[j].timestampMs)
            && (forall i, j :: 0 <= i < j < |order| && order[i].timestampMs == order[j].timestampMs ==>
                  StrLeq(order[i].recordId, order[j].recordId))
            && Keeping(x => SameMoment(x, e), order) == Keeping(x => SameMoment(x, e), events)
  {
    NotLaterIsPreorder();
    SortOrders(NotLater, events);
    SortPermutes(NotLater, events);
    StrLeqTotal(e.recordId, e.recordId);
    SortIsStable(NotLater, x => SameMoment(x, e), events);
  }

  lemma NotLaterIsPreorder()
    ensures TotalPreorder(NotLater)
  {
    forall a, b ensures NotLater(a, b) || NotLater(b, a) {
      StrLeqTotal(a.recordId, b.recordId);
    }
    forall a, b, c | NotLater(a, b) && NotLater(b, c) ensures NotLater(a, c) {
      if a.timestampMs == b.timestampMs == c.timestampMs {
        StrLeqTransitive(a.recordId, b.recordId, c.recordId);
      }
    }
  }

  // ---------------------------------------------------------------- record hashes

  /** What hexadecimal digests are known to be: free of the separators, and never "genesis". */
  ghost predicate HexLike(digest: Digest) {
    forall s :: Free(digest(s), ':') && Free(digest(s), '|') && digest(s) != GENESIS
  }

  /** No two of the given texts have the same digest. */
  ghost predicate NoCollision(digest: Digest, texts: set<string>) {
    forall a, b :: a in texts && b in texts && digest(a) == digest(b) ==> a == b
  }

  function RecordPrefix(executionId: string, stepId: string, input: string, output: string): string {
    executionId + ":" + stepId + ":" + input + ":" + output
  }

  /** The text hashed into a record: its own data, and the hash of the record before it. */
  function RecordText(prefix: string, prevHash: string): string {
    prefix + [':'] + prevHash
  }

  /** The previous hash can be read back as the text behind the last colon. */
  lemma PrevHashIsSuffix(a: string, x: string, b: string, y: string)
    requires Free(x, ':') && Free(y, ':') && RecordText(a, x) == RecordText(b, y)
    ensures x == y
  {
    var t := RecordText(a, x);
    assert |t| == |a| + 1 + |x| == |b| + 1 + |y|;
    assert t[|a|] == ':' && t[|b|] == ':';
    assert |a| == |b|;
    assert x == t[|a| + 1..] && y == t[|b| + 1..];
  }

  ghost predicate HashedFrom(digest: Digest, c: seq<EvidenceRecord>, prefixes: seq<string>) {
    && |prefixes| == |c|
    && forall i :: 0 <= i < |c| ==> c[i].recordHash == digest(RecordText(prefixes[i], c[i].prevHash))
  }

  function RecordTexts(c: seq<EvidenceRecord>, prefixes: seq<string>): set<string> {
    set i | 0 <= i < |c| && i < |prefixes| :: RecordText(prefixes[i], c[i].prevHash)
  }

  lemma PrevHashIsFree(digest: Digest, c: seq<EvidenceRecord>, prefixes: seq<string>, i: nat)
    requires IsChain(c) && HashedFrom(digest, c, prefixes) && HexLike(digest) && i < |c|
    ensures Free(c[i].prevHash, ':')
  {
    assert PrevHash(c[i]) == PrevOf(RecordHash, c, GENESIS, i);
    if i > 0 {
      assert c[i].prevHash == digest(RecordText(prefixes[i - 1], c[i - 1].prevHash));
    }
  }

  lemma EqualHashesEqualPrevs(digest: Digest, c: seq<EvidenceRecord>, prefixes: seq<string>, i: nat, j: nat)
    requires IsChain(c) && HashedFrom(digest, c, prefixes) && HexLike(digest)
    requires NoCollision(digest, RecordTexts(c, prefixes))
    requires i < |c| && j < |c| && c[i].recordHash == c[j].recordHash
    ensures c[i].prevHash == c[j].prevHash
  {
    PrevHashIsFree(digest, c, prefixes, i);
    PrevHashIsFree(digest, c, prefixes, j);
    var a, b := RecordText(prefixes[i], c[i].prevHash), RecordText(prefixes[j], c[j].prevHash);
    assert a in RecordTexts(c, prefixes) && b in RecordTexts(c, prefixes);
    assert a == b;
    PrevHashIsSuffix(prefixes[i], c[i].prevHash, prefixes[j], c[j].prevHash);
  }

  /**
   Hashes that chain without collision identify their records, whatever the records contain:
   equal hashes at two places would make the hashes before them equal, down to "genesis".
   */
  lemma ChainIsKnownByHash(digest: Digest, c: seq<EvidenceRecord>, prefixes: seq<string>)
    requires IsChain(c) && HashedFrom(digest, c, prefixes) && HexLike(digest)
    requires NoCollision(digest, RecordTexts(c, prefixes))
    ensures KnownByHash(c)
  {
    forall i, j | 0 <= i < |c| && 0 <= j < |c| && RecordHash(c[i]) == RecordHash(c[j])
      ensures PrevHash(c[i]) == PrevHash(c[j])
    {
      EqualHashesEqualPrevs(digest, c, prefixes, i, j);
    }
    forall i | 0 <= i < |c| ensures RecordHash(c[i]) != GENESIS {
      assert c[i].recordHash == digest(RecordText(prefixes[i], c[i].prevHash));
    }
    forall i, j | 0 <= i < j < |c| ensures RecordHash(c[i]) != RecordHash(c[j]) {
      ChainHashesDiffer(PrevHash, RecordHash, c, GENESIS, i, j);
    }
  }

  // ---------------------------------------------------------------- fingerprints

  /** The parts of the reproducible closure and of the supply chain that enter the fingerprint. */
  datatype Closure = Closure(
    flakeLockDigest: string, derivationDigest: string, storePaths: seq<string>, runtimeClosureHash: string,
    generationId: string, configDigest: string)

  datatype SupplyChain = SupplyChain(
    verifierDigest: string, policyBundleDigest: string, capabilityPackageDigest: string)

  datatype Material = Material(
    flakeLockDigest: string, derivationDigest: string, canonicalStorePaths: seq<string>, storePathsDigest: string,
    runtimeClosureHash: string, policyBundleDigest: string, wasmPluginDigest: string, verifierDigest: string,
    configDigest: string, generationId: string)

  const EMPTY_MATERIAL := Material("", "", [], "", "", "", "", "", "", "")

  function BuildMaterial(closure: Closure, supply: SupplyChain, digest: Digest): Material {
    var paths := Sort(StrLeq, closure.storePaths);
    Material(closure.flakeLockDigest, closure.derivationDigest, paths, digest(Join(paths, '|')),
             closure.runtimeClosureHash, supply.policyBundleDigest, supply.capabilityPackageDigest,
             supply.verifierDigest, closure.configDigest, closure.generationId)
  }

  function FrontParts(m: Material): seq<string> {
    [m.flakeLockDigest, m.derivationDigest]
  }

  function BackParts(m: Material, outputChainDigest: string): seq<string> {
    [m.storePathsDigest, m.runtimeClosureHash, m.policyBundleDigest, m.wasmPluginDigest, m.verifierDigest,
     m.configDigest, m.generationId, outputChainDigest]
  }

  function Payload(m: Material, outputChainDigest: string): string {
    Join(FrontParts(m) + [Join(m.canonicalStorePaths, '|')] + BackParts(m, outputChainDigest), '|')
  }

  function Fingerprint(m: Material, outputChainDigest: string, digest: Digest): string {
    digest(Payload(m, outputChainDigest))
  }

  /** The order of the store paths never matters. */
  lemma MaterialIgnoresPathOrder(a: Closure, b: Closure, supply: SupplyChain, digest: Digest)
    requires multiset(a.storePaths) == multiset(b.storePaths) && b == a.(storePaths := b.storePaths)
    ensures BuildMaterial(a, supply, digest) == BuildMaterial(b, supply, digest)
  {
    StrLeqIsOrder();
    SortIsCanonical(StrLeq, a.storePaths, b.storePaths);
  }

  /** An empty path list prints like a list of one empty path. */
  function Padded(paths: seq<string>): (r: seq<string>)
    ensures r != [] && Join(r, '|') == Join(paths, '|')
  {
    if paths == [] then [""] else paths
  }

  lemma PayloadParts(m: Material, chain: string)
    ensures Payload(m, chain) == Join(FrontParts(m) + Padded(m.canonicalStorePaths) + BackParts(m, chain), '|')
  {
    var front, paths, back := FrontParts(m), Padded(m.canonicalStorePaths), BackParts(m, chain);
    JoinAppend(front + [Join(paths, '|')], back, '|');
    JoinAppend(front, [Join(paths, '|')], '|');
    JoinAppend(front + paths, back, '|');
    JoinAppend(front, paths, '|');
  }

  ghost predicate BarFree(m: Material, chain: string) {
    AllFree(FrontParts(m), '|') && AllFree(m.canonicalStorePaths, '|') && AllFree(BackParts(m, chain), '|')
  }

  /** The same material, not telling an empty path list from a list of one empty path. */
  ghost predicate SameMaterial(a: Material, b: Material) {
    Padded(a.canonicalStorePaths) == Padded(b.canonicalStorePaths) &&
    a == b.(canonicalStorePaths := a.canonicalStorePaths)
  }

  /** Without bars in the parts and without a collision, equal fingerprints mean equal inputs. */
  lemma FingerprintDiscriminates(a: Material, chainA: string, b: Material, chainB: string, digest: Digest)
    requires BarFree(a, chainA) && BarFree(b, chainB)
    requires NoCollision(digest, {Payload(a, chainA), Payload(b, chainB)})
    ensures Fingerprint(a, chainA, digest) == Fingerprint(b, chainB, digest) <==> SameMaterial(a, b) && chainA == chainB
  {
    PayloadParts(a, chainA);
    PayloadParts(b, chainB);
    if Fingerprint(a, chainA, digest) == Fingerprint(b, chainB, digest) {
      assert Payload(a, chainA) == Payload(b, chainB);
      var p, q := Padded(a.canonicalStorePaths), Padded(b.canonicalStorePaths);
      JoinInjective(FrontParts(a) + p + BackParts(a, chainA), FrontParts(b) + q + BackParts(b, chainB), '|');
      SlicesAgree(FrontParts(a), p, BackParts(a, chainA), FrontParts(b), q, BackParts(b, chainB));
      assert BackParts(a, chainA)[0] == BackParts(b, chainB)[0];
      assert FrontParts(a)[0] == FrontParts(b)[0] && FrontParts(a)[1] == FrontParts(b)[1];
    }
  }

  lemma SlicesAgree<T>(a: seq<T>, p: seq<T>, b: seq<T>, c: seq<T>, q: seq<T>, d: seq<T>)
    requires a + p + b == c + q + d && |a| == |c| && |b| == |d|
    ensures a == c && p == q && b == d
  {
    var whole := a + p + b;
    assert a == whole[..|a|] && c == whole[..|a|];
    assert p == whole[|a|..|a| + |p|] && q == whole[|a|..|a| + |p|];
    assert b == whole[|a| + |p|..] && d == whole[|a| + |p|..];
  }
}
