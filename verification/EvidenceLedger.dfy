/** The evidence ledger: a list of records in memory, or a text log decoded on every read. */
module EvidenceLedger {
  import opened Codec
  import opened Sequences
  import opened Text

  const U128_MAX: nat := 0xFFFF_FFFF_FFFF_FFFF_FFFF_FFFF_FFFF_FFFF

  type u128 = x: int | 0 <= x <= U128_MAX

  datatype EvidenceRecord = EvidenceRecord(
    recordId: string, streamId: string, executionId: string, stepId: string, eventType: string,
    payloadDigest: string, prevHash: string, recordHash: string, timestampMs: u128)

  // ---------------------------------------------------------------- log lines

  function EvidenceFields(r: EvidenceRecord): seq<string> {
    [EncodeField(r.recordId), EncodeField(r.streamId), EncodeField(r.executionId), EncodeField(r.stepId),
     EncodeField(r.eventType), EncodeField(r.payloadDigest), EncodeField(r.prevHash), EncodeField(r.recordHash),
     PrintNat(r.timestampMs)]
  }

  function EncodeEvidence(r: EvidenceRecord): string {
    Join(EvidenceFields(r), '|')
  }

  function DecodeFields(p: seq<string>): Option<EvidenceRecord>
    requires |p| == 9
  {
    var recordId :- DecodeField(p[0]);
    var streamId :- DecodeField(p[1]);
    var executionId :- DecodeField(p[2]);
    var stepId :- DecodeField(p[3]);
    var eventType :- DecodeField(p[4]);
    var payloadDigest :- DecodeField(p[5]);
    var prevHash :- DecodeField(p[6]);
    var recordHash :- DecodeField(p[7]);
    var timestampMs :- ParseUnsigned(p[8], U128_MAX);
    if timestampMs > U128_MAX then None
    else Some(EvidenceRecord(recordId, streamId, executionId, stepId, eventType, payloadDigest, prevHash, recordHash,
                             timestampMs))
  }

  /** A line that is not nine well-formed fields is skipped by the reader. */
  function DecodeEvidence(line: string): Option<EvidenceRecord> {
    var p := Split(line, '|');
    if |p| != 9 then None else DecodeFields(p)
  }

  lemma FieldsDecode(r: EvidenceRecord)
    ensures DecodeFields(EvidenceFields(r)) == Some(r)
  {
    FieldRoundTrip(r.recordId);
    FieldRoundTrip(r.streamId);
    FieldRoundTrip(r.executionId);
    FieldRoundTrip(r.stepId);
    FieldRoundTrip(r.eventType);
    FieldRoundTrip(r.payloadDigest);
    FieldRoundTrip(r.prevHash);
    FieldRoundTrip(r.recordHash);
    ParsePrinted(r.timestampMs, U128_MAX);
  }

  lemma FieldsAreFree(r: EvidenceRecord, c: char)
    requires !IsHexChar(c)
    ensures AllFree(EvidenceFields(r), c)
  {
    EncodedIsFree(r.recordId, c);
    EncodedIsFree(r.streamId, c);
    EncodedIsFree(r.executionId, c);
    EncodedIsFree(r.stepId, c);
    EncodedIsFree(r.eventType, c);
    EncodedIsFree(r.payloadDigest, c);
    EncodedIsFree(r.prevHash, c);
    EncodedIsFree(r.recordHash, c);
    PrintedIsFree(r.timestampMs, c);
  }

  /** Any record, whatever its fields contain, is read back from the line it was written as. */
  lemma EvidenceRoundTrip(r: EvidenceRecord)
    ensures DecodeEvidence(EncodeEvidence(r)) == Some(r)
    ensures Free(EncodeEvidence(r), '\n') && Free(EncodeEvidence(r), '\r')
  {
    FieldsAreFree(r, '|');
    FieldsAreFree(r, '\n');
    FieldsAreFree(r, '\r');
    SplitJoin(EvidenceFields(r), '|');
    JoinFree(EvidenceFields(r), '|', '\n');
    JoinFree(EvidenceFields(r), '|', '\r');
    FieldsDecode(r);
  }

  function DecodeAll(lines: seq<string>): seq<EvidenceRecord> {
    if lines == [] then []
    else
      DecodeAll(lines[..|lines| - 1]) +
      match DecodeEvidence(Last(lines))
      case None => []
      case Some(r) => [r]
  }

  // ---------------------------------------------------------------- operations

  function Select(records: seq<EvidenceRecord>, executionId: string): seq<EvidenceRecord> {
    if records == [] then []
    else
      Select(records[..|records| - 1], executionId) +
      if Last(records).executionId == executionId then [Last(records)] else []
  }

  function OfExecution(executionId: string): EvidenceRecord -> bool {
    (r: EvidenceRecord) => r.executionId == executionId
  }

  function Itself(r: EvidenceRecord): EvidenceRecord {
    r
  }

  /** The records of the execution, all of them, and in the order of the ledger. */
  lemma {:induction false} SelectInOrder(records: seq<EvidenceRecord>, executionId: string)
    ensures IsSelection(records, OfExecution(executionId), Itself, Select(records, executionId))
  {
    if records == [] {
      NothingSelected(OfExecution(executionId), Itself);
    } else {
      var front := records[..|records| - 1];
      SelectInOrder(front, executionId);
      SelectionSnoc(front, Last(records), OfExecution(executionId), Itself, Select(front, executionId));
      assert records == front + [Last(records)];
    }
  }

  lemma {:induction false} DecodeAllIsCollected(lines: seq<string>)
    ensures DecodeAll(lines) == Collect(DecodeEvidence, lines)
  {
    if lines != [] {
      DecodeAllIsCollected(lines[..|lines| - 1]);
    }
  }

  lemma DecodeAllAppend(a: seq<string>, b: seq<string>)
    ensures DecodeAll(a + b) == DecodeAll(a) + DecodeAll(b)
  {
    DecodeAllIsCollected(a);
    DecodeAllIsCollected(b);
    DecodeAllIsCollected(a + b);
    CollectAppend(DecodeEvidence, a, b);
  }

  /** A line that is not a record changes nothing, wherever in the log it stands. */
  lemma MalformedLineIsSkipped(before: seq<string>, line: string, behind: seq<string>)
    requires DecodeEvidence(line) == None
    ensures DecodeAll(before + [line] + behind) == DecodeAll(before + behind)
  {
    DecodeAllSnoc(before, line);
    assert DecodeAll(before) + [] == DecodeAll(before);
    DecodeAllAppend(before + [line], behind);
    DecodeAllAppend(before, behind);
  }

  /** The line of a record holds its eight texts in Base16 and its time in decimal, in this order. */
  lemma EvidenceLine(r: EvidenceRecord)
    ensures Split(EncodeEvidence(r), '|') ==
            [EncodeField(r.recordId), EncodeField(r.streamId), EncodeField(r.executionId), EncodeField(r.stepId),
             EncodeField(r.eventType), EncodeField(r.payloadDigest), EncodeField(r.prevHash),
             EncodeField(r.recordHash), PrintNat(r.timestampMs)]
  {
    FieldsAreFree(r, '|');
    SplitJoin(EvidenceFields(r), '|');
  }

  datatype Operation = Append(record: EvidenceRecord) | ByExecution(executionId: string)

  /** Reply of an append is None, of a query the selected records. */
  type Reply = Option<seq<EvidenceRecord>>

  function MemoryStep(records: seq<EvidenceRecord>, op: Operation): (seq<EvidenceRecord>, Reply) {
    match op
    case Append(r) => (records + [r], None)
    case ByExecution(id) => (records, Some(Select(records, id)))
  }

  function FileStep(log: string, op: Operation): (string, Reply) {
    match op
    case Append(r) => (log + (EncodeEvidence(r) + "\n"), None)
    case ByExecution(id) => (log, Some(Select(DecodeAll(Lines(log)), id)))
  }

  function MemoryReplies(records: seq<EvidenceRecord>, ops: seq<Operation>): seq<Reply>
    decreases |ops|
  {
    if ops == [] then []
    else
      var (after, reply) := MemoryStep(records, ops[0]);
      [reply] + MemoryReplies(after, ops[1..])
  }

  function FileReplies(log: string, ops: seq<Operation>): seq<Reply>
    decreases |ops|
  {
    if ops == [] then []
    else
      var (after, reply) := FileStep(log, ops[0]);
      [reply] + FileReplies(after, ops[1..])
  }

  lemma EncodedIsNotEmpty(r: EvidenceRecord)
    ensures EncodeEvidence(r) != ""
  {
    var f := EvidenceFields(r);
    assert Join(f, '|') == f[0] + ['|'] + Join(f[1..], '|');
  }

  lemma DecodeAllSnoc(lines: seq<string>, line: string)
    ensures DecodeAll(lines + [line]) == DecodeAll(lines) +
            match DecodeEvidence(line) case None => [] case Some(r) => [r]
  {
    assert (lines + [line])[..|lines|] == lines;
  }

  lemma FirstFieldDecodes(p: seq<string>, r: EvidenceRecord)
    requires |p| == 9 && DecodeFields(p) == Some(r)
    ensures DecodeField(p[0]) == Some(r.recordId)
  {
  }

  /** A record written behind an unterminated line is not read back. */
  lemma GarbledLine(p: string, r: EvidenceRecord)
    requires p != ""
    ensures DecodeEvidence(p + EncodeEvidence(r)) != Some(r)
    ensures DecodeEvidence(p).Some? ==> DecodeEvidence(p + EncodeEvidence(r)) == None
  {
    FieldsAreFree(r, '|');
    SplitJoin(EvidenceFields(r), '|');
    SplitCounts(p, EncodeEvidence(r), '|');
    var pieces := Split(p + EncodeEvidence(r), '|');
    if |pieces| == 9 && DecodeFields(pieces) == Some(r) {
      SplitPrefixed(p, EncodeEvidence(r), '|');
      PrefixedFieldDiffers(p, r.recordId);
      FirstFieldDecodes(pieces, r);
    }
  }

  /**
   Appending adds exactly the record to what the log decodes to if and only if the file ends
   with a line break, as every file written by the ledger does.
   */
  lemma AppendExtendsLog(log: string, r: EvidenceRecord)
    ensures Terminated(log + (EncodeEvidence(r) + "\n"))
    ensures Terminated(log) <==> DecodeAll(Lines(log + (EncodeEvidence(r) + "\n"))) == DecodeAll(Lines(log)) + [r]
  {
    EvidenceRoundTrip(r);
    EncodedIsNotEmpty(r);
    AppendLine(log, EncodeEvidence(r));
    NothingRemainsIffTerminated(log);
    LinesAreFullPlusRemainder(log);
    var full, rest := FullLines(log), Remainder(log);
    if Terminated(log) {
      DecodeAllSnoc(Lines(log), EncodeEvidence(r));
    } else {
      DecodeAllSnoc(full, rest);
      DecodeAllSnoc(full, rest + EncodeEvidence(r));
      GarbledLine(rest, r);
      NotExtended(DecodeAll(full), DecodeEvidence(rest), DecodeEvidence(rest + EncodeEvidence(r)), r);
    }
  }

  lemma NotExtended(
    full: seq<EvidenceRecord>, before: Option<EvidenceRecord>, after: Option<EvidenceRecord>, r: EvidenceRecord)
    requires after != Some(r) && (before.Some? ==> after == None)
    ensures full + (match after case None => [] case Some(x) => [x])
         != full + (match before case None => [] case Some(x) => [x]) + [r]
  {
    if after.Some? {
      assert (full + [after.value])[|full|] != (full + [r])[|full|];
      assert full + [] == full;
    }
  }

  /** No sequence of operations can tell the file ledger from the in-memory one. */
  lemma {:induction false} LedgersAgree(records: seq<EvidenceRecord>, log: string, ops: seq<Operation>)
    requires Terminated(log) && DecodeAll(Lines(log)) == records
    ensures MemoryReplies(records, ops) == FileReplies(log, ops)
    decreases |ops|
  {
    if ops != [] {
      if ops[0].Append? {
        AppendExtendsLog(log, ops[0].record);
      }
      LedgersAgree(MemoryStep(records, ops[0]).0, FileStep(log, ops[0]).0, ops[1..]);
    }
  }

  lemma {:induction false} SelectNothing(records: seq<EvidenceRecord>, id: string)
    requires forall i :: 0 <= i < |records| ==> records[i].executionId != id
    ensures Select(records, id) == []
  {
    if records != [] {
      SelectNothing(records[..|records| - 1], id);
    }
  }

  lemma SelectLast(records: seq<EvidenceRecord>, r: EvidenceRecord, id: string)
    requires forall i :: 0 <= i < |records| ==> records[i].executionId != id
    ensures Select(records + [r], id) == if r.executionId == id then [r] else []
  {
    SelectNothing(records, id);
    assert (records + [r])[..|records|] == records;
  }

  /** Behind an unterminated log, a record under an id not yet used is not found. */
  lemma UnterminatedRecordIsLost(log: string, r: EvidenceRecord)
    requires !Terminated(log)
    requires forall e :: e in DecodeAll(FullLines(log)) ==> e.executionId != r.executionId
    ensures Select(DecodeAll(Lines(log + (EncodeEvidence(r) + "\n"))), r.executionId) != [r]
  {
    var full, line := FullLines(log), Remainder(log) + EncodeEvidence(r);
    NothingRemainsIffTerminated(log);
    EvidenceRoundTrip(r);
    EncodedIsNotEmpty(r);
    AppendLine(log, EncodeEvidence(r));
    GarbledLine(Remainder(log), r);
    DecodeAllSnoc(full, line);
    var records := DecodeAll(full);
    forall i | 0 <= i < |records| ensures records[i].executionId != r.executionId {
      assert records[i] in records;
    }
    match DecodeEvidence(line)
    case None =>
      SelectNothing(records, r.executionId);
      assert records + [] == records;
    case Some(e) => SelectLast(records, e, r.executionId);
  }

  lemma TwoReplies(records: seq<EvidenceRecord>, log: string, r: EvidenceRecord, id: string)
    ensures MemoryReplies(records, [Append(r), ByExecution(id)]) == [None, Some(Select(records + [r], id))]
    ensures FileReplies(log, [Append(r), ByExecution(id)])
         == [None, Some(Select(DecodeAll(Lines(log + (EncodeEvidence(r) + "\n"))), id))]
  {
    var after := log + (EncodeEvidence(r) + "\n");
    var rest := [Append(r), ByExecution(id)][1..];
    assert rest == [ByExecution(id)] && rest[1..] == [];
    assert MemoryReplies(records + [r], rest) == [Some(Select(records + [r], id))];
    assert FileReplies(after, rest) == [Some(Select(DecodeAll(Lines(after)), id))];
  }

  function Ids(records: seq<EvidenceRecord>): set<string> {
    set i | 0 <= i < |records| :: records[i].executionId
  }

  /** Behind an unterminated log an append and a query tell the two ledgers apart. */
  lemma UnterminatedLedgersDiffer(log: string) returns (ops: seq<Operation>)
    requires !Terminated(log)
    ensures MemoryReplies(DecodeAll(Lines(log)), ops) != FileReplies(log, ops)
  {
    var records, full := DecodeAll(Lines(log)), DecodeAll(FullLines(log));
    var id := FreshText(Ids(records) + Ids(full));
    var r := EvidenceRecord("", "", id, "", "", "", "", "", 0);
    ops := [Append(r), ByExecution(id)];
    forall i | 0 <= i < |records| ensures records[i].executionId != id {
      assert records[i].executionId in Ids(records);
    }
    forall e | e in full ensures e.executionId != id {
      var i :| 0 <= i < |full| && full[i] == e;
      assert full[i].executionId in Ids(full);
    }
    SelectLast(records, r, id);
    UnterminatedRecordIsLost(log, r);
    TwoReplies(records, log, r, id);
    assert MemoryReplies(records, ops)[1] != FileReplies(log, ops)[1];
  }

  /** The two ledgers agree on every sequence of operations exactly when the log ends in a line break. */
  lemma LedgersAgreeIffTerminated(log: string)
    ensures Terminated(log) <==> forall ops :: MemoryReplies(DecodeAll(Lines(log)), ops) == FileReplies(log, ops)
  {
    var records := DecodeAll(Lines(log));
    if Terminated(log) {
      forall ops ensures MemoryReplies(records, ops) == FileReplies(log, ops) {
        LedgersAgree(records, log, ops);
      }
    } else {
      var ops := UnterminatedLedgersDiffer(log);
      assert MemoryReplies(records, ops) != FileReplies(log, ops);
    }
  }

  lemma FreshLedgersAgree(ops: seq<Operation>)
    ensures MemoryReplies([], ops) == FileReplies("", ops)
  {
    LedgersAgree([], "", ops);
  }

  // ---------------------------------------------------------------- ledger objects

  method SelectRecords(records: seq<EvidenceRecord>, executionId: string) returns (found: seq<EvidenceRecord>)
    ensures found == Select(records, executionId)
    ensures IsSelection(records, OfExecution(executionId), Itself, found)
  {
    SelectInOrder(records, executionId);
    found := [];
    for i := 0 to |records|
      invariant found == Select(records[..i], executionId)
    {
      assert records[..i + 1][..i] == records[..i];
      if records[i].executionId == executionId {
        found := found + [records[i]];
      }
    }
    assert records[..|records|] == records;
  }

  method DecodeLines(lines: seq<string>) returns (records: seq<EvidenceRecord>)
    ensures records == DecodeAll(lines)
  {
    records := [];
    for i := 0 to |lines|
      invariant records == DecodeAll(lines[..i])
    {
      assert lines[..i + 1][..i] == lines[..i];
      var decoded := DecodeEvidence(lines[i]);
      if decoded.Some? {
        records := records + [decoded.value];
      }
    }
    assert lines[..|lines|] == lines;
  }

  class InMemoryLedger {
    var records: seq<EvidenceRecord>

    constructor ()
      ensures records == []
    {
      records := [];
    }

    method Append(record: EvidenceRecord)
      modifies this
      ensures records == old(records) + [record]
    {
      records := records + [record];
    }

    method ByExecution(executionId: string) returns (found: seq<EvidenceRecord>)
      ensures found == Select(records, executionId) && IsSelection(records, OfExecution(executionId), Itself, found)
    {
      found := SelectRecords(records, executionId);
    }
  }

  class FileLedger {
    var log: string

    ghost predicate Valid()
      reads this
    {
      Terminated(log)
    }

    ghost function Contents(): seq<EvidenceRecord>
      reads this
    {
      DecodeAll(Lines(log))
    }

    /** Opens a new file, or one left by an earlier ledger. */
    constructor (existing: string)
      ensures log == existing
    {
      log := existing;
    }

    method Append(record: EvidenceRecord)
      modifies this
      ensures Valid()
      ensures old(Valid()) <==> Contents() == old(Contents()) + [record]
      ensures log == FileStep(old(log), Operation.Append(record)).0
    {
      AppendExtendsLog(log, record);
      log := log + (EncodeEvidence(record) + "\n");
    }

    method ByExecution(executionId: string) returns (found: seq<EvidenceRecord>)
      ensures found == Select(Contents(), executionId)
      ensures IsSelection(Contents(), OfExecution(executionId), Itself, found)
    {
      var records := DecodeLines(Lines(log));
      found := SelectRecords(records, executionId);
    }
  }
}
