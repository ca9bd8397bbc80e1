/** The budget ledger: a map of accounts in memory, or a log of events folded on every read. */
module BudgetLedger {
  import opened Codec
  import opened Numbers
  import opened Sequences
  import opened Text

  datatype Account = Account(accountId: string, tenantId: string, reserved: u64, consumed: u64)

  type Accounts = map<string, Account>

  datatype Operation =
    | Reserve(account: string, tenant: string, units: u64)
    | Consume(account: string, units: u64)
    | Refund(account: string, units: u64)
    | Snapshot(account: string)

  datatype Reply = Done | NotFound | Insufficient | Found(snapshot: Option<Account>)

  // ---------------------------------------------------------------- accounts in memory

  function ReservedUnits(accounts: Accounts, a: string): nat {
    if a in accounts then accounts[a].reserved else 0
  }

  function ConsumedUnits(accounts: Accounts, a: string): nat {
    if a in accounts then accounts[a].consumed else 0
  }

  function Entry(accounts: Accounts, account: string, tenant: string): Account {
    if account in accounts then accounts[account] else Account(account, tenant, 0, 0)
  }

  function MemoryStep(accounts: Accounts, op: Operation): (Accounts, Reply) {
    match op
    case Reserve(account, tenant, units) =>
      var entry := Entry(accounts, account, tenant);
      (accounts[account := entry.(reserved := SaturatingAdd(entry.reserved, units))], Done)
    case Consume(account, units) =>
      if account !in accounts then (accounts, NotFound)
      else
        var entry := accounts[account];
        if entry.reserved < units then (accounts, Insufficient)
        else
          (accounts[account := entry.(reserved := SaturatingSub(entry.reserved, units),
                                      consumed := SaturatingAdd(entry.consumed, units))], Done)
    case Refund(account, units) =>
      if account !in accounts then (accounts, NotFound)
      else
        var entry := accounts[account];
        (accounts[account := entry.(reserved := SaturatingSub(entry.reserved, units))], Done)
    case Snapshot(account) =>
      (accounts, Found(if account in accounts then Some(accounts[account]) else None))
  }

  // ---------------------------------------------------------------- the event log

  datatype Event = Event(kind: string, account: string, tenant: string, units: u64)

  function EventFields(e: Event): seq<string> {
    [e.kind, EncodeField(e.account), EncodeField(e.tenant), PrintNat(e.units)]
  }

  function EncodeEvent(e: Event): string {
    Join(EventFields(e), '|')
  }

  function DecodeEventFields(p: seq<string>): Option<Event>
    requires |p| == 4
  {
    var account :- DecodeField(p[1]);
    var tenant :- DecodeField(p[2]);
    var units :- ParseUnsigned(p[3], U64_MAX);
    if units > U64_MAX then None else Some(Event(p[0], account, tenant, units))
  }

  function DecodeEvent(line: string): Option<Event> {
    var p := Split(line, '|');
    if |p| != 4 then None else DecodeEventFields(p)
  }

  /** An event of an unknown kind still opens its account. */
  function ApplyEvent(accounts: Accounts, e: Event): Accounts {
    var entry := Entry(accounts, e.account, e.tenant);
    if e.kind == "reserve" then
      accounts[e.account := entry.(reserved := SaturatingAdd(entry.reserved, e.units))]
    else if e.kind == "consume" then
      accounts[e.account := entry.(reserved := SaturatingSub(entry.reserved, e.units),
                                   consumed := SaturatingAdd(entry.consumed, e.units))]
    else if e.kind == "refund" then
      accounts[e.account := entry.(reserved := SaturatingSub(entry.reserved, e.units))]
    else accounts[e.account := entry]
  }

  function ApplyLine(accounts: Accounts, line: string): Accounts {
    match DecodeEvent(line)
    case None => accounts
    case Some(e) => ApplyEvent(accounts, e)
  }

  function FoldLines(lines: seq<string>): Accounts {
    if lines == [] then map[] else ApplyLine(FoldLines(lines[..|lines| - 1]), Last(lines))
  }

  function Load(log: string): Accounts {
    FoldLines(Lines(log))
  }

  function WithEvent(log: string, e: Event): string {
    log + (EncodeEvent(e) + "\n")
  }

  function FileStep(log: string, op: Operation): (string, Reply) {
    match op
    case Reserve(account, tenant, units) => (WithEvent(log, Event("reserve", account, tenant, units)), Done)
    case Consume(account, units) =>
      if account !in Load(log) then (log, NotFound)
      else if Load(log)[account].reserved < units then (log, Insufficient)
      else (WithEvent(log, Event("consume", account, Load(log)[account].tenantId, units)), Done)
    case Refund(account, units) =>
      if account !in Load(log) then (log, NotFound)
      else (WithEvent(log, Event("refund", account, Load(log)[account].tenantId, units)), Done)
    case Snapshot(account) =>
      (log, Found(if account in Load(log) then Some(Load(log)[account]) else None))
  }

  // ---------------------------------------------------------------- agreement

  lemma EventFieldsAreFree(e: Event, c: char)
    requires !IsHexChar(c) && Free(e.kind, c)
    ensures AllFree(EventFields(e), c)
  {
    EncodedIsFree(e.account, c);
    EncodedIsFree(e.tenant, c);
    PrintedIsFree(e.units, c);
  }

  lemma EventRoundTrip(e: Event)
    requires Free(e.kind, '|') && Free(e.kind, '\n') && Free(e.kind, '\r')
    ensures DecodeEvent(EncodeEvent(e)) == Some(e)
    ensures Free(EncodeEvent(e), '\n') && Free(EncodeEvent(e), '\r')
  {
    EventFieldsAreFree(e, '|');
    EventFieldsAreFree(e, '\n');
    EventFieldsAreFree(e, '\r');
    SplitJoin(EventFields(e), '|');
    JoinFree(EventFields(e), '|', '\n');
    JoinFree(EventFields(e), '|', '\r');
    FieldRoundTrip(e.account);
    FieldRoundTrip(e.tenant);
    ParsePrinted(e.units, U64_MAX);
  }

  predicate KnownKind(kind: string) {
    kind == "reserve" || kind == "consume" || kind == "refund"
  }

  lemma KnownKindIsFree(kind: string)
    requires KnownKind(kind)
    ensures Free(kind, '|') && Free(kind, '\n') && Free(kind, '\r')
  {
  }

  lemma EncodedIsNotEmpty(e: Event)
    ensures EncodeEvent(e) != ""
  {
    var f := EventFields(e);
    assert Join(f, '|') == f[0] + ['|'] + Join(f[1..], '|');
  }

  lemma EventExtendsLog(log: string, e: Event)
    requires Terminated(log) && KnownKind(e.kind)
    ensures Terminated(WithEvent(log, e)) && Load(WithEvent(log, e)) == ApplyEvent(Load(log), e)
  {
    KnownKindIsFree(e.kind);
    EventRoundTrip(e);
    EncodedIsNotEmpty(e);
    AppendLine(log, EncodeEvent(e));
    assert (Lines(log) + [EncodeEvent(e)])[..|Lines(log)|] == Lines(log);
  }

  /** An event written behind an unterminated line is read with a kind of its own. */
  lemma ForeignKind(p: string, e: Event)
    requires Free(p, '|') && Free(e.kind, '|')
    ensures DecodeEvent(p + EncodeEvent(e)) == Some(e.(kind := p + e.kind))
  {
    EventFieldsAreFree(e, '|');
    SplitJoin(EventFields(e), '|');
    SplitPrefixed(p, EncodeEvent(e), '|');
    FieldRoundTrip(e.account);
    FieldRoundTrip(e.tenant);
    ParsePrinted(e.units, U64_MAX);
  }

  /** Behind an unterminated log the event shares a line with what the log ends in. */
  lemma EventBehindRemainder(log: string, e: Event)
    requires KnownKind(e.kind)
    ensures Load(WithEvent(log, e)) == ApplyLine(FoldLines(FullLines(log)), Remainder(log) + EncodeEvent(e))
  {
    KnownKindIsFree(e.kind);
    EventRoundTrip(e);
    EncodedIsNotEmpty(e);
    AppendLine(log, EncodeEvent(e));
    var full, line := FullLines(log), Remainder(log) + EncodeEvent(e);
    assert (full + [line])[..|full|] == full;
  }

  lemma BarsMakeForeignLine(p: string, e: Event)
    requires !Free(p, '|') && Free(e.kind, '|')
    ensures DecodeEvent(p + EncodeEvent(e)) == None
  {
    EventFieldsAreFree(e, '|');
    SplitJoin(EventFields(e), '|');
    SplitCounts(p, EncodeEvent(e), '|');
  }

  /** An unknown kind, longer than every known one. */
  lemma PrefixedKind(p: string)
    requires p != ""
    ensures !KnownKind(p + "reserve")
  {
    assert |p + "reserve"| > 7;
  }

  /** A reservation behind an unterminated log reserves nothing on an account not yet open. */
  lemma UnterminatedReservationIsLost(log: string, account: string, tenant: string, units: u64)
    requires !Terminated(log) && account !in FoldLines(FullLines(log))
    ensures var after := Load(FileStep(log, Reserve(account, tenant, units)).0);
            account !in after || after[account].reserved == 0
  {
    var e, rest := Event("reserve", account, tenant, units), Remainder(log);
    NothingRemainsIffTerminated(log);
    EventBehindRemainder(log, e);
    KnownKindIsFree(e.kind);
    if Free(rest, '|') {
      ForeignKind(rest, e);
      PrefixedKind(rest);
    } else {
      BarsMakeForeignLine(rest, e);
    }
  }

  /** One operation: equal replies, and the log again folds to the accounts. */
  lemma StepsAgree(log: string, op: Operation)
    requires Terminated(log)
    ensures var (after, reply) := FileStep(log, op);
            Terminated(after) && (Load(after), reply) == MemoryStep(Load(log), op)
  {
    match op
    case Reserve(account, tenant, units) => EventExtendsLog(log, Event("reserve", account, tenant, units));
    case Consume(account, units) =>
      if account in Load(log) && Load(log)[account].reserved >= units {
        EventExtendsLog(log, Event("consume", account, Load(log)[account].tenantId, units));
      }
    case Refund(account, units) =>
      if account in Load(log) {
        EventExtendsLog(log, Event("refund", account, Load(log)[account].tenantId, units));
      }
    case Snapshot(_) =>
  }

  function MemoryReplies(accounts: Accounts, ops: seq<Operation>): seq<Reply>
    decreases |ops|
  {
    if ops == [] then []
    else
      var (after, reply) := MemoryStep(accounts, ops[0]);
      [reply] + MemoryReplies(after, ops[1..])
  }

  function FileReplies(log: string, ops: seq<Operation>): seq<Reply>
    decreases |ops|
  {
    if ops == [] then []
    else
      var (after, reply) := FileStep(log, ops[0]);
      [reply] + FileReplies(after, ops[1..])
  }

  /** No sequence of operations can tell the file ledger from the in-memory one. */
  lemma {:induction false} LedgersAgree(log: string, ops: seq<Operation>)
    requires Terminated(log)
    ensures MemoryReplies(Load(log), ops) == FileReplies(log, ops)
    decreases |ops|
  {
    if ops != [] {
      StepsAgree(log, ops[0]);
      LedgersAgree(FileStep(log, ops[0]).0, ops[1..]);
    }
  }

  lemma TwoReplies(log: string, accounts: Accounts, first: Operation, second: Operation)
    ensures MemoryReplies(accounts, [first, second])
         == [MemoryStep(accounts, first).1, MemoryStep(MemoryStep(accounts, first).0, second).1]
    ensures FileReplies(log, [first, second])
         == [FileStep(log, first).1, FileStep(FileStep(log, first).0, second).1]
  {
    var rest := [first, second][1..];
    assert rest == [second] && rest[1..] == [];
    assert MemoryReplies(MemoryStep(accounts, first).0, rest) == [MemoryStep(MemoryStep(accounts, first).0, second).1];
    assert FileReplies(FileStep(log, first).0, rest) == [FileStep(FileStep(log, first).0, second).1];
  }

  /** Behind an unterminated log a reservation and a snapshot tell the two ledgers apart. */
  lemma UnterminatedLedgersDiffer(log: string) returns (ops: seq<Operation>)
    requires !Terminated(log)
    ensures MemoryReplies(Load(log), ops) != FileReplies(log, ops)
  {
    var account := FreshText(Load(log).Keys + FoldLines(FullLines(log)).Keys);
    var reserve, snapshot := Reserve(account, "", 1), Snapshot(account);
    ops := [reserve, snapshot];
    TwoReplies(log, Load(log), reserve, snapshot);
    UnterminatedReservationIsLost(log, account, "", 1);
    assert MemoryStep(MemoryStep(Load(log), reserve).0, snapshot).1 == Found(Some(Account(account, "", 1, 0)));
    assert MemoryReplies(Load(log), ops)[1] != FileReplies(log, ops)[1];
  }

  /** The two ledgers agree on every sequence of operations exactly when the log ends in a line break. */
  lemma LedgersAgreeIffTerminated(log: string)
    ensures Terminated(log) <==> forall ops :: MemoryReplies(Load(log), ops) == FileReplies(log, ops)
  {
    if Terminated(log) {
      forall ops ensures MemoryReplies(Load(log), ops) == FileReplies(log, ops) {
        LedgersAgree(log, ops);
      }
    } else {
      var ops := UnterminatedLedgersDiffer(log);
      assert MemoryReplies(Load(log), ops) != FileReplies(log, ops);
    }
  }

  // ---------------------------------------------------------------- ledger objects

  class InMemoryLedger {
    var accounts: Accounts

    constructor ()
      ensures accounts == map[]
    {
      accounts := map[];
    }

    method Reserve(account: string, tenant: string, units: u64)
      modifies this
      ensures accounts == MemoryStep(old(accounts), Operation.Reserve(account, tenant, units)).0
    {
      if account !in accounts {
        accounts := accounts[account := Account(account, tenant, 0, 0)];
      }
      var entry := accounts[account];
      accounts := accounts[account := entry.(reserved := SaturatingAdd(entry.reserved, units))];
    }

    method Consume(account: string, units: u64) returns (reply: Reply)
      modifies this
      ensures (accounts, reply) == MemoryStep(old(accounts), Operation.Consume(account, units))
    {
      if account !in accounts {
        return NotFound;
      }
      var entry := accounts[account];
      if entry.reserved < units {
        return Insufficient;
      }
      entry := entry.(reserved := entry.reserved - units);
      entry := entry.(consumed := SaturatingAdd(entry.consumed, units));
      accounts := accounts[account := entry];
      reply := Done;
    }

    method Refund(account: string, units: u64) returns (reply: Reply)
      modifies this
      ensures (accounts, reply) == MemoryStep(old(accounts), Operation.Refund(account, units))
    {
      if account !in accounts {
        return NotFound;
      }
      var entry := accounts[account];
      accounts := accounts[account := entry.(reserved := SaturatingSub(entry.reserved, units))];
      reply := Done;
    }

    method Snapshot(account: string) returns (found: Option<Account>)
      ensures Found(found) == MemoryStep(accounts, Operation.Snapshot(account)).1
    {
      found := if account in accounts then Some(accounts[account]) else None;
    }
  }

  class FileLedger {
    var log: string

    ghost predicate Valid()
      reads this
    {
      Terminated(log)
    }

    /** Opens a new file, or one left by an earlier ledger. */
    constructor (existing: string)
      ensures log == existing
    {
      log := existing;
    }

    method LoadAccounts() returns (accounts: Accounts)
      ensures accounts == Load(log)
    {
      var lines := Lines(log);
      accounts := map[];
      for i := 0 to |lines|
        invariant accounts == FoldLines(lines[..i])
      {
        assert lines[..i + 1][..i] == lines[..i];
        var decoded := DecodeEvent(lines[i]);
        if decoded.Some? {
          accounts := ApplyEvent(accounts, decoded.value);
        }
      }
      assert lines[..|lines|] == lines;
    }

    method Reserve(account: string, tenant: string, units: u64)
      modifies this
      ensures log == FileStep(old(log), Operation.Reserve(account, tenant, units)).0
      ensures old(Valid()) ==>
        Valid() && Load(log) == MemoryStep(Load(old(log)), Operation.Reserve(account, tenant, units)).0
    {
      if Terminated(log) {
        StepsAgree(log, Operation.Reserve(account, tenant, units));
      }
      log := WithEvent(log, Event("reserve", account, tenant, units));
    }

    method Consume(account: string, units: u64) returns (reply: Reply)
      modifies this
      ensures (log, reply) == FileStep(old(log), Operation.Consume(account, units))
      ensures old(Valid()) ==>
        Valid() && (Load(log), reply) == MemoryStep(Load(old(log)), Operation.Consume(account, units))
    {
      if Terminated(log) {
        StepsAgree(log, Operation.Consume(account, units));
      }
      var current := LoadAccounts();
      if account !in current {
        return NotFound;
      }
      if current[account].reserved < units {
        return Insufficient;
      }
      log := WithEvent(log, Event("consume", account, current[account].tenantId, units));
      reply := Done;
    }

    method Refund(account: string, units: u64) returns (reply: Reply)
      modifies this
      ensures (log, reply) == FileStep(old(log), Operation.Refund(account, units))
      ensures old(Valid()) ==>
        Valid() && (Load(log), reply) == MemoryStep(Load(old(log)), Operation.Refund(account, units))
    {
      if Terminated(log) {
        StepsAgree(log, Operation.Refund(account, units));
      }
      var current := LoadAccounts();
      if account !in current {
        return NotFound;
      }
      log := WithEvent(log, Event("refund", account, current[account].tenantId, units));
      reply := Done;
    }

    method Snapshot(account: string) returns (found: Option<Account>)
      ensures Found(found) == MemoryStep(Load(log), Operation.Snapshot(account)).1
    {
      var current := LoadAccounts();
      found := if account in current then Some(current[account]) else None;
    }
  }
}
