/**
 The books of a budget account, over any sequence of operations: what was reserved is what is still
 reserved, what was consumed and what was given back.
 */
module BudgetBalance {
  import opened BudgetLedger
  import opened Codec
  import opened Numbers
  import opened Sequences
  import opened Text

  function After(accounts: Accounts, ops: seq<Operation>): Accounts {
    if ops == [] then accounts else MemoryStep(After(accounts, ops[..|ops| - 1]), Last(ops)).0
  }

  // ---------------------------------------------------------------- what operations ask for, and get

  /** The units that the operation reserves on the account. */
  function Credit(op: Operation, a: string): nat {
    if op.Reserve? && op.account == a then op.units else 0
  }

  /** The units that the operation consumes: all it asks for, where the reply is no error. */
  function Spend(accounts: Accounts, op: Operation, a: string): nat {
    if op.Consume? && op.account == a && MemoryStep(accounts, op).1 == Done then op.units else 0
  }

  /** The units that the operation gives back: what it asks for, as far as there is that much. */
  function GiveBack(accounts: Accounts, op: Operation, a: string): nat {
    if op.Refund? && op.account == a then Min(op.units, ReservedUnits(accounts, a)) else 0
  }

  function Credited(ops: seq<Operation>, a: string): nat {
    if ops == [] then 0 else Credited(ops[..|ops| - 1], a) + Credit(Last(ops), a)
  }

  function Spent(accounts: Accounts, ops: seq<Operation>, a: string): nat {
    if ops == [] then 0
    else Spent(accounts, ops[..|ops| - 1], a) + Spend(After(accounts, ops[..|ops| - 1]), Last(ops), a)
  }

  function GivenBack(accounts: Accounts, ops: seq<Operation>, a: string): nat {
    if ops == [] then 0
    else GivenBack(accounts, ops[..|ops| - 1], a) + GiveBack(After(accounts, ops[..|ops| - 1]), Last(ops), a)
  }

  // ---------------------------------------------------------------- the balance

  lemma StepBalances(accounts: Accounts, op: Operation, a: string)
    requires ReservedUnits(accounts, a) + Credit(op, a) <= U64_MAX
    requires ConsumedUnits(accounts, a) + Spend(accounts, op, a) <= U64_MAX
    ensures var after := MemoryStep(accounts, op).0;
            && ReservedUnits(after, a) + Spend(accounts, op, a) + GiveBack(accounts, op, a)
               == ReservedUnits(accounts, a) + Credit(op, a)
            && ConsumedUnits(after, a) == ConsumedUnits(accounts, a) + Spend(accounts, op, a)
    ensures Spend(accounts, op, a) <= ReservedUnits(accounts, a)
  {
  }

  lemma SpendIsCovered(accounts: Accounts, op: Operation, a: string)
    ensures Spend(accounts, op, a) <= ReservedUnits(accounts, a)
  {
  }

  /**
   Over any sequence of operations whose reservations fit 64 bits on top of the account: what was
   there and what was reserved is what is reserved now, what was consumed, and what was given back;
   and what is consumed has grown by what consumptions asked for that were not refused.
   */
  lemma {:induction false} AccountBalances(accounts: Accounts, ops: seq<Operation>, a: string)
    requires ReservedUnits(accounts, a) + ConsumedUnits(accounts, a) + Credited(ops, a) <= U64_MAX
    ensures ReservedUnits(After(accounts, ops), a) + Spent(accounts, ops, a) + GivenBack(accounts, ops, a)
         == ReservedUnits(accounts, a) + Credited(ops, a)
    ensures ConsumedUnits(After(accounts, ops), a) == ConsumedUnits(accounts, a) + Spent(accounts, ops, a)
  {
    if ops != [] {
      var front := ops[..|ops| - 1];
      AccountBalances(accounts, front, a);
      SpendIsCovered(After(accounts, front), Last(ops), a);
      StepBalances(After(accounts, front), Last(ops), a);
    }
  }

  // ---------------------------------------------------------------- replies

  /** The account existed, or some operation has reserved on it. */
  ghost predicate Opened(accounts: Accounts, ops: seq<Operation>, a: string) {
    a in accounts || exists i :: 0 <= i < |ops| && ops[i].Reserve? && ops[i].account == a
  }

  lemma {:induction false} OpenIffOpened(accounts: Accounts, ops: seq<Operation>, a: string)
    ensures a in After(accounts, ops) <==> Opened(accounts, ops, a)
  {
    if ops != [] {
      var front, op := ops[..|ops| - 1], Last(ops);
      OpenIffOpened(accounts, front, a);
      assert ops == front + [op];
      if Opened(accounts, front, a) && a !in accounts {
        var i :| 0 <= i < |front| && front[i].Reserve? && front[i].account == a;
        assert ops[i].Reserve? && ops[i].account == a;
      }
      if op.Reserve? && op.account == a {
        assert ops[|front|] == op;
      }
      if Opened(accounts, ops, a) && a !in accounts {
        var i :| 0 <= i < |ops| && ops[i].Reserve? && ops[i].account == a;
        assert i < |front| ==> front[i] == ops[i];
      }
    }
  }

  /** Consumption and refund fail on an account that was never opened; consumption, too, where too little is left. */
  lemma RepliesTell(accounts: Accounts, ops: seq<Operation>, a: string, units: u64)
    requires ReservedUnits(accounts, a) + ConsumedUnits(accounts, a) + Credited(ops, a) <= U64_MAX
    ensures var t := After(accounts, ops);
            && MemoryStep(t, Consume(a, units)).1 ==
               (if !Opened(accounts, ops, a) then NotFound
                else if Spent(accounts, ops, a) + GivenBack(accounts, ops, a) + units
                        <= ReservedUnits(accounts, a) + Credited(ops, a) then Done
                else Insufficient)
            && MemoryStep(t, Refund(a, units)).1 == (if Opened(accounts, ops, a) then Done else NotFound)
            && (MemoryStep(t, Snapshot(a)).1 == Found(None) <==> !Opened(accounts, ops, a))
  {
    AccountBalances(accounts, ops, a);
    OpenIffOpened(accounts, ops, a);
  }

  /** An account keeps its id, and the tenant that it was opened for. */
  lemma {:induction false} TenantIsFirst(accounts: Accounts, ops: seq<Operation>, a: string, i: nat)
    requires a !in accounts && i < |ops| && ops[i].Reserve? && ops[i].account == a
    requires forall j :: 0 <= j < i ==> !(ops[j].Reserve? && ops[j].account == a)
    ensures var t := After(accounts, ops); a in t && t[a].accountId == a && t[a].tenantId == ops[i].tenant
  {
    var front := ops[..|ops| - 1];
    if i == |front| {
      OpenIffOpened(accounts, front, a);
    } else {
      TenantIsFirst(accounts, front, a, i);
    }
  }

  // ---------------------------------------------------------------- the same on a log

  function LogAfter(log: string, ops: seq<Operation>): string {
    if ops == [] then log else FileStep(LogAfter(log, ops[..|ops| - 1]), Last(ops)).0
  }

  /** After any sequence of operations a log folds to the accounts that the same operations leave in memory. */
  lemma {:induction false} LogFoldsToAccounts(log: string, ops: seq<Operation>)
    requires Terminated(log)
    ensures Terminated(LogAfter(log, ops)) && Load(LogAfter(log, ops)) == After(Load(log), ops)
  {
    if ops != [] {
      LogFoldsToAccounts(log, ops[..|ops| - 1]);
      StepsAgree(LogAfter(log, ops[..|ops| - 1]), Last(ops));
    }
  }

  // ---------------------------------------------------------------- lines that are no events

  /** A line that is not an event changes nothing, wherever in the log it stands. */
  lemma {:induction false} MalformedLineIsSkipped(before: seq<string>, line: string, behind: seq<string>)
    requires DecodeEvent(line) == None
    ensures FoldLines(before + [line] + behind) == FoldLines(before + behind)
  {
    var all, rest := before + [line] + behind, before + behind;
    if behind == [] {
      assert all[..|all| - 1] == before && rest == before;
    } else {
      var front := behind[..|behind| - 1];
      MalformedLineIsSkipped(before, line, front);
      assert all[..|all| - 1] == before + [line] + front && rest[..|rest| - 1] == before + front;
    }
  }

  /** A line of an unknown kind opens its account, and moves no units. */
  lemma UnknownKindOpensAccount(lines: seq<string>, e: Event, a: string)
    requires !KnownKind(e.kind) && Free(e.kind, '|') && Free(e.kind, '\n') && Free(e.kind, '\r')
    ensures var before, t := FoldLines(lines), FoldLines(lines + [EncodeEvent(e)]);
            && (a in t <==> a in before || a == e.account)
            && ReservedUnits(t, a) == ReservedUnits(before, a) && ConsumedUnits(t, a) == ConsumedUnits(before, a)
  {
    EventRoundTrip(e);
    assert (lines + [EncodeEvent(e)])[..|lines|] == lines;
  }

  /** The line of an event holds its kind, its account and its tenant in Base16, and its units in decimal. */
  lemma EventLine(e: Event)
    requires Free(e.kind, '|')
    ensures Split(EncodeEvent(e), '|') == [e.kind, EncodeField(e.account), EncodeField(e.tenant), PrintNat(e.units)]
  {
    EventFieldsAreFree(e, '|');
    SplitJoin(EventFields(e), '|');
  }
}
