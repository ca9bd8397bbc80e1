/** The life cycle of one kernel execution. */
module StateMachine {
  import opened Sequences

  datatype Status =
    | PendingAdmission | Admitted | Enforcing | Executing | RecordingEvidence | Verifying
    | Rejected | Failed | RolledBack | Completed

  predicate CanTransition(from: Status, next: Status) {
    match (from, next)
    case (PendingAdmission, Admitted) => true
    case (PendingAdmission, Rejected) => true
    case (Admitted, Enforcing) => true
    case (Enforcing, Executing) => true
    case (Enforcing, Rejected) => true
    case (Executing, RecordingEvidence) => true
    case (Executing, Failed) => true
    case (RecordingEvidence, Verifying) => true
    case (RecordingEvidence, Failed) => true
    case (Verifying, Completed) => true
    case (Verifying, Failed) => true
    case (Failed, RolledBack) => true
    case _ => false
  }

  predicate IsTerminal(s: Status) {
    s.Completed? || s.Rejected? || s.Failed? || s.RolledBack?
  }

  predicate AllowsSideEffect(s: Status) {
    s.Executing?
  }

  predicate AllowsLedgerWrite(s: Status) {
    s.RecordingEvidence?
  }

  class Machine {
    var state: Status

    constructor ()
      ensures state == PendingAdmission
    {
      state := PendingAdmission;
    }

    method Transit(next: Status) returns (ok: bool)
      modifies this
      ensures ok == CanTransition(old(state), next)
      ensures state == if ok then next else old(state)
    {
      ok := CanTransition(state, next);
      if ok {
        state := next;
      }
    }
  }

  // ---------------------------------------------------------------- whole runs

  /** A sequence of states in which every step is a legal transition, from the initial state on. */
  ghost predicate IsRun(run: seq<Status>) {
    && run != [] && run[0] == PendingAdmission
    && forall i :: 0 <= i < |run| - 1 ==> CanTransition(run[i], run[i + 1])
  }

  const MANDATORY_PATH := [PendingAdmission, Admitted, Enforcing, Executing, RecordingEvidence, Verifying, Completed]

  /** How far along the mandatory path a state lies; failure branches lie behind it. */
  function Rank(s: Status): nat {
    match s
    case PendingAdmission => 0
    case Admitted => 1
    case Enforcing => 2
    case Executing => 3
    case RecordingEvidence => 4
    case Verifying => 5
    case Completed => 6
    case Rejected => 6
    case Failed => 6
    case RolledBack => 7
  }

  /** Every run is finite: each transition raises the rank. */
  lemma {:induction false} RunIsBounded(run: seq<Status>)
    requires IsRun(run)
    ensures |run| <= Rank(Last(run)) + 1 <= 8
    decreases |run|
  {
    if |run| > 1 {
      var front := run[..|run| - 1];
      RunIsBounded(front);
      assert CanTransition(run[|run| - 2], run[|run| - 1]);
    }
  }

  /** On a run that has not branched off, the states are exactly the mandatory ones so far. */
  lemma {:induction false} OnMandatoryPath(run: seq<Status>)
    requires IsRun(run) && Last(run) in MANDATORY_PATH
    ensures |run| <= 7 && run == MANDATORY_PATH[..|run|] && |run| == Rank(Last(run)) + 1
    decreases |run|
  {
    if |run| > 1 {
      var front := run[..|run| - 1];
      assert CanTransition(Last(front), Last(run));
      OnMandatoryPath(front);
      assert run == front + [Last(run)];
    }
  }

  /** A run completes in one way only: through every mandatory state, in order. */
  lemma CompletedMeansMandatoryPath(run: seq<Status>)
    requires IsRun(run) && Last(run) == Completed
    ensures run == MANDATORY_PATH
  {
    OnMandatoryPath(run);
    assert MANDATORY_PATH[..7] == MANDATORY_PATH;
  }

  /** Completed, Rejected and RolledBack are final; Failed, though terminal, is still rolled back. */
  lemma OnlyFailedMovesOn(s: Status)
    ensures IsTerminal(s) && (exists next :: CanTransition(s, next)) <==> s == Failed
    ensures !IsTerminal(s) ==> exists next :: CanTransition(s, next)
  {
    assert CanTransition(Failed, RolledBack);
    assert CanTransition(PendingAdmission, Admitted) && CanTransition(Admitted, Enforcing) &&
           CanTransition(Enforcing, Executing);
    assert CanTransition(Executing, Failed) && CanTransition(RecordingEvidence, Failed) &&
           CanTransition(Verifying, Failed);
  }

  // ---------------------------------------------------------------- all runs

  /** Off the mandatory path after n of its states, into the given ending. */
  function Branch(n: nat, ending: seq<Status>): seq<Status>
    requires n <= 7
  {
    MANDATORY_PATH[..n] + ending
  }

  /** The run goes as far as it can: it completes, is rejected, or fails and is rolled back. */
  ghost predicate IsMaximalRun(m: seq<Status>) {
    || m == MANDATORY_PATH
    || m == Branch(1, [Rejected]) || m == Branch(3, [Rejected])
    || m == Branch(4, [Failed, RolledBack]) || m == Branch(5, [Failed, RolledBack])
    || m == Branch(6, [Failed, RolledBack])
  }

  ghost predicate BeginsMaximalRun(run: seq<Status>) {
    run != [] && exists m :: IsMaximalRun(m) && run <= m
  }

  lemma Begins(run: seq<Status>, m: seq<Status>)
    requires IsMaximalRun(m) && run <= m && run != []
    ensures BeginsMaximalRun(run)
  {
  }

  lemma MandatoryPathIsRun()
    ensures IsRun(MANDATORY_PATH)
  {
    var m := MANDATORY_PATH;
    assert CanTransition(m[0], m[1]) && CanTransition(m[1], m[2]) && CanTransition(m[2], m[3]);
    assert CanTransition(m[3], m[4]) && CanTransition(m[4], m[5]) && CanTransition(m[5], m[6]);
  }

  lemma PrefixIsRun(run: seq<Status>, m: seq<Status>)
    requires IsRun(m) && run <= m && run != []
    ensures IsRun(run)
  {
    forall i | 0 <= i < |run| - 1 ensures CanTransition(run[i], run[i + 1]) {
      assert run[i] == m[i] && run[i + 1] == m[i + 1];
    }
  }

  lemma RunGoesOn(run: seq<Status>, next: Status)
    requires IsRun(run) && CanTransition(Last(run), next)
    ensures IsRun(run + [next])
  {
    var t := run + [next];
    forall i | 0 <= i < |t| - 1 ensures CanTransition(t[i], t[i + 1]) {
      assert i + 1 < |run| ==> t[i] == run[i] && t[i + 1] == run[i + 1];
    }
  }

  lemma BranchIsRun(n: nat, next: Status)
    requires 0 < n <= 7 && CanTransition(MANDATORY_PATH[n - 1], next)
    ensures IsRun(MANDATORY_PATH[..n]) && IsRun(Branch(n, [next]))
    ensures next == Failed ==> IsRun(Branch(n, [Failed, RolledBack]))
  {
    MandatoryPathIsRun();
    PrefixIsRun(MANDATORY_PATH[..n], MANDATORY_PATH);
    RunGoesOn(MANDATORY_PATH[..n], next);
    if next == Failed {
      RunGoesOn(Branch(n, [Failed]), RolledBack);
      assert Branch(n, [Failed]) + [RolledBack] == Branch(n, [Failed, RolledBack]);
    }
  }

  lemma MaximalRunsAreRuns(m: seq<Status>)
    requires IsMaximalRun(m)
    ensures IsRun(m)
  {
    MandatoryPathIsRun();
    assert MANDATORY_PATH[0] == PendingAdmission && MANDATORY_PATH[2] == Enforcing && MANDATORY_PATH[3] == Executing;
    assert MANDATORY_PATH[4] == RecordingEvidence && MANDATORY_PATH[5] == Verifying;
    BranchIsRun(1, Rejected);
    BranchIsRun(3, Rejected);
    BranchIsRun(4, Failed);
    BranchIsRun(5, Failed);
    BranchIsRun(6, Failed);
  }

  /** Behind a run on the mandatory path there is only the next state of it, or a branch that exists. */
  lemma MandatoryNext(n: nat, next: Status)
    requires 0 < n <= 7 && CanTransition(MANDATORY_PATH[n - 1], next)
    ensures BeginsMaximalRun(Branch(n, [next]))
  {
    if next == Rejected {
      assert n == 1 || n == 3;
      Begins(Branch(n, [Rejected]), Branch(n, [Rejected]));
    } else if next == Failed {
      assert n == 4 || n == 5 || n == 6;
      Begins(Branch(n, [Failed]), Branch(n, [Failed, RolledBack]));
    } else {
      assert n < 7 && next == MANDATORY_PATH[n];
      assert Branch(n, [next]) == MANDATORY_PATH[..n + 1];
      Begins(Branch(n, [next]), MANDATORY_PATH);
    }
  }

  lemma FailedIsRolledBack(m: seq<Status>, i: nat)
    requires IsMaximalRun(m) && i < |m| && m[i] == Failed
    ensures |m| == i + 2 && m[i + 1] == RolledBack
  {
  }

  lemma {:induction false} RunBeginsMaximalRun(run: seq<Status>)
    requires IsRun(run)
    ensures BeginsMaximalRun(run)
    decreases |run|
  {
    if |run| == 1 {
      assert run[0] == MANDATORY_PATH[0];
      Begins(run, MANDATORY_PATH);
    } else {
      var front, last := run[..|run| - 1], Last(run);
      assert run == front + [last] && CanTransition(Last(front), last);
      if Last(front) in MANDATORY_PATH {
        OnMandatoryPath(front);
        MandatoryNext(|front|, last);
      } else {
        assert Last(front) == Failed && last == RolledBack;
        RunBeginsMaximalRun(front);
        var m :| IsMaximalRun(m) && front <= m;
        assert front[|front| - 1] == m[|front| - 1] == Failed;
        FailedIsRolledBack(m, |front| - 1);
        Begins(run, m);
      }
    }
  }

  /**
   The legal runs are exactly the beginnings of six: the mandatory path, the two on which an
   execution is rejected, and the three on which it fails and is rolled back.
   */
  lemma RunsAreTheseSix(run: seq<Status>)
    ensures IsRun(run) <==> BeginsMaximalRun(run)
  {
    if IsRun(run) {
      RunBeginsMaximalRun(run);
    } else if BeginsMaximalRun(run) {
      var m :| IsMaximalRun(m) && run <= m;
      MaximalRunsAreRuns(m);
      PrefixIsRun(run, m);
    }
  }
}
