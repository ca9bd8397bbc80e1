/**
 Executions made one after another on one kernel object. Each call of `execute` has the effect of
 `RunAlone`, so what holds of every interleaving holds of every session.
 */
module Sessions {
  import opened EvidenceLedger
  import opened Kernel
  import KernelAccounting
  import KernelReplay
  import KernelSafety
  import KernelVerdicts
  import opened NoumenonCore
  import opened Replay
  import ReplayReuse
  import opened Resource
  import opened Sequences
  import opened StateMachine

  datatype Job = Job(request: Request, world: World)

  function Begin(job: Job): Process {
    Start(job.request, job.world)
  }

  function BeginAll(jobs: seq<Job>): (r: seq<Process>)
    ensures |r| == |jobs| && forall i :: 0 <= i < |r| ==> r[i] == Begin(jobs[i])
  {
    seq(|jobs|, i requires 0 <= i < |jobs| => Begin(jobs[i]))
  }

  /** The shared state after the jobs, and the processes as they ended. */
  function Session(digest: Digest, sh: Shared, jobs: seq<Job>): (r: (Shared, seq<Process>))
    ensures |r.1| == |jobs| && forall i :: 0 <= i < |jobs| ==> r.1[i].phase.Done?
  {
    if jobs == [] then (sh, [])
    else
      var (before, ended) := Session(digest, sh, jobs[..|jobs| - 1]);
      var (after, p) := Finish(digest, before, Begin(Last(jobs)));
      (after, ended + [p])
  }

  lemma SessionNext(digest: Digest, sh: Shared, jobs: seq<Job>, k: nat)
    requires k < |jobs|
    ensures var (before, ended) := Session(digest, sh, jobs[..k]);
            var (after, p) := Finish(digest, before, Begin(jobs[k]));
            Session(digest, sh, jobs[..k + 1]) == (after, ended + [p])
  {
    assert jobs[..k + 1][..k] == jobs[..k] && Last(jobs[..k + 1]) == jobs[k];
  }

  lemma ReplaceNext<T>(ended: seq<T>, begun: seq<T>, p: T)
    requires |ended| < |begun|
    ensures var k, all := |ended|, ended + begun[|ended|..];
            all[k] == begun[k] && all[k := p] == (ended + [p]) + begun[k + 1..]
  {
  }

  /** From the state between two jobs, running the next one to its end. */
  lemma RunNext(digest: Digest, t: State, begun: seq<Process>, ended: seq<Process>) returns (schedule: seq<nat>)
    requires |ended| < |begun| && t.procs == ended + begun[|ended|..]
    ensures var (after, p) := Finish(digest, t.shared, begun[|ended|]);
            Run(digest, t, schedule) == State(after, (ended + [p]) + begun[|ended| + 1..])
  {
    var k := |ended|;
    schedule := AloneIsASchedule(digest, t, k);
    ReplaceNext(ended, begun, Finish(digest, t.shared, begun[k]).1);
  }

  /** A session is the interleaving in which each job runs to its end before the next begins. */
  lemma {:induction false} SessionIsASchedule(digest: Digest, sh: Shared, jobs: seq<Job>, k: nat)
    returns (schedule: seq<nat>)
    requires k <= |jobs|
    ensures var (after, ended) := Session(digest, sh, jobs[..k]);
            Run(digest, State(sh, BeginAll(jobs)), schedule) == State(after, ended + BeginAll(jobs)[k..])
  {
    var s, begun := State(sh, BeginAll(jobs)), BeginAll(jobs);
    if k == 0 {
      schedule := [];
      assert begun == [] + begun[0..];
    } else {
      var first := SessionIsASchedule(digest, sh, jobs, k - 1);
      var second := RunNext(digest, Run(digest, s, first), begun, Session(digest, sh, jobs[..k - 1]).1);
      SessionNext(digest, sh, jobs, k - 1);
      RunAppend(digest, s, first, second);
      schedule := first + second;
    }
  }

  function Outcomes(ended: seq<Process>): (r: seq<Outcome>)
    requires forall i :: 0 <= i < |ended| ==> ended[i].phase.Done?
    ensures |r| == |ended| && forall i :: 0 <= i < |r| ==> r[i] == ended[i].phase.outcome
  {
    seq(|ended|, i requires 0 <= i < |ended| => ended[i].phase.outcome)
  }

  /** Calls `execute` for one job after another on one kernel object. */
  method RunJobs(core: Core, jobs: seq<Job>) returns (outcomes: seq<Outcome>)
    modifies core.evidence, core.budget, core.governor
    ensures (core.SharedState(), outcomes) ==
            var (after, ended) := Session(core.digest, old(core.SharedState()), jobs); (after, Outcomes(ended))
  {
    outcomes := [];
    ghost var start := core.SharedState();
    for i := 0 to |jobs|
      invariant var (after, ended) := Session(core.digest, start, jobs[..i]);
                core.SharedState() == after && outcomes == Outcomes(ended)
    {
      SessionNext(core.digest, start, jobs, i);
      var outcome := core.Execute(jobs[i].request, jobs[i].world);
      outcomes := outcomes + [outcome];
    }
    assert jobs[..|jobs|] == jobs;
  }

  function Opening(sh: Shared, jobs: seq<Job>): State {
    State(sh, BeginAll(jobs))
  }

  lemma WholeSession(digest: Digest, sh: Shared, jobs: seq<Job>) returns (schedule: seq<nat>)
    ensures Started(Opening(sh, jobs))
    ensures var (after, ended) := Session(digest, sh, jobs);
            Run(digest, Opening(sh, jobs), schedule) == State(after, ended)
  {
    schedule := SessionIsASchedule(digest, sh, jobs, |jobs|);
    assert jobs[..|jobs|] == jobs;
    var ended := Session(digest, sh, jobs).1;
    assert ended + BeginAll(jobs)[|jobs|..] == ended;
  }

  /**
   At the end of any session, a record returned along the way under an id that no other call left
   evidence under still replays, unless its plan had failed, and then no evidence is found for it.
   */
  lemma SessionReplays(digest: Digest, sh: Shared, jobs: seq<Job>, i: nat)
    requires i < |jobs| && HexLike(digest) && Select(sh.ledger, jobs[i].request.executionId) == []
    requires var ended := Session(digest, sh, jobs).1;
             && KernelReplay.OnlyOneRecorded(ended, i) && ended[i].phase.outcome.Returned?
             && NoCollision(digest, RecordTexts(ended[i].chain, ended[i].prefixes))
    ensures var (after, ended) := Session(digest, sh, jobs);
            var record := ended[i].phase.outcome.record;
            ReplayCheck(digest, after.ledger, record) ==
            if KernelReplay.PlanFailed(Begin(jobs[i])) then NoEvidence else Matches(record.fingerprint)
  {
    var schedule := WholeSession(digest, sh, jobs);
    KernelReplay.ReturnedRecordsReplay(digest, Opening(sh, jobs), schedule, i);
  }

  /** The other calls under the id of the i-th were rejected, or their plans failed. */
  ghost predicate OthersLeftNothing(ended: seq<Process>, i: nat)
    requires i < |ended|
  {
    forall j :: 0 <= j < |ended| && j != i && ended[j].request.executionId == ended[i].request.executionId ==>
      ended[j].status == Rejected || KernelReplay.PlanFailed(ended[j])
  }

  /** A request may be retried under its own id: only calls that were neither rejected nor failed leave evidence. */
  lemma RetriesRecordOnce(digest: Digest, sh: Shared, jobs: seq<Job>, i: nat)
    requires i < |jobs|
    ensures var ended := Session(digest, sh, jobs).1;
            KernelReplay.OnlyOneRecorded(ended, i) <==> OthersLeftNothing(ended, i)
  {
    var schedule := WholeSession(digest, sh, jobs);
    var ended := Session(digest, sh, jobs).1;
    forall j | 0 <= j < |jobs|
      ensures ended[j].chain == [] <==> ended[j].status == Rejected || KernelReplay.PlanFailed(ended[j])
    {
      KernelReplay.EndedWithoutEvidence(digest, Opening(sh, jobs), schedule, j);
    }
  }

  /** What decides, for a call that returned a record for a plan that ran, whether it replays in the end. */
  lemma SessionReplaysIff(digest: Digest, sh: Shared, jobs: seq<Job>, i: nat)
    requires i < |jobs|
    requires var (after, ended) := Session(digest, sh, jobs);
             ReplayReuse.Comparable(digest, Opening(sh, jobs), State(after, ended), i)
    ensures var (after, ended) := Session(digest, sh, jobs);
            var record := ended[i].phase.outcome.record;
            ReplayCheck(digest, after.ledger, record) ==
            if OthersLeftNothing(ended, i)
               || ReplayReuse.OutputsByTime(after.ledger, ended[i].request.executionId) == Outputs(ended[i].chain)
            then Matches(record.fingerprint) else Mismatch
  {
    var schedule := WholeSession(digest, sh, jobs);
    RetriesRecordOnce(digest, sh, jobs, i);
    ReplayReuse.ReplaysIff(digest, Opening(sh, jobs), schedule, i);
  }

  /** In particular it does not replay if another call under its id recorded some output. */
  lemma SessionReuseBreaksReplay(digest: Digest, sh: Shared, jobs: seq<Job>, i: nat, j: nat)
    requires i < |jobs| && j < |jobs| && i != j && jobs[i].request.executionId == jobs[j].request.executionId
    requires var (after, ended) := Session(digest, sh, jobs);
             && ReplayReuse.Comparable(digest, Opening(sh, jobs), State(after, ended), i)
             && Outputs(ended[j].chain) != ""
    ensures var (after, ended) := Session(digest, sh, jobs);
            ReplayCheck(digest, after.ledger, ended[i].phase.outcome.record) == Mismatch
  {
    var schedule := WholeSession(digest, sh, jobs);
    ReplayReuse.ReusedIdBreaksReplay(digest, Opening(sh, jobs), schedule, i, j);
  }

  /** Every execution of a session is safe, whatever state the kernel was in. */
  lemma SessionIsSafe(digest: Digest, sh: Shared, jobs: seq<Job>, i: nat)
    requires i < |jobs|
    ensures KernelSafety.Safe(Session(digest, sh, jobs).1[i])
  {
    var schedule := WholeSession(digest, sh, jobs);
    KernelSafety.ExecutionsAreSafe(digest, Opening(sh, jobs), schedule, i);
  }

  /**
   What each call of a session returns is explained by the answers it got: completed exactly when its
   plan ran and its outputs were verified, and refused by the first gate it did not pass.
   */
  lemma SessionIsExplained(digest: Digest, sh: Shared, jobs: seq<Job>, i: nat)
    requires i < |jobs|
    ensures var p := Session(digest, sh, jobs).1[i];
            && p.request == jobs[i].request && p.world == jobs[i].world && p.phase.Done?
            && KernelVerdicts.OutcomeTells(p.phase.outcome, p.request, p.world)
            && KernelVerdicts.StatusTells(p.phase.outcome, p.status, p.request, p.world)
  {
    var schedule := WholeSession(digest, sh, jobs);
    KernelAccounting.RunKeepsRequests(digest, Opening(sh, jobs), schedule);
    KernelVerdicts.OutcomesAreExplained(digest, Opening(sh, jobs), schedule, i);
  }

  /** One call on its own: unless its reservation overflows, the pool is afterwards what it was before. */
  lemma CallFreesPool(digest: Digest, sh: Shared, job: Job)
    requires KernelAccounting.WithinLimits(sh.pool)
    requires Grants(sh.pool, FromConstraints(job.request.constraints)) ==>
               NoOverflow(sh.pool, FromConstraints(job.request.constraints))
    ensures Finish(digest, sh, Begin(job)).0.pool == sh.pool
  {
    FinishFreesPool(digest, sh, sh.pool, Begin(job));
  }

  /** While one execution runs alone, the pool is its starting value and what that execution holds. */
  lemma {:induction false} FinishFreesPool(digest: Digest, sh: Shared, start: Pool, p: Process)
    requires KernelAccounting.BooksFit(p) && KernelAccounting.WithinLimits(start)
    requires KernelAccounting.PoolMoved(start, Start(p.request, p.world), sh.pool, p)
    requires Grants(start, Requirements(p)) ==> NoOverflow(start, Requirements(p))
    ensures Finish(digest, sh, p).0.pool == start
    decreases PhaseRank(p.phase), Remaining(p)
  {
    if !p.phase.Done? {
      StepAdvances(digest, sh, p);
      var (after, q) := Step(digest, sh, p);
      KernelAccounting.StepOnPool(digest, sh, p);
      KernelAccounting.StepKeepsBooks(digest, sh, p);
      FinishStep(digest, sh, p);
      FinishFreesPool(digest, after, start, q);
    }
  }

  /** A session whose reservations do not overflow an idle pool gives the whole pool back. */
  lemma {:induction false} SessionFreesPool(digest: Digest, sh: Shared, jobs: seq<Job>)
    requires KernelAccounting.WithinLimits(sh.pool)
    requires forall i :: 0 <= i < |jobs| && Grants(sh.pool, FromConstraints(jobs[i].request.constraints)) ==>
               NoOverflow(sh.pool, FromConstraints(jobs[i].request.constraints))
    ensures Session(digest, sh, jobs).0.pool == sh.pool
  {
    if jobs != [] {
      var front := jobs[..|jobs| - 1];
      SessionFreesPool(digest, sh, front);
      CallFreesPool(digest, Session(digest, sh, front).0, Last(jobs));
    }
  }
}
