/**
 The retry controller around the harness stages. Stage outcomes, clock readings, retry
 decisions and failure hints come from arbitrary oracles.
 */
module IterationController {
  import opened Compaction
  import opened Numbers
  import opened Sequences

  datatype Reason = Success | AttemptLimitExceeded | BudgetLimitExceeded | TimeLimitExceeded | NonRetryableFailure

  datatype Config = Config(maxAttempts: nat, budgetTokens: Option<nat>, maxRuntimeMs: nat)

  /** What one run of the stages yields: an error comes with its classification. */
  datatype StageResult = StagesPassed | StagesFailed(budgetCategory: bool, compactAndReplan: bool, retryAllowed: bool)

  datatype Stage = ControllerStage | HarnessStage

  datatype Attempt = Attempt(
    attempt: nat, stage: Stage, success: bool, budgetCategory: bool, retryAllowed: Option<bool>)

  datatype Report = Report(attempts: seq<Attempt>, success: bool, reason: Reason)

  datatype Oracle = Oracle(
    elapsedMs: nat -> nat,                        // at the start of each attempt
    stages: (nat, string) -> StageResult,         // for each attempt and its content
    withHints: (nat, string) -> string,           // the content with the failure hints known by then
    compact: (string, nat) -> string)             // the compaction of a content to a number of tokens

  function Limit(config: Config): nat {
    Max(config.maxAttempts, 1)
  }

  /** The up-front check on the estimated size of the request. */
  predicate TooLarge(config: Config, content: string) {
    config.budgetTokens.Some? && EstimateTokens(content) > config.budgetTokens.value
  }

  predicate IsFailedRun(a: Attempt) {
    a.stage == HarnessStage && !a.success
  }

  /** The i-th attempt was a failed run that was allowed to be retried. */
  predicate Retried(a: Attempt, i: nat) {
    a.attempt == i + 1 && IsFailedRun(a) && a.retryAllowed == Some(true)
  }

  /** The controller itself stops an attempt exactly when its time is over. */
  predicate Timely(a: Attempt, config: Config, oracle: Oracle) {
    a.stage == ControllerStage <==> oracle.elapsedMs(a.attempt) > config.maxRuntimeMs
  }

  ghost predicate AllRetried(attempts: seq<Attempt>) {
    forall i :: 0 <= i < |attempts| ==> Retried(attempts[i], i)
  }

  /** The n-th and last attempt tells whether and why the loop ended as it did. */
  predicate Explains(last: Attempt, n: nat, success: bool, reason: Reason, limit: nat) {
    && last.attempt == n
    && (success <==> last.success) && (success <==> reason == Success)
    && (reason == TimeLimitExceeded <==> last.stage == ControllerStage)
    && (reason == AttemptLimitExceeded <==> IsFailedRun(last) && n == limit)
    && (reason == BudgetLimitExceeded <==>
          IsFailedRun(last) && n < limit && last.retryAllowed == Some(false) && last.budgetCategory)
    && (reason == NonRetryableFailure <==>
          IsFailedRun(last) && n < limit && last.retryAllowed == Some(false) && !last.budgetCategory)
  }

  /** What every report says about how the loop ended. */
  ghost predicate Explained(r: Report, limit: nat) {
    && 1 <= |r.attempts| <= limit
    && AllRetried(r.attempts[..|r.attempts| - 1])
    && Explains(Last(r.attempts), |r.attempts|, r.success, r.reason, limit)
  }

  /** The content the next attempt works on. */
  function NextContent(config: Config, oracle: Oracle, attempt: nat, content: string, failure: StageResult): string
    requires failure.StagesFailed?
  {
    var budget := Max(if config.budgetTokens.Some? then config.budgetTokens.value else DEFAULT_SWARM_MAX_TOKENS,
                      SWARM_MIN_REPLAN_TOKENS);
    var compacted := if failure.compactAndReplan then oracle.compact(content, budget) else content;
    oracle.withHints(attempt, compacted)
  }

  /** One failed run of the stages at its attempt, and whether the loop goes on. */
  function FailedAttempt(attempt: nat, failure: StageResult): Attempt
    requires failure.StagesFailed?
  {
    Attempt(attempt, HarnessStage, false, failure.budgetCategory, Some(failure.retryAllowed))
  }

  /** The content attempt n works on: the request with its hints, compacted where a failure asked for it. */
  function ContentAt(config: Config, oracle: Oracle, content: string, n: nat): string
    requires n >= 1
  {
    if n == 1 then oracle.withHints(0, content)
    else
      var before := ContentAt(config, oracle, content, n - 1);
      var outcome := oracle.stages(n - 1, before);
      if outcome.StagesFailed? then NextContent(config, oracle, n - 1, before, outcome) else before
  }

  // ---------------------------------------------------------------- what attempts work on

  /** The hints known at any time add nothing. */
  ghost predicate NoHints(oracle: Oracle) {
    forall n, c :: oracle.withHints(n, c) == c
  }

  /** The n-th attempt fails and asks for a shorter content. */
  predicate AsksToCompact(config: Config, oracle: Oracle, content: string, n: nat)
    requires n >= 1
  {
    var outcome := oracle.stages(n, ContentAt(config, oracle, content, n));
    outcome.StagesFailed? && outcome.compactAndReplan
  }

  /** Where no attempt asks for a shorter content, every attempt works on the request as it is. */
  lemma {:induction false} ContentStays(config: Config, oracle: Oracle, content: string, n: nat)
    requires n >= 1 && NoHints(oracle)
    requires forall m :: 1 <= m < n ==> !AsksToCompact(config, oracle, content, m)
    ensures ContentAt(config, oracle, content, n) == content
  {
    if n > 1 {
      ContentStays(config, oracle, content, n - 1);
      assert !AsksToCompact(config, oracle, content, n - 1);
    }
  }

  /** After an attempt that asks for it, the next one works on its content, compacted to the budget. */
  lemma ContentIsCompacted(config: Config, oracle: Oracle, content: string, n: nat)
    requires n >= 1 && NoHints(oracle) && AsksToCompact(config, oracle, content, n)
    ensures config.budgetTokens == None ==>
              ContentAt(config, oracle, content, n + 1) == oracle.compact(ContentAt(config, oracle, content, n), 8000)
    ensures forall b :: config.budgetTokens == Some(b) ==>
              ContentAt(config, oracle, content, n + 1) ==
              oracle.compact(ContentAt(config, oracle, content, n), if b < 512 then 512 else b)
  {
  }

  /** The compaction of the oracle is that of the token budget. */
  ghost predicate CompactsAsBudgeted(oracle: Oracle, frame: Frame, find: string -> Option<string>) {
    forall c, budget :: oracle.compact(c, budget) == Compact(frame, c, budget, find)
  }

  /**
   Where the budget is at least 1262 tokens, or not given, what follows an attempt that asks for a
   shorter content fits it, unless the content names a delivery path.
   */
  lemma CompactedContentFits(
    config: Config, oracle: Oracle, content: string, n: nat, frame: Frame, find: string -> Option<string>)
    requires n >= 1 && NoHints(oracle) && AsksToCompact(config, oracle, content, n)
    requires CompactsAsBudgeted(oracle, frame, find) && frame.Length() == BANNER
    requires ArtifactPath(ContentAt(config, oracle, content, n), find) == None
    requires config.budgetTokens.Some? ==> config.budgetTokens.value >= LEAST_SAFE_BUDGET
    ensures EstimateTokens(ContentAt(config, oracle, content, n + 1)) <=
            if config.budgetTokens.Some? then config.budgetTokens.value else 8000
  {
    var before, after := ContentAt(config, oracle, content, n), ContentAt(config, oracle, content, n + 1);
    var budget := if config.budgetTokens.Some? then config.budgetTokens.value else 8000;
    assert after == Compact(frame, before, budget, find);
    CompactedLength(frame, before, budget, find);
    EstimateIsByLength(after);
  }

  // ---------------------------------------------------------------- what is recorded

  /** A run is reported as what the stages made of the content of its attempt. */
  predicate Faithful(a: Attempt, config: Config, oracle: Oracle, content: string) {
    a.stage == HarnessStage && a.attempt >= 1 ==>
      match oracle.stages(a.attempt, ContentAt(config, oracle, content, a.attempt))
      case StagesPassed => a.success && a.retryAllowed == None
      case StagesFailed(budgetCategory, _, retryAllowed) =>
        !a.success && a.budgetCategory == budgetCategory && a.retryAllowed == Some(retryAllowed)
  }

  ghost predicate Recorded(attempts: seq<Attempt>, config: Config, oracle: Oracle, content: string) {
    forall i :: 0 <= i < |attempts| ==>
      Timely(attempts[i], config, oracle) && Faithful(attempts[i], config, oracle, content)
  }

  lemma RecordNext(attempts: seq<Attempt>, a: Attempt, config: Config, oracle: Oracle, content: string)
    requires Recorded(attempts, config, oracle, content)
    requires Timely(a, config, oracle) && Faithful(a, config, oracle, content)
    ensures Recorded(attempts + [a], config, oracle, content)
  {
  }

  lemma RetryNext(attempts: seq<Attempt>, a: Attempt)
    requires AllRetried(attempts) && Retried(a, |attempts|)
    ensures AllRetried(attempts + [a])
  {
  }

  /** Behind attempts that were retried, the last one explains the report. */
  lemma RecordLast(
    attempts: seq<Attempt>, a: Attempt, config: Config, oracle: Oracle, content: string,
    success: bool, reason: Reason, limit: nat)
    requires AllRetried(attempts) && |attempts| < limit && Explains(a, |attempts| + 1, success, reason, limit)
    requires Recorded(attempts, config, oracle, content)
    requires Timely(a, config, oracle) && Faithful(a, config, oracle, content)
    ensures Explained(Report(attempts + [a], success, reason), limit)
    ensures Recorded(attempts + [a], config, oracle, content)
  {
    RecordNext(attempts, a, config, oracle, content);
    assert (attempts + [a])[..|attempts|] == attempts;
  }

  /**
   Runs the stages until they pass, time is up, the attempts are used up, or a failure must not
   be retried. A request over its token budget is refused before the first attempt.
   */
  method RunController(config: Config, content: string, oracle: Oracle) returns (r: Report)
    ensures TooLarge(config, content) ==> r == Report([], false, BudgetLimitExceeded)
    ensures !TooLarge(config, content) ==> Explained(r, Limit(config))
    ensures Recorded(r.attempts, config, oracle, content)
  {
    var effective := oracle.withHints(0, content);
    if config.budgetTokens.Some? && EstimateTokens(content) > config.budgetTokens.value {
      return Report([], false, BudgetLimitExceeded);
    }
    r := RunAttempts(config, content, effective, oracle);
  }

  method RunAttempts(config: Config, ghost content: string, hinted: string, oracle: Oracle) returns (r: Report)
    requires hinted == oracle.withHints(0, content)
    ensures Explained(r, Limit(config)) && Recorded(r.attempts, config, oracle, content)
  {
    var attempts: seq<Attempt> := [];
    var success, reason := false, NonRetryableFailure;
    var limit := Max(config.maxAttempts, 1);
    var effective := hinted;
    var attempt := 1;
    while attempt <= limit
      invariant 1 <= attempt <= limit && |attempts| == attempt - 1 && !success
      invariant AllRetried(attempts) && Recorded(attempts, config, oracle, content)
      invariant effective == ContentAt(config, oracle, content, attempt)
      decreases limit - attempt
    {
      if oracle.elapsedMs(attempt) > config.maxRuntimeMs {
        reason := TimeLimitExceeded;
        var record := Attempt(attempt, ControllerStage, false, false, Some(false));
        RecordLast(attempts, record, config, oracle, content, success, reason, limit);
        attempts := attempts + [record];
        break;
      }
      var outcome := oracle.stages(attempt, effective);
      if outcome.StagesPassed? {
        success, reason := true, Success;
        var record := Attempt(attempt, HarnessStage, true, false, None);
        RecordLast(attempts, record, config, oracle, content, success, reason, limit);
        attempts := attempts + [record];
        break;
      }
      var record := FailedAttempt(attempt, outcome);
      ghost var before := attempts;
      attempts := attempts + [record];
      if attempt >= limit {
        reason := AttemptLimitExceeded;
        RecordLast(before, record, config, oracle, content, success, reason, limit);
        break;
      }
      if !outcome.retryAllowed {
        reason := if outcome.budgetCategory then BudgetLimitExceeded else NonRetryableFailure;
        RecordLast(before, record, config, oracle, content, success, reason, limit);
        break;
      }
      RecordNext(before, record, config, oracle, content);
      RetryNext(before, record);
      effective := NextContent(config, oracle, attempt, effective, outcome);
      attempt := attempt + 1;
    }
    r := Report(attempts, success, reason);
  }
}
