/** Token estimates, the effective budget, and the compaction of requests that exceed it. */
module Compaction {
  import opened Numbers
  import opened Sequences
  import opened Spelling
  import opened Text

  const DEFAULT_SWARM_MAX_TOKENS: nat := 8000
  const SWARM_EXECUTION_TOKEN_CEILING: nat := 8000
  const SWARM_MIN_REPLAN_TOKENS: nat := 512

  // ---------------------------------------------------------------- estimates

  /** The number of maximal runs of non-whitespace; `inWord` tells whether one is under way. */
  function Words(s: string, inWord: bool): nat {
    if s == "" then 0
    else if IsWhitespace(s[0]) then Words(s[1..], false)
    else (if inWord then 0 else 1) + Words(s[1..], true)
  }

  function WordCount(s: string): nat {
    Words(s, false)
  }

  /** A word starts here: no whitespace, but whitespace, or the beginning, before it. */
  predicate StartsWord(s: string, inWord: bool, i: nat) {
    i < |s| && !IsWhitespace(s[i]) && if i == 0 then !inWord else IsWhitespace(s[i - 1])
  }

  ghost predicate AreWordStarts(s: string, inWord: bool, places: seq<nat>) {
    && (forall k, m :: 0 <= k < m < |places| ==> places[k] < places[m])
    && (forall i: nat :: i in places <==> StartsWord(s, inWord, i))
  }

  function OneFurther(places: seq<nat>): (r: seq<nat>)
    ensures |r| == |places| && forall k :: 0 <= k < |r| ==> r[k] == places[k] + 1
  {
    if places == [] then [] else OneFurther(places[..|places| - 1]) + [Last(places) + 1]
  }

  lemma OneFurtherHolds(places: seq<nat>, i: nat)
    ensures i in OneFurther(places) <==> i > 0 && i - 1 in places
  {
    if i in OneFurther(places) {
      var k :| 0 <= k < |places| && OneFurther(places)[k] == i;
      assert places[k] == i - 1;
    }
    if i > 0 && i - 1 in places {
      var k :| 0 <= k < |places| && places[k] == i - 1;
      assert OneFurther(places)[k] == i;
    }
  }

  /** As many words are counted as there are places at which one starts. */
  lemma {:induction false} WordsStart(s: string, inWord: bool) returns (places: seq<nat>)
    ensures AreWordStarts(s, inWord, places) && |places| == Words(s, inWord)
  {
    if s == "" {
      places := [];
    } else {
      var rest := WordsStart(s[1..], !IsWhitespace(s[0]));
      var first: seq<nat> := if StartsWord(s, inWord, 0) then [0] else [];
      places := first + OneFurther(rest);
      forall i: nat ensures i in places <==> StartsWord(s, inWord, i) {
        OneFurtherHolds(rest, i);
        assert i in places <==> i in first || i in OneFurther(rest);
        assert i > 0 ==> (i - 1 in rest <==> StartsWord(s[1..], !IsWhitespace(s[0]), i - 1));
      }
    }
  }

  function CeilDiv(n: nat, d: nat): nat
    requires d > 0
  {
    (n + d - 1) / d
  }

  /** Conversion of a length to 32 bits drops the higher bits. */
  function AsU32(n: nat): nat {
    if n < U32_RANGE then n else n % U32_RANGE
  }

  lemma {:induction false} WordsNeedGaps(s: string, inWord: bool)
    ensures 2 * Words(s, inWord) <= |s| + if inWord then 0 else 1
  {
    if s != "" {
      WordsNeedGaps(s[1..], !IsWhitespace(s[0]));
    }
  }

  function CharEstimate(content: string): nat {
    CeilDiv(AsU32(|content|), 4)
  }

  function WordEstimate(content: string): nat {
    CeilDiv(AsU32(WordCount(content)), 2)
  }

  function EstimateTokens(content: string): nat {
    Max(Max(CharEstimate(content), WordEstimate(content)), 1)
  }

  /** Where lengths fit 32 bits the word estimate never decides: a word but the last takes two characters. */
  lemma EstimateIsByLength(content: string)
    requires |content| < U32_RANGE
    ensures WordEstimate(content) <= CharEstimate(content)
    ensures EstimateTokens(content) == Max(CeilDiv(|content|, 4), 1)
  {
    WordsNeedGaps(content, false);
    HalfOfHalf(WordCount(content), |content|);
  }

  lemma HalfOfHalf(words: nat, chars: nat)
    requires 2 * words <= chars + 1
    ensures words <= chars && CeilDiv(words, 2) <= CeilDiv(chars, 4)
  {
  }

  function Filler(n: nat): (r: string)
    ensures |r| == n && forall i :: 0 <= i < n ==> r[i] == 'x'
  {
    if n == 0 then "" else "x" + Filler(n - 1)
  }

  /** A text of the given number of words and characters. */
  function Worded(words: nat, chars: nat): (r: string)
    requires 1 <= words && 2 * words - 1 <= chars
    ensures |r| == chars
  {
    if words == 1 then Filler(chars) else "x " + Worded(words - 1, chars - 2)
  }

  lemma {:induction false} FillerWords(n: nat)
    ensures Words(Filler(n), true) == 0
  {
    if n > 0 {
      assert Filler(n)[1..] == Filler(n - 1);
      FillerWords(n - 1);
    }
  }

  lemma {:induction false} WordedWords(words: nat, chars: nat)
    requires 1 <= words && 2 * words - 1 <= chars
    ensures WordCount(Worded(words, chars)) == words
  {
    if words == 1 {
      assert Filler(chars)[1..] == Filler(chars - 1);
      FillerWords(chars - 1);
    } else {
      var rest := Worded(words - 1, chars - 2);
      var gap := " " + rest;
      var s := "x " + rest;
      assert s[1..] == gap && gap[1..] == rest;
      assert Words(s, false) == 1 + Words(gap, true) && Words(gap, true) == Words(rest, false);
      WordedWords(words - 1, chars - 2);
    }
  }

  /** Behind the cut to 32 bits, a few more words than half the characters left over outweigh them. */
  lemma MoreWords(m: nat, words: nat)
    requires m < U32_RANGE && words == m / 2 + 3
    ensures words < U32_RANGE && CeilDiv(words, 2) > CeilDiv(m, 4)
  {
  }

  lemma CutIsShorter(n: nat)
    requires n >= U32_RANGE
    ensures AsU32(n) < U32_RANGE && AsU32(n) + U32_RANGE <= n
  {
    assert n == n / U32_RANGE * U32_RANGE + n % U32_RANGE;
  }

  /** At every length from 2^32 on the word estimate exceeds the character estimate for some content. */
  lemma LongContentMisleads(n: nat) returns (content: string)
    requires n >= U32_RANGE
    ensures |content| == n && WordEstimate(content) > CharEstimate(content)
  {
    var m := AsU32(n);
    CutIsShorter(n);
    var words := m / 2 + 3;
    MoreWords(m, words);
    content := Worded(words, n);
    WordedWords(words, n);
  }

  /** The word estimate never exceeds the character estimate exactly at the lengths that fit 32 bits. */
  lemma WordEstimateNeverDecidesIff(n: nat)
    ensures (forall content: string | |content| == n :: WordEstimate(content) <= CharEstimate(content))
            <==> n < U32_RANGE
  {
    if n < U32_RANGE {
      forall content: string | |content| == n ensures WordEstimate(content) <= CharEstimate(content) {
        EstimateIsByLength(content);
      }
    } else {
      var content := LongContentMisleads(n);
      assert WordEstimate(content) > CharEstimate(content);
    }
  }

  // ---------------------------------------------------------------- budgets

  function EffectiveBudget(policyMaxTokens: nat): nat {
    var tokens := if policyMaxTokens == 0 then DEFAULT_SWARM_MAX_TOKENS else policyMaxTokens;
    Max(Min(tokens, SWARM_EXECUTION_TOKEN_CEILING), SWARM_MIN_REPLAN_TOKENS)
  }

  function TargetChars(maxTokens: nat): nat {
    Max(Min(4 * maxTokens, 4800), 280)
  }

  // ---------------------------------------------------------------- compaction

  /** The fixed text around the head and the tail that are kept. */
  datatype Frame = Frame(preamble: string, protocol: string, evidence: string, headMark: string, tailMark: string) {
    function Length(): nat {
      |preamble| + |protocol| + |evidence| + |headMark| + |tailMark| + 1
    }

    function Around(head: string, tail: string): (r: string)
      ensures |r| == Length() + |head| + |tail|
    {
      preamble + protocol + evidence + headMark + head + tailMark + tail + "\n"
    }
  }

  const STANDARD_FRAME := Frame(
    "Budget preflight compacted this requirement to stay inside token limits.\n",
    "Replan protocol: 1) plan the minimum viable execution path, 2) execute highest-value steps first,\n",
    "3) emit evidence refs for every mutation.\n",
    "[CompactedHead]\n",
    "\n[CompactedTail]\n")

  /** Number of characters the compacted form adds to head and tail. */
  const BANNER: nat := 247

  lemma StandardFrameLength()
    ensures STANDARD_FRAME.Length() == BANNER
  {
  }

  /** The reminder of a delivery path found in the content, or nothing. */
  function ArtifactNote(path: Option<string>): string {
    match path
    case None => ""
    case Some(p) => "[PreservedArtifactContract]\nrequires_artifact=true\ntarget_path=" + p + "\n"
  }

  /** Only a content with one of these marks is searched for a delivery path. */
  predicate MentionsArtifact(content: string) {
    var lowered := AsciiLower(content);
    || Contains(lowered, "requires_artifact")
    || Contains(lowered, "artifact_delivery/v1")
    || Contains(lowered, "target_path")
  }

  lemma MentionsArtifactIff(content: string)
    ensures MentionsArtifact(content) <==>
            || Mentions(content, "requires_artifact") || Mentions(content, "artifact_delivery/v1")
            || Mentions(content, "target_path")
  {
    MentionedIff(content, "requires_artifact");
    MentionedIff(content, "artifact_delivery/v1");
    MentionedIff(content, "target_path");
  }

  /** The delivery path a content names; how a marked content is searched is left to `find`. */
  function ArtifactPath(content: string, find: string -> Option<string>): Option<string> {
    if MentionsArtifact(content) then find(content) else None
  }

  function Compact(frame: Frame, content: string, maxTokens: nat, find: string -> Option<string>): string {
    var target := TargetChars(maxTokens);
    if |content| <= target then content
    else
      var headChars := target * 3 / 4;
      var head, tail := content[..headChars], content[|content| - (target - headChars)..];
      frame.Around(Trim(head), Trim(tail)) + ArtifactNote(ArtifactPath(content, find))
  }

  lemma {:induction false} TrimEndShortens(s: string)
    ensures |TrimEnd(s)| <= |s|
  {
    if s != "" && IsWhitespace(s[|s| - 1]) {
      TrimEndShortens(s[..|s| - 1]);
    }
  }

  lemma {:induction false} TrimStartShortens(s: string)
    ensures |TrimStart(s)| <= |s|
  {
    if s != "" && IsWhitespace(s[0]) {
      TrimStartShortens(s[1..]);
    }
  }

  lemma TrimShortens(s: string)
    ensures |Trim(s)| <= |s|
  {
    TrimStartShortens(s);
    TrimEndShortens(TrimStart(s));
  }

  /** Without a delivery path the compacted form is at most the target and the frame long. */
  lemma CompactedLength(frame: Frame, content: string, maxTokens: nat, find: string -> Option<string>)
    requires ArtifactPath(content, find) == None
    ensures |Compact(frame, content, maxTokens, find)| <= TargetChars(maxTokens) + frame.Length()
  {
    var target := TargetChars(maxTokens);
    if |content| > target {
      var headChars := target * 3 / 4;
      TrimShortens(content[..headChars]);
      TrimShortens(content[|content| - (target - headChars)..]);
    }
  }

  /** What is kept of a piece of the content: all but the whitespace at its ends. */
  ghost predicate IsKept(piece: string, kept: string) {
    exists a: nat, b: nat :: IsCore(piece, a, b) && kept == piece[a..b]
  }

  /** The ends are kept: of the target, three quarters from the front of the content and the rest from its back. */
  ghost predicate KeepsEnds(
    frame: Frame, content: string, target: nat, note: string, result: string, head: string, tail: string)
  {
    && target <= |content|
    && IsKept(content[..target * 3 / 4], head) && IsKept(content[|content| - (target - target * 3 / 4)..], tail)
    && result == frame.preamble + frame.protocol + frame.evidence
                 + frame.headMark + head + frame.tailMark + tail + "\n" + note
  }

  /** A content within the target is left alone; of a longer one the trimmed ends are kept, and nothing else. */
  lemma CompactKeepsEnds(frame: Frame, content: string, maxTokens: nat, find: string -> Option<string>)
    returns (head: string, tail: string)
    ensures |content| <= TargetChars(maxTokens) ==> Compact(frame, content, maxTokens, find) == content
    ensures |content| > TargetChars(maxTokens) ==>
              KeepsEnds(frame, content, TargetChars(maxTokens), ArtifactNote(ArtifactPath(content, find)),
                        Compact(frame, content, maxTokens, find), head, tail)
  {
    var target := TargetChars(maxTokens);
    if |content| <= target {
      head, tail := "", "";
    } else {
      var headChars := target * 3 / 4;
      var first, last := content[..headChars], content[|content| - (target - headChars)..];
      head, tail := Trim(first), Trim(last);
      TrimmedIsKept(first);
      TrimmedIsKept(last);
    }
  }

  lemma TrimmedIsKept(piece: string)
    ensures IsKept(piece, Trim(piece))
  {
    var a, b := TrimIsCore(piece);
  }

  /** Four characters for each token, but never more than 4800, nor fewer than 280. */
  lemma TargetIsFourfold(maxTokens: nat)
    ensures TargetChars(maxTokens) ==
            if maxTokens <= 70 then 280 else if maxTokens <= 1200 then 4 * maxTokens else 4800
  {
  }

  // ---------------------------------------------------------------- preflight

  datatype Preflight = Preflight(
    estimatedTokens: nat, effectiveMaxTokens: nat, finalRequestTokens: nat, compactionApplied: bool, request: string)

  function BuildPreflight(
    frame: Frame, content: string, policyMaxTokens: nat, find: string -> Option<string>): Preflight
  {
    var estimated, effective := EstimateTokens(content), EffectiveBudget(policyMaxTokens);
    var request := if estimated > effective then Compact(frame, content, effective, find) else content;
    Preflight(estimated, effective, EstimateTokens(request), estimated > effective, request)
  }

  /** A request over budget is always long enough to be truncated. */
  lemma OverBudgetIsTruncated(content: string, maxTokens: nat)
    requires maxTokens >= SWARM_MIN_REPLAN_TOKENS && EstimateTokens(content) > maxTokens
    ensures |content| > TargetChars(maxTokens)
  {
    WordsNeedGaps(content, false);
  }

  /** From this budget on, compaction always succeeds. */
  const LEAST_SAFE_BUDGET: nat := 1262

  /** With a budget of at least 1262 tokens, and no delivery path, the request fits in the end. */
  lemma PreflightFits(frame: Frame, content: string, policyMaxTokens: nat, find: string -> Option<string>)
    requires frame.Length() == BANNER
    requires EffectiveBudget(policyMaxTokens) >= LEAST_SAFE_BUDGET && ArtifactPath(content, find) == None
    ensures var p := BuildPreflight(frame, content, policyMaxTokens, find); p.finalRequestTokens <= p.effectiveMaxTokens
  {
    var p := BuildPreflight(frame, content, policyMaxTokens, find);
    if p.compactionApplied {
      CompactedLength(frame, content, p.effectiveMaxTokens, find);
      EstimateIsByLength(p.request);
    }
  }

  lemma NothingToTrim(s: string)
    requires forall i :: 0 <= i < |s| ==> s[i] == 'x'
    ensures Trim(s) == s
  {
  }

  lemma {:induction false} LowerFiller(n: nat)
    ensures AsciiLower(Filler(n)) == Filler(n)
  {
    if n > 0 {
      assert Filler(n)[1..] == Filler(n - 1);
      LowerFiller(n - 1);
    }
  }

  lemma {:induction false} FillerContains(n: nat, part: string)
    requires part != "" && part[0] != 'x'
    ensures !Contains(Filler(n), part)
  {
    if n > 0 {
      assert Filler(n)[1..] == Filler(n - 1);
      FillerContains(n - 1, part);
    }
  }

  lemma FillerNamesNoArtifact(n: nat)
    ensures !MentionsArtifact(Filler(n))
  {
    LowerFiller(n);
    FillerContains(n, "requires_artifact");
    FillerContains(n, "artifact_delivery/v1");
    FillerContains(n, "target_path");
  }

  lemma FillerSlice(n: nat, i: nat, j: nat)
    requires i <= j <= n
    ensures Trim(Filler(n)[i..j]) == Filler(n)[i..j]
  {
    NothingToTrim(Filler(n)[i..j]);
  }

  /** Compacting a long filler gives exactly the target and the frame. */
  lemma CompactedFiller(frame: Frame, n: nat, maxTokens: nat, find: string -> Option<string>)
    requires n > TargetChars(maxTokens)
    ensures |Compact(frame, Filler(n), maxTokens, find)| == TargetChars(maxTokens) + frame.Length()
  {
    var content, target := Filler(n), TargetChars(maxTokens);
    var headChars := target * 3 / 4;
    FillerNamesNoArtifact(n);
    FillerSlice(n, 0, headChars);
    FillerSlice(n, n - (target - headChars), n);
  }

  /** Below 1262 tokens there is a request without a delivery path that exceeds the budget once compacted. */
  lemma SmallBudgetOverflows(frame: Frame, policyMaxTokens: nat, find: string -> Option<string>)
    returns (content: string)
    requires frame.Length() == BANNER && EffectiveBudget(policyMaxTokens) < LEAST_SAFE_BUDGET
    ensures ArtifactPath(content, find) == None
    ensures var p := BuildPreflight(frame, content, policyMaxTokens, find);
            p.compactionApplied && p.finalRequestTokens > p.effectiveMaxTokens
  {
    var budget := EffectiveBudget(policyMaxTokens);
    content := Filler(40000);
    FillerNamesNoArtifact(40000);
    EstimateIsByLength(content);
    CompactedFiller(frame, 40000, budget, find);
    EstimateIsByLength(Compact(frame, content, budget, find));
  }

  /**
   However delivery paths are searched for: compaction brings every request that names none within
   its budget exactly when the budget is at least 1262 tokens.
   */
  lemma SafeBudgets(frame: Frame, policyMaxTokens: nat, find: string -> Option<string>)
    requires frame.Length() == BANNER
    ensures (forall content | ArtifactPath(content, find) == None ::
               BuildPreflight(frame, content, policyMaxTokens, find).finalRequestTokens
               <= EffectiveBudget(policyMaxTokens))
            <==> EffectiveBudget(policyMaxTokens) >= LEAST_SAFE_BUDGET
  {
    var budget := EffectiveBudget(policyMaxTokens);
    if budget >= LEAST_SAFE_BUDGET {
      forall content | ArtifactPath(content, find) == None
        ensures BuildPreflight(frame, content, policyMaxTokens, find).finalRequestTokens <= budget
      {
        PreflightFits(frame, content, policyMaxTokens, find);
      }
    } else {
      var content := SmallBudgetOverflows(frame, policyMaxTokens, find);
      assert BuildPreflight(frame, content, policyMaxTokens, find).finalRequestTokens > budget;
    }
  }

  /** The policy's own budget where it lies between 512 and 8000 tokens; 8000 where it names none. */
  lemma BudgetIsWithin(policyMaxTokens: nat)
    ensures EffectiveBudget(policyMaxTokens) ==
            if policyMaxTokens == 0 || policyMaxTokens > 8000 then 8000
            else if policyMaxTokens < 512 then 512
            else policyMaxTokens
  {
  }

  /** The policies under which that is so: those that name no budget, and those that name at least 1262 tokens. */
  lemma SafePolicies(frame: Frame, policyMaxTokens: nat, find: string -> Option<string>)
    requires frame.Length() == BANNER
    ensures (forall content | ArtifactPath(content, find) == None ::
               BuildPreflight(frame, content, policyMaxTokens, find).finalRequestTokens
               <= EffectiveBudget(policyMaxTokens))
            <==> policyMaxTokens == 0 || policyMaxTokens >= 1262
  {
    SafeBudgets(frame, policyMaxTokens, find);
    BudgetIsWithin(policyMaxTokens);
  }

  /** A request within its budget is left alone; one over it is long enough to be cut. */
  lemma WithinBudgetIsUnchanged(frame: Frame, content: string, policyMaxTokens: nat, find: string -> Option<string>)
    ensures var p := BuildPreflight(frame, content, policyMaxTokens, find);
            && (p.compactionApplied <==> EstimateTokens(content) > EffectiveBudget(policyMaxTokens))
            && (!p.compactionApplied ==> p.request == content && p.finalRequestTokens == p.estimatedTokens)
            && (p.compactionApplied ==> |content| > TargetChars(p.effectiveMaxTokens))
  {
    var p := BuildPreflight(frame, content, policyMaxTokens, find);
    if p.compactionApplied {
      OverBudgetIsTruncated(content, p.effectiveMaxTokens);
    }
  }
}
