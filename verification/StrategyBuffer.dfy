/** The buffer of rewards and values, and the batch of weighted tasks made from it. */
module StrategyBuffer {
  import opened Advantage
  import opened Sequences

  /** A finished path: places start to end, with the final value it was finished with. */
  datatype Segment = Segment(start: nat, end: nat, last: real)

  /** The segment holds the advantages of the path that was stored in it. */
  ghost predicate SegmentDone(
    rewards: seq<real>, values: seq<real>, advantages: seq<real>, s: Segment, gamma: real, lam: real)
  {
    && s.start < s.end <= |rewards| == |values| == |advantages|
    && advantages[s.start..s.end] == Advantages(rewards[s.start..s.end], values[s.start..s.end], s.last, gamma, lam)
  }

  lemma SliceOfPrefix(a: seq<real>, b: seq<real>, start: nat, end: nat)
    requires start <= end <= |a| && end <= |b| && a[..end] == b[..end]
    ensures a[start..end] == b[start..end]
  {
    assert a[start..end] == a[..end][start..] && b[start..end] == b[..end][start..];
  }

  /** Writing behind a segment leaves it as it is. */
  lemma SegmentStays(
    rewards: seq<real>, values: seq<real>, advantages: seq<real>,
    rewards': seq<real>, values': seq<real>, advantages': seq<real>, s: Segment, gamma: real, lam: real)
    requires SegmentDone(rewards, values, advantages, s, gamma, lam)
    requires |rewards'| == |values'| == |advantages'| == |rewards|
    requires rewards'[..s.end] == rewards[..s.end] && values'[..s.end] == values[..s.end]
    requires advantages'[..s.end] == advantages[..s.end]
    ensures SegmentDone(rewards', values', advantages', s, gamma, lam)
  {
    SliceOfPrefix(rewards, rewards', s.start, s.end);
    SliceOfPrefix(values, values', s.start, s.end);
    SliceOfPrefix(advantages, advantages', s.start, s.end);
  }

  ghost predicate AllDone(
    rewards: seq<real>, values: seq<real>, advantages: seq<real>, finished: seq<Segment>,
    upTo: nat, gamma: real, lam: real)
  {
    forall i :: 0 <= i < |finished| ==>
      finished[i].end <= upTo && SegmentDone(rewards, values, advantages, finished[i], gamma, lam)
  }

  lemma AllStay(
    rewards: seq<real>, values: seq<real>, advantages: seq<real>, rewards': seq<real>, values': seq<real>,
    advantages': seq<real>, finished: seq<Segment>, upTo: nat, gamma: real, lam: real)
    requires AllDone(rewards, values, advantages, finished, upTo, gamma, lam) && upTo <= |rewards|
    requires |rewards'| == |values'| == |advantages'| == |rewards| == |values| == |advantages|
    requires rewards'[..upTo] == rewards[..upTo] && values'[..upTo] == values[..upTo]
    requires advantages'[..upTo] == advantages[..upTo]
    ensures AllDone(rewards', values', advantages', finished, upTo, gamma, lam)
  {
    forall i | 0 <= i < |finished| ensures SegmentDone(rewards', values', advantages', finished[i], gamma, lam) {
      var end := finished[i].end;
      assert rewards'[..end] == rewards'[..upTo][..end] == rewards[..end];
      assert values'[..end] == values'[..upTo][..end] == values[..end];
      assert advantages'[..end] == advantages'[..upTo][..end] == advantages[..end];
      SegmentStays(rewards, values, advantages, rewards', values', advantages', finished[i], gamma, lam);
    }
  }

  lemma OneMoreDone(
    rewards: seq<real>, values: seq<real>, advantages: seq<real>, finished: seq<Segment>,
    s: Segment, gamma: real, lam: real)
    requires AllDone(rewards, values, advantages, finished, s.start, gamma, lam)
    requires SegmentDone(rewards, values, advantages, s, gamma, lam)
    ensures AllDone(rewards, values, advantages, finished + [s], s.end, gamma, lam)
  {
  }

  class Buffer {
    const maxSize: nat
    const gamma: real
    const lam: real
    const rewards: array<real>
    const values: array<real>
    const advantages: array<real>
    var ptr: nat
    var pathStart: nat
    ghost var finished: seq<Segment>

    ghost predicate Valid()
      reads this, rewards, values, advantages
    {
      && rewards.Length == values.Length == advantages.Length == maxSize
      && rewards != values && rewards != advantages && values != advantages
      && pathStart <= ptr <= maxSize
      && AllDone(rewards[..], values[..], advantages[..], finished, pathStart, gamma, lam)
    }

    constructor (size: nat, gamma: real, lam: real)
      ensures Valid() && fresh(rewards) && fresh(values) && fresh(advantages)
      ensures ptr == 0 && pathStart == 0 && finished == []
      ensures maxSize == size && this.gamma == gamma && this.lam == lam
    {
      this.maxSize, this.gamma, this.lam := size, gamma, lam;
      rewards := new real[size](_ => 0.0);
      values := new real[size](_ => 0.0);
      advantages := new real[size](_ => 0.0);
      ptr, pathStart, finished := 0, 0, [];
    }

    method Store(reward: real, value: real) returns (stored: bool)
      requires Valid()
      modifies this`ptr, rewards, values
      ensures Valid() && stored == (old(ptr) < maxSize)
      ensures ptr == if stored then old(ptr) + 1 else old(ptr)
      ensures stored ==> rewards[..] == old(rewards[..])[old(ptr) := reward]
      ensures stored ==> values[..] == old(values[..])[old(ptr) := value]
      ensures !stored ==> rewards[..] == old(rewards[..]) && values[..] == old(values[..])
    {
      if ptr >= maxSize {
        return false;
      }
      ghost var r, v := rewards[..], values[..];
      rewards[ptr] := reward;
      values[ptr] := value;
      AllStay(r, v, advantages[..], rewards[..], values[..], advantages[..], finished, pathStart, gamma, lam);
      ptr := ptr + 1;
      stored := true;
    }

    /** Finishes the path stored since the last call; earlier segments are left alone. */
    method FinishPath(last: real)
      requires Valid()
      modifies this`pathStart, this`finished, advantages
      ensures Valid() && pathStart == ptr
      ensures finished ==
              if old(pathStart) < ptr then old(finished) + [Segment(old(pathStart), ptr, last)] else old(finished)
      ensures advantages[..old(pathStart)] == old(advantages[..pathStart])
      ensures advantages[ptr..] == old(advantages[ptr..])
    {
      var start, end := pathStart, ptr;
      if start >= end {
        return;
      }
      var pathRewards, pathValues := rewards[start..end], values[start..end];
      var deltas := Deltas(pathRewards, pathValues, last, gamma);
      var adv := DiscountCumsum(deltas, gamma * lam);
      ghost var before, segment := advantages[..], Segment(start, end, last);
      CopyInto(adv, start, end);
      ghost var r, v, a := rewards[..], values[..], advantages[..];
      assert r[start..end] == pathRewards && v[start..end] == pathValues && a[start..end] == adv[..];
      AllStay(r, v, before, r, v, a, finished, start, gamma, lam);
      OneMoreDone(r, v, a, finished, segment, gamma, lam);
      pathStart := ptr;
      finished := finished + [segment];
    }

    method CopyInto(adv: array<real>, start: nat, end: nat)
      requires start <= end <= advantages.Length && adv.Length == end - start && adv != advantages
      modifies advantages
      ensures advantages[..start] == old(advantages[..start]) && advantages[end..] == old(advantages[end..])
      ensures advantages[start..end] == adv[..]
    {
      for k := 0 to adv.Length
        invariant advantages[..start] == old(advantages[..start]) && advantages[end..] == old(advantages[end..])
        invariant advantages[start..start + k] == adv[..k]
      {
        advantages[start + k] := adv[k];
      }
    }

    /** A copy of the values, normalised place by place. */
    static method Normalize(values: seq<real>, sqrt: real -> real) returns (normalized: seq<real>)
      ensures normalized == NormalizedAll(values, sqrt)
    {
      var mean, scale := Mean(values), Scale(values, sqrt);
      normalized := values;
      for i := 0 to |values|
        invariant |normalized| == |values|
        invariant forall j :: 0 <= j < i ==> normalized[j] == Normalized(values, sqrt, j)
        invariant forall j :: i <= j < |values| ==> normalized[j] == values[j]
      {
        normalized := normalized[i := (normalized[i] - mean) / scale];
      }
    }

    /** A full buffer yields its normalised advantages and is ready to be filled again. */
    method Get(sqrt: real -> real) returns (batch: Option<seq<real>>)
      requires Valid()
      modifies this`ptr, this`pathStart, this`finished
      ensures Valid()
      ensures old(ptr) != maxSize ==>
        batch == None && ptr == old(ptr) && pathStart == old(pathStart) && finished == old(finished)
      ensures old(ptr) == maxSize ==>
        batch == Some(NormalizedAll(advantages[..], sqrt)) && ptr == 0 && pathStart == 0 && finished == []
    {
      if ptr != maxSize {
        return None;
      }
      var normalized := Normalize(advantages[..], sqrt);
      ptr, pathStart, finished := 0, 0, [];
      batch := Some(normalized);
    }
  }

  // ---------------------------------------------------------------- duel batches

  datatype Gap = Gap(baseline: real, target: real, priority: real)

  datatype Task = Task(weight: real, expectedGain: real)

  function Max(a: real, b: real): real {
    if a < b then b else a
  }

  function BaseGap(gap: Gap): real {
    Max(gap.target - gap.baseline, 0.0)
  }

  function RewardAt(gap: Gap, t: nat, horizon: nat): real
    requires horizon > 0
  {
    BaseGap(gap) * (0.5 + (t as real + 1.0) / horizon as real) * Max(gap.priority, 0.25)
  }

  /** The rewards of the one path the batch is made from. */
  function PathRewards(gap: Gap, horizon: nat, n: nat): (r: seq<real>)
    requires n <= horizon
    ensures |r| == n
  {
    if n == 0 then [] else PathRewards(gap, horizon, n - 1) + [RewardAt(gap, n - 1, horizon)]
  }

  function PathValues(gap: Gap, n: nat): (r: seq<real>)
    ensures |r| == n
  {
    if n == 0 then [] else PathValues(gap, n - 1) + [BaseGap(gap) * 0.45]
  }

  /** The advantages of the path. */
  function PathAdvantages(gap: Gap, horizon: nat, gamma: real, lam: real): (r: seq<real>)
    ensures |r| == horizon
  {
    Advantages(PathRewards(gap, horizon, horizon), PathValues(gap, horizon), 0.0, gamma, lam)
  }

  /** One task per advantage, at its weight. */
  ghost predicate TasksFor(tasks: seq<Task>, z: seq<real>, baseGap: real) {
    |tasks| == |z| && forall i :: 0 <= i < |z| ==> tasks[i] == Task(TaskWeight(z[i]), baseGap * TaskWeight(z[i]))
  }

  method WeighTasks(z: seq<real>, baseGap: real) returns (tasks: seq<Task>)
    ensures TasksFor(tasks, z, baseGap)
  {
    tasks := [];
    for i := 0 to |z|
      invariant TasksFor(tasks, z[..i], baseGap)
    {
      var weight := TaskWeight(z[i]);
      tasks := tasks + [Task(weight, baseGap * weight)];
    }
    assert z[..|z|] == z;
  }

  method EstimateAdvantages(gap: Gap, horizon: nat, gamma: real, lam: real, sqrt: real -> real) returns (z: seq<real>)
    ensures z == NormalizedAll(PathAdvantages(gap, horizon, gamma, lam), sqrt)
  {
    var buffer := new Buffer(horizon, gamma, lam);
    FillBuffer(buffer, gap);
    FinishFilled(buffer, gap);
    var batch := buffer.Get(sqrt);
    z := batch.value;
  }

  /**
   The batch fills its buffer exactly, so the fallback for an unfilled one is never taken; up to
   a horizon of eight every weight lies strictly inside the clamp, and the weights add up to half
   a unit per task.
   */
  method GenerateDuelBatch(gap: Gap, horizon: nat, gamma: real, lam: real, sqrt: real -> real)
    returns (tasks: seq<Task>)
    requires IsSqrt(sqrt)
    ensures TasksFor(tasks, NormalizedAll(PathAdvantages(gap, horizon, gamma, lam), sqrt), BaseGap(gap))
    ensures horizon <= 8 ==> forall i :: 0 <= i < |tasks| ==> 0.05 < tasks[i].weight < 1.0
    ensures horizon <= 8 ==> WeightSum(tasks) == horizon as real / 2.0
    ensures horizon <= 8 ==> WeighedBy(tasks, NormalizedAll(PathAdvantages(gap, horizon, gamma, lam), sqrt))
    ensures GainSum(tasks) == Shortfall(gap) * WeightSum(tasks)
  {
    var z := EstimateAdvantages(gap, horizon, gamma, lam, sqrt);
    tasks := WeighTasks(z, BaseGap(gap));
    if horizon <= 8 {
      ShortHorizon(PathAdvantages(gap, horizon, gamma, lam), sqrt, tasks, BaseGap(gap));
    }
    TasksShareGap(tasks, z, gap);
  }

  /** Six times each weight, less three, is the advantage it was made from. */
  ghost predicate WeighedBy(tasks: seq<Task>, z: seq<real>) {
    |tasks| == |z| && forall i :: 0 <= i < |z| ==> 6.0 * tasks[i].weight - 3.0 == z[i]
  }

  function WeightSum(tasks: seq<Task>): real {
    if tasks == [] then 0.0 else WeightSum(tasks[..|tasks| - 1]) + Last(tasks).weight
  }

  lemma {:induction false} WeightSumIsSum(tasks: seq<Task>, z: seq<real>)
    requires |tasks| == |z| && forall i :: 0 <= i < |z| ==> tasks[i].weight == TaskWeight(z[i])
    ensures WeightSum(tasks) == Sum(Weights(z))
  {
    if z != [] {
      WeightSumIsSum(tasks[..|tasks| - 1], z[..|z| - 1]);
      SumSnoc(Weights(z[..|z| - 1]), TaskWeight(Last(z)));
    }
  }

  lemma ShortHorizon(advantages: seq<real>, sqrt: real -> real, tasks: seq<Task>, baseGap: real)
    requires IsSqrt(sqrt) && |advantages| <= 8 && TasksFor(tasks, NormalizedAll(advantages, sqrt), baseGap)
    ensures forall i :: 0 <= i < |tasks| ==> 0.05 < tasks[i].weight < 1.0
    ensures WeighedBy(tasks, NormalizedAll(advantages, sqrt))
    ensures WeightSum(tasks) == |advantages| as real / 2.0
  {
    var z := NormalizedAll(advantages, sqrt);
    forall i | 0 <= i < |tasks| ensures 0.05 < tasks[i].weight < 1.0 && 6.0 * tasks[i].weight - 3.0 == z[i] {
      ClampIsIdle(advantages, sqrt, i);
    }
    WeightSumIsSum(tasks, NormalizedAll(advantages, sqrt));
    WeightsShareOutHalf(advantages, sqrt);
  }

  function GainSum(tasks: seq<Task>): real {
    if tasks == [] then 0.0 else GainSum(tasks[..|tasks| - 1]) + Last(tasks).expectedGain
  }

  lemma Distribute(c: real, a: real, b: real)
    ensures c * (a + b) == c * a + c * b
  {
  }

  lemma {:induction false} GainsAreShares(tasks: seq<Task>, baseGap: real)
    requires forall i :: 0 <= i < |tasks| ==> tasks[i].expectedGain == baseGap * tasks[i].weight
    ensures GainSum(tasks) == baseGap * WeightSum(tasks)
  {
    if tasks != [] {
      GainsAreShares(tasks[..|tasks| - 1], baseGap);
      Distribute(baseGap, WeightSum(tasks[..|tasks| - 1]), Last(tasks).weight);
    }
  }

  lemma TasksShareGap(tasks: seq<Task>, z: seq<real>, gap: Gap)
    requires TasksFor(tasks, z, BaseGap(gap))
    ensures GainSum(tasks) == Shortfall(gap) * WeightSum(tasks)
  {
    GainsAreShares(tasks, Shortfall(gap));
  }

  // ---------------------------------------------------------------- what the path pays

  /** By how much the target exceeds the baseline, if it does. */
  function Shortfall(gap: Gap): real {
    if gap.target > gap.baseline then gap.target - gap.baseline else 0.0
  }

  /** The priority, but at least a quarter. */
  function Urgency(gap: Gap): real {
    if gap.priority > 0.25 then gap.priority else 0.25
  }

  /** Half a unit, and the part of the way that place t has come. */
  function Progress(t: nat, horizon: nat): real
    requires horizon > 0
  {
    0.5 + (t as real + 1.0) / horizon as real
  }

  function ProgressAll(horizon: nat, n: nat): (r: seq<real>)
    requires horizon > 0
    ensures |r| == n && forall t :: 0 <= t < n ==> r[t] == Progress(t, horizon)
  {
    if n == 0 then [] else ProgressAll(horizon, n - 1) + [Progress(n - 1, horizon)]
  }

  lemma RewardIsShare(gap: Gap, t: nat, horizon: nat)
    requires horizon > 0
    ensures RewardAt(gap, t, horizon) == (Shortfall(gap) * Urgency(gap)) * Progress(t, horizon)
  {
    Regroup(Shortfall(gap), Progress(t, horizon), Urgency(gap));
  }

  lemma Regroup(a: real, b: real, c: real)
    ensures a * b * c == (a * c) * b
  {
  }

  ghost predicate AreMultiples(x: seq<real>, y: seq<real>, c: real) {
    |x| == |y| && forall i :: 0 <= i < |x| ==> x[i] == c * y[i]
  }

  lemma {:induction false} SumOfMultiples(x: seq<real>, y: seq<real>, c: real)
    requires AreMultiples(x, y, c)
    ensures Sum(x) == c * Sum(y)
  {
    if x != [] {
      MultiplesFront(x, y, c);
      SumOfMultiples(x[..|x| - 1], y[..|y| - 1], c);
      SumOfTwo(Sum(x[..|x| - 1]), Last(x), c, Sum(y[..|y| - 1]), Last(y));
    }
  }

  lemma SumOfTwo(a: real, b: real, c: real, p: real, q: real)
    requires a == c * p && b == c * q
    ensures a + b == c * (p + q)
  {
  }

  lemma MultiplesFront(x: seq<real>, y: seq<real>, c: real)
    requires AreMultiples(x, y, c) && x != []
    ensures AreMultiples(x[..|x| - 1], y[..|y| - 1], c) && Last(x) == c * Last(y)
  {
  }

  /** Entry by entry z is x, and a half. */
  ghost predicate AreHalfMore(z: seq<real>, x: seq<real>) {
    |z| == |x| && forall i :: 0 <= i < |z| ==> z[i] == x[i] + 0.5
  }

  lemma {:induction false} SumWithHalves(z: seq<real>, x: seq<real>)
    requires AreHalfMore(z, x)
    ensures Sum(z) == Sum(x) + |z| as real / 2.0
  {
    if z != [] {
      SumWithHalves(z[..|z| - 1], x[..|x| - 1]);
    }
  }

  /** One, two, and so on, up to n. */
  function Ramp(n: nat): (r: seq<real>)
    ensures |r| == n && forall t :: 0 <= t < n ==> r[t] == t as real + 1.0
  {
    if n == 0 then [] else Ramp(n - 1) + [n as real]
  }

  function Triangle(n: nat): real {
    if n == 0 then 0.0 else Triangle(n - 1) + n as real
  }

  lemma {:induction false} RampIsTriangle(n: nat)
    ensures Sum(Ramp(n)) == Triangle(n)
  {
    if n > 0 {
      RampIsTriangle(n - 1);
      SumSnoc(Ramp(n - 1), n as real);
    }
  }

  lemma {:induction false} TriangleIsHalf(n: nat, m: real)
    requires m == n as real
    ensures 2.0 * Triangle(n) == m * (m + 1.0)
  {
    if n > 0 {
      TriangleIsHalf(n - 1, m - 1.0);
      NextTriangle(Triangle(n - 1), m - 1.0, m);
    }
  }

  lemma NextTriangle(sum: real, k: real, m: real)
    requires 2.0 * sum == k * (k + 1.0) && m == k + 1.0
    ensures 2.0 * (sum + m) == m * (m + 1.0)
  {
  }

  /** A sum whose double is h (h + 1), over h. */
  lemma OverItself(h: real, sum: real)
    requires h > 0.0 && 2.0 * sum == h * (h + 1.0)
    ensures sum / h == (h + 1.0) / 2.0
  {
    TimesQuotient(h, sum);
    assert h * ((h + 1.0) / 2.0) == sum;
    SameFactor(h, sum / h, (h + 1.0) / 2.0);
  }

  /** The reward at a place is the progress made there, at the rate of the path; its value is 0.45 of the shortfall. */
  lemma PathEntryPays(gap: Gap, horizon: nat, t: nat)
    requires t < horizon
    ensures PathRewards(gap, horizon, horizon)[t] == (Shortfall(gap) * Urgency(gap)) * Progress(t, horizon)
    ensures PathValues(gap, horizon)[t] == 0.45 * Shortfall(gap)
  {
    PathEntries(gap, horizon, horizon, t);
    RewardIsShare(gap, t, horizon);
  }

  lemma RampShare(n: nat)
    requires n > 0
    ensures Sum(Ramp(n)) / n as real == (n as real + 1.0) / 2.0
  {
    RampIsTriangle(n);
    TriangleIsHalf(n, n as real);
    OverItself(n as real, Sum(Ramp(n)));
  }

  lemma RampOverHorizon(horizon: nat)
    requires horizon > 0
    ensures Sum(Divided(Ramp(horizon), horizon as real)) == (horizon as real + 1.0) / 2.0
  {
    SumDivided(Ramp(horizon), horizon as real);
    RampShare(horizon);
  }

  lemma ProgressOverRamp(horizon: nat)
    requires horizon > 0
    ensures Sum(ProgressAll(horizon, horizon)) == Sum(Divided(Ramp(horizon), horizon as real)) + horizon as real / 2.0
  {
    ProgressIsHalfMore(horizon);
    SumWithHalves(ProgressAll(horizon, horizon), Divided(Ramp(horizon), horizon as real));
  }

  lemma ProgressInAll(horizon: nat)
    requires horizon > 0
    ensures Sum(ProgressAll(horizon, horizon)) == horizon as real + 0.5
  {
    RampOverHorizon(horizon);
    ProgressOverRamp(horizon);
  }

  lemma ProgressIsHalfMore(horizon: nat)
    requires horizon > 0
    ensures AreHalfMore(ProgressAll(horizon, horizon), Divided(Ramp(horizon), horizon as real))
  {
  }

  lemma EntriesPay(gap: Gap, horizon: nat, rate: real)
    requires horizon > 0 && rate == Shortfall(gap) * Urgency(gap)
    ensures AreMultiples(PathRewards(gap, horizon, horizon), ProgressAll(horizon, horizon), rate)
  {
    forall t | 0 <= t < horizon
      ensures PathRewards(gap, horizon, horizon)[t] == rate * ProgressAll(horizon, horizon)[t]
    {
      PathEntryPays(gap, horizon, t);
    }
  }

  lemma PathPaysProgress(gap: Gap, horizon: nat)
    requires horizon > 0
    ensures Sum(PathRewards(gap, horizon, horizon))
         == (Shortfall(gap) * Urgency(gap)) * Sum(ProgressAll(horizon, horizon))
  {
    EntriesPay(gap, horizon, Shortfall(gap) * Urgency(gap));
    SumOfMultiples(
      PathRewards(gap, horizon, horizon), ProgressAll(horizon, horizon), Shortfall(gap) * Urgency(gap));
  }

  /**
   All in all the path pays the shortfall, times the urgency, for each place, and half of that on
   top.
   */
  lemma PathPays(gap: Gap, horizon: nat)
    requires horizon > 0
    ensures Sum(PathRewards(gap, horizon, horizon)) == (Shortfall(gap) * Urgency(gap)) * (horizon as real + 0.5)
  {
    PathPaysProgress(gap, horizon);
    ProgressInAll(horizon);
    SameProduct(Shortfall(gap) * Urgency(gap), Sum(ProgressAll(horizon, horizon)), horizon as real + 0.5);
  }

  lemma SameProduct(c: real, a: real, b: real)
    requires a == b
    ensures c * a == c * b
  {
  }

  // ---------------------------------------------------------------- when the clamp binds

  const STEEP_GAP := Gap(0.0, 1.0, 0.0)

  /** The rewards of the path are at most 0.375 each, and the last one is exactly that. */
  lemma SteepReward(t: nat, horizon: nat)
    requires t < horizon
    ensures 0.0 <= RewardAt(STEEP_GAP, t, horizon) <= 0.375
    ensures t + 1 == horizon ==> RewardAt(STEEP_GAP, t, horizon) == 0.375
  {
    var share := (t as real + 1.0) / horizon as real;
    TimesQuotient(horizon as real, t as real + 1.0);
    assert 0.0 <= share <= 1.0;
    assert t + 1 == horizon ==> share == 1.0;
  }

  lemma {:induction false} PathEntries(gap: Gap, horizon: nat, n: nat, t: nat)
    requires t < n <= horizon
    ensures PathRewards(gap, horizon, n)[t] == RewardAt(gap, t, horizon) && PathValues(gap, n)[t] == BaseGap(gap) * 0.45
  {
    if t < n - 1 {
      PathEntries(gap, horizon, n - 1, t);
    }
  }

  function SteepDeltas(horizon: nat): (r: seq<real>)
    ensures |r| == horizon
  {
    Deltas(PathRewards(STEEP_GAP, horizon, horizon), PathValues(STEEP_GAP, horizon), 0.0, 1.0)
  }

  /** All errors but the last are small and positive, and the last one is negative. */
  lemma SteepDelta(horizon: nat, t: nat)
    requires t < horizon
    ensures t + 1 < horizon ==> 0.0 <= SteepDeltas(horizon)[t] <= 0.375
    ensures t + 1 == horizon ==> SteepDeltas(horizon)[t] == -0.075
  {
    var rewards, values := PathRewards(STEEP_GAP, horizon, horizon), PathValues(STEEP_GAP, horizon);
    DeltaAt(rewards, values, 0.0, 1.0, t);
    PathEntries(STEEP_GAP, horizon, horizon, t);
    if t + 1 < horizon {
      PathEntries(STEEP_GAP, horizon, horizon, t + 1);
    }
    SteepReward(t, horizon);
  }

  function SteepAdvantage(horizon: nat, t: nat): real
    requires t < horizon
  {
    DiscountedSum(SteepDeltas(horizon)[t..], 20.0)
  }

  /** Going backwards, the negative error at the end grows at least thirteenfold at every place. */
  lemma {:induction false} SteepGrowth(horizon: nat, t: nat)
    requires t < horizon
    ensures SteepAdvantage(horizon, t) <= -0.075
    ensures t + 1 < horizon ==> SteepAdvantage(horizon, t) <= 13.0 * SteepAdvantage(horizon, t + 1)
    decreases horizon - t
  {
    var deltas := SteepDeltas(horizon);
    SteepDelta(horizon, t);
    if t + 1 == horizon {
      assert deltas[t..] == [deltas[t]];
      DiscountedSingle(deltas[t], 20.0);
    } else {
      SteepGrowth(horizon, t + 1);
      CumsumStep(deltas, 20.0, t);
    }
  }

  lemma {:induction false} SteepOrder(horizon: nat, t: nat)
    requires 1 <= t < horizon
    ensures SteepAdvantage(horizon, 1) <= SteepAdvantage(horizon, t) < 0.0
  {
    SteepGrowth(horizon, t);
    if t > 1 {
      SteepOrder(horizon, t - 1);
      SteepGrowth(horizon, t - 1);
    }
  }

  /**
   At every horizon from nine on a generator can be set up (with the discounts 1 and 20) for which
   the clamp changes the weight of the first task of a batch.
   */
  lemma ClampBindsFromNine(horizon: nat, sqrt: real -> real)
    requires horizon >= 9 && IsSqrt(sqrt)
    ensures var z := NormalizedAll(PathAdvantages(STEEP_GAP, horizon, 1.0, 20.0), sqrt)[0];
            RawWeight(z) < 0.05 == TaskWeight(z)
  {
    var advantages := PathAdvantages(STEEP_GAP, horizon, 1.0, 20.0);
    var bound := -SteepAdvantage(horizon, 1);
    forall t | 0 <= t < horizon ensures advantages[t] == SteepAdvantage(horizon, t) {
      CumsumAt(SteepDeltas(horizon), 20.0, t);
    }
    forall t | 1 <= t < horizon ensures -bound <= advantages[t] <= bound {
      SteepOrder(horizon, t);
    }
    SteepGrowth(horizon, 0);
    SteepGrowth(horizon, 1);
    OutlierIsClamped(advantages, sqrt, bound);
  }

  /** No weight of the batch is changed by the clamp. */
  ghost predicate ClampIdles(gap: Gap, horizon: nat, gamma: real, lam: real, sqrt: real -> real) {
    var z := NormalizedAll(PathAdvantages(gap, horizon, gamma, lam), sqrt);
    forall i :: 0 <= i < horizon ==> TaskWeight(z[i]) == RawWeight(z[i])
  }

  /** The clamp is redundant for every gap and every generator of a horizon exactly when that is at most eight. */
  lemma ClampIdlesIffShort(horizon: nat, sqrt: real -> real)
    requires IsSqrt(sqrt)
    ensures (forall gap, gamma, lam :: ClampIdles(gap, horizon, gamma, lam, sqrt)) <==> horizon <= 8
  {
    if horizon <= 8 {
      forall gap, gamma, lam ensures ClampIdles(gap, horizon, gamma, lam, sqrt) {
        forall i | 0 <= i < horizon
          ensures var z := NormalizedAll(PathAdvantages(gap, horizon, gamma, lam), sqrt)[i];
                  TaskWeight(z) == RawWeight(z)
        {
          ClampIsIdle(PathAdvantages(gap, horizon, gamma, lam), sqrt, i);
        }
      }
    } else {
      ClampBindsFromNine(horizon, sqrt);
      assert !ClampIdles(STEEP_GAP, horizon, 1.0, 20.0, sqrt);
    }
  }

  // ---------------------------------------------------------------- filling the buffer

  method FillBuffer(buffer: Buffer, gap: Gap)
    requires buffer.Valid() && buffer.ptr == 0 && buffer.pathStart == 0 && buffer.finished == []
    modifies buffer, buffer.rewards, buffer.values
    ensures buffer.Valid() && buffer.ptr == buffer.maxSize && buffer.pathStart == 0 && buffer.finished == []
    ensures buffer.rewards[..] == PathRewards(gap, buffer.maxSize, buffer.maxSize)
    ensures buffer.values[..] == PathValues(gap, buffer.maxSize)
  {
    var horizon := buffer.maxSize;
    for t := 0 to horizon
      invariant buffer.Valid() && buffer.ptr == t && buffer.pathStart == 0 && buffer.finished == []
      invariant buffer.rewards[..t] == PathRewards(gap, horizon, t) && buffer.values[..t] == PathValues(gap, t)
    {
      ghost var r, v := buffer.rewards[..], buffer.values[..];
      var stored := buffer.Store(RewardAt(gap, t, horizon), BaseGap(gap) * 0.45);
      assert buffer.rewards[..t + 1] == buffer.rewards[..][..t + 1] == r[..t] + [RewardAt(gap, t, horizon)];
      assert buffer.values[..t + 1] == buffer.values[..][..t + 1] == v[..t] + [BaseGap(gap) * 0.45];
      assert r[..t] == PathRewards(gap, horizon, t) && v[..t] == PathValues(gap, t);
    }
    assert buffer.rewards[..horizon] == buffer.rewards[..] && buffer.values[..horizon] == buffer.values[..];
  }

  method FinishFilled(buffer: Buffer, ghost gap: Gap)
    requires buffer.Valid() && buffer.ptr == buffer.maxSize && buffer.pathStart == 0 && buffer.finished == []
    requires buffer.rewards[..] == PathRewards(gap, buffer.maxSize, buffer.maxSize)
    requires buffer.values[..] == PathValues(gap, buffer.maxSize)
    modifies buffer, buffer.advantages
    ensures buffer.Valid() && buffer.ptr == buffer.maxSize
    ensures buffer.advantages[..] == PathAdvantages(gap, buffer.maxSize, buffer.gamma, buffer.lam)
  {
    buffer.FinishPath(0.0);
    FilledBufferHoldsPath(buffer, gap);
  }

  lemma FilledBufferHoldsPath(buffer: Buffer, gap: Gap)
    requires buffer.Valid() && buffer.ptr == buffer.maxSize
    requires buffer.finished == if buffer.maxSize > 0 then [Segment(0, buffer.maxSize, 0.0)] else []
    requires buffer.rewards[..] == PathRewards(gap, buffer.maxSize, buffer.maxSize)
    requires buffer.values[..] == PathValues(gap, buffer.maxSize)
    ensures buffer.advantages[..] == PathAdvantages(gap, buffer.maxSize, buffer.gamma, buffer.lam)
  {
    var n := buffer.maxSize;
    if n > 0 {
      var r, v, a := buffer.rewards[..], buffer.values[..], buffer.advantages[..];
      assert SegmentDone(r, v, a, buffer.finished[0], buffer.gamma, buffer.lam);
      assert r[0..n] == r && v[0..n] == v && a[0..n] == a;
    }
  }
}
