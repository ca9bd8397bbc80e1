/**
 Advantage estimation for adaptation tasks: discounted backward sums over a buffer of rewards
 and values, normalised, and turned into task weights. Numbers are ideal reals.
 */
module Advantage {
  import opened Sequences

  // ---------------------------------------------------------------- discounted sums

  /** values[0] + d * values[1] + d^2 * values[2] + ... */
  function DiscountedSum(values: seq<real>, d: real): real {
    if values == [] then 0.0 else values[0] + d * DiscountedSum(values[1..], d)
  }

  function Power(d: real, n: nat): real {
    if n == 0 then 1.0 else d * Power(d, n - 1)
  }

  /** The first n terms Power(d, k) * values[k], added up one by one. */
  function PowerSum(values: seq<real>, d: real, n: nat): real
    requires n <= |values|
  {
    if n == 0 then 0.0 else PowerSum(values, d, n - 1) + Power(d, n - 1) * values[n - 1]
  }

  lemma {:induction false} PowerSumTail(values: seq<real>, d: real, n: nat)
    requires 0 < n <= |values|
    ensures PowerSum(values, d, n) == values[0] + d * PowerSum(values[1..], d, n - 1)
  {
    if n > 1 {
      PowerSumTail(values, d, n - 1);
      var tail := PowerSum(values[1..], d, n - 2);
      assert PowerSum(values[1..], d, n - 1) == tail + Power(d, n - 2) * values[n - 1];
      assert Power(d, n - 1) * values[n - 1] == d * (Power(d, n - 2) * values[n - 1]);
    }
  }

  /** The backward recursion computes the power series. */
  lemma {:induction false} DiscountedSumIsPowerSum(values: seq<real>, d: real)
    ensures DiscountedSum(values, d) == PowerSum(values, d, |values|)
  {
    if values != [] {
      DiscountedSumIsPowerSum(values[1..], d);
      PowerSumTail(values, d, |values|);
    }
  }

  /** The discounted sums of all suffixes. */
  function Cumsum(values: seq<real>, d: real): (r: seq<real>)
    ensures |r| == |values|
  {
    if values == [] then [] else [DiscountedSum(values, d)] + Cumsum(values[1..], d)
  }

  lemma {:induction false} CumsumAt(values: seq<real>, d: real, t: nat)
    requires t < |values|
    ensures Cumsum(values, d)[t] == DiscountedSum(values[t..], d)
  {
    if t == 0 {
      assert values[0..] == values;
    } else {
      CumsumAt(values[1..], d, t - 1);
      assert values[1..][t - 1..] == values[t..];
    }
  }

  lemma CumsumStep(values: seq<real>, d: real, index: nat)
    requires index < |values|
    ensures DiscountedSum(values[index..], d) == values[index] + d * DiscountedSum(values[index + 1..], d)
    ensures Cumsum(values[index..], d) == [DiscountedSum(values[index..], d)] + Cumsum(values[index + 1..], d)
  {
    assert values[index..][1..] == values[index + 1..];
  }

  method DiscountCumsum(values: seq<real>, discount: real) returns (out: array<real>)
    ensures fresh(out) && out[..] == Cumsum(values, discount)
  {
    out := new real[|values|];
    var running := 0.0;
    var index := |values|;
    while index > 0
      invariant 0 <= index <= |values|
      invariant running == DiscountedSum(values[index..], discount)
      invariant out[index..] == Cumsum(values[index..], discount)
    {
      index := index - 1;
      CumsumStep(values, discount, index);
      ghost var done := out[index + 1..];
      running := values[index] + discount * running;
      out[index] := running;
      assert out[index..] == [running] + done;
    }
    assert values[0..] == values && out[..] == out[0..];
  }

  // ---------------------------------------------------------------- advantages of one path

  /** The value one step later; behind the last step stands the given final value. */
  function NextValue(values: seq<real>, last: real): real {
    if |values| > 1 then values[1] else last
  }

  function Delta(reward: real, next: real, value: real, gamma: real): real {
    reward + gamma * next - value
  }

  /** The one-step errors of a path. */
  function Deltas(rewards: seq<real>, values: seq<real>, last: real, gamma: real): (r: seq<real>)
    requires |rewards| == |values|
    ensures |r| == |rewards|
  {
    if rewards == [] then []
    else [Delta(rewards[0], NextValue(values, last), values[0], gamma)] + Deltas(rewards[1..], values[1..], last, gamma)
  }

  lemma {:induction false} DeltaAt(rewards: seq<real>, values: seq<real>, last: real, gamma: real, k: nat)
    requires |rewards| == |values| && k < |rewards|
    ensures Deltas(rewards, values, last, gamma)[k] ==
            Delta(rewards[k], if k + 1 < |values| then values[k + 1] else last, values[k], gamma)
  {
    if k > 0 {
      DeltaAt(rewards[1..], values[1..], last, gamma, k - 1);
    }
  }

  /** The advantage at place t of a path. */
  function AdvantageAt(rewards: seq<real>, values: seq<real>, last: real, gamma: real, lam: real, t: nat): real
    requires |rewards| == |values| && t < |rewards|
  {
    DiscountedSum(Deltas(rewards, values, last, gamma)[t..], gamma * lam)
  }

  /** The advantages of a path. */
  function Advantages(rewards: seq<real>, values: seq<real>, last: real, gamma: real, lam: real): (r: seq<real>)
    requires |rewards| == |values|
    ensures |r| == |rewards|
  {
    Cumsum(Deltas(rewards, values, last, gamma), gamma * lam)
  }

  /** Each is the sum of (gamma * lam)^(k - t) times the error at k, from its place t to the end of the path. */
  lemma AdvantageIsPowerSum(rewards: seq<real>, values: seq<real>, last: real, gamma: real, lam: real, t: nat)
    requires |rewards| == |values| && t < |rewards|
    ensures Advantages(rewards, values, last, gamma, lam)[t] == AdvantageAt(rewards, values, last, gamma, lam, t)
    ensures AdvantageAt(rewards, values, last, gamma, lam, t)
         == PowerSum(Deltas(rewards, values, last, gamma)[t..], gamma * lam, |rewards| - t)
  {
    CumsumAt(Deltas(rewards, values, last, gamma), gamma * lam, t);
    DiscountedSumIsPowerSum(Deltas(rewards, values, last, gamma)[t..], gamma * lam);
  }

  lemma DeltasTail(rewards: seq<real>, values: seq<real>, last: real, gamma: real)
    requires |rewards| == |values| > 0
    ensures Deltas(rewards, values, last, gamma)[1..] == Deltas(rewards[1..], values[1..], last, gamma)
  {
  }

  lemma {:induction false} DeltasSuffix(rewards: seq<real>, values: seq<real>, last: real, gamma: real, t: nat)
    requires |rewards| == |values| && t <= |rewards|
    ensures Deltas(rewards, values, last, gamma)[t..] == Deltas(rewards[t..], values[t..], last, gamma)
  {
    if t > 0 {
      DeltasTail(rewards, values, last, gamma);
      DeltasSuffix(rewards[1..], values[1..], last, gamma, t - 1);
      assert rewards[1..][t - 1..] == rewards[t..] && values[1..][t - 1..] == values[t..];
      assert Deltas(rewards, values, last, gamma)[1..][t - 1..] == Deltas(rewards, values, last, gamma)[t..];
    }
  }

  lemma {:induction false} DeltasTelescope(rewards: seq<real>, values: seq<real>, last: real, gamma: real)
    requires |rewards| == |values| > 0
    ensures DiscountedSum(Deltas(rewards, values, last, gamma), gamma)
         == DiscountedSum(rewards + [last], gamma) - values[0]
    decreases |rewards|
  {
    var deltas := Deltas(rewards, values, last, gamma);
    DeltasTail(rewards, values, last, gamma);
    assert (rewards + [last])[1..] == rewards[1..] + [last];
    var later, tail := DiscountedSum(rewards[1..] + [last], gamma), DiscountedSum(deltas[1..], gamma);
    if |rewards| == 1 {
      assert rewards[1..] + [last] == [last];
      DiscountedSingle(last, gamma);
      assert deltas[1..] == [];
    } else {
      DeltasTelescope(rewards[1..], values[1..], last, gamma);
    }
    assert tail == later - NextValue(values, last);
    Cancels(gamma, rewards[0], NextValue(values, last), values[0], later, tail);
  }

  lemma DiscountedSingle(x: real, d: real)
    ensures DiscountedSum([x], d) == x
  {
    assert [x][1..] == [];
    assert DiscountedSum([x], d) == x + d * 0.0;
  }

  lemma Cancels(gamma: real, reward: real, next: real, value: real, later: real, tail: real)
    requires tail == later - next
    ensures Delta(reward, next, value, gamma) + gamma * tail == (reward + gamma * later) - value
  {
  }

  /**
   With lam = 1 the values in between cancel: the advantage is the discounted reward from t on,
   the final value included, less the value at t.
   */
  lemma AdvantageTelescopes(rewards: seq<real>, values: seq<real>, last: real, gamma: real, t: nat)
    requires |rewards| == |values| && t < |rewards|
    ensures AdvantageAt(rewards, values, last, gamma, 1.0, t) == DiscountedSum(rewards[t..] + [last], gamma) - values[t]
  {
    DeltasSuffix(rewards, values, last, gamma, t);
    DeltasTelescope(rewards[t..], values[t..], last, gamma);
    assert gamma * 1.0 == gamma;
  }

  // ---------------------------------------------------------------- mean and deviation

  function Sum(values: seq<real>): real {
    if values == [] then 0.0 else Sum(values[..|values| - 1]) + Last(values)
  }

  function Count(values: seq<real>): real {
    if values == [] then 1.0 else |values| as real
  }

  function Mean(values: seq<real>): real {
    Sum(values) / Count(values)
  }

  function Deviations(values: seq<real>, mean: real): (r: seq<real>)
    ensures |r| == |values| && forall i :: 0 <= i < |r| ==> r[i] == values[i] - mean
  {
    if values == [] then [] else Deviations(values[..|values| - 1], mean) + [Last(values) - mean]
  }

  function Square(x: real): real {
    x * x
  }

  function Squares(values: seq<real>): (r: seq<real>)
    ensures |r| == |values| && forall i :: 0 <= i < |r| ==> r[i] == Square(values[i])
  {
    if values == [] then [] else Squares(values[..|values| - 1]) + [Square(Last(values))]
  }

  function SquareSum(values: seq<real>): real {
    Sum(Squares(values))
  }

  function Variance(values: seq<real>): real {
    SquareSum(Deviations(values, Mean(values))) / Count(values)
  }

  /** The square root, known by what it does. */
  ghost predicate IsSqrt(sqrt: real -> real) {
    forall x :: x >= 0.0 ==> sqrt(x) >= 0.0 && Square(sqrt(x)) == x
  }

  const LEAST_DEVIATION := 0.00000001

  function AtLeast(x: real, least: real): real {
    if x < least then least else x
  }

  /** The divisor used for normalising: the deviation, but never too close to zero. */
  function Scale(values: seq<real>, sqrt: real -> real): (r: real)
    ensures r >= LEAST_DEVIATION > 0.0
  {
    AtLeast(sqrt(Variance(values)), LEAST_DEVIATION)
  }

  function Normalized(values: seq<real>, sqrt: real -> real, i: nat): real
    requires i < |values|
  {
    (values[i] - Mean(values)) / Scale(values, sqrt)
  }

  /** n times x, by repeated addition. */
  function Multiple(n: nat, x: real): real {
    if n == 0 then 0.0 else Multiple(n - 1, x) + x
  }

  lemma OneMore(n: real, x: real)
    ensures (n + 1.0) * x == n * x + x
  {
  }

  lemma {:induction false} MultipleIsProduct(n: nat, x: real)
    ensures Multiple(n, x) == n as real * x
  {
    if n > 0 {
      MultipleIsProduct(n - 1, x);
      OneMore((n - 1) as real, x);
      assert n as real == (n - 1) as real + 1.0;
    }
  }

  lemma SumSnoc(x: seq<real>, y: real)
    ensures Sum(x + [y]) == Sum(x) + y
  {
    assert (x + [y])[..|x|] == x;
  }

  lemma {:induction false} SumOfDeviations(values: seq<real>, mean: real)
    ensures Sum(Deviations(values, mean)) == Sum(values) - Multiple(|values|, mean)
  {
    if values != [] {
      var front := values[..|values| - 1];
      SumOfDeviations(front, mean);
      SumSnoc(Deviations(front, mean), Last(values) - mean);
    }
  }

  lemma TimesQuotient(n: real, a: real)
    requires n > 0.0
    ensures n * (a / n) == a
  {
  }

  lemma DeviationsCancel(values: seq<real>)
    ensures Sum(Deviations(values, Mean(values))) == 0.0
  {
    SumOfDeviations(values, Mean(values));
    if values != [] {
      MultipleIsProduct(|values|, Mean(values));
      TimesQuotient(|values| as real, Sum(values));
    }
  }

  lemma {:induction false} SumNonNegative(x: seq<real>)
    requires forall i :: 0 <= i < |x| ==> x[i] >= 0.0
    ensures Sum(x) >= 0.0
  {
    if x != [] {
      SumNonNegative(x[..|x| - 1]);
    }
  }

  lemma SquareNonNegative(x: real)
    ensures Square(x) >= 0.0
  {
  }

  lemma SquareSumNonNegative(values: seq<real>)
    ensures SquareSum(values) >= 0.0
  {
    forall i | 0 <= i < |values| ensures Squares(values)[i] >= 0.0 {
      SquareNonNegative(values[i]);
    }
    SumNonNegative(Squares(values));
  }

  // ---------------------------------------------------------------- how far one value can lie out

  lemma CancelFactor(k: real, a: real, b: real)
    requires k > 0.0 && k * a <= k * b
    ensures a <= b
  {
  }

  lemma CrossTerm(s: real, x: real, k: real, q: real)
    requires k >= 1.0 && Square(s) <= k * q
    ensures 2.0 * (s * x) <= q + k * Square(x)
  {
    // 0 <= (s - k x)^2 = s s - 2 k s x + k k x x
    var sx, xx := s * x, Square(x);
    SquareNonNegative(s - k * x);
    assert Square(s - k * x) == Square(s) - 2.0 * (k * sx) + k * (k * xx);
    assert k * (2.0 * sx) == 2.0 * (k * sx);
    assert k * (q + k * xx) == k * q + k * (k * xx);
    CancelFactor(k, 2.0 * sx, q + k * xx);
  }

  lemma SquareOfSum(s: real, x: real, k: real, q: real)
    requires k >= 1.0 && Square(s) <= k * q
    ensures Square(s + x) <= (k + 1.0) * (q + Square(x))
  {
    CrossTerm(s, x, k, q);
    var xx := Square(x);
    assert Square(s + x) == Square(s) + 2.0 * (s * x) + xx;
    assert (k + 1.0) * (q + xx) == k * q + q + k * xx + xx;
  }

  lemma SquaresSnoc(x: seq<real>)
    requires x != []
    ensures SquareSum(x) == SquareSum(x[..|x| - 1]) + Square(Last(x))
  {
    SumSnoc(Squares(x[..|x| - 1]), Square(Last(x)));
  }

  /** The square of a sum of n numbers is at most n times the sum of their squares. */
  lemma {:induction false} SumSquared(x: seq<real>)
    requires x != []
    ensures Square(Sum(x)) <= |x| as real * SquareSum(x)
  {
    var front := x[..|x| - 1];
    SquaresSnoc(x);
    if |x| == 1 {
      assert front == [];
      assert Sum(x) == Last(x) && SquareSum(x) == Square(Last(x));
    } else {
      SumSquared(front);
      SquareOfSum(Sum(front), Last(x), |front| as real, SquareSum(front));
      assert |x| as real == |front| as real + 1.0;
    }
  }

  lemma {:induction false} SumWithout(x: seq<real>, i: nat)
    requires i < |x|
    ensures Sum(RemoveAt(x, i)) == Sum(x) - x[i]
  {
    var front := x[..|x| - 1];
    if i == |x| - 1 {
      assert RemoveAt(x, i) == front;
    } else {
      SumWithout(front, i);
      assert RemoveAt(x, i) == RemoveAt(front, i) + [Last(x)];
      SumSnoc(RemoveAt(front, i), Last(x));
    }
  }

  lemma SquaresWithout(x: seq<real>, i: nat)
    requires i < |x|
    ensures SquareSum(RemoveAt(x, i)) == SquareSum(x) - Square(x[i])
  {
    SumWithout(Squares(x), i);
    assert Squares(RemoveAt(x, i)) == RemoveAt(Squares(x), i);
  }

  /** One of n numbers that cancel is outweighed by the n - 1 others. */
  lemma OutweighedByOthers(n: real, n1: real, d: real, rest: real, others: real, q: real, v: real)
    requires n1 == n - 1.0 && n1 >= 0.0 && v == q / n
    requires rest == -d && others == q - Square(d) && Square(rest) <= n1 * others
    ensures Square(d) <= n1 * v
  {
    var dd := Square(d);
    assert Square(rest) == dd;
    TimesQuotient(n, q);
    assert n1 * others == n1 * q - n1 * dd;
    assert n * dd == n1 * dd + dd;
    assert n * (n1 * v) == n1 * (n * v);
    CancelFactor(n, dd, n1 * v);
  }

  /** The other deviations, taken together, are opposite to the one left out. */
  lemma OthersAreOpposite(values: seq<real>, i: nat)
    requires i < |values|
    ensures var x := Deviations(values, Mean(values));
            Sum(RemoveAt(x, i)) == -x[i] && SquareSum(RemoveAt(x, i)) == SquareSum(x) - Square(x[i])
  {
    var x := Deviations(values, Mean(values));
    DeviationsCancel(values);
    SumWithout(x, i);
    SquaresWithout(x, i);
  }

  /** No value lies further from the mean than the square root of (n - 1) times the variance. */
  lemma DeviationBound(values: seq<real>, i: nat)
    requires i < |values|
    ensures Square(values[i] - Mean(values)) <= (|values| - 1) as real * Variance(values)
  {
    var x := Deviations(values, Mean(values));
    var rest := RemoveAt(x, i);
    OthersAreOpposite(values, i);
    if |values| == 1 {
      assert rest == [];
      NoDeviation(x[i], Variance(values));
    } else {
      SumSquared(rest);
      OutweighedByOthers(|values| as real, |rest| as real, x[i], Sum(rest),
                         SquareSum(rest), SquareSum(x), Variance(values));
    }
  }

  lemma NoDeviation(d: real, v: real)
    requires d == 0.0
    ensures Square(d) <= 0.0 * v
  {
  }

  lemma PositiveSquare(m: real)
    requires m >= LEAST_DEVIATION
    ensures Square(m) > 0.0
  {
    Scaling(m, LEAST_DEVIATION, m);
  }

  lemma SquareMonotonic(a: real, b: real)
    requires 0.0 <= a <= b
    ensures Square(a) <= Square(b)
  {
  }

  lemma SquareOfProduct(a: real, b: real)
    ensures Square(a * b) == Square(a) * Square(b)
  {
  }

  lemma Scaling(c: real, a: real, b: real)
    requires c >= 0.0 && a <= b
    ensures c * a <= c * b
  {
  }

  lemma ScaledBound(z: real, d: real, m: real, root: real, c: real)
    requires m >= LEAST_DEVIATION && 0.0 <= root <= m && c >= 0.0 && Square(d) <= c * Square(root) && z == d / m
    ensures Square(z) <= c
  {
    TimesQuotient(m, d);
    SquareOfProduct(m, z);
    SquareMonotonic(root, m);
    Scaling(c, Square(root), Square(m));
    PositiveSquare(m);
    CancelFactor(Square(m), Square(z), c);
  }

  lemma VarianceNonNegative(values: seq<real>)
    ensures Variance(values) >= 0.0
  {
    SquareSumNonNegative(Deviations(values, Mean(values)));
  }

  lemma NormalizedBound(values: seq<real>, sqrt: real -> real, i: nat)
    requires i < |values| && IsSqrt(sqrt)
    ensures Square(Normalized(values, sqrt, i)) <= (|values| - 1) as real
  {
    DeviationBound(values, i);
    VarianceNonNegative(values);
    var root := sqrt(Variance(values));
    assert Square(root) == Variance(values);
    ScaledBound(Normalized(values, sqrt, i), values[i] - Mean(values), Scale(values, sqrt),
                root, (|values| - 1) as real);
  }

  // ---------------------------------------------------------------- normalised advantages

  /** Every entry divided by m. */
  function Divided(x: seq<real>, m: real): (r: seq<real>)
    requires m > 0.0
    ensures |r| == |x| && forall i :: 0 <= i < |r| ==> r[i] == x[i] / m
  {
    if x == [] then [] else Divided(x[..|x| - 1], m) + [Last(x) / m]
  }

  function NormalizedAll(values: seq<real>, sqrt: real -> real): (r: seq<real>)
    ensures |r| == |values| && forall i :: 0 <= i < |r| ==> r[i] == Normalized(values, sqrt, i)
  {
    Divided(Deviations(values, Mean(values)), Scale(values, sqrt))
  }

  lemma DivideSum(a: real, b: real, m: real)
    requires m > 0.0
    ensures (a + b) / m == a / m + b / m
  {
  }

  lemma DivideZero(m: real)
    requires m > 0.0
    ensures 0.0 / m == 0.0
  {
  }

  lemma {:induction false} SumDivided(x: seq<real>, m: real)
    requires m > 0.0
    ensures Sum(Divided(x, m)) == Sum(x) / m
  {
    if x != [] {
      var front := x[..|x| - 1];
      SumDivided(front, m);
      SumSnoc(Divided(front, m), Last(x) / m);
      DivideSum(Sum(front), Last(x), m);
    }
  }

  /** Normalised advantages cancel. */
  lemma NormalizedCancel(values: seq<real>, sqrt: real -> real)
    ensures Sum(NormalizedAll(values, sqrt)) == 0.0
  {
    DeviationsCancel(values);
    SumDivided(Deviations(values, Mean(values)), Scale(values, sqrt));
    DivideZero(Scale(values, sqrt));
  }

  lemma SquareOfQuotient(a: real, m: real)
    requires m >= LEAST_DEVIATION
    ensures Square(m) > 0.0 && Square(a / m) == Square(a) / Square(m)
  {
    var q := a / m;
    PositiveSquare(m);
    TimesQuotient(m, a);
    SquareOfProduct(m, q);
    TimesQuotient(Square(m), Square(a));
    SameFactor(Square(m), Square(q), Square(a) / Square(m));
  }

  lemma SameFactor(k: real, a: real, b: real)
    requires k > 0.0 && k * a == k * b
    ensures a == b
  {
  }

  lemma {:induction false} SquareSumDivided(x: seq<real>, m: real)
    requires m >= LEAST_DEVIATION
    ensures Square(m) > 0.0 && SquareSum(Divided(x, m)) == SquareSum(x) / Square(m)
  {
    if x == [] {
      SquareOfQuotient(0.0, m);
      DivideZero(Square(m));
    } else {
      var front := x[..|x| - 1];
      SquareSumDivided(front, m);
      SquareOfQuotient(Last(x), m);
      SumSnoc(Squares(Divided(front, m)), Square(Last(x) / m));
      SumSnoc(Squares(front), Square(Last(x)));
      DivideSum(SquareSum(front), Square(Last(x)), Square(m));
    }
  }

  /** Where the floor is not used, dividing by the variance leaves the count; where it is, less than that. */
  lemma OverVariance(q: real, n: real, v: real, root: real)
    requires n >= 1.0 && v >= 0.0 && v == q / n && root >= 0.0 && Square(root) == v
    ensures var m := AtLeast(root, LEAST_DEVIATION);
            m > 0.0 && Square(m) > 0.0 && (q / Square(m) == n <==> v >= 0.0000000000000001)
  {
    var m := AtLeast(root, LEAST_DEVIATION);
    TimesQuotient(n, q);
    PositiveSquare(m);
    TimesQuotient(Square(m), q);
    if root >= LEAST_DEVIATION {
      SquareMonotonic(LEAST_DEVIATION, root);
      SameFactor(Square(m), q / Square(m), n);
    } else {
      BelowFloor(root);
      assert n * v < n * Square(m);
    }
  }

  lemma BelowFloor(a: real)
    requires 0.0 <= a < LEAST_DEVIATION
    ensures Square(a) < Square(LEAST_DEVIATION) == 0.0000000000000001
  {
    Scaling(a, a, 0.00000001);
    assert a * a <= a * 0.00000001;
    assert Square(a) == a * a;
  }

  /** Normalised advantages have unit variance exactly where the variance is at least the square of the floor. */
  lemma UnitVarianceIff(values: seq<real>, sqrt: real -> real)
    requires values != [] && IsSqrt(sqrt)
    ensures SquareSum(NormalizedAll(values, sqrt)) == |values| as real <==> Variance(values) >= 0.0000000000000001
  {
    var d, n := Deviations(values, Mean(values)), |values| as real;
    VarianceNonNegative(values);
    SquareSumDivided(d, Scale(values, sqrt));
    OverVariance(SquareSum(d), n, Variance(values), sqrt(Variance(values)));
  }

  // ---------------------------------------------------------------- task weights

  function Clamp(x: real, low: real, high: real): real {
    if x < low then low else if x > high then high else x
  }

  function RawWeight(z: real): real {
    (z + 3.0) / 6.0
  }

  function TaskWeight(z: real): real {
    Clamp(RawWeight(z), 0.05, 1.0)
  }

  function Distance(a: real, b: real): real {
    if a < b then b - a else a - b
  }

  /** The weight is the one within the bounds whose sixfold, less three, comes closest to the advantage. */
  lemma WeightIsNearest(z: real, x: real)
    requires 0.05 <= x <= 1.0
    ensures 0.05 <= TaskWeight(z) <= 1.0
    ensures Distance(6.0 * TaskWeight(z) - 3.0, z) <= Distance(6.0 * x - 3.0, z)
    ensures Distance(6.0 * TaskWeight(z) - 3.0, z) == Distance(6.0 * x - 3.0, z) ==> x == TaskWeight(z)
  {
  }

  lemma WithinTwoPointSeven(z: real)
    requires Square(z) <= 7.0
    ensures -2.7 < z < 2.7
  {
    if z <= -2.7 {
      SquareMonotonic(2.7, -z);
    } else if z >= 2.7 {
      SquareMonotonic(2.7, z);
    }
  }

  /** On a horizon of at most eight the clamp never changes a weight. */
  lemma ClampIsIdle(values: seq<real>, sqrt: real -> real, i: nat)
    requires i < |values| <= 8 && IsSqrt(sqrt)
    ensures var z := Normalized(values, sqrt, i); 0.05 < RawWeight(z) < 1.0 && TaskWeight(z) == RawWeight(z)
  {
    NormalizedBound(values, sqrt, i);
    WithinTwoPointSeven(Normalized(values, sqrt, i));
  }

  // ---------------------------------------------------------------- outliers

  /** n squared distances from m add up to this, where the numbers add up to `sum` and their squares to q. */
  function Around(q: real, sum: real, n: real, m: real): real {
    q - 2.0 * (m * sum) + n * Square(m)
  }

  lemma AroundOneMore(q: real, sum: real, n: real, x: real, m: real)
    ensures Around(q + Square(x), sum + x, n + 1.0, m) == Around(q, sum, n, m) + Square(x - m)
  {
    OneMore(n, Square(m));
    assert m * (sum + x) == m * sum + m * x;
    assert Square(x - m) == Square(x) - 2.0 * (m * x) + Square(m);
  }

  lemma AroundNothing(m: real)
    ensures Around(0.0, 0.0, 0.0, m) == 0.0
  {
  }

  lemma {:induction false} SquaresAround(x: seq<real>, m: real, n: real)
    requires n == |x| as real
    ensures SquareSum(Deviations(x, m)) == Around(SquareSum(x), Sum(x), n, m)
  {
    if x == [] {
      AroundNothing(m);
    } else {
      var front, last := x[..|x| - 1], Last(x);
      SquaresAround(front, m, n - 1.0);
      AroundOneMore(SquareSum(front), Sum(front), n - 1.0, last, m);
      SquaresSnoc(x);
      DeviationsSnoc(x, m);
    }
  }

  lemma DeviationsFront(x: seq<real>, m: real)
    requires x != []
    ensures Deviations(x, m)[..|x| - 1] == Deviations(x[..|x| - 1], m) && Last(Deviations(x, m)) == Last(x) - m
  {
  }

  lemma DeviationsSnoc(x: seq<real>, m: real)
    requires x != []
    ensures SquareSum(Deviations(x, m)) == SquareSum(Deviations(x[..|x| - 1], m)) + Square(Last(x) - m)
  {
    DeviationsFront(x, m);
    SquaresSnoc(Deviations(x, m));
  }

  lemma MeanSquares(n: real, q: real, sum: real, m: real, v: real)
    requires AreMoments(q, sum, n, m, v)
    ensures Square(n) * v == n * q - Square(sum)
  {
    assert Square(n) * v == n * (n * v);
    assert n * (m * sum) == (n * m) * sum;
    assert n * (n * Square(m)) == (n * m) * (n * m);
    assert n * (q - 2.0 * (m * sum) + n * Square(m)) == n * q - 2.0 * (n * (m * sum)) + n * (n * Square(m));
  }

  /** What makes m the mean and v the variance of n numbers with these sums. */
  ghost predicate AreMoments(q: real, sum: real, n: real, m: real, v: real) {
    n > 0.0 && n * m == sum && n * v == Around(q, sum, n, m)
  }

  lemma Moments(x: seq<real>, n: real, m: real)
    requires x != [] && n == |x| as real && m == Mean(x)
    ensures AreMoments(SquareSum(x), Sum(x), n, m, Variance(x))
  {
    TimesQuotient(n, Sum(x));
    TimesQuotient(n, SquareSum(Deviations(x, m)));
    SquaresAround(x, m, n);
  }

  lemma SmallSquare(x: real, bound: real)
    requires -bound <= x <= bound
    ensures Square(x) <= Square(bound)
  {
    SquareMonotonic(if x < 0.0 then -x else x, bound);
  }

  lemma {:induction false} SmallSum(x: seq<real>, bound: real, n: real)
    requires n == |x| as real && forall i :: 0 <= i < |x| ==> -bound <= x[i] <= bound
    ensures Sum(x) >= -(n * bound)
  {
    if x != [] {
      SmallSum(x[..|x| - 1], bound, n - 1.0);
      OneMore(n - 1.0, bound);
    }
  }

  lemma {:induction false} SmallSquares(x: seq<real>, bound: real, n: real)
    requires n == |x| as real && forall i :: 0 <= i < |x| ==> -bound <= x[i] <= bound
    ensures SquareSum(x) <= n * Square(bound)
  {
    if x != [] {
      SmallSquares(x[..|x| - 1], bound, n - 1.0);
      SquaresSnoc(x);
      SmallSquare(Last(x), bound);
      OneMore(n - 1.0, Square(bound));
    }
  }

  /** How far k small numbers and one at -a lie apart, measured against k times the bound. */
  lemma OutlierDistance(k: real, a: real, s: real, bound: real)
    requires k >= 8.0 && bound >= LEAST_DEVIATION && a >= 13.0 * bound && s >= -(k * bound)
    ensures s + k * a >= 12.0 * (k * bound) > 0.0 && Square(s + k * a) >= 144.0 * Square(k * bound)
  {
    Scaling(k, 13.0 * bound, a);
    assert k * (13.0 * bound) == 13.0 * (k * bound);
    assert k * bound >= LEAST_DEVIATION;
    SquareMonotonic(12.0 * (k * bound), s + k * a);
    SquareOfProduct(12.0, k * bound);
  }

  lemma OutlierIdentity(k: real, a: real, s: real, q: real)
    ensures k * ((k + 1.0) * (Square(a) + q) - Square(s - a))
         == Square(s + k * a) - (k + 1.0) * Square(s) + (k + 1.0) * (k * q)
  {
  }

  lemma OutlierSquares(k: real, q: real, bound: real)
    requires k >= 8.0 && bound >= LEAST_DEVIATION && q <= k * Square(bound)
    ensures (k + 1.0) * (k * q) <= 1.125 * (k * Square(k * bound))
  {
    Scaling(k, q, k * Square(bound));
    SquareOfProduct(k, bound);
    var w := Square(k * bound);
    assert k * (k * Square(bound)) == w;
    SquareNonNegative(k * bound);
    Scaling(k + 1.0, k * q, w);
    assert (k + 1.0) * w <= 1.125 * (k * w) by {
      Scaling(w, k + 1.0, 1.125 * k);
    }
  }

  lemma OutlierRatio(k: real, t: real, p: real, w: real)
    requires k >= 8.0 && p >= 144.0 * w && w > 0.0 && k * t <= p + 1.125 * (k * w)
    ensures 7.29 * t < p
  {
    var kt, kp, kw := k * t, k * p, k * w;
    assert kp >= 144.0 * kw by {
      Scaling(k, 144.0 * w, p);
      assert k * (144.0 * w) == 144.0 * kw;
    }
    assert 8.0 * p <= kp by {
      Scaling(p, 8.0, k);
    }
    assert 7.29 * kt < kp;
    assert k * (7.29 * t) == 7.29 * kt;
    if 7.29 * t >= p {
      Scaling(k, p, 7.29 * t);
    }
  }

  /** Among at least eight others, a number 13 times as far out on the low side is an outlier. */
  lemma OutlierDominates(k: real, a: real, s: real, q: real, bound: real)
    requires k >= 8.0 && bound >= LEAST_DEVIATION && a >= 13.0 * bound && s >= -(k * bound) && q <= k * Square(bound)
    ensures Square(s + k * a) > 7.29 * ((k + 1.0) * (Square(a) + q) - Square(s - a))
  {
    var t := (k + 1.0) * (Square(a) + q) - Square(s - a);
    OutlierDistance(k, a, s, bound);
    OutlierIdentity(k, a, s, q);
    OutlierSquares(k, q, bound);
    SquareNonNegative(s);
    Scaling(k + 1.0, 0.0, Square(s));
    Scaling(bound, 1.0, k);
    PositiveSquare(k * bound);
    OutlierRatio(k, t, Square(s + k * a), Square(k * bound));
  }

  /** The first value lies at least 13 times as far below zero as any other value lies from it. */
  ghost predicate FirstIsOutlier(values: seq<real>, bound: real) {
    && |values| >= 9 && bound >= LEAST_DEVIATION && values[0] <= -13.0 * bound
    && forall i :: 1 <= i < |values| ==> -bound <= values[i] <= bound
  }

  /** What is known of n numbers of which one is -a, the others lie within the bound, and a outweighs them. */
  ghost predicate OutlierFacts(n: real, k: real, a: real, s: real, q: real, bound: real) {
    && n == k + 1.0 && k >= 8.0 && bound >= LEAST_DEVIATION && a >= 13.0 * bound
    && s >= -(k * bound) && q <= k * Square(bound)
  }

  lemma OutlierFromMean(n: real, k: real, a: real, s: real, q: real, bound: real, m: real, variance: real)
    requires OutlierFacts(n, k, a, s, q, bound) && AreMoments(Square(a) + q, s - a, n, m, variance)
    ensures Square(-a - m) > 7.29 * variance
  {
    var w, p := Square(n) * variance, Square(s + k * a);
    assert w == n * (Square(a) + q) - Square(s - a) by {
      MeanSquares(n, Square(a) + q, s - a, m, variance);
    }
    assert p > 7.29 * w by {
      OutlierDominates(k, a, s, q, bound);
    }
    assert p == Square(n) * Square(-a - m) by {
      DistanceFromMean(n, k, a, s, m);
    }
    CancelSquare(n, Square(-a - m), variance);
  }

  lemma CancelSquare(n: real, a: real, b: real)
    requires n >= 1.0 && Square(n) * a > 7.29 * (Square(n) * b)
    ensures a > 7.29 * b
  {
    PositiveSquare(n);
    CancelStrictly(Square(n), a, b);
  }

  lemma DistanceFromMean(n: real, k: real, a: real, s: real, m: real)
    requires n == k + 1.0 && n * m == s - a
    ensures n * (m + a) == s + k * a && Square(s + k * a) == Square(n) * Square(-a - m)
  {
    assert n * (m + a) == s + k * a;
    SquareOfProduct(n, m + a);
    assert Square(m + a) == Square(-a - m);
  }

  lemma CancelStrictly(c: real, a: real, b: real)
    requires c > 0.0 && c * a > 7.29 * (c * b)
    ensures a > 7.29 * b
  {
    assert c * (7.29 * b) == 7.29 * (c * b);
    if a <= 7.29 * b {
      Scaling(c, a, 7.29 * b);
    }
  }

  lemma FarBelow(z: real, d: real, scale: real)
    requires scale > 0.0 && d < 0.0 && Square(d) > 7.29 * Square(scale) && scale * z == d
    ensures z < -2.7
  {
    if z >= -2.7 {
      Scaling(scale, -2.7, z);
      SquareMonotonic(-d, 2.7 * scale);
      SquareOfProduct(2.7, scale);
    }
  }

  lemma OutlierParts(values: seq<real>, a: real)
    requires values != [] && a == -values[0]
    ensures Sum(values) == Sum(values[1..]) - a && SquareSum(values) == Square(a) + SquareSum(values[1..])
  {
    assert RemoveAt(values, 0) == values[1..];
    SumWithout(values, 0);
    SquaresWithout(values, 0);
    NegatedSquare(a, values[0]);
  }

  lemma NegatedSquare(a: real, v: real)
    requires a == -v
    ensures Square(a) == Square(v)
  {
  }

  lemma SameMoments(q: real, sum: real, n: real, m: real, v: real, q': real, sum': real)
    requires AreMoments(q, sum, n, m, v) && q' == q && sum' == sum
    ensures AreMoments(q', sum', n, m, v)
  {
  }

  lemma OutlierMoments(values: seq<real>, n: real, m: real, a: real)
    requires values != [] && n == |values| as real && m == Mean(values) && a == -values[0]
    ensures AreMoments(Square(a) + SquareSum(values[1..]), Sum(values[1..]) - a, n, m, Variance(values))
  {
    var q, sum := Square(a) + SquareSum(values[1..]), Sum(values[1..]) - a;
    assert q == SquareSum(values) && sum == Sum(values) by {
      OutlierParts(values, a);
    }
    Moments(values, n, m);
    SameMoments(SquareSum(values), Sum(values), n, m, Variance(values), q, sum);
  }

  lemma OutlierKnown(values: seq<real>, bound: real, n: real)
    requires FirstIsOutlier(values, bound) && n == |values| as real
    ensures OutlierFacts(n, n - 1.0, -values[0], Sum(values[1..]), SquareSum(values[1..]), bound)
  {
    var rest, k := values[1..], n - 1.0;
    var s, q := Sum(rest), SquareSum(rest);
    assert s >= -(k * bound) by {
      SmallSum(rest, bound, k);
    }
    assert q <= k * Square(bound) by {
      SmallSquares(rest, bound, k);
    }
  }

  lemma OutlierAway(n: real, k: real, a: real, s: real, q: real, bound: real, m: real)
    requires OutlierFacts(n, k, a, s, q, bound) && n * m == s - a
    ensures m + a >= 10.0 * bound
  {
    OutlierDistance(k, a, s, bound);
    DistanceFromMean(n, k, a, s, m);
    AwayByTen(n, k, m + a, bound);
  }

  lemma FirstFarFromMean(values: seq<real>, bound: real)
    requires FirstIsOutlier(values, bound)
    ensures Square(values[0] - Mean(values)) > 7.29 * Variance(values) && Mean(values) - values[0] >= 10.0 * bound
  {
    var n, a := |values| as real, -values[0];
    OutlierKnown(values, bound, n);
    OutlierMoments(values, n, Mean(values), a);
    FarFromMean(n, n - 1.0, a, Sum(values[1..]), SquareSum(values[1..]), bound, Mean(values), Variance(values));
  }

  lemma FarFromMean(n: real, k: real, a: real, s: real, q: real, bound: real, m: real, variance: real)
    requires OutlierFacts(n, k, a, s, q, bound) && AreMoments(Square(a) + q, s - a, n, m, variance)
    ensures Square(-a - m) > 7.29 * variance && m + a >= 10.0 * bound
  {
    OutlierFromMean(n, k, a, s, q, bound, m, variance);
    OutlierAway(n, k, a, s, q, bound, m);
  }

  lemma AwayByTen(n: real, k: real, d: real, bound: real)
    requires n == k + 1.0 && k >= 8.0 && bound >= LEAST_DEVIATION && n * d >= 12.0 * (k * bound)
    ensures d >= 10.0 * bound
  {
    if d < 10.0 * bound {
      Scaling(n, d, 10.0 * bound);
      Scaling(bound, 8.0, k);
    }
  }

  /** Such an outlier's weight is cut off by the clamp. */
  lemma OutlierIsClamped(values: seq<real>, sqrt: real -> real, bound: real)
    requires IsSqrt(sqrt) && FirstIsOutlier(values, bound)
    ensures var z := Normalized(values, sqrt, 0); RawWeight(z) < 0.05 == TaskWeight(z)
  {
    FirstFarFromMean(values, bound);
    VarianceNonNegative(values);
    var d, root, scale := values[0] - Mean(values), sqrt(Variance(values)), Scale(values, sqrt);
    if root < LEAST_DEVIATION {
      SquareMonotonic(10.0 * scale, -d);
      SquareOfProduct(10.0, scale);
      PositiveSquare(scale);
      assert Square(-d) == Square(d);
    }
    TimesQuotient(scale, d);
    FarBelow(Normalized(values, sqrt, 0), d, scale);
  }

  function Weights(z: seq<real>): (r: seq<real>)
    ensures |r| == |z| && forall i :: 0 <= i < |r| ==> r[i] == TaskWeight(z[i])
  {
    if z == [] then [] else Weights(z[..|z| - 1]) + [TaskWeight(Last(z))]
  }

  lemma {:induction false} RawWeightSum(z: seq<real>)
    requires forall i :: 0 <= i < |z| ==> TaskWeight(z[i]) == RawWeight(z[i])
    ensures Sum(Weights(z)) == Sum(z) / 6.0 + |z| as real / 2.0
  {
    if z != [] {
      RawWeightSum(z[..|z| - 1]);
      SumSnoc(Weights(z[..|z| - 1]), TaskWeight(Last(z)));
    }
  }

  /** On a horizon of at most eight the weights share out exactly half a unit per task. */
  lemma WeightsShareOutHalf(values: seq<real>, sqrt: real -> real)
    requires |values| <= 8 && IsSqrt(sqrt)
    ensures Sum(Weights(NormalizedAll(values, sqrt))) == |values| as real / 2.0
  {
    var z := NormalizedAll(values, sqrt);
    forall i | 0 <= i < |z| ensures TaskWeight(z[i]) == RawWeight(z[i]) {
      ClampIsIdle(values, sqrt, i);
    }
    NormalizedCancel(values, sqrt);
    RawWeightSum(z);
  }
}
