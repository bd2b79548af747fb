/** Before-and-after arithmetic and verdicts (internal/measure/compare.go and
    verdict.go), in exact arithmetic. */
module Measure {
  import opened Prelude

  datatype Verdict = Successful | Partial | NoEffect | Regressed | Inconclusive
  datatype Reason = SecondChange | LowVolume | CostRose | WithinNoise | ReachedEstimate | PartOfEstimate | NoBand

  const MIN_OBSERVED_FRACTION := 0.30
  const NO_EFFECT_BAND := 0.02

  /** Cost per 1,000 requests before rounding; a window without traffic has rate 0. */
  function Rate(costMicro: int, requests: int): real {
    if requests == 0 then 0.0 else costMicro as real * 1000.0 / requests as real
  }

  function CostPer1k(costMicro: int, requests: int): int {
    Round(Rate(costMicro, requests))
  }

  /** A rate difference over a number of requests, before rounding. */
  function Scaled(baseline: int, observed: int, requests: int): real {
    (baseline - observed) as real * requests as real / 1000.0
  }

  datatype Comparison = Comparison(observedCostPer1kMicro: int, actualSavingsMicro: int, actualPct: real)

  function Compare(baselineCostPer1k: int, observedCost: int, observedRequests: int): Comparison {
    var observed := CostPer1k(observedCost, observedRequests);
    if baselineCostPer1k == 0 then Comparison(observed, 0, 0.0)
    else Comparison(observed,
                    Round(Scaled(baselineCostPer1k, observed, observedRequests)),
                    1.0 - observed as real / baselineCostPer1k as real)
  }

  function DetermineVerdict(expectedPct: real, actualPct: real, observedRequests: int, baselineRequests: int,
                            confound: bool): (Verdict, Reason) {
    if confound then (Inconclusive, SecondChange)
    else if baselineRequests > 0 && observedRequests as real < MIN_OBSERVED_FRACTION * baselineRequests as real
    then (Inconclusive, LowVolume)
    else if actualPct < -NO_EFFECT_BAND then (Regressed, CostRose)
    else if Abs(actualPct) < NO_EFFECT_BAND then (NoEffect, WithinNoise)
    else if expectedPct > 0.0 && actualPct >= 0.7 * expectedPct then (Successful, ReachedEstimate)
    else if expectedPct > 0.0 && actualPct >= 0.2 * expectedPct then (Partial, PartOfEstimate)
    else (Inconclusive, NoBand)
  }

  /** Scaling a difference of two rounded rates back to a cost. */
  lemma ScaledError(b: real, b': real, o: real, o': real, n: real)
    requires n >= 0.0 && Abs(b' - b) <= 0.5 && Abs(o' - o) <= 0.5
    ensures Abs((b' - o') * n / 1000.0 - (b - o) * n / 1000.0) <= n / 1000.0
  {
    var d := (b' - o') - (b - o);
    assert -1.0 <= d <= 1.0;
    ProductSign(1.0 - d, n);
    ProductSign(1.0 + d, n);
    assert (1.0 - d) * n == n - d * n && (1.0 + d) * n == n + d * n;
    assert (b' - o') * n - (b - o) * n == d * n;
  }

  /** The savings a measurement reports are the baseline cost scaled to the
      observed volume, less the observed cost, up to the three roundings. */
  lemma SavingsError(baselineCost: int, baselineRequests: int, observedCost: int, observedRequests: int)
    requires baselineRequests > 0 && observedRequests >= 0
    requires observedRequests == 0 ==> observedCost == 0
    requires CostPer1k(baselineCost, baselineRequests) != 0
    ensures var n := observedRequests as real;
            var fair := baselineCost as real * n / baselineRequests as real - observedCost as real;
            var reported := Compare(CostPer1k(baselineCost, baselineRequests), observedCost, observedRequests).actualSavingsMicro;
            Abs(reported as real - fair) <= n / 1000.0 + 0.5
  {
    var b', o' := CostPer1k(baselineCost, baselineRequests), CostPer1k(observedCost, observedRequests);
    RoundError(Rate(baselineCost, baselineRequests));
    RoundError(Rate(observedCost, observedRequests));
    RoundError(Scaled(b', o', observedRequests));
    ScaledAsReals(b', o', observedRequests);
    ThreeRoundings(baselineCost as real, baselineRequests as real, observedCost as real, observedRequests as real,
                   Rate(observedCost, observedRequests), b' as real, o' as real,
                   Round(Scaled(b', o', observedRequests)) as real);
  }

  lemma ScaledAsReals(b: int, o: int, n: int)
    ensures Scaled(b, o, n) == (b as real - o as real) * n as real / 1000.0
  {
  }

  lemma ThreeRoundings(c: real, r: real, cost: real, n: real, o: real, b': real, o': real, reported: real)
    requires r > 0.0 && n >= 0.0
    requires if n == 0.0 then o == 0.0 && cost == 0.0 else o == cost * 1000.0 / n
    requires Abs(b' - c * 1000.0 / r) <= 0.5 && Abs(o' - o) <= 0.5
    requires Abs(reported - (b' - o') * n / 1000.0) <= 0.5
    ensures Abs(reported - (c * n / r - cost)) <= n / 1000.0 + 0.5
  {
    var b := c * 1000.0 / r;
    ScaledError(b, b', o, o', n);
    FairCost(c, r, cost, n, b, o);
    Triangle(reported, (b' - o') * n / 1000.0, (b - o) * n / 1000.0, 0.5, n / 1000.0);
  }

  lemma Triangle(x: real, y: real, z: real, d: real, e: real)
    requires Abs(x - y) <= d && Abs(y - z) <= e
    ensures Abs(x - z) <= d + e
  {
  }

  lemma FairCost(c: real, r: real, cost: real, n: real, b: real, o: real)
    requires r > 0.0 && b == c * 1000.0 / r
    requires if n == 0.0 then o == 0.0 && cost == 0.0 else o == cost * 1000.0 / n
    ensures (b - o) * n / 1000.0 == c * n / r - cost
  {
    BaselineScaled(c, r, n);
    assert o * n == cost * 1000.0;
    assert (b - o) * n == b * n - o * n;
  }

  lemma BaselineScaled(c: real, r: real, n: real)
    requires r > 0.0
    ensures c * 1000.0 / r * n / 1000.0 == c * n / r
  {
    var q := c / r;
    assert c == q * r;
    assert c * 1000.0 / r == q * 1000.0;
    assert c * n / r == q * n;
  }

  /** Savings and percentage never point in opposite directions. */
  lemma SameDirection(baselineCostPer1k: int, observedCost: int, observedRequests: int)
    requires baselineCostPer1k >= 0 && observedRequests >= 0
    ensures var c := Compare(baselineCostPer1k, observedCost, observedRequests);
            && (c.actualPct > 0.0 ==> c.actualSavingsMicro >= 0)
            && (c.actualPct < 0.0 ==> c.actualSavingsMicro <= 0)
  {
    if baselineCostPer1k > 0 {
      var observed := CostPer1k(observedCost, observedRequests);
      var gap := (baselineCostPer1k - observed) as real;
      RoundError(Scaled(baselineCostPer1k, observed, observedRequests));
      PctSign(baselineCostPer1k as real, observed as real);
      assert gap >= 0.0 ==> gap * observedRequests as real >= 0.0;
      assert gap <= 0.0 ==> gap * observedRequests as real <= 0.0;
    }
  }

  lemma PctSign(b: real, o: real)
    requires b > 0.0
    ensures 1.0 - o / b > 0.0 <==> o < b
    ensures 1.0 - o / b < 0.0 <==> o > b
  {
    var q := o / b;
    assert o == q * b;
    if q < 1.0 { assert q * b < b; }
    if q > 1.0 { assert q * b > b; }
  }

  /** So a verdict that counts as realized never carries a loss, and a
      regression never carries a gain. */
  lemma VerdictMatchesSavings(baselineCostPer1k: int, observedCost: int, observedRequests: int,
                              expectedPct: real, baselineRequests: int, confound: bool)
    requires baselineCostPer1k >= 0 && observedRequests >= 0
    ensures var c := Compare(baselineCostPer1k, observedCost, observedRequests);
            var (verdict, _) := DetermineVerdict(expectedPct, c.actualPct, observedRequests, baselineRequests, confound);
            && (verdict.Successful? || verdict.Partial? ==> c.actualSavingsMicro >= 0)
            && (verdict.Regressed? ==> c.actualSavingsMicro <= 0)
  {
    SameDirection(baselineCostPer1k, observedCost, observedRequests);
    var c := Compare(baselineCostPer1k, observedCost, observedRequests);
    if expectedPct > 0.0 && c.actualPct >= 0.2 * expectedPct {
      assert 0.2 * expectedPct > 0.0;
    }
  }

  // ---------------------------------------------------------------- the verdict on rounded rates

  /** What Compare makes of two rounded rates. */
  function Reduction(b: int, o: int): real {
    if b == 0 then 0.0 else 1.0 - o as real / b as real
  }

  lemma PctReaches(b: real, o: real, rest: real)
    requires b > 0.0
    ensures 1.0 - o / b >= 1.0 - rest <==> o <= rest * b
    ensures 1.0 - o / b > 1.0 - rest <==> o < rest * b
  {
    var q := o / b;
    assert o == q * b;
    ProductOrder(q, rest, b);
  }

  lemma ProductOrder(x: real, y: real, b: real)
    requires b > 0.0
    ensures (x <= y <==> x * b <= y * b) && (x < y <==> x * b < y * b)
  {
    assert (y - x) * b == y * b - x * b;
    if x < y {
      ProductSign(y - x, b);
    } else if x > y {
      ProductSign(x - y, b);
      assert (x - y) * b == x * b - y * b;
    }
  }

  /** No second change, and at least 3 observed requests for 10 of the baseline. */
  ghost predicate Measurable(observedRequests: int, baselineRequests: int, confound: bool) {
    !confound && (baselineRequests > 0 ==> 10 * observedRequests >= 3 * baselineRequests)
  }

  /** The percentage against each bound of the verdicts, in terms of the rates. */
  lemma PctBands(b: int, o: int, expectedPct: real)
    requires b > 0
    ensures Reduction(b, o) < -0.02 <==> 100 * o > 102 * b
    ensures Reduction(b, o) <= -0.02 <==> 100 * o >= 102 * b
    ensures Reduction(b, o) >= 0.02 <==> 100 * o <= 98 * b
    ensures Reduction(b, o) >= 0.7 * expectedPct <==> o as real <= (1.0 - 0.7 * expectedPct) * b as real
    ensures Reduction(b, o) >= 0.2 * expectedPct <==> o as real <= (1.0 - 0.2 * expectedPct) * b as real
  {
    PctReaches(b as real, o as real, 1.02);
    PctReaches(b as real, o as real, 0.98);
    PctReaches(b as real, o as real, 1.0 - 0.7 * expectedPct);
    PctReaches(b as real, o as real, 1.0 - 0.2 * expectedPct);
  }

  /** Which verdict two rounded rates get: a rise of more than 2% regressed, less
      than 2% either way is no effect, and from a fall of 2% on the estimate decides. */
  lemma VerdictTable(b: int, o: int, expectedPct: real, observedRequests: int, baselineRequests: int, confound: bool)
    requires b >= 0
    ensures var v := DetermineVerdict(expectedPct, Reduction(b, o), observedRequests, baselineRequests, confound);
            var open := Measurable(observedRequests, baselineRequests, confound);
            var most, some := o as real <= (1.0 - 0.7 * expectedPct) * b as real, o as real <= (1.0 - 0.2 * expectedPct) * b as real;
            && (v == (Inconclusive, SecondChange) <==> confound)
            && (v == (Inconclusive, LowVolume) <==> !confound && !open)
            && (v == (Regressed, CostRose) <==> open && b > 0 && 100 * o > 102 * b)
            && (v == (NoEffect, WithinNoise) <==> open && (b == 0 || 98 * b < 100 * o < 102 * b))
            && (v == (Successful, ReachedEstimate) <==> open && b > 0 && 100 * o <= 98 * b && expectedPct > 0.0 && most)
            && (v == (Partial, PartOfEstimate) <==> open && b > 0 && 100 * o <= 98 * b && expectedPct > 0.0 && !most && some)
            && (v == (Inconclusive, NoBand) <==>
                  open && b > 0 && (100 * o == 102 * b || (100 * o <= 98 * b && (expectedPct <= 0.0 || !some))))
  {
    if b > 0 {
      PctBands(b, o, expectedPct);
    }
  }

  // ---------------------------------------------------------------- and on exact ones

  /** Between rounded and exact rates a limit moves by at most one micro per 1,000 requests. */
  lemma LimitRounded(b: real, b': real, o: real, o': real, rest: real)
    requires 0.0 <= rest <= 1.0 && Abs(b' - b) <= 0.5 && Abs(o' - o) <= 0.5
    ensures o' <= rest * b' ==> o <= rest * b + 1.0
    ensures o <= rest * b - 1.0 ==> o' <= rest * b'
  {
    var d := b' - b;
    ScaledDown(rest, d);
    assert rest * b' == rest * b + rest * d;
  }

  lemma ScaledDown(rest: real, d: real)
    requires 0.0 <= rest <= 1.0 && -0.5 <= d <= 0.5
    ensures -0.5 <= rest * d <= 0.5
  {
    ProductSign(rest, 0.5 - d);
    ProductSign(rest, 0.5 + d);
    assert rest * (0.5 - d) == rest * 0.5 - rest * d && rest * (0.5 + d) == rest * 0.5 + rest * d;
  }

  lemma ReducedIsLess(b: real, rest: real)
    requires 0.0 <= rest <= 1.0
    ensures rest * b >= 1.0 ==> b >= 1.0
  {
    if b < 0.0 {
      assert rest * -b >= 0.0 && rest * -b == -(rest * b);
    } else {
      assert (1.0 - rest) * b >= 0.0;
      assert (1.0 - rest) * b == b - rest * b;
    }
  }

  lemma NoRoomBelow(b: real, rest: real)
    requires rest < 0.0
    ensures b > 0.0 ==> rest * b < 0.0
    ensures b >= 0.0 ==> rest * b <= 0.0
  {
  }

  /** The limit on rounded rates and on exact ones; no limit below zero is met. */
  lemma LimitOnRates(b: real, b': real, o: real, o': real, rest: real)
    requires b >= 0.0 && b' >= 0.0 && o >= 0.0 && o' >= 0.0 && rest <= 1.0
    requires Abs(b' - b) <= 0.5 && Abs(o' - o) <= 0.5
    ensures b' > 0.0 && o' <= rest * b' ==> o <= rest * b + 1.0
    ensures o <= rest * b - 1.0 ==> o' <= rest * b' && b' > 0.0
  {
    if 0.0 <= rest {
      LimitRounded(b, b', o, o', rest);
      ReducedIsLess(b, rest);
    } else {
      NoRoomBelow(b', rest);
      NoRoomBelow(b, rest);
    }
  }

  /** The reduction that success takes: most of the estimate, and never within the noise. */
  function Goal(expectedPct: real): real {
    if 0.7 * expectedPct < 0.02 then 0.02 else 0.7 * expectedPct
  }

  /** Regressed means a rise, of 2% up to the rounding; and such a rise is always
      regressed, unless the baseline rounds to nothing. */
  ghost predicate RegressedIsRise(v: (Verdict, Reason), b: real, o: real, open: bool) {
    && (v.0.Regressed? ==> v.1.CostRose? && open && o >= b && o > 1.02 * b - 1.01)
    && (open && b >= 0.5 && o > 1.02 * b + 1.01 ==> v == (Regressed, CostRose))
  }

  /** No effect means within 2%, and within 2% is no effect; so is any cost
      against a baseline that rounds to nothing. */
  ghost predicate NoEffectIsLevel(v: (Verdict, Reason), b: real, o: real, open: bool) {
    && (v.0.NoEffect? ==> v.1.WithinNoise? && open && (b < 0.5 || 0.98 * b - 0.99 < o < 1.02 * b + 1.01))
    && (open && (b < 0.5 || 0.98 * b + 0.99 < o < 1.02 * b - 1.01) ==> v == (NoEffect, WithinNoise))
  }

  ghost predicate SuccessIsGoal(v: (Verdict, Reason), b: real, o: real, open: bool, expectedPct: real) {
    && (v.0.Successful? ==> v.1.ReachedEstimate? && open && expectedPct > 0.0 && o <= (1.0 - Goal(expectedPct)) * b + 1.0)
    && (open && expectedPct > 0.0 && o <= (1.0 - Goal(expectedPct)) * b - 1.0 ==> v == (Successful, ReachedEstimate))
  }

  /** Partial means a fall of 2% and 20% of the estimate, short of 70% of it. */
  ghost predicate PartialIsSome(v: (Verdict, Reason), b: real, o: real, open: bool, expectedPct: real) {
    && (v.0.Partial? ==>
          && v.1.PartOfEstimate? && open && expectedPct > 0.0
          && o <= 0.98 * b + 1.0 && o <= (1.0 - 0.2 * expectedPct) * b + 1.0 && o > (1.0 - 0.7 * expectedPct) * b - 1.0)
    && (open && expectedPct > 0.0
        && o <= 0.98 * b - 1.0 && o <= (1.0 - 0.2 * expectedPct) * b - 1.0 && o > (1.0 - 0.7 * expectedPct) * b + 1.0
        ==> v == (Partial, PartOfEstimate))
  }

  /** Inconclusive means a second change, little traffic, a rise of just 2%, or a
      fall of 2% that misses 20% of the estimate. */
  ghost predicate InconclusiveIsRest(v: (Verdict, Reason), b: real, o: real, confound: bool, open: bool, expectedPct: real) {
    && (v == (Inconclusive, SecondChange) <==> confound)
    && (v == (Inconclusive, LowVolume) <==> !confound && !open)
    && (v == (Inconclusive, NoBand) ==>
          open && (1.02 * b - 1.01 <= o <= 1.02 * b + 1.01
                   || (o <= 0.98 * b + 1.0 && (expectedPct <= 0.0 || o > (1.0 - 0.2 * expectedPct) * b - 1.0))))
    && (open && o <= 0.98 * b - 1.0 && (expectedPct <= 0.0 || o > (1.0 - 0.2 * expectedPct) * b + 1.0)
        ==> v == (Inconclusive, NoBand))
    && (v.0.Inconclusive? ==> v.1 in {SecondChange, LowVolume, NoBand})
  }

  /** b' and o' are b and o rounded. */
  ghost predicate RoundedTo(b: real, b': int, o: real, o': int) {
    && b >= 0.0 && o >= 0.0 && b' >= 0 && o' >= 0
    && b - 0.5 <= b' as real <= b + 0.5 && o - 0.5 <= o' as real <= o + 0.5 && (b' == 0 <==> b < 0.5)
  }

  /** The rows of the table that the estimate has no part in. */
  lemma FlatTable(b: int, o: int, expectedPct: real, observedRequests: int, baselineRequests: int, confound: bool)
    requires b >= 0
    ensures var v := DetermineVerdict(expectedPct, Reduction(b, o), observedRequests, baselineRequests, confound);
            var open := Measurable(observedRequests, baselineRequests, confound);
            && (v.0.Regressed? <==> open && b > 0 && 100 * o > 102 * b) && (v.0.Regressed? ==> v.1.CostRose?)
            && (v.0.NoEffect? <==> open && (b == 0 || 98 * b < 100 * o < 102 * b)) && (v.0.NoEffect? ==> v.1.WithinNoise?)
  {
    VerdictTable(b, o, expectedPct, observedRequests, baselineRequests, confound);
  }

  lemma LinearBands(v: (Verdict, Reason), b: real, b': int, o: real, o': int, open: bool)
    requires RoundedTo(b, b', o, o')
    requires v.0.Regressed? <==> open && b' > 0 && 100 * o' > 102 * b'
    requires v.0.NoEffect? <==> open && (b' == 0 || 98 * b' < 100 * o' < 102 * b')
    requires (v.0.Regressed? ==> v.1.CostRose?) && (v.0.NoEffect? ==> v.1.WithinNoise?)
    ensures RegressedIsRise(v, b, o, open) && NoEffectIsLevel(v, b, o, open)
  {
  }

  lemma GoalIsBoth(b: real, o: real, expectedPct: real)
    requires b >= 0.0
    ensures o <= (1.0 - Goal(expectedPct)) * b <==> o <= 0.98 * b && o <= (1.0 - 0.7 * expectedPct) * b
  {
    var rest := 1.0 - 0.7 * expectedPct;
    assert (0.98 - rest) * b == 0.98 * b - rest * b;
    if rest <= 0.98 { assert (0.98 - rest) * b >= 0.0; } else { assert (rest - 0.98) * b >= 0.0; }
  }

  lemma SuccessBand(v: (Verdict, Reason), b: real, b': int, o: real, o': int, open: bool, expectedPct: real)
    requires RoundedTo(b, b', o, o')
    requires v.0.Successful? <==>
               open && b' > 0 && 100 * o' <= 98 * b' && expectedPct > 0.0 && o' as real <= (1.0 - 0.7 * expectedPct) * b' as real
    requires v.0.Successful? ==> v.1.ReachedEstimate?
    ensures SuccessIsGoal(v, b, o, open, expectedPct)
  {
    LimitOnRates(b, b' as real, o, o' as real, 1.0 - Goal(expectedPct));
    GoalIsBoth(b' as real, o' as real, expectedPct);
  }

  lemma PartialBand(v: (Verdict, Reason), b: real, b': int, o: real, o': int, open: bool, expectedPct: real)
    requires RoundedTo(b, b', o, o')
    requires v.0.Partial? <==>
               && open && b' > 0 && 100 * o' <= 98 * b' && expectedPct > 0.0
               && o' as real > (1.0 - 0.7 * expectedPct) * b' as real && o' as real <= (1.0 - 0.2 * expectedPct) * b' as real
    requires v.0.Partial? ==> v.1.PartOfEstimate?
    ensures PartialIsSome(v, b, o, open, expectedPct)
  {
    if expectedPct > 0.0 {
      LimitOnRates(b, b' as real, o, o' as real, 0.98);
      LimitOnRates(b, b' as real, o, o' as real, 1.0 - 0.7 * expectedPct);
      LimitOnRates(b, b' as real, o, o' as real, 1.0 - 0.2 * expectedPct);
    }
  }

  lemma NoBandBand(v: (Verdict, Reason), b: real, b': int, o: real, o': int, confound: bool, open: bool, expectedPct: real)
    requires RoundedTo(b, b', o, o')
    requires v == (Inconclusive, SecondChange) <==> confound
    requires v == (Inconclusive, LowVolume) <==> !confound && !open
    requires v.0.Inconclusive? ==> v.1 in {SecondChange, LowVolume, NoBand}
    requires v == (Inconclusive, NoBand) <==>
               && open && b' > 0
               && (100 * o' == 102 * b'
                   || (100 * o' <= 98 * b' && (expectedPct <= 0.0 || o' as real > (1.0 - 0.2 * expectedPct) * b' as real)))
    ensures InconclusiveIsRest(v, b, o, confound, open, expectedPct)
  {
    LimitOnRates(b, b' as real, o, o' as real, 0.98);
    if expectedPct > 0.0 {
      LimitOnRates(b, b' as real, o, o' as real, 1.0 - 0.2 * expectedPct);
    }
  }

  lemma RatesRounded(b: real, o: real)
    requires b >= 0.0 && o >= 0.0
    ensures RoundedTo(b, Round(b), o, Round(o))
  {
  }

  lemma Bands(b: real, o: real, expectedPct: real, observedRequests: int, baselineRequests: int, confound: bool)
    requires b >= 0.0 && o >= 0.0
    ensures var v := DetermineVerdict(expectedPct, Reduction(Round(b), Round(o)), observedRequests, baselineRequests, confound);
            var open := Measurable(observedRequests, baselineRequests, confound);
            && SuccessIsGoal(v, b, o, open, expectedPct) && PartialIsSome(v, b, o, open, expectedPct)
            && InconclusiveIsRest(v, b, o, confound, open, expectedPct)
  {
    var b', o', open := Round(b), Round(o), Measurable(observedRequests, baselineRequests, confound);
    var v := DetermineVerdict(expectedPct, Reduction(b', o'), observedRequests, baselineRequests, confound);
    RatesRounded(b, o);
    VerdictTable(b', o', expectedPct, observedRequests, baselineRequests, confound);
    SuccessBand(v, b, b', o, o', open, expectedPct);
    PartialBand(v, b, b', o, o', open, expectedPct);
    NoBandBand(v, b, b', o, o', confound, open, expectedPct);
  }

  /** Each verdict, through Compare and its roundings, in terms of the exact costs
      per 1,000 requests. */
  lemma VerdictMeaning(baselineCost: int, baselineRequests: int, observedCost: int, observedRequests: int,
                       expectedPct: real, confound: bool)
    requires baselineRequests >= 0 && observedRequests >= 0 && baselineCost >= 0 && observedCost >= 0
    ensures var c := Compare(CostPer1k(baselineCost, baselineRequests), observedCost, observedRequests);
            var v := DetermineVerdict(expectedPct, c.actualPct, observedRequests, baselineRequests, confound);
            var b, o := Rate(baselineCost, baselineRequests), Rate(observedCost, observedRequests);
            var open := Measurable(observedRequests, baselineRequests, confound);
            && RegressedIsRise(v, b, o, open) && NoEffectIsLevel(v, b, o, open)
            && SuccessIsGoal(v, b, o, open, expectedPct) && PartialIsSome(v, b, o, open, expectedPct)
            && InconclusiveIsRest(v, b, o, confound, open, expectedPct)
  {
    var b, o := Rate(baselineCost, baselineRequests), Rate(observedCost, observedRequests);
    var v := DetermineVerdict(expectedPct, Reduction(Round(b), Round(o)), observedRequests, baselineRequests, confound);
    RatesRounded(b, o);
    FlatTable(Round(b), Round(o), expectedPct, observedRequests, baselineRequests, confound);
    LinearBands(v, b, Round(b), o, Round(o), Measurable(observedRequests, baselineRequests, confound));
    Bands(b, o, expectedPct, observedRequests, baselineRequests, confound);
    assert Compare(Round(b), observedCost, observedRequests).actualPct == Reduction(Round(b), Round(o));
  }
}
