/**
 Spending limits: the pure decision of pkg/policy/evaluate.go, the replay of
 internal/sim/budget.go that uses it, and the live Redis counter of
 internal/guard/budget.go that uses it too.
 */
module Budget {
  import opened Prelude
  import opened Calendar

  /** The texts "daily", "monthly", "hard" and "soft", and anything else. */
  datatype Period = Daily | Monthly | OtherPeriod(text: string)
  datatype Mode = Hard | Soft | OtherMode(text: string)

  datatype BudgetPolicy = BudgetPolicy(enabled: bool, period: Period, limitMicro: int, mode: Mode)

  /** One replayed request; only its start and its cost matter here. */
  datatype Spend = Spend(startedAt: Instant, costMicro: int)

  function EvaluateBudget(doc: Option<BudgetPolicy>, spentMicro: int): (blocked: bool)
    ensures doc == None ==> !blocked
  {
    match doc
    case None => false
    case Some(d) => d.enabled && d.mode.Hard? && spentMicro >= d.limitMicro
  }

  /** The period's bucket, numbered instead of formatted; everything but
      monthly counts by the day. */
  function PeriodBucket(period: Period, t: Instant): nat {
    if period.Monthly? then MonthOf(t) else DayOf(t)
  }

  function PeriodTTL(period: Period): nat {
    if period.Monthly? then 32 * DAY else 25 * HOUR
  }

  lemma BucketsRise(period: Period, s: Instant, t: Instant)
    requires s <= t
    ensures PeriodBucket(period, s) <= PeriodBucket(period, t)
  {
    MonthsRise(s, t);
  }

  /** A counter written in a bucket is still alive everywhere in that bucket. */
  lemma TTLOutlastsBucket(period: Period, s: Instant, t: Instant)
    requires PeriodBucket(period, s) == PeriodBucket(period, t)
    ensures t < s + PeriodTTL(period)
  {
  }

  /** Two instants count against the same bucket exactly if their dates fall in the
      same month, or for every other period on the same day. */
  lemma SameBucketIff(period: Period, s: Instant, t: Instant, onS: Date, onT: Date)
    requires IsDate(onS) && s / 86400 == DaysUntil(onS)
    requires IsDate(onT) && t / 86400 == DaysUntil(onT)
    ensures PeriodBucket(period, s) == PeriodBucket(period, t) <==>
              if period == Monthly then onS.year == onT.year && onS.month == onT.month else onS == onT
  {
    MonthOfDate(s, onS);
    MonthOfDate(t, onT);
  }

  // ---------------------------------------------------------------- the replay

  datatype BudgetScenario = BudgetScenario(limitMicro: int, period: Period)

  datatype BudgetImpact = BudgetImpact(
    replayedRequests: int,
    blockedRequests: int,
    blockedPct: real,
    firstBlockedDay: Option<nat>,
    lastBlockedDay: Option<nat>)

  /** What the admitted requests of the log have spent in a bucket. */
  ghost function Spent(log: seq<Spend>, sc: BudgetScenario, bucket: nat): int
    decreases |log|, 0
  {
    if log == [] then 0
    else Spent(Init(log), sc, bucket)
         + (if PeriodBucket(sc.period, Last(log).startedAt) == bucket && !Refused(Init(log), Last(log), sc)
            then Last(log).costMicro else 0)
  }

  ghost predicate Refused(log: seq<Spend>, f: Spend, sc: BudgetScenario)
    decreases |log|, 1
  {
    Spent(log, sc, PeriodBucket(sc.period, f.startedAt)) >= sc.limitMicro
  }

  /** What every request of the log, admitted or not, costs in a bucket. */
  ghost function FullCost(log: seq<Spend>, period: Period, bucket: nat): int {
    if log == [] then 0
    else FullCost(Init(log), period, bucket)
         + (if PeriodBucket(period, Last(log).startedAt) == bucket then Last(log).costMicro else 0)
  }

  /** The refused requests of the log, in order. */
  ghost function Refusals(log: seq<Spend>, sc: BudgetScenario): seq<Spend> {
    if log == [] then []
    else Refusals(Init(log), sc) + (if Refused(Init(log), Last(log), sc) then [Last(log)] else [])
  }

  ghost predicate RefusedAt(facts: seq<Spend>, i: nat, sc: BudgetScenario)
    requires i < |facts|
  {
    Refused(facts[..i], facts[i], sc)
  }

  /** The map of running totals holds what the admitted requests spent. */
  ghost predicate TotalsMatch(spentByBucket: map<nat, int>, log: seq<Spend>, sc: BudgetScenario) {
    forall b: nat :: Spent(log, sc, b) == if b in spentByBucket then spentByBucket[b] else 0
  }

  lemma RefusalStep(spentByBucket: map<nat, int>, log: seq<Spend>, sc: BudgetScenario)
    requires log != [] && TotalsMatch(spentByBucket, Init(log), sc)
    ensures var bucket := PeriodBucket(sc.period, Last(log).startedAt);
            var spent := if bucket in spentByBucket then spentByBucket[bucket] else 0;
            if spent >= sc.limitMicro
            then TotalsMatch(spentByBucket, log, sc) && Refusals(log, sc) == Refusals(Init(log), sc) + [Last(log)]
            else TotalsMatch(spentByBucket[bucket := spent + Last(log).costMicro], log, sc)
                 && Refusals(log, sc) == Refusals(Init(log), sc)
  {
    var bucket := PeriodBucket(sc.period, Last(log).startedAt);
    var spent := if bucket in spentByBucket then spentByBucket[bucket] else 0;
    assert spent == Spent(Init(log), sc, bucket);
    assert Refused(Init(log), Last(log), sc) <==> spent >= sc.limitMicro;
    var totals := if spent >= sc.limitMicro then spentByBucket else spentByBucket[bucket := spent + Last(log).costMicro];
    forall b: nat ensures Spent(log, sc, b) == if b in totals then totals[b] else 0 {
      assert Spent(Init(log), sc, b) == if b in spentByBucket then spentByBucket[b] else 0;
    }
  }

  /** SimulateBudget: a running total per bucket that a refused request never joins. */
  method SimulateBudget(facts: seq<Spend>, sc: BudgetScenario) returns (result: BudgetImpact)
    ensures var refused := Refusals(facts, sc);
            && result.replayedRequests == |facts| && result.blockedRequests == |refused|
            && result.blockedPct == (if facts == [] then 0.0 else |refused| as real / |facts| as real)
            && result.firstBlockedDay == (if refused == [] then None else Some(refused[0].startedAt / 86400))
            && result.lastBlockedDay == (if refused == [] then None else Some(Last(refused).startedAt / 86400))
  {
    var doc := Some(BudgetPolicy(true, sc.period, sc.limitMicro, Hard));
    var spentByBucket: map<nat, int> := map[];
    var blocked := 0;
    var first: Option<Instant>, last: Option<Instant> := None, None;
    ghost var refused: seq<Spend> := [];
    for i := 0 to |facts|
      invariant refused == Refusals(facts[..i], sc) && blocked == |refused|
      invariant TotalsMatch(spentByBucket, facts[..i], sc)
      invariant if refused == [] then first.None? && last.None?
                else first == Some(refused[0].startedAt) && last == Some(Last(refused).startedAt)
    {
      var f := facts[i];
      assert Init(facts[..i + 1]) == facts[..i] && Last(facts[..i + 1]) == f;
      RefusalStep(spentByBucket, facts[..i + 1], sc);
      var bucket := PeriodBucket(sc.period, f.startedAt);
      var spent := if bucket in spentByBucket then spentByBucket[bucket] else 0;
      if EvaluateBudget(doc, spent) {
        blocked := blocked + 1;
        if first.None? {
          first := Some(f.startedAt);
        }
        last := Some(f.startedAt);
        refused := refused + [f];
        continue;
      }
      spentByBucket := spentByBucket[bucket := spent + f.costMicro];
    }
    assert facts[..|facts|] == facts;
    result := BudgetImpact(|facts|, blocked,
                           if |facts| > 0 then blocked as real / |facts| as real else 0.0,
                           if first.Some? then Some(DayOf(first.value)) else None,
                           if last.Some? then Some(DayOf(last.value)) else None);
  }

  /** The full cost of a period reached the limit somewhere along the log. */
  ghost predicate EverExhausted(log: seq<Spend>, sc: BudgetScenario, bucket: nat) {
    exists k :: 0 <= k <= |log| && FullCost(log[..k], sc.period, bucket) >= sc.limitMicro
  }

  /** Until the full cost first reaches the limit it is what was admitted, and
      from then on nothing more is admitted. */
  lemma {:induction false} SpentTracksFullCost(log: seq<Spend>, sc: BudgetScenario, bucket: nat)
    ensures Spent(log, sc, bucket) >= sc.limitMicro <==> EverExhausted(log, sc, bucket)
    ensures !EverExhausted(log, sc, bucket) ==> Spent(log, sc, bucket) == FullCost(log, sc.period, bucket)
  {
    assert log[..|log|] == log;
    if log != [] {
      SpentTracksFullCost(Init(log), sc, bucket);
      assert forall k :: 0 <= k < |log| ==> Init(log)[..k] == log[..k];
    }
  }

  /** A request is refused exactly when the requests before it in its period,
      refused ones included, had at some point cost the limit. */
  lemma RefusedIffExhausted(log: seq<Spend>, f: Spend, sc: BudgetScenario)
    ensures Refused(log, f, sc) <==> EverExhausted(log, sc, PeriodBucket(sc.period, f.startedAt))
  {
    SpentTracksFullCost(log, sc, PeriodBucket(sc.period, f.startedAt));
  }

  ghost predicate NonNegative(log: seq<Spend>) {
    forall i :: 0 <= i < |log| ==> log[i].costMicro >= 0
  }

  lemma {:induction false} FullCostRises(log: seq<Spend>, period: Period, bucket: nat, k: nat)
    requires NonNegative(log) && k <= |log|
    ensures FullCost(log[..k], period, bucket) <= FullCost(log, period, bucket)
  {
    if k < |log| {
      FullCostRises(Init(log), period, bucket, k);
      assert Init(log)[..k] == log[..k];
    } else {
      assert log[..k] == log;
    }
  }

  /** Without refunds that is: everything before it already costs the limit. */
  lemma RefusedIffFullCost(log: seq<Spend>, f: Spend, sc: BudgetScenario)
    requires NonNegative(log)
    ensures Refused(log, f, sc) <==>
              FullCost(log, sc.period, PeriodBucket(sc.period, f.startedAt)) >= sc.limitMicro
  {
    var bucket := PeriodBucket(sc.period, f.startedAt);
    RefusedIffExhausted(log, f, sc);
    assert log[..|log|] == log;
    if EverExhausted(log, sc, bucket) {
      var k :| 0 <= k <= |log| && FullCost(log[..k], sc.period, bucket) >= sc.limitMicro;
      FullCostRises(log, sc.period, bucket, k);
    }
  }

  lemma {:induction false} ClosedStaysClosed(facts: seq<Spend>, sc: BudgetScenario, bucket: nat, i: nat, j: nat)
    requires i <= j <= |facts| && Spent(facts[..i], sc, bucket) >= sc.limitMicro
    ensures Spent(facts[..j], sc, bucket) >= sc.limitMicro
  {
    if i < j {
      ClosedStaysClosed(facts, sc, bucket, i, j - 1);
      assert Init(facts[..j]) == facts[..j - 1];
    }
  }

  /** So the admitted requests of a period are a prefix of its requests. */
  lemma RefusalIsFinal(facts: seq<Spend>, sc: BudgetScenario, i: nat, j: nat)
    requires i < j < |facts| && RefusedAt(facts, i, sc)
    requires PeriodBucket(sc.period, facts[i].startedAt) == PeriodBucket(sc.period, facts[j].startedAt)
    ensures RefusedAt(facts, j, sc)
  {
    ClosedStaysClosed(facts, sc, PeriodBucket(sc.period, facts[i].startedAt), i, j);
  }

  /** With a refund the full cost can fall back under the limit while the
      period stays closed. */
  lemma RefundsStayClosed() returns (log: seq<Spend>, f: Spend, sc: BudgetScenario)
    ensures Refused(log, f, sc)
    ensures FullCost(log, sc.period, PeriodBucket(sc.period, f.startedAt)) < sc.limitMicro
  {
    log, f, sc := [Spend(0, 10), Spend(1, -8)], Spend(2, 1), BudgetScenario(10, Daily);
    assert log[..1] == [Spend(0, 10)] == Init(log);
    assert Init([Spend(0, 10)]) == [];
    assert FullCost(log[..1], Daily, 0) == 10;
    RefusedIffExhausted(log, f, sc);
  }
}
