/** The Repeated Request detector of internal/detect/repeated.go: a duplicate
    count, a TTL sweep through the cache replay, and the most profitable TTL. */
module RepeatedRequest {
  import opened Prelude
  import opened ReplayFacts
  import opened Caching
  import opened CacheGrowth
  import opened CacheSavings

  const SECOND := 1_000_000_000
  const TTL_SWEEP: seq<int> := [300, 3600, 21600, 86400]
  const DUPLICATE_RATE_FLOOR := 0.05
  const HAIRCUT := 0.9
  const MONTHLY_SCALE := 30.0 / 7.0

  datatype SweepRow = SweepRow(ttlSeconds: int, duplicateHits: int, savingsMicro: int)

  datatype Detection = Detection(
    totalRequests: int,
    duplicateRequests: int,
    duplicateRate: real,
    sweep: seq<SweepRow>,
    recommendedTTLSeconds: int,
    currentCostMicro: int,
    projectedCostMicro: int,
    savingsMicro: int,
    savingsPct: real)

  /** The facts with a known cost, in order. */
  ghost function KnownCost(facts: seq<ReplayFact>): seq<ReplayFact> {
    if facts == [] then []
    else KnownCost(Init(facts)) + (if Last(facts).costStatus.CostKnown? then [Last(facts)] else [])
  }

  /** Facts whose key, the empty one included, came up before. */
  ghost function Repeats(log: seq<ReplayFact>): nat {
    if log == [] then 0
    else Repeats(Init(log)) + (if Mentioned(Init(log), Last(log).cacheKey) then 1 else 0)
  }

  function Unbounded(ttlSeconds: int): CachingScenario {
    CachingScenario(ttlSeconds * SECOND, 0)
  }

  /** 90% of the cost of the hits, scaled from 7 days to 30; times are nanoseconds. */
  ghost function MonthlySavings(known: seq<ReplayFact>, ttlSeconds: int): int {
    Round(HitCost(known, CachingScenario(ttlSeconds * 1_000_000_000, 0)) as real * 0.9 * (30.0 / 7.0))
  }

  ghost predicate RowIsReplay(row: SweepRow, known: seq<ReplayFact>, ttlSeconds: int) {
    row == SweepRow(ttlSeconds, Hits(known, CachingScenario(ttlSeconds * 1_000_000_000, 0)), MonthlySavings(known, ttlSeconds))
  }

  /** `best` is the largest positive saving of the rows, at its shortest TTL; with
      none positive it is 0. */
  ghost predicate BestOf(sweep: seq<SweepRow>, ttlSeconds: int, best: int) {
    && best >= 0
    && (forall j :: 0 <= j < |sweep| ==> sweep[j].savingsMicro <= best)
    && (best > 0 ==> exists j ::
          && 0 <= j < |sweep| && sweep[j].savingsMicro == best && sweep[j].ttlSeconds == ttlSeconds
          && forall h :: 0 <= h < j ==> sweep[h].savingsMicro < best)
  }

  method FilterKnown(facts: seq<ReplayFact>) returns (known: seq<ReplayFact>)
    ensures known == KnownCost(facts)
  {
    known := [];
    for i := 0 to |facts|
      invariant known == KnownCost(facts[..i])
    {
      assert Init(facts[..i + 1]) == facts[..i];
      if facts[i].costStatus.CostKnown? {
        known := known + [facts[i]];
      }
    }
    assert facts[..|facts|] == facts;
  }

  /** Which facts those are: exactly the ones of known cost, each where it was. */
  lemma {:induction false} KnownCostMeaning(facts: seq<ReplayFact>) returns (at: seq<nat>)
    ensures Picks(facts, KnownCost(facts), at)
    ensures forall i: nat :: i in at <==> i < |facts| && facts[i].costStatus == CostKnown
  {
    at := [];
    if facts != [] {
      at := KnownCostMeaning(Init(facts));
      PicksOn(Init(facts), KnownCost(Init(facts)), at, Last(facts));
      assert facts == Init(facts) + [Last(facts)];
      if Last(facts).costStatus.CostKnown? {
        at := at + [|facts| - 1];
      }
    }
  }

  /** How many there are of which an earlier one has the key. */
  lemma {:induction false} RepeatsMeaning(log: seq<ReplayFact>)
    ensures Repeats(log) == |set i | 0 <= i < |log| && IsRepeat(log, i)|
  {
    if log != [] {
      var before, n := Init(log), |log| - 1;
      var repeats := set i | 0 <= i < n && IsRepeat(before, i);
      RepeatsMeaning(before);
      forall i | 0 <= i < n ensures IsRepeat(before, i) <==> IsRepeat(log, i) {
      }
      assert IsRepeat(log, n) <==> Mentioned(before, Last(log).cacheKey);
      assert (set i | 0 <= i < |log| && IsRepeat(log, i)) == repeats + if IsRepeat(log, n) then {n} else {};
    }
  }

  ghost predicate IsRepeat(log: seq<ReplayFact>, i: int)
    requires 0 <= i < |log|
  {
    exists j :: 0 <= j < i && log[j].cacheKey == log[i].cacheKey
  }

  method CountDuplicates(known: seq<ReplayFact>) returns (duplicates: int)
    ensures duplicates == Repeats(known)
  {
    var seen: set<Key> := {};
    duplicates := 0;
    for i := 0 to |known|
      invariant duplicates == Repeats(known[..i])
      invariant forall key: Key :: key in seen <==> Mentioned(known[..i], key)
    {
      var key := known[i].cacheKey;
      ghost var log := known[..i + 1];
      assert Init(log) == known[..i] && Last(log) == known[i];
      if key in seen {
        duplicates := duplicates + 1;
      }
      seen := seen + {key};
      assert log[i].cacheKey == key;
      assert forall j :: 0 <= j < i ==> log[j] == known[..i][j];
    }
    assert known[..|known|] == known;
  }

  method RunSweep(known: seq<ReplayFact>) returns (sweep: seq<SweepRow>, bestTTL: int, best: int)
    ensures |sweep| == |TTL_SWEEP|
    ensures forall j :: 0 <= j < |sweep| ==> RowIsReplay(sweep[j], known, TTL_SWEEP[j])
    ensures BestOf(sweep, bestTTL, best)
  {
    sweep, bestTTL, best := [], 0, 0;
    for i := 0 to |TTL_SWEEP|
      invariant |sweep| == i
      invariant forall j :: 0 <= j < i ==> RowIsReplay(sweep[j], known, TTL_SWEEP[j])
      invariant BestOf(sweep, bestTTL, best)
    {
      var result := SimulateCaching(known, Unbounded(TTL_SWEEP[i]));
      var window := (result.actualCostMicro - result.simulatedCostMicro) as real * HAIRCUT;
      var monthly := Round(window * MONTHLY_SCALE);
      ghost var before := sweep;
      sweep := sweep + [SweepRow(TTL_SWEEP[i], result.affectedRequests, monthly)];
      assert sweep[i].savingsMicro == monthly && forall j :: 0 <= j < i ==> sweep[j] == before[j];
      if monthly > best {
        best, bestTTL := monthly, TTL_SWEEP[i];
      }
    }
  }

  method SumCosts(known: seq<ReplayFact>) returns (total: int)
    ensures total == TotalCost(known)
  {
    total := 0;
    for i := 0 to |known|
      invariant total == TotalCost(known[..i])
    {
      assert Init(known[..i + 1]) == known[..i];
      total := total + known[i].costMicro;
    }
    assert known[..|known|] == known;
  }

  ghost predicate IsSweep(sweep: seq<SweepRow>, known: seq<ReplayFact>) {
    && |sweep| == 4
    && RowIsReplay(sweep[0], known, 300) && RowIsReplay(sweep[1], known, 3600)
    && RowIsReplay(sweep[2], known, 21600) && RowIsReplay(sweep[3], known, 86400)
  }

  ghost predicate SomeTTLSaves(known: seq<ReplayFact>) {
    MonthlySavings(known, 300) > 0 || MonthlySavings(known, 3600) > 0
    || MonthlySavings(known, 21600) > 0 || MonthlySavings(known, 86400) > 0
  }

  lemma SweepDecides(sweep: seq<SweepRow>, known: seq<ReplayFact>, bestTTL: int, best: int)
    requires |sweep| == |TTL_SWEEP| && BestOf(sweep, bestTTL, best)
    requires forall j :: 0 <= j < |sweep| ==> RowIsReplay(sweep[j], known, TTL_SWEEP[j])
    ensures IsSweep(sweep, known) && (best > 0 <==> SomeTTLSaves(known))
  {
    assert RowIsReplay(sweep[0], known, TTL_SWEEP[0]) && RowIsReplay(sweep[1], known, TTL_SWEEP[1]);
    assert RowIsReplay(sweep[2], known, TTL_SWEEP[2]) && RowIsReplay(sweep[3], known, TTL_SWEEP[3]);
  }

  method DetectRepeatedRequest(facts: seq<ReplayFact>) returns (found: Option<Detection>)
    ensures var known := KnownCost(facts);
            found.Some? <==>
              && known != []
              && Repeats(known) as real / |known| as real >= 0.05
              && SomeTTLSaves(known)
    ensures found.Some? ==>
              var known, d := KnownCost(facts), found.value;
              && d.totalRequests == |known| && d.duplicateRequests == Repeats(known)
              && IsSweep(d.sweep, known)
              && BestOf(d.sweep, d.recommendedTTLSeconds, d.savingsMicro) && d.savingsMicro > 0
              && d.currentCostMicro == Round(TotalCost(known) as real * (30.0 / 7.0))
              && d.projectedCostMicro == d.currentCostMicro - d.savingsMicro
              && d.duplicateRate == Repeats(known) as real / |known| as real
              && d.savingsPct == (if d.currentCostMicro > 0 then d.savingsMicro as real / d.currentCostMicro as real else 0.0)
  {
    var known := FilterKnown(facts);
    if |known| == 0 {
      return None;
    }
    var duplicates := CountDuplicates(known);
    var rate := duplicates as real / |known| as real;
    if rate < DUPLICATE_RATE_FLOOR {
      return None;
    }
    var costAll := SumCosts(known);
    var sweep, bestTTL, best := RunSweep(known);
    SweepDecides(sweep, known, bestTTL, best);
    if best <= 0 {
      return None;
    }
    var current := Round(costAll as real * MONTHLY_SCALE);
    found := Some(Detection(|known|, duplicates, rate, sweep, bestTTL, current, current - best, best,
                            if current > 0 then best as real / current as real else 0.0));
  }

  lemma {:induction false} HitsAreRepeats(log: seq<ReplayFact>, sc: CachingScenario)
    ensures Hits(log, sc) <= Repeats(log)
  {
    if log != [] {
      HitsAreRepeats(Init(log), sc);
      if IsHit(Init(log), Last(log), sc) {
        KeysAreMentioned(Init(log), Last(log).cacheKey);
      }
    }
  }

  /** The sweep's hit column never falls from one TTL to the next, and never
      exceeds the duplicates the detector counted. */
  lemma SweepRises(known: seq<ReplayFact>, j: nat, k: nat)
    requires j <= k < |TTL_SWEEP|
    ensures Hits(known, Unbounded(TTL_SWEEP[j])) <= Hits(known, Unbounded(TTL_SWEEP[k])) <= Repeats(known)
  {
    HitsGrow(known, Unbounded(TTL_SWEEP[j]), Unbounded(TTL_SWEEP[k]));
    HitsAreRepeats(known, Unbounded(TTL_SWEEP[k]));
  }

  lemma {:induction false} HitCostWithinTotal(log: seq<ReplayFact>, sc: CachingScenario)
    requires forall i :: 0 <= i < |log| ==> log[i].costMicro >= 0
    ensures 0 <= HitCost(log, sc) <= TotalCost(log)
  {
    if log != [] {
      HitCostWithinTotal(Init(log), sc);
    }
  }

  /** With non-negative costs no row promises more than the monthly cost, so the
      projected cost of a detection is never negative. */
  lemma SavingsWithinCost(known: seq<ReplayFact>, ttlSeconds: int)
    requires forall i :: 0 <= i < |known| ==> known[i].costMicro >= 0
    ensures 0 <= MonthlySavings(known, ttlSeconds) <= Round(TotalCost(known) as real * MONTHLY_SCALE)
  {
    HitCostWithinTotal(known, Unbounded(ttlSeconds));
    var hit, all := HitCost(known, Unbounded(ttlSeconds)) as real, TotalCost(known) as real;
    RoundMonotone(0.0, hit * HAIRCUT * MONTHLY_SCALE);
    RoundMonotone(hit * HAIRCUT * MONTHLY_SCALE, all * MONTHLY_SCALE);
  }

  /** If no key gets dearer from its second use on, the savings column rises too. */
  lemma SweepSavingsRise(known: seq<ReplayFact>, j: nat, k: nat)
    requires NeverDearer(known) && NoRefunds(known) && j <= k < |TTL_SWEEP|
    ensures MonthlySavings(known, TTL_SWEEP[j]) <= MonthlySavings(known, TTL_SWEEP[k])
  {
    SavingsGrow(known, Unbounded(TTL_SWEEP[j]), Unbounded(TTL_SWEEP[k]));
    var short, long := HitCost(known, Unbounded(TTL_SWEEP[j])) as real, HitCost(known, Unbounded(TTL_SWEEP[k])) as real;
    RoundMonotone(short * HAIRCUT * MONTHLY_SCALE, long * HAIRCUT * MONTHLY_SCALE);
  }
}
