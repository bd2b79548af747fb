/**
 A longer TTL or a larger cache never costs hits in total, although it can cost
 a single one.  The proof compares the two runs key by key: the roomier run is
 never behind on the number of fills, and when it is level its last fill is the
 later one.
 */
module CacheGrowth {
  import opened Prelude
  import opened ReplayFacts
  import opened Caching

  /** `wide` has at least the TTL and at least the room of `sc`. */
  ghost predicate Roomier(sc: CachingScenario, wide: CachingScenario) {
    && sc.ttl <= wide.ttl
    && (wide.maxEntries <= 0 || 0 < sc.maxEntries <= wide.maxEntries)
  }

  /** How often `key` was stored. */
  ghost function Fills(log: seq<ReplayFact>, key: Key, sc: CachingScenario): nat {
    if log == [] then 0
    else Fills(Init(log), key, sc)
         + (if Last(log).cacheKey == key && !IsHit(Init(log), Last(log), sc) then 1 else 0)
  }

  /** Once used, a key has a last fill; and while in time order, it is not in the future. */
  lemma {:induction false} FillExists(log: seq<ReplayFact>, key: Key, sc: CachingScenario)
    requires key != NO_KEY
    ensures key in Keys(log) <==> LastFill(log, key, sc).Some?
    ensures Chronological(log) && LastFill(log, key, sc).Some? ==>
              LastFill(log, key, sc).value <= Last(log).startedAt
  {
    if log != [] {
      FillExists(Init(log), key, sc);
    }
  }

  /** The wide run fills no more often; level with the narrow run it filled no
      earlier, and behind it its entry outlives the narrow run's last fill. */
  ghost predicate StaysAhead(log: seq<ReplayFact>, key: Key, sc: CachingScenario, wide: CachingScenario) {
    && Fills(log, key, wide) <= Fills(log, key, sc)
    && (key in Keys(log) && LastFill(log, key, sc).Some? && LastFill(log, key, wide).Some? ==>
          var narrowFill, wideFill := LastFill(log, key, sc).value, LastFill(log, key, wide).value;
          if Fills(log, key, wide) == Fills(log, key, sc) then narrowFill <= wideFill
          else narrowFill <= wideFill + wide.ttl)
  }

  lemma AheadStep(log: seq<ReplayFact>, key: Key, sc: CachingScenario, wide: CachingScenario)
    requires log != [] && key != NO_KEY && Roomier(sc, wide) && wide.ttl >= 0
    requires StaysAhead(Init(log), key, sc, wide)
    ensures StaysAhead(log, key, sc, wide)
  {
    if Last(log).cacheKey == key {
      FillExists(Init(log), key, sc);
      FillExists(Init(log), key, wide);
    }
  }

  lemma {:induction false} WideStaysAhead(log: seq<ReplayFact>, key: Key, sc: CachingScenario, wide: CachingScenario)
    requires key != NO_KEY && Roomier(sc, wide) && wide.ttl >= 0
    ensures StaysAhead(log, key, sc, wide)
  {
    if log != [] {
      WideStaysAhead(Init(log), key, sc, wide);
      AheadStep(log, key, sc, wide);
    }
  }

  // ---------------------------------------------------------------- summing over keys

  ghost function TotalFills(keys: seq<Key>, log: seq<ReplayFact>, sc: CachingScenario): nat {
    if keys == [] then 0
    else Fills(log, keys[0], sc) + TotalFills(keys[1..], log, sc)
  }

  ghost function KeyedRequests(log: seq<ReplayFact>): nat {
    if log == [] then 0
    else KeyedRequests(Init(log)) + (if Last(log).cacheKey == NO_KEY then 0 else 1)
  }

  lemma {:induction false} TotalFillsStep(keys: seq<Key>, log: seq<ReplayFact>, sc: CachingScenario)
    requires log != [] && Distinct(keys)
    ensures TotalFills(keys, log, sc) == TotalFills(keys, Init(log), sc)
              + (if Last(log).cacheKey in keys && !IsHit(Init(log), Last(log), sc) then 1 else 0)
  {
    if keys != [] {
      TotalFillsStep(keys[1..], log, sc);
      assert Last(log).cacheKey in keys <==> Last(log).cacheKey == keys[0] || Last(log).cacheKey in keys[1..];
    }
  }

  /** Every keyed request either hits or fills. */
  lemma {:induction false} HitsAndFills(keys: seq<Key>, log: seq<ReplayFact>, sc: CachingScenario)
    requires Distinct(keys) && NO_KEY !in keys && Keys(log) <= Elements(keys)
    ensures Hits(log, sc) + TotalFills(keys, log, sc) == KeyedRequests(log)
  {
    if log == [] {
      NoFills(keys, log, sc);
    } else {
      HitsAndFills(keys, Init(log), sc);
      TotalFillsStep(keys, log, sc);
      assert Last(log).cacheKey != NO_KEY ==> Last(log).cacheKey in Elements(keys);
    }
  }

  lemma {:induction false} NoFills(keys: seq<Key>, log: seq<ReplayFact>, sc: CachingScenario)
    requires log == []
    ensures TotalFills(keys, log, sc) == 0
  {
    if keys != [] {
      NoFills(keys[1..], log, sc);
    }
  }

  lemma {:induction false} FewerFills(keys: seq<Key>, log: seq<ReplayFact>, sc: CachingScenario, wide: CachingScenario)
    requires Roomier(sc, wide) && wide.ttl >= 0 && NO_KEY !in keys
    ensures TotalFills(keys, log, wide) <= TotalFills(keys, log, sc)
  {
    if keys != [] {
      WideStaysAhead(log, keys[0], sc, wide);
      FewerFills(keys[1..], log, sc, wide);
    }
  }

  lemma {:induction false} NegativeTTLNeverHits(log: seq<ReplayFact>, sc: CachingScenario)
    requires Chronological(log) && sc.ttl < 0
    ensures Hits(log, sc) == 0
  {
    if log != [] {
      NegativeTTLNeverHits(Init(log), sc);
      if Last(log).cacheKey != NO_KEY && Init(log) != [] {
        FillExists(Init(log), Last(log).cacheKey, sc);
      }
    }
  }

  /** The hit count grows with the TTL, with the size bound, and with both.  A
      non-negative TTL does not even need the trace to be in time order. */
  lemma HitsGrow(log: seq<ReplayFact>, sc: CachingScenario, wide: CachingScenario)
    requires Chronological(log) || wide.ttl >= 0
    requires Roomier(sc, wide)
    ensures Hits(log, sc) <= Hits(log, wide)
  {
    if wide.ttl < 0 {
      NegativeTTLNeverHits(log, sc);
    } else {
      RecencyMeaning(log);
      var keys := Recency(log);
      assert NO_KEY !in Elements(keys);
      HitsAndFills(keys, log, sc);
      HitsAndFills(keys, log, wide);
      FewerFills(keys, log, sc, wide);
    }
  }

  function RequestAt(t: int, cost: int): ReplayFact {
    ReplayFact(t, 0, 1, 1, cost, CostKnown, Ok, 1)
  }

  /** The total grows, but not request by request: with the longer TTL the third
      request meets an entry that was never refreshed. */
  lemma SingleHitCanBeLost() returns (log: seq<ReplayFact>, f: ReplayFact, sc: CachingScenario, wide: CachingScenario)
    ensures Chronological(log + [f]) && Roomier(sc, wide)
    ensures IsHit(log, f, sc) && !IsHit(log, f, wide)
  {
    sc, wide := CachingScenario(10, 0), CachingScenario(15, 0);
    log, f := [RequestAt(0, 1), RequestAt(10, 1)], RequestAt(19, 1);
    assert Init(log) == [RequestAt(0, 1)];
    assert Init([RequestAt(0, 1)]) == [];
    assert 1 in Keys([RequestAt(0, 1)]) && 1 in Keys(log);
    forall s: CachingScenario
      ensures LastFill([RequestAt(0, 1)], 1, s) == Some(0)
    {
      assert !IsHit([], RequestAt(0, 1), s);
    }
    assert !IsHit([RequestAt(0, 1)], RequestAt(10, 1), sc) && IsHit([RequestAt(0, 1)], RequestAt(10, 1), wide);
    assert LastFill(log, 1, sc) == Some(10) && LastFill(log, 1, wide) == Some(0);
  }
}
