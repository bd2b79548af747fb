/**
 The exact-match cache replay of internal/sim/caching.go: an LRU map with a
 recency list and a TTL that a hit does not extend.  The replay is proved
 against a definition of "hit" that mentions neither the map nor the list, and
 that definition is what the monotonicity results are about.
 */
module Caching {
  import opened Prelude
  import opened ReplayFacts

  datatype CachingScenario = CachingScenario(ttl: int, maxEntries: int)

  datatype CachingResult = CachingResult(
    replayedRequests: int,
    affectedRequests: int,
    actualCostMicro: int,
    simulatedCostMicro: int,
    hitRate: real)

  // ---------------------------------------------------------------- hits, without a cache

  /** The cache keys the log has mentioned; the empty key is no key. */
  ghost function Keys(log: seq<ReplayFact>): set<Key> {
    if log == [] then {}
    else Keys(Init(log)) + (if Last(log).cacheKey == NO_KEY then {} else {Last(log).cacheKey})
  }

  /** The other keys mentioned since the last mention of `key`. */
  ghost function KeysSince(log: seq<ReplayFact>, key: Key): set<Key> {
    if log == [] || Last(log).cacheKey == key then {}
    else KeysSince(Init(log), key) + (if Last(log).cacheKey == NO_KEY then {} else {Last(log).cacheKey})
  }

  /** Fewer than `maxEntries` other keys were used since `key` was; a
      non-positive bound never evicts. */
  ghost predicate Resident(log: seq<ReplayFact>, key: Key, maxEntries: int) {
    key in Keys(log) && (maxEntries <= 0 || |KeysSince(log, key)| < maxEntries)
  }

  /** When `key` was last stored, that is, when it last missed. */
  ghost function LastFill(log: seq<ReplayFact>, key: Key, sc: CachingScenario): Option<int>
    decreases |log|, 0
  {
    if log == [] then None
    else if key != NO_KEY && Last(log).cacheKey == key && !IsHit(Init(log), Last(log), sc) then Some(Last(log).startedAt)
    else LastFill(Init(log), key, sc)
  }

  /** Whether `fact`, arriving after `log`, would be served from the cache. */
  ghost predicate IsHit(log: seq<ReplayFact>, fact: ReplayFact, sc: CachingScenario)
    decreases |log|, 1
  {
    && fact.cacheKey != NO_KEY
    && Resident(log, fact.cacheKey, sc.maxEntries)
    && var fill := LastFill(log, fact.cacheKey, sc);
       fill.Some? && fact.startedAt < fill.value + sc.ttl
  }

  ghost function Hits(log: seq<ReplayFact>, sc: CachingScenario): nat {
    if log == [] then 0
    else Hits(Init(log), sc) + (if IsHit(Init(log), Last(log), sc) then 1 else 0)
  }

  ghost function HitCost(log: seq<ReplayFact>, sc: CachingScenario): int {
    if log == [] then 0
    else HitCost(Init(log), sc) + (if IsHit(Init(log), Last(log), sc) then Last(log).costMicro else 0)
  }

  /** An entry lasts for the TTL from the request that stored it, not from a hit,
      and up to but not at its end. */
  lemma EntryLifetime(a: ReplayFact, b: ReplayFact, c: ReplayFact, sc: CachingScenario)
    requires a.cacheKey == b.cacheKey == c.cacheKey != NO_KEY
    ensures !IsHit([], a, sc)
    ensures IsHit([a], b, sc) <==> b.startedAt - a.startedAt < sc.ttl
    ensures IsHit([a, b], c, sc) <==> c.startedAt - (if IsHit([a], b, sc) then a else b).startedAt < sc.ttl
  {
    assert Init([a]) == [] && Init([a, b]) == [a];
  }

  ghost predicate Mentioned(log: seq<ReplayFact>, key: Key) {
    exists i :: 0 <= i < |log| && log[i].cacheKey == key
  }

  lemma {:induction false} KeysAreMentioned(log: seq<ReplayFact>, key: Key)
    requires key != NO_KEY
    ensures key in Keys(log) <==> Mentioned(log, key)
  {
    if log != [] {
      KeysAreMentioned(Init(log), key);
      if Mentioned(log, key) && Last(log).cacheKey != key {
        var i :| 0 <= i < |log| && log[i].cacheKey == key;
        assert Init(log)[i].cacheKey == key;
      }
      if Mentioned(Init(log), key) {
        var i :| 0 <= i < |Init(log)| && Init(log)[i].cacheKey == key;
        assert log[i].cacheKey == key;
      }
      assert Last(log) == log[|log| - 1];
    }
  }

  // ---------------------------------------------------------------- the recency list

  function Without(list: seq<Key>, key: Key): seq<Key> {
    if list == [] then []
    else if list[0] == key then list[1..]
    else [list[0]] + Without(list[1..], key)
  }

  function Touch(list: seq<Key>, key: Key): seq<Key> {
    Without(list, key) + [key]
  }

  /** Every key of the log, least recently used first. */
  ghost function Recency(log: seq<ReplayFact>): seq<Key> {
    if log == [] then []
    else if Last(log).cacheKey == NO_KEY then Recency(Init(log))
    else Touch(Recency(Init(log)), Last(log).cacheKey)
  }

  function LastN(list: seq<Key>, n: int): seq<Key> {
    if n <= 0 || |list| <= n then list else list[|list| - n..]
  }

  lemma {:induction false} WithoutAt(list: seq<Key>, p: nat)
    requires Distinct(list) && p < |list|
    ensures Without(list, list[p]) == list[..p] + list[p + 1..]
  {
    if p > 0 {
      WithoutAt(list[1..], p - 1);
      assert list[1..][p - 1] == list[p];
    }
  }

  lemma {:induction false} WithoutAbsent(list: seq<Key>, key: Key)
    requires key !in list
    ensures Without(list, key) == list
  {
    if list != [] {
      WithoutAbsent(list[1..], key);
    }
  }

  lemma {:induction false} TouchLength(list: seq<Key>, key: Key)
    ensures |Touch(list, key)| == |list| + (if key in list then 0 else 1)
  {
    if list != [] && list[0] != key {
      TouchLength(list[1..], key);
    }
  }

  lemma DistinctParts(a: seq<Key>, cut: seq<Key>, b: seq<Key>, key: Key)
    requires Distinct(a + cut + b) && key !in a && key !in b
    ensures Distinct(a + b + [key])
  {
    var whole, moved := a + cut + b, a + b + [key];
    forall i, j | 0 <= i < j < |moved| ensures moved[i] != moved[j] {
      assert i < |a| ==> whole[i] == moved[i];
      assert |a| <= i < |a| + |b| ==> whole[i + |cut|] == moved[i];
      assert j < |a| ==> whole[j] == moved[j];
      assert |a| <= j < |a| + |b| ==> whole[j + |cut|] == moved[j];
      assert i < |a| ==> moved[i] in a;
      assert |a| <= i < |a| + |b| ==> moved[i] == b[i - |a|];
    }
  }

  /** Touching cuts the key out of where it stood and puts it last. */
  lemma TouchSplit(list: seq<Key>, key: Key) returns (a: seq<Key>, cut: seq<Key>, b: seq<Key>)
    requires Distinct(list)
    ensures list == a + cut + b && Touch(list, key) == a + b + [key]
    ensures key !in a && key !in b && cut == if key in list then [key] else []
  {
    if key in list {
      var p :| 0 <= p < |list| && list[p] == key;
      WithoutAt(list, p);
      a, cut, b := list[..p], [key], list[p + 1..];
    } else {
      WithoutAbsent(list, key);
      a, cut, b := list, [], [];
    }
  }

  lemma TouchShape(list: seq<Key>, key: Key)
    requires Distinct(list)
    ensures Elements(Touch(list, key)) == Elements(list) + {key}
    ensures Distinct(Touch(list, key))
  {
    var a, cut, b := TouchSplit(list, key);
    DistinctParts(a, cut, b, key);
  }

  /** Touching a key of the tail cuts it out of the tail alone. */
  lemma {:induction false} TouchInTail(front: seq<Key>, tail: seq<Key>, key: Key)
    requires Distinct(front + tail) && key in tail
    ensures Without(front + tail, key) == front + Without(tail, key)
  {
    if front == [] {
      assert front + tail == tail;
    } else {
      assert (front + tail)[1..] == front[1..] + tail;
      var q :| 0 <= q < |tail| && tail[q] == key;
      assert (front + tail)[|front| + q] == key;
      TouchInTail(front[1..], tail, key);
    }
  }

  /** Touching any other key shortens or keeps the front. */
  lemma {:induction false} TouchBeforeTail(front: seq<Key>, tail: seq<Key>, key: Key) returns (shorter: seq<Key>)
    requires key !in tail
    ensures Without(front + tail, key) == shorter + tail && |shorter| >= |front| - 1
  {
    if front == [] {
      assert front + tail == tail;
      WithoutAbsent(tail, key);
      shorter := [];
    } else if front[0] == key {
      shorter := front[1..];
      assert (front + tail)[1..] == front[1..] + tail;
    } else {
      assert (front + tail)[1..] == front[1..] + tail;
      shorter := TouchBeforeTail(front[1..], tail, key);
      shorter := [front[0]] + shorter;
    }
  }

  lemma TouchInFullTail(front: seq<Key>, tail: seq<Key>, key: Key)
    requires Distinct(front + tail) && key in tail
    ensures LastN(Touch(front + tail, key), |tail|) == Touch(tail, key)
  {
    TouchInTail(front, tail, key);
    TouchLength(tail, key);
    assert Touch(front + tail, key) == front + Touch(tail, key);
  }

  lemma TouchBeforeFullTail(front: seq<Key>, tail: seq<Key>, key: Key)
    requires front != [] && tail != [] && key !in tail
    ensures LastN(Touch(front + tail, key), |tail|) == Touch(tail, key)[1..]
  {
    var shorter := TouchBeforeTail(front, tail, key);
    WithoutAbsent(tail, key);
    assert Touch(front + tail, key) == (shorter + [tail[0]]) + (tail[1..] + [key]);
    assert Touch(tail, key) == [tail[0]] + (tail[1..] + [key]);
  }

  /** Touching a full list of the n latest keys and dropping the head gives the
      n latest keys of the touched list. */
  lemma TouchLastN(list: seq<Key>, key: Key, n: int)
    requires Distinct(list)
    ensures var kept := Touch(LastN(list, n), key);
            LastN(Touch(list, key), n) == (if n > 0 && |kept| > n then kept[1..] else kept)
  {
    TouchLength(LastN(list, n), key);
    if n > 0 && |list| > n {
      var front, tail := list[..|list| - n], list[|list| - n..];
      assert list == front + tail;
      if key in tail {
        TouchInFullTail(front, tail, key);
      } else {
        TouchBeforeFullTail(front, tail, key);
      }
    }
  }

  /** The recency list holds each key once, and what follows a key in it is the
      set of keys used since. */
  lemma {:induction false} RecencyMeaning(log: seq<ReplayFact>)
    ensures Distinct(Recency(log)) && Elements(Recency(log)) == Keys(log) && NO_KEY !in Keys(log)
    ensures forall p :: 0 <= p < |Recency(log)| ==>
              Elements(Recency(log)[p + 1..]) == KeysSince(log, Recency(log)[p])
  {
    if log != [] {
      RecencyMeaning(Init(log));
      if Last(log).cacheKey != NO_KEY {
        TouchShape(Recency(Init(log)), Last(log).cacheKey);
        forall p | 0 <= p < |Recency(log)| - 1
          ensures Elements(Recency(log)[p + 1..]) == KeysSince(log, Recency(log)[p])
        {
          var r := FollowersAfterTouch(Recency(Init(log)), Last(log).cacheKey, p);
        }
      }
    }
  }

  lemma FollowersBefore(a: seq<Key>, cut: seq<Key>, b: seq<Key>, key: Key, p: nat)
    requires p < |a| && (cut == [] || cut == [key])
    ensures Elements((a + b + [key])[p + 1..]) == Elements((a + cut + b)[p + 1..]) + {key}
  {
    var rest := a[p + 1..];
    assert (a + b + [key])[p + 1..] == rest + b + [key];
    assert (a + cut + b)[p + 1..] == rest + cut + b;
  }

  lemma FollowersAfter(a: seq<Key>, cut: seq<Key>, b: seq<Key>, key: Key, p: nat)
    requires |a| <= p < |a| + |b|
    ensures Elements((a + b + [key])[p + 1..]) == Elements((a + cut + b)[p + |cut| + 1..]) + {key}
  {
    var rest := b[p - |a| + 1..];
    assert (a + b + [key])[p + 1..] == rest + [key];
    assert (a + cut + b)[p + |cut| + 1..] == rest;
  }

  /** What follows a key after a touch is what followed it before, and the
      touched key. */
  lemma FollowersAfterTouch(list: seq<Key>, key: Key, p: nat) returns (r: nat)
    requires Distinct(list) && p < |Touch(list, key)| - 1
    ensures r < |list| && list[r] == Touch(list, key)[p] != key
    ensures Elements(Touch(list, key)[p + 1..]) == Elements(list[r + 1..]) + {key}
  {
    var a, cut, b := TouchSplit(list, key);
    if p < |a| {
      r := p;
      assert list[r] == a[p];
      FollowersBefore(a, cut, b, key, p);
    } else {
      r := p + |cut|;
      assert list[r] == b[p - |a|];
      FollowersAfter(a, cut, b, key, p);
    }
  }

  /** A key is among the n most recently used exactly when it is resident. */
  lemma LatestIsResident(log: seq<ReplayFact>, key: Key, maxEntries: int)
    ensures key in LastN(Recency(log), maxEntries) <==> Resident(log, key, maxEntries)
  {
    RecencyMeaning(log);
    var list := Recency(log);
    assert key in Elements(list) <==> key in Keys(log);
    if key in list {
      var p :| 0 <= p < |list| && list[p] == key;
      DistinctSize(list[p + 1..]);
      assert |KeysSince(log, key)| == |list| - p - 1;
      if maxEntries > 0 && |list| > maxEntries {
        var d := |list| - maxEntries;
        assert p >= d ==> list[d..][p - d] == key;
      }
    }
  }

  // ---------------------------------------------------------------- the replay

  /** touchLRU: find the key, cut it out, append it. */
  method TouchLRU(lru: seq<Key>, key: Key) returns (touched: seq<Key>)
    ensures touched == Touch(lru, key)
  {
    touched := lru;
    var i := 0;
    while i < |lru|
      invariant 0 <= i <= |lru| && touched == lru
      invariant lru[..i] + Without(lru[i..], key) == Without(lru, key)
    {
      if lru[i] == key {
        touched := lru[..i] + lru[i + 1..];
        assert lru[i..][1..] == lru[i + 1..];
        return touched + [key];
      }
      assert lru[i..][1..] == lru[i + 1..];
      i := i + 1;
    }
    WithoutAbsentTail(lru, key);
    touched := touched + [key];
  }

  lemma WithoutAbsentTail(lru: seq<Key>, key: Key)
    ensures lru + Without(lru[|lru|..], key) == lru
  {
  }

  /** What the replay's map holds: the resident keys, each with the expiry its
      last fill gave it. */
  ghost predicate CacheMatches(cache: map<Key, int>, lru: seq<Key>, log: seq<ReplayFact>, sc: CachingScenario) {
    && ListMatches(cache.Keys, lru, log, sc.maxEntries)
    && ExpiriesMatch(cache, log, sc)
  }

  ghost predicate ListMatches(keys: set<Key>, lru: seq<Key>, log: seq<ReplayFact>, n: int) {
    lru == LastN(Recency(log), n) && keys == Elements(lru)
  }

  ghost predicate ExpiriesMatch(cache: map<Key, int>, log: seq<ReplayFact>, sc: CachingScenario) {
    forall key :: key in cache ==> LastFill(log, key, sc) == Some(cache[key] - sc.ttl)
  }

  lemma HitDecided(cache: map<Key, int>, lru: seq<Key>, log: seq<ReplayFact>, f: ReplayFact, sc: CachingScenario)
    requires CacheMatches(cache, lru, log, sc) && f.cacheKey != NO_KEY
    ensures IsHit(log, f, sc) <==> f.cacheKey in cache && f.startedAt < cache[f.cacheKey]
  {
    LatestIsResident(log, f.cacheKey, sc.maxEntries);
    assert f.cacheKey in cache.Keys <==> f.cacheKey in Elements(lru);
  }

  lemma ListStep(lru: seq<Key>, log: seq<ReplayFact>, n: int)
    requires log != [] && Last(log).cacheKey != NO_KEY && lru == LastN(Recency(Init(log)), n)
    ensures var touched := Touch(lru, Last(log).cacheKey);
            && Distinct(touched) && Elements(touched) == Elements(lru) + {Last(log).cacheKey}
            && |touched| == |lru| + (if Last(log).cacheKey in lru then 0 else 1)
            && (n > 0 ==> |lru| <= n)
            && LastN(Recency(log), n) == if n > 0 && |touched| > n then touched[1..] else touched
  {
    assert Distinct(Recency(Init(log))) by { RecencyMeaning(Init(log)); }
    TouchLastN(Recency(Init(log)), Last(log).cacheKey, n);
    TouchShape(lru, Last(log).cacheKey);
    TouchLength(lru, Last(log).cacheKey);
  }

  lemma HitStep(cache: map<Key, int>, lru: seq<Key>, log: seq<ReplayFact>, sc: CachingScenario)
    requires log != [] && Last(log).cacheKey != NO_KEY
    requires CacheMatches(cache, lru, Init(log), sc) && IsHit(Init(log), Last(log), sc)
    ensures CacheMatches(cache, Touch(lru, Last(log).cacheKey), log, sc)
  {
    HitDecided(cache, lru, Init(log), Last(log), sc);
    ListStep(lru, log, sc.maxEntries);
  }

  /** A miss stores only the missing key. */
  lemma ExpiriesAfterMiss(cache: map<Key, int>, log: seq<ReplayFact>, sc: CachingScenario)
    requires log != [] && Last(log).cacheKey != NO_KEY && !IsHit(Init(log), Last(log), sc)
    requires ExpiriesMatch(cache, Init(log), sc)
    ensures ExpiriesMatch(cache[Last(log).cacheKey := Last(log).startedAt + sc.ttl], log, sc)
  {
  }

  lemma MissKeys(keys: set<Key>, lru: seq<Key>, log: seq<ReplayFact>, n: int)
    requires log != [] && Last(log).cacheKey != NO_KEY && ListMatches(keys, lru, Init(log), n)
    ensures var touched := Touch(lru, Last(log).cacheKey);
            if n > 0 && |touched| > n
            then ListMatches(keys + {Last(log).cacheKey} - {touched[0]}, touched[1..], log, n)
            else ListMatches(keys + {Last(log).cacheKey}, touched, log, n)
  {
    ListStep(lru, log, n);
    var touched := Touch(lru, Last(log).cacheKey);
    if n > 0 && |touched| > n {
      DistinctTail(touched);
    }
  }

  /** The replay state once the oldest key of an overfull list is evicted. */
  ghost predicate AfterMiss(stored: map<Key, int>, touched: seq<Key>, log: seq<ReplayFact>, sc: CachingScenario) {
    if sc.maxEntries > 0 && |touched| > sc.maxEntries
    then CacheMatches(stored - {touched[0]}, touched[1..], log, sc)
    else CacheMatches(stored, touched, log, sc)
  }

  /** Evicting a key keeps the expiries of the others right. */
  lemma ExpiriesAfterEviction(stored: map<Key, int>, key: Key, log: seq<ReplayFact>, sc: CachingScenario)
    requires ExpiriesMatch(stored, log, sc)
    ensures ExpiriesMatch(stored - {key}, log, sc) && (stored - {key}).Keys == stored.Keys - {key}
  {
  }

  lemma MissStep(cache: map<Key, int>, lru: seq<Key>, log: seq<ReplayFact>, sc: CachingScenario)
    requires log != [] && Last(log).cacheKey != NO_KEY
    requires CacheMatches(cache, lru, Init(log), sc) && !IsHit(Init(log), Last(log), sc)
    ensures AfterMiss(cache[Last(log).cacheKey := Last(log).startedAt + sc.ttl], Touch(lru, Last(log).cacheKey), log, sc)
  {
    var key, touched := Last(log).cacheKey, Touch(lru, Last(log).cacheKey);
    var stored := cache[key := Last(log).startedAt + sc.ttl];
    assert stored.Keys == cache.Keys + {key};
    ExpiriesAfterMiss(cache, log, sc);
    MissKeys(cache.Keys, lru, log, sc.maxEntries);
    if sc.maxEntries > 0 && |touched| > sc.maxEntries {
      ExpiriesAfterEviction(stored, touched[0], log, sc);
    }
  }

  lemma PassStep(cache: map<Key, int>, lru: seq<Key>, log: seq<ReplayFact>, sc: CachingScenario)
    requires log != [] && Last(log).cacheKey == NO_KEY && CacheMatches(cache, lru, Init(log), sc)
    ensures CacheMatches(cache, lru, log, sc)
  {
  }

  /** What the replay has counted after `log`. */
  ghost predicate SumsMatch(affected: int, actual: int, simulated: int, log: seq<ReplayFact>, sc: CachingScenario) {
    affected == Hits(log, sc) && actual == TotalCost(log) == simulated + HitCost(log, sc)
  }

  lemma SumsStep(affected: int, actual: int, simulated: int, log: seq<ReplayFact>, sc: CachingScenario)
    requires log != [] && SumsMatch(affected, actual, simulated, Init(log), sc)
    ensures var cost := Last(log).costMicro;
            if IsHit(Init(log), Last(log), sc)
            then SumsMatch(affected + 1, actual + cost, simulated, log, sc)
            else SumsMatch(affected, actual + cost, simulated + cost, log, sc)
  {
  }

  /** A miss fills the cache and evicts the oldest key if that is one too many. */
  method Fill(cache: map<Key, int>, lru: seq<Key>, key: Key, expiry: int, maxEntries: int)
    returns (cache': map<Key, int>, lru': seq<Key>)
    ensures var stored, touched := cache[key := expiry], Touch(lru, key);
            if maxEntries > 0 && |touched| > maxEntries then cache' == stored - {touched[0]} && lru' == touched[1..]
            else cache' == stored && lru' == touched
  {
    cache' := cache[key := expiry];
    lru' := TouchLRU(lru, key);
    if maxEntries > 0 && |lru'| > maxEntries {
      var evict := lru'[0];
      lru' := lru'[1..];
      cache' := cache' - {evict};
    }
  }

  /** The body of the replay loop for a keyed request; `log` is what came before. */
  method ServeKeyed(cache: map<Key, int>, lru: seq<Key>, f: ReplayFact, sc: CachingScenario, ghost log: seq<ReplayFact>)
    returns (cache': map<Key, int>, lru': seq<Key>, hit: bool)
    requires f.cacheKey != NO_KEY && CacheMatches(cache, lru, log, sc)
    ensures hit == IsHit(log, f, sc)
    ensures CacheMatches(cache', lru', log + [f], sc)
  {
    var key, now := f.cacheKey, f.startedAt;
    ghost var longer := log + [f];
    assert Init(longer) == log && Last(longer) == f;
    HitDecided(cache, lru, log, f, sc);
    if key in cache && now < cache[key] {
      HitStep(cache, lru, longer, sc);
      lru' := TouchLRU(lru, key);
      return cache, lru', true;
    }
    MissStep(cache, lru, longer, sc);
    cache', lru' := Fill(cache, lru, key, now + sc.ttl, sc.maxEntries);
    hit := false;
  }

  /** SimulateCaching, proved against Hits and HitCost. */
  method SimulateCaching(facts: seq<ReplayFact>, sc: CachingScenario) returns (result: CachingResult)
    ensures result.replayedRequests == |facts|
    ensures result.affectedRequests == Hits(facts, sc)
    ensures result.actualCostMicro == TotalCost(facts)
    ensures result.actualCostMicro == result.simulatedCostMicro + HitCost(facts, sc)
    ensures result.hitRate == if facts == [] then 0.0 else Hits(facts, sc) as real / |facts| as real
  {
    var cache: map<Key, int> := map[];
    var lru: seq<Key> := [];
    var affected, actual, simulated := 0, 0, 0;
    for i := 0 to |facts|
      invariant CacheMatches(cache, lru, facts[..i], sc)
      invariant SumsMatch(affected, actual, simulated, facts[..i], sc)
    {
      var f := facts[i];
      ghost var log := facts[..i + 1];
      assert Init(log) == facts[..i] && log == facts[..i] + [f];
      SumsStep(affected, actual, simulated, log, sc);
      actual := actual + f.costMicro;
      if f.cacheKey == NO_KEY {
        PassStep(cache, lru, log, sc);
        simulated := simulated + f.costMicro;
        continue;
      }
      var hit;
      cache, lru, hit := ServeKeyed(cache, lru, f, sc, facts[..i]);
      if hit {
        affected := affected + 1;
        continue;
      }
      simulated := simulated + f.costMicro;
    }
    assert facts[..|facts|] == facts;
    result := CachingResult(|facts|, affected, actual, simulated,
                            if |facts| > 0 then affected as real / |facts| as real else 0.0);
  }

  lemma DistinctTail(list: seq<Key>)
    requires Distinct(list) && list != []
    ensures Elements(list[1..]) == Elements(list) - {list[0]}
  {
    assert list == [list[0]] + list[1..];
  }
}
