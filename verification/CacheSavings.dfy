/**
 When savings, and not only hits, grow with the cache.  A roomier cache is ahead
 on hits at every moment, so it can lose money only by hitting early and cheap
 where the smaller one hits late and dear.
 */
module CacheSavings {
  import opened Prelude
  import opened ReplayFacts
  import opened Caching
  import opened CacheGrowth

  /** The key came up before. */
  ghost predicate UsedBefore(log: seq<ReplayFact>, i: nat)
    requires i < |log|
  {
    Mentioned(log[..i], log[i].cacheKey)
  }

  ghost predicate Repeat(log: seq<ReplayFact>, i: nat) {
    i < |log| && log[i].cacheKey != NO_KEY && UsedBefore(log, i)
  }

  /** From its second use on no key gets dearer. */
  ghost predicate NeverDearer(log: seq<ReplayFact>) {
    forall i: nat, j: nat :: Repeat(log, i) && i < j < |log| && log[j].cacheKey == log[i].cacheKey ==>
      log[j].costMicro <= log[i].costMicro
  }

  ghost predicate NoRefunds(log: seq<ReplayFact>) {
    forall i :: 0 <= i < |log| ==> log[i].costMicro >= 0
  }

  // ---------------------------------------------------------------- one key

  ghost function HitsOf(log: seq<ReplayFact>, key: Key, sc: CachingScenario): nat {
    if log == [] then 0
    else HitsOf(Init(log), key, sc) + (if Last(log).cacheKey == key && IsHit(Init(log), Last(log), sc) then 1 else 0)
  }

  ghost function HitCostOf(log: seq<ReplayFact>, key: Key, sc: CachingScenario): int {
    if log == [] then 0
    else HitCostOf(Init(log), key, sc)
         + (if Last(log).cacheKey == key && IsHit(Init(log), Last(log), sc) then Last(log).costMicro else 0)
  }

  ghost function Uses(log: seq<ReplayFact>, key: Key): nat {
    if log == [] then 0 else Uses(Init(log), key) + (if Last(log).cacheKey == key then 1 else 0)
  }

  lemma {:induction false} HitsOrFills(log: seq<ReplayFact>, key: Key, sc: CachingScenario)
    ensures HitsOf(log, key, sc) + Fills(log, key, sc) == Uses(log, key)
  {
    if log != [] {
      HitsOrFills(Init(log), key, sc);
    }
  }

  /** At every moment the roomier cache has had at least the hits on the key. */
  lemma LeadOnKey(log: seq<ReplayFact>, key: Key, sc: CachingScenario, wide: CachingScenario)
    requires key != NO_KEY && Roomier(sc, wide) && wide.ttl >= 0
    ensures HitsOf(log, key, sc) <= HitsOf(log, key, wide)
  {
    WideStaysAhead(log, key, sc, wide);
    HitsOrFills(log, key, sc);
    HitsOrFills(log, key, wide);
  }

  /** No repeat of the key costs less than m. */
  ghost predicate AtLeast(log: seq<ReplayFact>, key: Key, m: nat) {
    forall i: nat :: Repeat(log, i) && log[i].cacheKey == key ==> log[i].costMicro >= m
  }

  lemma RepeatsOfInit(log: seq<ReplayFact>)
    requires log != []
    ensures forall i: nat :: i < |log| - 1 ==> (Repeat(Init(log), i) <==> Repeat(log, i)) && Init(log)[i] == log[i]
    ensures Repeat(log, |log| - 1) <==> Last(log).cacheKey != NO_KEY && Mentioned(Init(log), Last(log).cacheKey)
  {
    assert forall i: nat :: i < |log| - 1 ==> Init(log)[..i] == log[..i];
  }

  lemma TimesMore(lead: nat, m: nat, c: nat, gain: int)
    requires m <= c && gain >= lead * c
    ensures gain >= lead * m
  {
  }

  lemma TimesStep(before: nat, after: nat, step: int, c: nat, gain: int)
    requires after == before + step && gain >= before * c
    ensures gain + step * c >= after * c
  {
  }

  /** The gain in cost is at least the lead in hits times the least a repeat costs. */
  lemma {:induction false} GainOnKey(log: seq<ReplayFact>, key: Key, sc: CachingScenario, wide: CachingScenario, m: nat)
    requires key != NO_KEY && Roomier(sc, wide) && wide.ttl >= 0
    requires NeverDearer(log) && NoRefunds(log) && AtLeast(log, key, m)
    ensures HitCostOf(log, key, wide) - HitCostOf(log, key, sc) >= (HitsOf(log, key, wide) - HitsOf(log, key, sc)) * m
  {
    LeadOnKey(log, key, sc, wide);
    if log != [] {
      RepeatsOfInit(log);
      LeadOnKey(Init(log), key, sc, wide);
      KeysAreMentioned(Init(log), key);
      if Last(log).cacheKey == key && Mentioned(Init(log), key) {
        var c := Last(log).costMicro;
        GainOnKey(Init(log), key, sc, wide, c);
        GainStep(log, key, sc, wide, m);
      } else {
        GainOnKey(Init(log), key, sc, wide, m);
      }
    }
  }

  lemma GainStep(log: seq<ReplayFact>, key: Key, sc: CachingScenario, wide: CachingScenario, m: nat)
    requires log != [] && Last(log).cacheKey == key && 0 <= m <= Last(log).costMicro
    requires HitsOf(Init(log), key, sc) <= HitsOf(Init(log), key, wide) && HitsOf(log, key, sc) <= HitsOf(log, key, wide)
    requires HitCostOf(Init(log), key, wide) - HitCostOf(Init(log), key, sc)
               >= (HitsOf(Init(log), key, wide) - HitsOf(Init(log), key, sc)) * Last(log).costMicro
    ensures HitCostOf(log, key, wide) - HitCostOf(log, key, sc) >= (HitsOf(log, key, wide) - HitsOf(log, key, sc)) * m
  {
    var c := Last(log).costMicro;
    var before, after := HitsOf(Init(log), key, wide) - HitsOf(Init(log), key, sc), HitsOf(log, key, wide) - HitsOf(log, key, sc);
    TimesStep(before, after, after - before, c, HitCostOf(Init(log), key, wide) - HitCostOf(Init(log), key, sc));
    TimesMore(after, m, c, HitCostOf(log, key, wide) - HitCostOf(log, key, sc));
  }

  // ---------------------------------------------------------------- all keys

  ghost function SumOver(keys: seq<Key>, log: seq<ReplayFact>, sc: CachingScenario): int {
    if keys == [] then 0 else HitCostOf(log, keys[0], sc) + SumOver(keys[1..], log, sc)
  }

  lemma {:induction false} SumOverStep(keys: seq<Key>, log: seq<ReplayFact>, sc: CachingScenario)
    requires log != [] && Distinct(keys)
    ensures SumOver(keys, log, sc) == SumOver(keys, Init(log), sc)
              + (if Last(log).cacheKey in keys && IsHit(Init(log), Last(log), sc) then Last(log).costMicro else 0)
  {
    if keys != [] {
      SumOverStep(keys[1..], log, sc);
      assert Last(log).cacheKey in keys <==> Last(log).cacheKey == keys[0] || Last(log).cacheKey in keys[1..];
    }
  }

  lemma {:induction false} NothingYet(keys: seq<Key>, log: seq<ReplayFact>, sc: CachingScenario)
    requires log == []
    ensures SumOver(keys, log, sc) == 0
  {
    if keys != [] {
      NothingYet(keys[1..], log, sc);
    }
  }

  lemma {:induction false} HitCostByKey(keys: seq<Key>, log: seq<ReplayFact>, sc: CachingScenario)
    requires Distinct(keys) && Keys(log) <= Elements(keys)
    ensures HitCost(log, sc) == SumOver(keys, log, sc)
  {
    if log == [] {
      NothingYet(keys, log, sc);
    } else {
      HitCostByKey(keys, Init(log), sc);
      SumOverStep(keys, log, sc);
      assert Last(log).cacheKey != NO_KEY ==> Last(log).cacheKey in Elements(keys);
    }
  }

  lemma {:induction false} GainOverKeys(keys: seq<Key>, log: seq<ReplayFact>, sc: CachingScenario, wide: CachingScenario)
    requires Roomier(sc, wide) && wide.ttl >= 0 && NO_KEY !in keys && NeverDearer(log) && NoRefunds(log)
    ensures SumOver(keys, log, sc) <= SumOver(keys, log, wide)
  {
    if keys != [] {
      GainOnKey(log, keys[0], sc, wide, 0);
      GainOverKeys(keys[1..], log, sc, wide);
    }
  }

  lemma {:induction false} NoHitsNoCost(log: seq<ReplayFact>, sc: CachingScenario)
    requires Hits(log, sc) == 0
    ensures HitCost(log, sc) == 0
  {
    if log != [] {
      NoHitsNoCost(Init(log), sc);
    }
  }

  /** If no repeat of a key is dearer than the one before it, savings grow with
      the TTL, the size bound and both. */
  lemma SavingsGrow(log: seq<ReplayFact>, sc: CachingScenario, wide: CachingScenario)
    requires NeverDearer(log) && NoRefunds(log) && Roomier(sc, wide)
    requires Chronological(log) || wide.ttl >= 0
    ensures HitCost(log, sc) <= HitCost(log, wide)
  {
    if wide.ttl < 0 {
      NegativeTTLNeverHits(log, sc);
      NegativeTTLNeverHits(log, wide);
      NoHitsNoCost(log, sc);
      NoHitsNoCost(log, wide);
    } else {
      RecencyMeaning(log);
      var keys := Recency(log);
      assert NO_KEY !in Elements(keys);
      HitCostByKey(keys, log, sc);
      HitCostByKey(keys, log, wide);
      GainOverKeys(keys, log, sc, wide);
    }
  }

  // ---------------------------------------------------------------- and only then

  /** The same keys and costs, at whatever times. */
  ghost predicate SameTraffic(a: seq<ReplayFact>, b: seq<ReplayFact>) {
    |a| == |b| && forall i :: 0 <= i < |a| ==> b[i].cacheKey == a[i].cacheKey && b[i].costMicro == a[i].costMicro
  }

  /** Three uses of one key with no other use of it between them. */
  ghost predicate InARow(log: seq<ReplayFact>, h: nat, i: nat, j: nat) {
    && h < i < j < |log| && log[h].cacheKey == log[i].cacheKey == log[j].cacheKey != NO_KEY
    && (forall n :: h < n < j && n != i ==> log[n].cacheKey != log[h].cacheKey)
  }

  lemma {:induction false} NextToEachOther(log: seq<ReplayFact>, i: nat, j: nat) returns (k: nat, l: nat)
    requires i < j < |log| && log[i].cacheKey == log[j].cacheKey && log[i].costMicro < log[j].costMicro
    ensures i <= k < l <= j && log[k].cacheKey == log[l].cacheKey == log[i].cacheKey && log[k].costMicro < log[l].costMicro
    ensures forall n :: k < n < l ==> log[n].cacheKey != log[i].cacheKey
    decreases j - i
  {
    if n :| i < n < j && log[n].cacheKey == log[i].cacheKey {
      if log[n].costMicro > log[i].costMicro {
        k, l := NextToEachOther(log, i, n);
      } else {
        k, l := NextToEachOther(log, n, j);
      }
    } else {
      k, l := i, j;
    }
  }

  lemma LastUseBefore(log: seq<ReplayFact>, i: nat) returns (h: nat)
    requires Repeat(log, i)
    ensures h < i && log[h].cacheKey == log[i].cacheKey && forall n :: h < n < i ==> log[n].cacheKey != log[i].cacheKey
  {
    var g :| 0 <= g < |log[..i]| && log[..i][g].cacheKey == log[i].cacheKey;
    h := g;
    var n := g + 1;
    while n < i
      invariant h < n <= i && log[h].cacheKey == log[i].cacheKey
      invariant forall p :: h < p < n ==> log[p].cacheKey != log[i].cacheKey
    {
      if log[n].cacheKey == log[i].cacheKey {
        h := n;
      }
      n := n + 1;
    }
  }

  lemma RiseExists(log: seq<ReplayFact>) returns (h: nat, i: nat, j: nat)
    requires !NeverDearer(log)
    ensures InARow(log, h, i, j) && log[i].costMicro < log[j].costMicro
  {
    var x: nat, y: nat :| Repeat(log, x) && x < y < |log| && log[y].cacheKey == log[x].cacheKey
                          && log[y].costMicro > log[x].costMicro;
    i, j := NextToEachOther(log, x, y);
    var g :| 0 <= g < |log[..x]| && log[..x][g].cacheKey == log[x].cacheKey;
    assert log[..i][g].cacheKey == log[i].cacheKey;
    h := LastUseBefore(log, i);
  }

  // Times that let the narrow cache hit the dear request and the wide one the
  // cheap: everything far apart, but the three uses 20 and 19 apart.

  function TimeOf(h: nat, j: nat, n: nat): int {
    if n <= h || n > j then n * 1000 else if n < j then h * 1000 + 20 else h * 1000 + 39
  }

  function Retimed(log: seq<ReplayFact>, h: nat, j: nat): (r: seq<ReplayFact>)
    ensures |r| == |log|
  {
    seq(|log|, n requires 0 <= n < |log| => log[n].(startedAt := TimeOf(h, j, n)))
  }

  const NARROW := CachingScenario(20, 0)
  const WIDE := CachingScenario(30, 0)

  predicate EitherOne(s: CachingScenario) {
    s == NARROW || s == WIDE
  }

  /** What a key's last fill before request n can be. */
  lemma FillByThen(log: seq<ReplayFact>, h: nat, j: nat, n: nat, key: Key, s: CachingScenario)
    requires h < j && 0 < n <= |log| && key != NO_KEY
    ensures var fill := LastFill(Retimed(log, h, j)[..n], key, s);
            && (fill.Some? ==> fill.value <= TimeOf(h, j, n - 1))
            && (fill.Some? <==> Mentioned(Retimed(log, h, j)[..n], key))
  {
    var r := Retimed(log, h, j)[..n];
    FillExists(r, key, s);
    KeysAreMentioned(r, key);
    assert Last(r).startedAt == TimeOf(h, j, n - 1);
  }

  /** Before and after the three uses everything misses. */
  lemma FarMiss(log: seq<ReplayFact>, h: nat, j: nat, n: nat, s: CachingScenario)
    requires h + 1 < j && n < |log| && (n <= h || n > j) && EitherOne(s)
    ensures !IsHit(Retimed(log, h, j)[..n], Retimed(log, h, j)[n], s)
  {
    var key := log[n].cacheKey;
    if n > 0 && key != NO_KEY {
      FillByThen(log, h, j, n, key, s);
      assert TimeOf(h, j, n) >= TimeOf(h, j, n - 1) + 31;
    }
  }

  lemma FillStep(log: seq<ReplayFact>, h: nat, j: nat, n: nat, key: Key, s: CachingScenario)
    requires n < |log| && key != NO_KEY
    ensures var r := Retimed(log, h, j);
            LastFill(r[..n + 1], key, s) ==
              if log[n].cacheKey == key && !IsHit(r[..n], r[n], s) then Some(TimeOf(h, j, n)) else LastFill(r[..n], key, s)
  {
    var r := Retimed(log, h, j);
    assert Init(r[..n + 1]) == r[..n] && Last(r[..n + 1]) == r[n];
  }

  /** With no size bound a hit is a matter of the last fill alone. */
  lemma HitIsTime(log: seq<ReplayFact>, h: nat, j: nat, n: nat, s: CachingScenario)
    requires n < |log| && EitherOne(s) && log[n].cacheKey != NO_KEY
    ensures var r := Retimed(log, h, j);
            var fill := LastFill(r[..n], log[n].cacheKey, s);
            IsHit(r[..n], r[n], s) <==> fill.Some? && TimeOf(h, j, n) < fill.value + s.ttl
  {
    FillExists(Retimed(log, h, j)[..n], log[n].cacheKey, s);
  }

  /** The fills of the key itself between its three uses. */
  lemma {:induction false} KeyFill(log: seq<ReplayFact>, h: nat, i: nat, j: nat, n: nat, s: CachingScenario)
    requires InARow(log, h, i, j) && h < n <= j && EitherOne(s)
    ensures LastFill(Retimed(log, h, j)[..n], log[h].cacheKey, s) ==
              Some(if s == NARROW && i < n then h * 1000 + 20 else h * 1000)
    decreases n
  {
    var key := log[h].cacheKey;
    FillStep(log, h, j, n - 1, key, s);
    if n == h + 1 {
      FarMiss(log, h, j, h, s);
    } else {
      KeyFill(log, h, i, j, n - 1, s);
      if n == i + 1 {
        HitIsTime(log, h, j, i, s);
      }
    }
  }

  ghost predicate UsedSince(log: seq<ReplayFact>, h: nat, n: nat, key: Key) {
    exists p :: h < p < n && p < |log| && log[p].cacheKey == key
  }

  /** Another key in between was last filled then, or long ago. */
  ghost predicate OtherFilled(log: seq<ReplayFact>, h: nat, j: nat, n: nat, key: Key, s: CachingScenario)
    requires n <= |log|
  {
    var fill := LastFill(Retimed(log, h, j)[..n], key, s);
    if UsedSince(log, h, n, key) then fill == Some(h * 1000 + 20)
    else fill.None? || fill.value <= h * 1000 - 1000
  }

  lemma OtherFillFirst(log: seq<ReplayFact>, h: nat, j: nat, key: Key, s: CachingScenario)
    requires h + 1 < j < |log| && key != log[h].cacheKey && key != NO_KEY
    ensures OtherFilled(log, h, j, h + 1, key, s)
  {
    FillStep(log, h, j, h, key, s);
    if h > 0 {
      FillByThen(log, h, j, h, key, s);
    }
  }

  lemma OtherFillStep(log: seq<ReplayFact>, h: nat, j: nat, n: nat, key: Key, s: CachingScenario)
    requires h < n < j < |log| && EitherOne(s) && key != NO_KEY && OtherFilled(log, h, j, n, key, s)
    ensures OtherFilled(log, h, j, n + 1, key, s)
  {
    FillStep(log, h, j, n, key, s);
    if log[n].cacheKey == key {
      HitIsTime(log, h, j, n, s);
      assert UsedSince(log, h, n + 1, key);
    } else {
      assert UsedSince(log, h, n + 1, key) <==> UsedSince(log, h, n, key);
    }
  }

  lemma {:induction false} OtherFill(log: seq<ReplayFact>, h: nat, j: nat, n: nat, key: Key, s: CachingScenario)
    requires h + 1 < j < |log| && h < n <= j && EitherOne(s) && key != log[h].cacheKey && key != NO_KEY
    ensures OtherFilled(log, h, j, n, key, s)
  {
    if n == h + 1 {
      OtherFillFirst(log, h, j, key, s);
    } else {
      OtherFill(log, h, j, n - 1, key, s);
      OtherFillStep(log, h, j, n - 1, key, s);
    }
  }

  /** The two caches differ on the second and third use alone. */
  lemma WhoHits(log: seq<ReplayFact>, h: nat, i: nat, j: nat, n: nat)
    requires InARow(log, h, i, j) && n < |log|
    ensures var r := Retimed(log, h, j);
            && (IsHit(r[..n], r[n], WIDE) && !IsHit(r[..n], r[n], NARROW) <==> n == i)
            && (IsHit(r[..n], r[n], NARROW) && !IsHit(r[..n], r[n], WIDE) <==> n == j)
  {
    if n <= h || n > j {
      FarMiss(log, h, j, n, NARROW);
      FarMiss(log, h, j, n, WIDE);
    } else if log[n].cacheKey != NO_KEY {
      HitIsTime(log, h, j, n, NARROW);
      HitIsTime(log, h, j, n, WIDE);
      if log[n].cacheKey == log[h].cacheKey {
        KeyFill(log, h, i, j, n, NARROW);
        KeyFill(log, h, i, j, n, WIDE);
      } else {
        OtherFill(log, h, j, n, log[n].cacheKey, NARROW);
        OtherFill(log, h, j, n, log[n].cacheKey, WIDE);
      }
    }
  }

  /** So after the third use the wide cache has saved less. */
  lemma {:induction false} LossSoFar(log: seq<ReplayFact>, h: nat, i: nat, j: nat, n: nat)
    requires InARow(log, h, i, j) && n <= |log|
    ensures var r := Retimed(log, h, j)[..n];
            HitCost(r, WIDE) - HitCost(r, NARROW) ==
              (if i < n then log[i].costMicro else 0) - (if j < n then log[j].costMicro else 0)
  {
    if n > 0 {
      var r := Retimed(log, h, j);
      LossSoFar(log, h, i, j, n - 1);
      WhoHits(log, h, i, j, n - 1);
      assert Init(r[..n]) == r[..n - 1] && Last(r[..n]) == r[n - 1];
    }
  }

  /** Whatever the times, a roomier cache saves at least as much on these requests. */
  ghost predicate SavingsNeverFall(log: seq<ReplayFact>) {
    forall retimed: seq<ReplayFact>, sc: CachingScenario, wide: CachingScenario ::
      SameTraffic(log, retimed) && Chronological(retimed) && Roomier(sc, wide) ==>
        HitCost(retimed, sc) <= HitCost(retimed, wide)
  }

  /** Savings never fall exactly if no key gets dearer from its second use on.
      (One trace at one set of times may rise by luck all the same.) */
  lemma SavingsNeverFallIff(log: seq<ReplayFact>)
    requires NoRefunds(log)
    ensures SavingsNeverFall(log) <==> NeverDearer(log)
  {
    if NeverDearer(log) {
      forall retimed: seq<ReplayFact>, sc: CachingScenario, wide: CachingScenario
        | SameTraffic(log, retimed) && Chronological(retimed) && Roomier(sc, wide)
        ensures HitCost(retimed, sc) <= HitCost(retimed, wide)
      {
        SavingsGrow(retimed, sc, wide);
      }
    } else {
      var h, i, j := RiseExists(log);
      var r := Retimed(log, h, j);
      LossSoFar(log, h, i, j, |log|);
      assert r[..|log|] == r && SameTraffic(log, r) && Roomier(NARROW, WIDE);
      assert HitCost(r, WIDE) < HitCost(r, NARROW);
    }
  }

  /** The smallest example: three requests, the hit that is lost being the dear one. */
  lemma SavingsCanFall() returns (log: seq<ReplayFact>, sc: CachingScenario, wide: CachingScenario)
    ensures Chronological(log) && Roomier(sc, wide) && HitCost(log, wide) < HitCost(log, sc)
  {
    var base := [RequestAt(0, 1), RequestAt(0, 1), RequestAt(0, 5)];
    log, sc, wide := Retimed(base, 0, 2), NARROW, WIDE;
    assert InARow(base, 0, 1, 2) && log[..3] == log;
    LossSoFar(base, 0, 1, 2, 3);
  }

  // ---------------------------------------------------------------- single hits

  ghost predicate UsedTwiceAtMost(log: seq<ReplayFact>) {
    forall h: nat, i: nat, j: nat :: h < i < j < |log| && log[h].cacheKey == log[i].cacheKey == log[j].cacheKey ==>
      log[h].cacheKey == NO_KEY
  }

  /** Whatever the times, what hits in a cache hits in a roomier one. */
  ghost predicate HitsKept(log: seq<ReplayFact>) {
    forall retimed: seq<ReplayFact>, sc: CachingScenario, wide: CachingScenario, n: nat ::
      && SameTraffic(log, retimed) && Chronological(retimed) && Roomier(sc, wide) && n < |retimed|
      && IsHit(retimed[..n], retimed[n], sc)
      ==> IsHit(retimed[..n], retimed[n], wide)
  }

  lemma {:induction false} UnusedNotKept(log: seq<ReplayFact>, key: Key)
    ensures Uses(log, key) == 0 ==> key !in Keys(log)
  {
    if log != [] {
      UnusedNotKept(Init(log), key);
    }
  }

  /** The first use is a fill, in any cache. */
  lemma {:induction false} OneUseOneFill(log: seq<ReplayFact>, key: Key, s: CachingScenario)
    requires Uses(log, key) == 1 && key != NO_KEY
    ensures Fills(log, key, s) == 1
  {
    if Last(log).cacheKey == key {
      UnusedNotKept(Init(log), key);
      HitsOrFills(Init(log), key, s);
    } else {
      OneUseOneFill(Init(log), key, s);
    }
  }

  lemma {:induction false} LatestUse(log: seq<ReplayFact>, key: Key) returns (i: nat)
    requires Uses(log, key) >= 1
    ensures i < |log| && log[i].cacheKey == key && Uses(log[..i], key) == Uses(log, key) - 1
  {
    if Last(log).cacheKey == key {
      i := |log| - 1;
      assert log[..i] == Init(log);
    } else {
      i := LatestUse(Init(log), key);
      assert Init(log)[..i] == log[..i];
    }
  }

  /** With one use before it, what hits in a cache hits in a roomier one. */
  lemma SecondUseKept(log: seq<ReplayFact>, f: ReplayFact, sc: CachingScenario, wide: CachingScenario)
    requires Uses(log, f.cacheKey) == 1 && Chronological(log + [f]) && Roomier(sc, wide) && IsHit(log, f, sc)
    ensures IsHit(log, f, wide)
  {
    var key := f.cacheKey;
    FillExists(log, key, sc);
    FillExists(log, key, wide);
    assert (log + [f])[|log|] == f && (log + [f])[|log| - 1] == Last(log);
    assert Chronological(log) by {
      assert forall i :: 0 <= i < |log| ==> (log + [f])[i] == log[i];
    }
    OneUseOneFill(log, key, sc);
    OneUseOneFill(log, key, wide);
    WideStaysAhead(log, key, sc, wide);
  }

  lemma OneUseBefore(log: seq<ReplayFact>, n: nat)
    requires UsedTwiceAtMost(log) && n < |log| && log[n].cacheKey != NO_KEY && log[n].cacheKey in Keys(log[..n])
    ensures Uses(log[..n], log[n].cacheKey) == 1
  {
    var before, key := log[..n], log[n].cacheKey;
    UnusedNotKept(before, key);
    var i := LatestUse(before, key);
    if Uses(before, key) > 1 {
      var h := LatestUse(before[..i], key);
    }
  }

  lemma ThreeInARow(log: seq<ReplayFact>) returns (h: nat, i: nat, j: nat)
    requires !UsedTwiceAtMost(log)
    ensures InARow(log, h, i, j)
  {
    var x: nat, y: nat, z: nat :| x < y < z < |log| && log[x].cacheKey == log[y].cacheKey == log[z].cacheKey != NO_KEY;
    j := z;
    assert log[..z][y].cacheKey == log[z].cacheKey;
    i := LastUseBefore(log, j);
    assert i >= y && log[..i][x].cacheKey == log[i].cacheKey;
    h := LastUseBefore(log, i);
  }

  /** Hits are kept one by one exactly if no key is used three times. */
  lemma HitsKeptIff(log: seq<ReplayFact>)
    ensures HitsKept(log) <==> UsedTwiceAtMost(log)
  {
    if UsedTwiceAtMost(log) {
      forall retimed: seq<ReplayFact>, sc: CachingScenario, wide: CachingScenario, n: nat
        | SameTraffic(log, retimed) && Chronological(retimed) && Roomier(sc, wide) && n < |retimed|
          && IsHit(retimed[..n], retimed[n], sc)
        ensures IsHit(retimed[..n], retimed[n], wide)
      {
        OneUseBefore(retimed, n);
        assert forall i :: 0 <= i <= n ==> (retimed[..n] + [retimed[n]])[i] == retimed[i];
        SecondUseKept(retimed[..n], retimed[n], sc, wide);
      }
    } else {
      var h, i, j := ThreeInARow(log);
      var r := Retimed(log, h, j);
      assert r[..|log|] == r && SameTraffic(log, r) && Roomier(NARROW, WIDE);
      WhoHits(log, h, i, j, j);
    }
  }
}
