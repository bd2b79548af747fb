/** The live budget counter: a shared Redis value per application and period
    bucket, each write pushing its expiry out by periodTTL. */
module BudgetGuard {
  import opened Prelude
  import opened Calendar
  import opened Budget

  datatype CounterKey = CounterKey(appID: nat, period: Period, bucket: nat)
  datatype Counter = Counter(value: int, expiresAt: Instant)

  function BudgetKey(appID: nat, period: Period, now: Instant): CounterKey {
    CounterKey(appID, period, PeriodBucket(period, now))
  }

  class Guard {
    var counters: map<CounterKey, Counter>

    constructor ()
      ensures counters == map[]
    {
      counters := map[];
    }

    /** What Redis answers: an expired or absent counter reads as 0. */
    function Balance(key: CounterKey, now: Instant): int
      reads this
    {
      if key in counters && now < counters[key].expiresAt then counters[key].value else 0
    }

    /** Blocked; `up` is whether Redis answers, and a failure allows. */
    method Blocked(appID: nat, doc: Option<BudgetPolicy>, now: Instant, up: bool) returns (blocked: bool)
      ensures blocked <==>
                && up && doc.Some? && doc.value.enabled && doc.value.mode == Hard
                && var key := BudgetKey(appID, doc.value.period, now);
                   doc.value.limitMicro <= if key in counters && now < counters[key].expiresAt then counters[key].value else 0
    {
      if doc.None? || !doc.value.enabled {
        return false;
      }
      if !up {
        return false;
      }
      var spent := Balance(BudgetKey(appID, doc.value.period, now), now);
      blocked := EvaluateBudget(doc, spent);
    }

    /** RecordSpend: a positive cost is added and the expiry renewed; anything else is dropped. */
    method RecordSpend(appID: nat, period: Period, costMicro: int, now: Instant, up: bool)
      modifies this
      ensures var key := BudgetKey(appID, period, now);
              var spent := if key in old(counters) && now < old(counters)[key].expiresAt then old(counters)[key].value else 0;
              var lifetime := if period.Monthly? then 32 * 86400 else 25 * 3600;
              counters == if costMicro <= 0 || !up then old(counters)
                          else old(counters)[key := Counter(spent + costMicro, now + lifetime)]
    {
      if costMicro <= 0 || !up {
        return;
      }
      var key := BudgetKey(appID, period, now);
      counters := counters[key := Counter(Balance(key, now) + costMicro, now + PeriodTTL(period))];
    }
  }

  // ---------------------------------------------------------------- agreement with the replay

  /** The log as the guard accounts for it: a cost below zero is not recorded. */
  ghost function Clamped(log: seq<Spend>): seq<Spend> {
    seq(|log|, i requires 0 <= i < |log| => Spend(log[i].startedAt, Max(log[i].costMicro, 0)))
  }

  /** The counters of one application hold what the replay would have spent,
      each written somewhere inside its own bucket. */
  ghost predicate CountersMatch(counters: map<CounterKey, Counter>, appID: nat, log: seq<Spend>, sc: BudgetScenario) {
    forall b: nat :: CounterMatches(counters, CounterKey(appID, sc.period, b), log, sc)
  }

  ghost predicate CounterMatches(counters: map<CounterKey, Counter>, key: CounterKey, log: seq<Spend>,
                                 sc: BudgetScenario) {
    CounterHolds(counters, key, Spent(log, sc, key.bucket))
  }

  /** The counter's value is `spent`, a missing one standing for 0. */
  ghost predicate CounterHolds(counters: map<CounterKey, Counter>, key: CounterKey, spent: int) {
    if key in counters then counters[key].value == spent && WrittenInBucket(counters[key], key) else spent == 0
  }

  ghost predicate WrittenInBucket(c: Counter, key: CounterKey) {
    exists t: Instant :: PeriodBucket(key.period, t) == key.bucket && c.expiresAt == t + PeriodTTL(key.period)
  }

  /** So inside its bucket a counter never reads as expired. */
  lemma AliveInBucket(c: Counter, key: CounterKey, now: Instant)
    requires WrittenInBucket(c, key) && PeriodBucket(key.period, now) == key.bucket
    ensures now < c.expiresAt
  {
    var t: Instant :| PeriodBucket(key.period, t) == key.bucket && c.expiresAt == t + PeriodTTL(key.period);
    TTLOutlastsBucket(key.period, t, now);
  }

  /** One request from its check to its record; `log` is what came before. */
  method Serve(guard: Guard, appID: nat, doc: BudgetPolicy, f: Spend, finished: Instant, ghost log: seq<Spend>)
    returns (blocked: bool)
    requires doc.enabled && doc.mode.Hard?
    requires PeriodBucket(doc.period, finished) == PeriodBucket(doc.period, f.startedAt)
    requires CountersMatch(guard.counters, appID, log, BudgetScenario(doc.limitMicro, doc.period))
    modifies guard
    ensures blocked == Refused(log, f, BudgetScenario(doc.limitMicro, doc.period))
    ensures CountersMatch(guard.counters, appID, log + [Spend(f.startedAt, Max(f.costMicro, 0))],
                          BudgetScenario(doc.limitMicro, doc.period))
  {
    ghost var sc, before := BudgetScenario(doc.limitMicro, doc.period), guard.counters;
    ghost var key := BudgetKey(appID, doc.period, f.startedAt);
    assert CounterMatches(guard.counters, key, log, sc);
    if key in guard.counters {
      AliveInBucket(guard.counters[key], key, f.startedAt);
      AliveInBucket(guard.counters[key], key, finished);
    }
    assert guard.Balance(key, f.startedAt) == guard.Balance(key, finished) == Spent(log, sc, key.bucket);
    blocked := guard.Blocked(appID, Some(doc), f.startedAt, true);
    if !blocked {
      guard.RecordSpend(appID, doc.period, f.costMicro, finished, true);
    }
  }

  /** One request at a time, each finishing in the period it started in, the
      live guard refuses exactly the requests the simulation refuses. */
  method ReplayThroughGuard(guard: Guard, appID: nat, doc: BudgetPolicy, requests: seq<Spend>, finished: seq<Instant>)
    returns (verdicts: seq<bool>)
    requires doc.enabled && doc.mode.Hard? && |finished| == |requests|
    requires forall i :: 0 <= i < |requests| ==>
               PeriodBucket(doc.period, finished[i]) == PeriodBucket(doc.period, requests[i].startedAt)
    requires forall key :: key in guard.counters ==> key.appID != appID || key.period != doc.period
    modifies guard
    ensures |verdicts| == |requests|
    ensures forall i :: 0 <= i < |requests| ==>
              verdicts[i] == RefusedAt(Clamped(requests), i, BudgetScenario(doc.limitMicro, doc.period))
  {
    ghost var sc, clamped := BudgetScenario(doc.limitMicro, doc.period), Clamped(requests);
    verdicts := [];
    for i := 0 to |requests|
      invariant |verdicts| == i
      invariant forall j :: 0 <= j < i ==> verdicts[j] == RefusedAt(clamped, j, sc)
      invariant CountersMatch(guard.counters, appID, clamped[..i], sc)
    {
      var blocked := Serve(guard, appID, doc, requests[i], finished[i], clamped[..i]);
      verdicts := verdicts + [blocked];
      assert clamped[..i + 1] == clamped[..i] + [clamped[i]];
    }
  }

  // ---------------------------------------------------------------- requests in flight together

  /** Several requests may sit between their check and their record.  `spend`
      is the counter per bucket. */
  datatype Traffic = Traffic(now: Instant, spend: map<nat, int>, inFlight: nat)

  datatype Event =
    | Advance(to: Instant)
    | Check
    | Finish(costMicro: int)

  function SpendIn(s: Traffic, bucket: nat): int {
    if bucket in s.spend then s.spend[bucket] else 0
  }

  function Next(s: Traffic, e: Event, sc: BudgetScenario): Traffic {
    var bucket := PeriodBucket(sc.period, s.now);
    match e
    case Advance(to) => if to < s.now then s else s.(now := to)
    case Check =>
      if EvaluateBudget(Some(BudgetPolicy(true, sc.period, sc.limitMicro, Hard)), SpendIn(s, bucket)) then s
      else s.(inFlight := s.inFlight + 1)
    case Finish(cost) =>
      if s.inFlight == 0 then s
      else s.(inFlight := s.inFlight - 1,
              spend := if cost <= 0 then s.spend else s.spend[bucket := SpendIn(s, bucket) + cost])
  }

  function Run(events: seq<Event>, sc: BudgetScenario): Traffic {
    if events == [] then Traffic(0, map[], 0)
    else Next(Run(Init(events), sc), Last(events), sc)
  }

  /** The counters of one application are the spend of the model, bucket by bucket. */
  ghost predicate CountersHold(counters: map<CounterKey, Counter>, appID: nat, s: Traffic, sc: BudgetScenario) {
    forall b: nat {:trigger CounterKey(appID, sc.period, b)} {:trigger SpendIn(s, b)} ::
      CounterHolds(counters, CounterKey(appID, sc.period, b), SpendIn(s, b))
  }

  /** In the current bucket the live counter is the model's spend: it never
      reads as expired there. */
  lemma LiveCounterIsSpend(guard: Guard, appID: nat, s: Traffic, sc: BudgetScenario)
    requires CountersHold(guard.counters, appID, s, sc)
    ensures guard.Balance(BudgetKey(appID, sc.period, s.now), s.now) == SpendIn(s, PeriodBucket(sc.period, s.now))
  {
    var key := BudgetKey(appID, sc.period, s.now);
    assert CounterHolds(guard.counters, key, SpendIn(s, key.bucket));
    if key in guard.counters {
      AliveInBucket(guard.counters[key], key, s.now);
    }
  }

  /** One event against the live guard: a check asks Blocked, a finish records. */
  method Handle(guard: Guard, appID: nat, doc: BudgetPolicy, e: Event, now: Instant, inFlight: nat, ghost s: Traffic)
    returns (now': Instant, inFlight': nat)
    requires doc.enabled && doc.mode.Hard?
    requires now == s.now && inFlight == s.inFlight
    requires CountersHold(guard.counters, appID, s, BudgetScenario(doc.limitMicro, doc.period))
    modifies guard
    ensures var next := Next(s, e, BudgetScenario(doc.limitMicro, doc.period));
            && now' == next.now && inFlight' == next.inFlight
            && CountersHold(guard.counters, appID, next, BudgetScenario(doc.limitMicro, doc.period))
  {
    ghost var sc := BudgetScenario(doc.limitMicro, doc.period);
    LiveCounterIsSpend(guard, appID, s, sc);
    now', inFlight' := now, inFlight;
    match e
    case Advance(to) =>
      now' := if to < now then now else to;
    case Check =>
      var blocked := guard.Blocked(appID, Some(doc), now, true);
      inFlight' := if blocked then inFlight else inFlight + 1;
    case Finish(cost) =>
      if inFlight > 0 {
        guard.RecordSpend(appID, doc.period, cost, now, true);
        inFlight' := inFlight - 1;
      }
  }

  /** However checks and records interleave, the guard decides and counts as the
      model does, so what is proved of the model's spend holds of its counter. */
  method TrafficThroughGuard(guard: Guard, appID: nat, doc: BudgetPolicy, events: seq<Event>)
    returns (now: Instant, inFlight: nat)
    requires doc.enabled && doc.mode.Hard?
    requires forall key :: key in guard.counters ==> key.appID != appID || key.period != doc.period
    modifies guard
    ensures var s := Run(events, BudgetScenario(doc.limitMicro, doc.period));
            && now == s.now && inFlight == s.inFlight
            && guard.Balance(BudgetKey(appID, doc.period, now), now) == SpendIn(s, PeriodBucket(doc.period, now))
  {
    ghost var sc := BudgetScenario(doc.limitMicro, doc.period);
    now, inFlight := 0, 0;
    for i := 0 to |events|
      invariant now == Run(events[..i], sc).now && inFlight == Run(events[..i], sc).inFlight
      invariant CountersHold(guard.counters, appID, Run(events[..i], sc), sc)
    {
      assert Init(events[..i + 1]) == events[..i];
      now, inFlight := Handle(guard, appID, doc, events[i], now, inFlight, Run(events[..i], sc));
    }
    assert events[..|events|] == events;
    LiveCounterIsSpend(guard, appID, Run(events, sc), sc);
  }

  /** Never more than `c` requests in flight, and no request costs more than `m`. */
  ghost predicate Bounded(events: seq<Event>, sc: BudgetScenario, c: nat, m: nat) {
    && (forall k :: 0 <= k <= |events| ==> Run(events[..k], sc).inFlight <= c)
    && (forall i :: 0 <= i < |events| && events[i].Finish? ==> events[i].costMicro <= m)
  }

  /** With `reserve` kept back for what is in flight, the current bucket stays
      under the bound; past buckets stay under it too, future ones are untouched. */
  ghost predicate RoomFor(s: Traffic, sc: BudgetScenario, bound: int, reserve: int) {
    var current := PeriodBucket(sc.period, s.now);
    forall b: nat ::
      && SpendIn(s, b) < bound
      && (b == current ==> SpendIn(s, b) + reserve < bound)
      && (b > current ==> SpendIn(s, b) == 0)
  }

  ghost predicate Headroom(s: Traffic, sc: BudgetScenario, c: nat, m: nat) {
    RoomFor(s, sc, sc.limitMicro + Times(c, m), Times(s.inFlight, m))
  }

  /** n costs of m each. */
  ghost function Times(n: nat, m: nat): nat {
    if n == 0 then 0 else Times(n - 1, m) + m
  }

  lemma {:induction false} TimesIsProduct(n: nat, m: nat)
    ensures Times(n, m) == n * m
  {
    if n > 0 {
      TimesIsProduct(n - 1, m);
    }
  }

  lemma {:induction false} TimesRises(a: nat, b: nat, m: nat)
    requires a <= b
    ensures Times(a, m) <= Times(b, m)
  {
    if a < b {
      TimesRises(a, b - 1, m);
    }
  }

  lemma AdvanceStep(s: Traffic, to: Instant, sc: BudgetScenario, bound: int, reserve: nat)
    requires RoomFor(s, sc, bound, reserve) && reserve < bound && s.now <= to
    ensures RoomFor(s.(now := to), sc, bound, reserve)
  {
    BucketsRise(sc.period, s.now, to);
    var t := s.(now := to);
    forall b: nat
      ensures SpendIn(t, b) < bound
      ensures b == PeriodBucket(sc.period, to) ==> SpendIn(t, b) + reserve < bound
      ensures b > PeriodBucket(sc.period, to) ==> SpendIn(t, b) == 0
    {
      assert SpendIn(t, b) == SpendIn(s, b);
    }
  }

  lemma CheckStep(s: Traffic, sc: BudgetScenario, bound: int, reserve: nat, most: nat)
    requires RoomFor(s, sc, bound, reserve) && reserve + most + sc.limitMicro <= bound
    requires Next(s, Check, sc) != s
    ensures RoomFor(Next(s, Check, sc), sc, bound, reserve + most)
  {
    forall b: nat ensures SpendIn(Next(s, Check, sc), b) == SpendIn(s, b) {
    }
  }

  lemma FinishStep(s: Traffic, cost: int, sc: BudgetScenario, bound: int, reserve: nat, most: nat)
    requires RoomFor(s, sc, bound, reserve) && s.inFlight > 0 && cost <= most <= reserve
    ensures RoomFor(Next(s, Finish(cost), sc), sc, bound, reserve - most)
  {
    var t, current := Next(s, Finish(cost), sc), PeriodBucket(sc.period, s.now);
    assert SpendIn(s, current) + reserve < bound;
    forall b: nat ensures SpendIn(t, b) == if b == current && cost > 0 then SpendIn(s, b) + cost else SpendIn(s, b) {
    }
  }

  /** One event, with the products of HeadroomStep named: `reserve` before, `reserve'` after. */
  lemma RoomStep(s: Traffic, e: Event, sc: BudgetScenario, bound: int, reserve: nat, reserve': nat, most: nat)
    requires RoomFor(s, sc, bound, reserve) && reserve < bound
    requires var before, after := s.inFlight, Next(s, e, sc).inFlight;
             reserve' == if after > before then reserve + most else if after < before then reserve - most else reserve
    requires reserve' + sc.limitMicro <= bound
    requires e.Finish? ==> e.costMicro <= most
    ensures RoomFor(Next(s, e, sc), sc, bound, reserve')
  {
    if Next(s, e, sc) != s {
      match e
      case Advance(to) => AdvanceStep(s, to, sc, bound, reserve);
      case Check => CheckStep(s, sc, bound, reserve, most);
      case Finish(cost) => FinishStep(s, cost, sc, bound, reserve, most);
    }
  }

  lemma HeadroomStep(s: Traffic, e: Event, sc: BudgetScenario, c: nat, m: nat)
    requires sc.limitMicro > 0 && Headroom(s, sc, c, m) && s.inFlight <= c && Next(s, e, sc).inFlight <= c
    requires e.Finish? ==> e.costMicro <= m
    ensures Headroom(Next(s, e, sc), sc, c, m)
  {
    TimesRises(s.inFlight, c, m);
    TimesRises(Next(s, e, sc).inFlight, c, m);
    RoomStep(s, e, sc, sc.limitMicro + Times(c, m), Times(s.inFlight, m), Times(Next(s, e, sc).inFlight, m), m);
  }

  lemma {:induction false} HeadroomAlways(events: seq<Event>, sc: BudgetScenario, c: nat, m: nat)
    requires sc.limitMicro > 0 && Bounded(events, sc, c, m)
    ensures Headroom(Run(events, sc), sc, c, m)
  {
    assert events[..|events|] == events;
    if events != [] {
      forall k | 0 <= k <= |Init(events)| ensures Run(Init(events)[..k], sc).inFlight <= c {
        assert Init(events)[..k] == events[..k];
      }
      assert events[..|events| - 1] == Init(events);
      HeadroomAlways(Init(events), sc, c, m);
      HeadroomStep(Run(Init(events), sc), Last(events), sc, c, m);
    }
  }

  /** However checks, records and period ends interleave, no period is ever
      overspent by more than one request per concurrent caller. */
  lemma OverspendBounded(events: seq<Event>, sc: BudgetScenario, c: nat, m: nat, bucket: nat)
    requires sc.limitMicro > 0 && Bounded(events, sc, c, m)
    ensures SpendIn(Run(events, sc), bucket) < sc.limitMicro + c * m
  {
    HeadroomAlways(events, sc, c, m);
    TimesIsProduct(c, m);
  }

  /** And the bound is reached: c checks, then c records. */
  lemma OverspendReached(c: nat, m: nat) returns (events: seq<Event>)
    requires c > 0 && m > 0
    ensures var sc := BudgetScenario(1, Daily);
            Bounded(events, sc, c, m) && SpendIn(Run(events, sc), 0) == sc.limitMicro - 1 + c * m
  {
    var sc := BudgetScenario(1, Daily);
    assert DayOf(0) == 0;
    events := [];
    ghost var k := 0;
    while k < c
      invariant 0 <= k <= c && Bounded(events, sc, c, m)
      invariant Run(events, sc) == Traffic(0, map[], k)
    {
      assert Next(Traffic(0, map[], k), Check, sc) == Traffic(0, map[], k + 1);
      events := Extend(events, Check, sc, c, m);
      k := k + 1;
    }
    k := 0;
    while k < c
      invariant 0 <= k <= c && Bounded(events, sc, c, m)
      invariant Run(events, sc).now == 0 && Run(events, sc).inFlight == c - k
      invariant SpendIn(Run(events, sc), 0) == k * m
    {
      events := Extend(events, Finish(m), sc, c, m);
      assert (k + 1) * m == k * m + m;
      k := k + 1;
    }
  }

  lemma Extend(events: seq<Event>, e: Event, sc: BudgetScenario, c: nat, m: nat) returns (longer: seq<Event>)
    requires Bounded(events, sc, c, m) && Next(Run(events, sc), e, sc).inFlight <= c
    requires e.Finish? ==> e.costMicro <= m
    ensures longer == events + [e] && Bounded(longer, sc, c, m)
    ensures Run(longer, sc) == Next(Run(events, sc), e, sc)
  {
    longer := events + [e];
    assert Init(longer) == events;
    forall k | 0 <= k <= |longer| ensures Run(longer[..k], sc).inFlight <= c {
      if k <= |events| {
        assert longer[..k] == events[..k];
      } else {
        assert longer[..k] == longer;
      }
    }
  }
}
