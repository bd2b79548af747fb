/**
 The scheduler's measurement checks (internal/measure/runner.go).  The observed
 windows hang on applied_at and not on the clock, so when the ticks come does
 not show in a final record.
 */
module MeasureRunner {
  import opened Prelude
  import opened Calendar
  import opened Measure
  import opened MeasurementStore
  import opened PolicyStore

  const INTERIM_WINDOW_DAYS := 7
  const FINAL_WINDOW_DAYS := 14

  /** A row of requests, as PeriodStats reads it; recorded costs are not negative. */
  datatype Served = Served(app: nat, startedAt: int, ok: bool, costMicro: nat)

  function InPeriod(r: Served, app: nat, since: int, until: int): bool {
    r.app == app && since <= r.startedAt < until && r.ok
  }

  function CountIn(rows: seq<Served>, app: nat, since: int, until: int): nat {
    if rows == [] then 0
    else CountIn(Init(rows), app, since, until) + (if InPeriod(Last(rows), app, since, until) then 1 else 0)
  }

  function CostIn(rows: seq<Served>, app: nat, since: int, until: int): nat {
    if rows == [] then 0
    else CostIn(Init(rows), app, since, until) + (if InPeriod(Last(rows), app, since, until) then Last(rows).costMicro else 0)
  }

  /** The check of one window: stats, comparison, confound, verdict. */
  function Observe(m: Measurement, days: int, served: seq<Served>, history: seq<HistoryEntry>): Observation {
    var end := m.appliedAt + days * DAY;
    var requests, cost := CountIn(served, m.app, m.appliedAt, end), CostIn(served, m.app, m.appliedAt, end);
    var comparison := Compare(m.baselineCostPer1k, cost, requests);
    var (verdict, reason) := DetermineVerdict(m.expectedPct, comparison.actualPct, requests, m.baselineRequests,
                                              Changed(history, m.policyVersion, end));
    Observation(m.appliedAt, end, requests, cost, comparison, verdict, reason)
  }

  function AfterInterim(m: Measurement, served: seq<Served>, history: seq<HistoryEntry>): Measurement {
    m.(observed := Some(Observe(m, INTERIM_WINDOW_DAYS, served, history)), status := Interim)
  }

  function AfterFinal(m: Measurement, served: seq<Served>, history: seq<HistoryEntry>, now: int): Measurement {
    m.(observed := Some(Observe(m, FINAL_WINDOW_DAYS, served, history)), status := Final, finalizedAt := Some(now))
  }

  /** What a tick at `now` makes of one measurement. */
  function Ticked(m: Measurement, served: seq<Served>, history: seq<HistoryEntry>, now: int): Measurement {
    if !Pending(m, now) then m
    else
      var m' := if m.status.Collecting? && now >= m.appliedAt + INTERIM_WINDOW_DAYS * DAY
                then AfterInterim(m, served, history) else m;
      if m'.status.Interim? && now >= m.appliedAt + FINAL_WINDOW_DAYS * DAY
      then AfterFinal(m', served, history, now) else m'
  }

  /** When a tick does what, in seconds: from 7 days after the apply the interim
      check of those 7 days, from 14 days the final one of the 14. */
  lemma TickTimes(m: Measurement, served: seq<Served>, history: seq<HistoryEntry>, now: int)
    ensures var t, age := Ticked(m, served, history, now), now - m.appliedAt;
            && (m.status in {Final, Withdrawn} || age < 604800 || (m.status == Interim && age < 1209600) ==> t == m)
            && (m.status == Collecting && 604800 <= age < 1209600 ==>
                  t.status == Interim && t.finalizedAt == m.finalizedAt && Covers(t, 604800, served))
            && (m.status in {Collecting, Interim} && age >= 1209600 ==>
                  t.status == Final && t.finalizedAt == Some(now) && Covers(t, 1209600, served))
  {
  }

  /** The measurement has observed that many seconds from its apply. */
  ghost predicate Covers(m: Measurement, seconds: int, served: seq<Served>) {
    && m.observed.Some?
    && var seen := m.observed.value;
       && seen.start == m.appliedAt && seen.end == m.appliedAt + seconds
       && seen.requests == CountIn(served, m.app, m.appliedAt, m.appliedAt + seconds)
       && seen.costMicro == CostIn(served, m.app, m.appliedAt, m.appliedAt + seconds)
  }

  function CostOf(rows: seq<Served>): nat {
    if rows == [] then 0 else CostOf(Init(rows)) + Last(rows).costMicro
  }

  /** What a period counts: the successful requests of the application from its
      first instant up to but not at its last. */
  lemma {:induction false} PeriodMeaning(rows: seq<Served>, app: nat, since: int, until: int)
    returns (counted: seq<Served>, at: seq<nat>)
    ensures Picks(rows, counted, at)
    ensures forall i: nat :: i in at <==>
              i < |rows| && rows[i].app == app && rows[i].ok && since <= rows[i].startedAt < until
    ensures CountIn(rows, app, since, until) == |counted| && CostIn(rows, app, since, until) == CostOf(counted)
  {
    counted, at := [], [];
    if rows != [] {
      counted, at := PeriodMeaning(Init(rows), app, since, until);
      PicksOn(Init(rows), counted, at, Last(rows));
      assert rows == Init(rows) + [Last(rows)];
      if InPeriod(Last(rows), app, since, until) {
        assert Init(counted + [Last(rows)]) == counted;
        counted, at := counted + [Last(rows)], at + [|rows| - 1];
      }
    }
  }

  class Requests {
    var rows: seq<Served>

    constructor ()
      ensures rows == []
    {
      rows := [];
    }

    method PeriodStats(app: nat, since: int, until: int) returns (requests: int, costMicro: int)
      ensures requests == CountIn(rows, app, since, until) && costMicro == CostIn(rows, app, since, until)
    {
      requests, costMicro := 0, 0;
      for i := 0 to |rows|
        invariant requests == CountIn(rows[..i], app, since, until)
        invariant costMicro == CostIn(rows[..i], app, since, until)
      {
        assert Init(rows[..i + 1]) == rows[..i];
        if InPeriod(rows[i], app, since, until) {
          requests, costMicro := requests + 1, costMicro + rows[i].costMicro;
        }
      }
      assert rows[..|rows|] == rows;
    }
  }

  class Runner {
    const measurements: Measurements
    const requests: Requests
    const policies: Store

    constructor (measurements: Measurements, requests: Requests, policies: Store)
      ensures this.measurements == measurements && this.requests == requests && this.policies == policies
    {
      this.measurements, this.requests, this.policies := measurements, requests, policies;
    }

    ghost function HistoryOf(m: Measurement): seq<HistoryEntry>
      reads policies
    {
      policies.LogOf(m.app).history
    }

    /** check, for the window of `days`. */
    method Check(m: Measurement, days: int) returns (seen: Observation)
      ensures seen == Observe(m, days, requests.rows, HistoryOf(m))
    {
      var end := m.appliedAt + days * DAY;
      var count, cost := requests.PeriodStats(m.app, m.appliedAt, end);
      var comparison := Compare(m.baselineCostPer1k, cost, count);
      var confound := policies.ChangedSince(m.app, m.policyVersion, end);
      var (verdict, reason) := DetermineVerdict(m.expectedPct, comparison.actualPct, count, m.baselineRequests, confound);
      seen := Observation(m.appliedAt, end, count, cost, comparison, verdict, reason);
    }

    /** The loop body: interim if due, then the reloaded row's final if due. */
    method Advance(id: MeasID, m: Measurement, now: int)
      requires id in measurements.rows && measurements.rows[id] == m && Pending(m, now)
      modifies measurements
      ensures measurements.rows == old(measurements.rows)[id := Ticked(m, requests.rows, HistoryOf(m), now)]
    {
      if m.status.Collecting? && now >= m.appliedAt + INTERIM_WINDOW_DAYS * DAY {
        var seen := Check(m, INTERIM_WINDOW_DAYS);
        var _ := measurements.RecordInterim(id, seen);
      }
      var current := measurements.Get(m.org, id);
      if current.Some? && current.value.status.Interim? && now >= m.appliedAt + FINAL_WINDOW_DAYS * DAY {
        var seen := Check(current.value, FINAL_WINDOW_DAYS);
        var _ := measurements.RecordFinal(id, seen, now);
      }
    }

    /** Run: every row advances by exactly one tick. */
    method Run(now: int)
      modifies measurements
      ensures measurements.rows.Keys == old(measurements.rows).Keys
      ensures forall id :: id in measurements.rows ==>
                measurements.rows[id] == Ticked(old(measurements.rows)[id], requests.rows, HistoryOf(old(measurements.rows)[id]), now)
    {
      ghost var before := measurements.rows;
      var ids := measurements.PendingIDs(now);
      for i := 0 to |ids|
        invariant measurements.rows.Keys == before.Keys
        invariant forall j :: i <= j < |ids| ==> measurements.rows[ids[j]] == before[ids[j]]
        invariant forall id :: id in before && id !in ids[i..] ==>
                    measurements.rows[id] == Ticked(before[id], requests.rows, HistoryOf(before[id]), now)
      {
        assert ids[i] in ids;
        Advance(ids[i], measurements.rows[ids[i]], now);
        assert ids[i..] == [ids[i]] + ids[i + 1..];
      }
    }
  }

  // ---------------------------------------------------------------- schedules

  /** A tick and the tables it sees. */
  datatype Tick = Tick(now: int, served: seq<Served>, history: seq<HistoryEntry>)

  function Follow(m: Measurement, ticks: seq<Tick>): Measurement {
    if ticks == [] then m
    else Ticked(Follow(m, Init(ticks)), Last(ticks).served, Last(ticks).history, Last(ticks).now)
  }

  function Due(m: Measurement): int { m.appliedAt + FINAL_WINDOW_DAYS * DAY }

  /** Every tick past the final deadline reads the same window. */
  ghost predicate Settled(m: Measurement, ticks: seq<Tick>, seen: Observation) {
    forall i :: 0 <= i < |ticks| && ticks[i].now >= Due(m) ==>
      Observe(m, FINAL_WINDOW_DAYS, ticks[i].served, ticks[i].history) == seen
  }

  ghost predicate Reached(m: Measurement, ticks: seq<Tick>) {
    exists i :: 0 <= i < |ticks| && ticks[i].now >= Due(m)
  }

  /** Before the deadline nothing is final. */
  lemma {:induction false} NotYetFinal(m: Measurement, ticks: seq<Tick>)
    requires m.status.Collecting? && !Reached(m, ticks)
    ensures var n := Follow(m, ticks); SameMeasurement(m, n) && (n.status.Collecting? || n.status.Interim?)
  {
    if ticks != [] {
      NotYetFinal(m, Init(ticks));
    }
  }

  /** The first tick at or past the deadline. */
  ghost function FirstDue(m: Measurement, ticks: seq<Tick>): Tick
    requires Reached(m, ticks)
  {
    if Reached(m, Init(ticks)) then FirstDue(m, Init(ticks)) else Last(ticks)
  }

  /** What a tick finds in the final window. */
  function Window(m: Measurement, t: Tick): Observation {
    Observe(m, FINAL_WINDOW_DAYS, t.served, t.history)
  }

  /** That tick makes the record final, with what it finds, and no later tick
      changes it. */
  lemma {:induction false} FirstDueDecides(m: Measurement, ticks: seq<Tick>)
    requires m.status.Collecting? && Reached(m, ticks)
    ensures var t := FirstDue(m, ticks);
            Follow(m, ticks) == m.(observed := Some(Window(m, t)), status := Final, finalizedAt := Some(t.now))
  {
    if Reached(m, Init(ticks)) {
      FirstDueDecides(m, Init(ticks));
    } else {
      NotYetFinal(m, Init(ticks));
      var n, t := Follow(m, Init(ticks)), Last(ticks);
    }
  }

  lemma {:induction false} FirstDueIsATick(m: Measurement, ticks: seq<Tick>)
    requires Reached(m, ticks)
    ensures FirstDue(m, ticks) in ticks && FirstDue(m, ticks).now >= Due(m)
  {
    if Reached(m, Init(ticks)) {
      FirstDueIsATick(m, Init(ticks));
    }
  }

  /** After any schedule the record is final exactly if the deadline was reached,
      and then it is the observation of the fixed window. */
  lemma ScheduleOutcome(m: Measurement, ticks: seq<Tick>, seen: Observation)
    requires m.status.Collecting? && Settled(m, ticks, seen)
    ensures var n := Follow(m, ticks);
            && SameMeasurement(m, n) && !n.status.Withdrawn?
            && (n.status.Final? <==> Reached(m, ticks))
            && (n.status.Final? ==> n.observed == Some(seen))
  {
    if Reached(m, ticks) {
      FirstDueDecides(m, ticks);
      FirstDueIsATick(m, ticks);
    } else {
      NotYetFinal(m, ticks);
    }
  }

  /** Two schedules that both reach +14 days, one late tick or many prompt ones,
      end in the same record but for when it was finalized. */
  lemma VerdictIndependentOfSchedule(m: Measurement, a: seq<Tick>, b: seq<Tick>, seen: Observation)
    requires m.status.Collecting? && Settled(m, a, seen) && Settled(m, b, seen)
    requires Reached(m, a) && Reached(m, b)
    ensures Follow(m, a).(finalizedAt := None) == Follow(m, b).(finalizedAt := None)
    ensures Follow(m, a).status.Final?
  {
    ScheduleOutcome(m, a, seen);
    ScheduleOutcome(m, b, seen);
  }

  // ---------------------------------------------------------------- which late rows matter

  lemma {:induction false} StatsConcat(a: seq<Served>, b: seq<Served>, app: AppID, since: int, until: int)
    ensures CountIn(a + b, app, since, until) == CountIn(a, app, since, until) + CountIn(b, app, since, until)
    ensures CostIn(a + b, app, since, until) == CostIn(a, app, since, until) + CostIn(b, app, since, until)
  {
    if b == [] {
      assert a + b == a;
    } else {
      assert Init(a + b) == a + Init(b) && Last(a + b) == Last(b);
      StatsConcat(a, Init(b), app, since, until);
    }
  }

  ghost predicate SomeIn(rows: seq<Served>, app: AppID, since: int, until: int) {
    exists i :: 0 <= i < |rows| && InPeriod(rows[i], app, since, until)
  }

  lemma {:induction false} NoneCountsNothing(rows: seq<Served>, app: AppID, since: int, until: int)
    ensures CountIn(rows, app, since, until) == 0 <==> !SomeIn(rows, app, since, until)
    ensures !SomeIn(rows, app, since, until) ==> CostIn(rows, app, since, until) == 0
  {
    if rows != [] {
      NoneCountsNothing(Init(rows), app, since, until);
      assert forall i :: 0 <= i < |Init(rows)| ==> Init(rows)[i] == rows[i];
      assert rows[|rows| - 1] == Last(rows);
    }
  }

  lemma ChangedConcat(a: seq<HistoryEntry>, b: seq<HistoryEntry>, version: int, before: int)
    ensures Changed(a + b, version, before) <==> Changed(a, version, before) || Changed(b, version, before)
  {
    assert forall i :: 0 <= i < |a| ==> (a + b)[i] == a[i];
    assert forall i :: 0 <= i < |b| ==> (a + b)[|a| + i] == b[i];
  }

  /** More rows leave the window as it was exactly if no request among them falls
      inside it and none of the changes is the first to confound it. */
  lemma WindowSettlesIff(m: Measurement, served: seq<Served>, more: seq<Served>, history: seq<HistoryEntry>,
                         later: seq<HistoryEntry>)
    ensures Observe(m, FINAL_WINDOW_DAYS, served + more, history + later) == Observe(m, FINAL_WINDOW_DAYS, served, history)
            <==> && !SomeIn(more, m.app, m.appliedAt, Due(m))
                 && (Changed(later, m.policyVersion, Due(m)) ==> Changed(history, m.policyVersion, Due(m)))
  {
    StatsConcat(served, more, m.app, m.appliedAt, Due(m));
    NoneCountsNothing(more, m.app, m.appliedAt, Due(m));
    ChangedConcat(history, later, m.policyVersion, Due(m));
  }

  /** Two schedules that reach the deadline end in the same record exactly if
      their first due ticks find the same. */
  lemma SchedulesAgreeIff(m: Measurement, a: seq<Tick>, b: seq<Tick>)
    requires m.status.Collecting? && Reached(m, a) && Reached(m, b)
    ensures Follow(m, a).(finalizedAt := None) == Follow(m, b).(finalizedAt := None)
            <==> Window(m, FirstDue(m, a)) == Window(m, FirstDue(m, b))
  {
    FirstDueDecides(m, a);
    FirstDueDecides(m, b);
  }

  /** So a prompt and a late schedule agree exactly if no row written between
      their first due ticks falls inside the window or newly confounds it. */
  lemma LateRowsSplitIff(m: Measurement, a: seq<Tick>, b: seq<Tick>, more: seq<Served>, later: seq<HistoryEntry>)
    requires m.status.Collecting? && Reached(m, a) && Reached(m, b)
    requires FirstDue(m, b).served == FirstDue(m, a).served + more && FirstDue(m, b).history == FirstDue(m, a).history + later
    ensures Follow(m, a).(finalizedAt := None) == Follow(m, b).(finalizedAt := None)
            <==> && !SomeIn(more, m.app, m.appliedAt, Due(m))
                 && (Changed(later, m.policyVersion, Due(m)) ==> Changed(FirstDue(m, a).history, m.policyVersion, Due(m)))
  {
    SchedulesAgreeIff(m, a, b);
    WindowSettlesIff(m, FirstDue(m, a).served, more, FirstDue(m, a).history, later);
  }

  /** In particular rows and versions dated at or past the deadline never matter. */
  lemma WindowSettles(m: Measurement, served: seq<Served>, more: seq<Served>, history: seq<HistoryEntry>,
                      later: seq<HistoryEntry>)
    requires forall i :: 0 <= i < |more| ==> more[i].startedAt >= Due(m)
    requires forall i :: 0 <= i < |later| ==> later[i].changedAt >= Due(m)
    ensures Observe(m, FINAL_WINDOW_DAYS, served + more, history + later) == Observe(m, FINAL_WINDOW_DAYS, served, history)
  {
    WindowSettlesIff(m, served, more, history, later);
  }

  function Rank(s: MeasStatus): int {
    match s
    case Collecting => 0
    case Interim => 1
    case Final => 2
    case Withdrawn => 3
  }

  /** A tick only moves a status forward, and leaves final and reverted rows alone. */
  lemma TickMovesForward(m: Measurement, served: seq<Served>, history: seq<HistoryEntry>, now: int)
    ensures var n := Ticked(m, served, history, now);
            && Rank(m.status) <= Rank(n.status)
            && (m.status.Final? || m.status.Withdrawn? ==> n == m)
            && (n.status.Withdrawn? ==> m.status.Withdrawn?)
  {
  }

  /** The smallest example: one row written after the deadline for a time inside
      the window.  A prompt tick misses it, a late one counts it. */
  lemma LateRowSplitsSchedules() returns (m: Measurement, a: seq<Tick>, b: seq<Tick>)
    ensures m.status.Collecting? && Reached(m, a) && Reached(m, b)
    ensures Follow(m, a).observed != Follow(m, b).observed
  {
    m := Measurement(0, 0, 0, None, 1, 0, 0, 0, 0, 0, 0.0, None, Collecting, None);
    var row := Served(0, 5, true, 1);
    a, b := [Tick(Due(m), [], [])], [Tick(Due(m), [row], [])];
    assert Init(a) == [] && Init(b) == [] && a[0].now >= Due(m) && b[0].now >= Due(m);
    assert [] + [row] == [row];
    assert InPeriod([row][0], 0, 0, Due(m));
    FirstDueDecides(m, a);
    FirstDueDecides(m, b);
    LateRowsSplitIff(m, a, b, [row], []);
  }
}
