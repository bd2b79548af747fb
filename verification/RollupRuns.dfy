/**
 Whole runs of the rollup scheduler: batches of requests land and the two jobs
 tick in any order.  A day of application_daily is exact precisely when every
 hour of the day was recomputed after its last insert and the day after that.
 */
module RollupRuns {
  import opened Prelude
  import opened Calendar
  import opened RollupTables
  import opened Rollup

  datatype Op =
    | Insert(batch: seq<Request>)
    | HourlyTick(now: Instant)
    | DailyTick(now: Instant)

  function Perform(t: Tables, op: Op): Tables {
    match op
    case Insert(batch) => t.(requests := t.requests + batch)
    case HourlyTick(now) => AfterHourly(t, HourlyWindow(now).0, HourlyWindow(now).1)
    case DailyTick(now) => AfterDaily(t, DailyWindow(now).0, DailyWindow(now).1)
  }

  function Exec(ops: seq<Op>): Tables {
    if ops == [] then Tables([], [], [], []) else Perform(Exec(Init(ops)), Last(ops))
  }

  /** A warehouse driven through the same operations. */
  method Replay(ops: seq<Op>) returns (w: Warehouse)
    ensures fresh(w) && w.Contents() == Exec(ops)
  {
    w := new Warehouse();
    for i := 0 to |ops|
      invariant fresh(w) && w.Contents() == Exec(ops[..i])
    {
      assert Init(ops[..i + 1]) == ops[..i];
      match ops[i] {
        case Insert(batch) =>
          w.InsertBatch(batch);
        case HourlyTick(now) =>
          var _ := w.ComputeHourly(HourlyWindow(now).0, HourlyWindow(now).1);
        case DailyTick(now) =>
          var _ := w.ComputeDaily(DailyWindow(now).0, DailyWindow(now).1);
      }
    }
    assert ops[..|ops|] == ops;
  }

  /** The batch holds a request of this application in this span of time. */
  ghost predicate Touches(batch: seq<Request>, appID: nat, from: int, to: int) {
    exists i :: 0 <= i < |batch| && batch[i].appID == appID && from <= batch[i].startedAt < to
  }

  ghost predicate CoversHour(now: Instant, hour: int) {
    HourlyWindow(now).0 <= hour < HourlyWindow(now).1
  }

  ghost predicate CoversDay(now: Instant, day: int) {
    DailyWindow(now).0 <= day * 86400 < DailyWindow(now).1
  }

  /** The hour was recomputed after its last insert, or never had one. */
  ghost predicate HourClean(ops: seq<Op>, appID: nat, hour: int) {
    if ops == [] then true
    else match Last(ops)
      case Insert(batch) => !Touches(batch, appID, hour, hour + 3600) && HourClean(Init(ops), appID, hour)
      case HourlyTick(now) => CoversHour(now, hour) || HourClean(Init(ops), appID, hour)
      case DailyTick(_) => HourClean(Init(ops), appID, hour)
  }

  /** The first n hours from `from` are clean. */
  ghost predicate HoursClean(ops: seq<Op>, appID: nat, from: int, n: nat) {
    forall i :: 0 <= i < n ==> HourClean(ops, appID, NthHour(from, i))
  }

  function NthHour(from: int, i: int): int { from + i * 3600 }

  /** The day was recomputed when all its hours were clean, and nothing of it
      arrived since. */
  ghost predicate DayClean(ops: seq<Op>, appID: nat, day: int) {
    if ops == [] then true
    else match Last(ops)
      case Insert(batch) => !Touches(batch, appID, day * 86400, (day + 1) * 86400) && DayClean(Init(ops), appID, day)
      case HourlyTick(_) => DayClean(Init(ops), appID, day)
      case DailyTick(now) =>
        if CoversDay(now, day) then HoursClean(Init(ops), appID, day * 86400, 24) else DayClean(Init(ops), appID, day)
  }

  function All(appID: nat): Part { Part(appID, None) }

  /** What the requests themselves add up to. */
  ghost function Truth(t: Tables, column: Column, appID: nat, from: int, to: int): int {
    Total(t.requests, column, All(appID), from, to)
  }

  ghost function HoursSaid(t: Tables, column: Column, appID: nat, from: int, to: int): int {
    Sum(t.hourly, column, All(appID), from, to)
  }

  ghost function DaySaid(t: Tables, column: Column, appID: nat, day: int): int {
    Sum(t.applicationDaily, column, All(appID), day, day + 1)
  }

  ghost predicate HoursTold(t: Tables, column: Column, appID: nat, from: int, to: int, clean: bool) {
    Tells(column, HoursSaid(t, column, appID, from, to), Truth(t, column, appID, from, to), clean)
  }

  ghost predicate DayTold(t: Tables, column: Column, appID: nat, day: int, clean: bool) {
    Tells(column, DaySaid(t, column, appID, day), Truth(t, column, appID, day * 86400, (day + 1) * 86400), clean)
  }

  /** A sum the tables give against the truth: equal if clean, short of requests if not. */
  ghost predicate Tells(column: Column, said: int, truth: int, clean: bool) {
    if clean then said == truth else column.Requests? ==> said < truth
  }

  // ---------------------------------------------------------------- inserts

  lemma {:induction false} TotalConcat(a: seq<Request>, b: seq<Request>, column: Column, who: Part, from: int, to: int)
    ensures Total(a + b, column, who, from, to) == Total(a, column, who, from, to) + Total(b, column, who, from, to)
  {
    if b == [] {
      assert a + b == a;
    } else {
      assert Init(a + b) == a + Init(b) && Last(a + b) == Last(b);
      TotalConcat(a, Init(b), column, who, from, to);
    }
  }

  lemma {:induction false} TotalSplits(requests: seq<Request>, column: Column, who: Part, a: int, b: int, c: int)
    requires a <= b <= c
    ensures Total(requests, column, who, a, c) == Total(requests, column, who, a, b) + Total(requests, column, who, b, c)
  {
    if requests != [] {
      TotalSplits(Init(requests), column, who, a, b, c);
    }
  }

  lemma {:induction false} TouchCounts(batch: seq<Request>, column: Column, appID: nat, from: int, to: int)
    ensures var added := Total(batch, column, All(appID), from, to);
            && (!Touches(batch, appID, from, to) ==> added == 0)
            && (column.Requests? ==> added >= 0)
            && (column.Requests? && Touches(batch, appID, from, to) ==> added > 0)
  {
    if batch != [] {
      TouchCounts(Init(batch), column, appID, from, to);
      var r := Last(batch);
      assert batch[|batch| - 1] == r && forall i :: 0 <= i < |batch| - 1 ==> batch[i] == Init(batch)[i];
    }
  }

  lemma InsertTells(t: Tables, batch: seq<Request>, column: Column, appID: nat, from: int, to: int, said: int,
                    clean: bool)
    requires Tells(column, said, Total(t.requests, column, All(appID), from, to), clean)
    ensures Tells(column, said, Total(t.requests + batch, column, All(appID), from, to),
                  clean && !Touches(batch, appID, from, to))
  {
    TotalConcat(t.requests, batch, column, All(appID), from, to);
    TouchCounts(batch, column, appID, from, to);
  }

  // ---------------------------------------------------------------- hours

  /** An hour of request_rollup_hourly is exact if clean and short if not. */
  lemma {:induction false} HourTells(ops: seq<Op>, column: Column, appID: nat, hour: int)
    requires hour % 3600 == 0
    ensures HoursTold(Exec(ops), column, appID, hour, hour + 3600, HourClean(ops, appID, hour))
  {
    if ops != [] {
      var before := Exec(Init(ops));
      HourTells(Init(ops), column, appID, hour);
      match Last(ops)
      case Insert(batch) =>
        InsertTells(before, batch, column, appID, hour, hour + 3600, HoursSaid(before, column, appID, hour, hour + 3600),
                    HourClean(Init(ops), appID, hour));
      case HourlyTick(now) =>
        HourlyTickSum(before, now, column, appID, hour);
      case DailyTick(now) =>
        DailyTickKeeps(before, now);
    }
  }

  lemma HourlyTickSum(t: Tables, now: Instant, column: Column, appID: nat, hour: int)
    requires hour % 3600 == 0
    ensures var after := Perform(t, HourlyTick(now));
            && after.requests == t.requests
            && HoursSaid(after, column, appID, hour, hour + 3600) ==
                 if CoversHour(now, hour) then Truth(t, column, appID, hour, hour + 3600)
                 else HoursSaid(t, column, appID, hour, hour + 3600)
  {
    var (from, to) := HourlyWindow(now);
    WindowsAligned(now);
    WholeHours(from, to, hour);
    HourlyTickKeeps(t, now);
    SumHourly(t, from, to, column, All(appID), hour, hour + 3600);
    RowsAddUp(t.requests, column, All(appID), hour, hour + 3600);
  }

  lemma WholeHours(from: int, to: int, hour: int)
    requires HourAligned(from, to) && hour % 3600 == 0
    ensures if from <= hour < to then hour + 3600 <= to else hour + 3600 <= from || to <= hour
  {
  }

  /** Neither job touches the other's source. */
  lemma DailyTickKeeps(t: Tables, now: Instant)
    ensures Perform(t, DailyTick(now)).requests == t.requests && Perform(t, DailyTick(now)).hourly == t.hourly
  {
    WindowsAligned(now);
    DailyRecompute(t, DailyWindow(now).0, DailyWindow(now).1);
  }

  lemma HourlyTickKeeps(t: Tables, now: Instant)
    ensures Perform(t, HourlyTick(now)).requests == t.requests
    ensures Perform(t, HourlyTick(now)).applicationDaily == t.applicationDaily
  {
    WindowsAligned(now);
    HourlyRecompute(t, HourlyWindow(now).0, HourlyWindow(now).1);
  }

  lemma {:induction false} EmptySpan(table: Table, column: Column, who: Part, at: int)
    ensures Sum(table, column, who, at, at) == 0
  {
    if table != [] {
      EmptySpan(Init(table), column, who, at);
    }
  }

  lemma {:induction false} NoTimeNoTotal(requests: seq<Request>, column: Column, who: Part, at: int)
    ensures Total(requests, column, who, at, at) == 0
  {
    if requests != [] {
      NoTimeNoTotal(Init(requests), column, who, at);
    }
  }

  lemma NoHoursTell(t: Tables, column: Column, appID: nat, from: int)
    ensures HoursTold(t, column, appID, from, from, true)
  {
    EmptySpan(t.hourly, column, All(appID), from);
    NoTimeNoTotal(t.requests, column, All(appID), from);
  }

  /** n hours together: exact if all are clean, short if any is not. */
  lemma {:induction false} HoursTell(ops: seq<Op>, column: Column, appID: nat, from: int, n: nat)
    requires from % 3600 == 0
    ensures HoursTold(Exec(ops), column, appID, from, NthHour(from, n), HoursClean(ops, appID, from, n))
  {
    if n == 0 {
      NoHoursTell(Exec(ops), column, appID, from);
    } else {
      var last := NthHour(from, n - 1);
      HoursTell(ops, column, appID, from, n - 1);
      NthHourAligned(from, n - 1);
      HourTells(ops, column, appID, last);
      LastHourTells(Exec(ops), column, appID, from, last, HoursClean(ops, appID, from, n - 1), HourClean(ops, appID, last));
      OneMoreHour(ops, appID, from, n);
    }
  }

  lemma NthHourAligned(from: int, i: nat)
    requires from % 3600 == 0
    ensures NthHour(from, i) % 3600 == 0 && from <= NthHour(from, i)
  {
  }

  lemma LastHourTells(t: Tables, column: Column, appID: nat, from: int, last: int, clean: bool, clean': bool)
    requires from <= last && HoursTold(t, column, appID, from, last, clean)
    requires HoursTold(t, column, appID, last, last + 3600, clean')
    ensures HoursTold(t, column, appID, from, last + 3600, clean && clean')
  {
    SumSplits(t.hourly, column, All(appID), from, last, last + 3600);
    TotalSplits(t.requests, column, All(appID), from, last, last + 3600);
  }

  lemma OneMoreHour(ops: seq<Op>, appID: nat, from: int, n: nat)
    requires n > 0
    ensures HoursClean(ops, appID, from, n)
            <==> HoursClean(ops, appID, from, n - 1) && HourClean(ops, appID, NthHour(from, n - 1))
    ensures NthHour(from, n) == NthHour(from, n - 1) + 3600
  {
  }

  // ---------------------------------------------------------------- days

  lemma DayHours(day: int)
    ensures day * 86400 % 3600 == 0 && NthHour(day * 86400, 24) == (day + 1) * 86400
  {
    DayStartsAnHour(day);
  }

  /** A day of application_daily is exact if clean and short if not. */
  lemma {:induction false} DayTells(ops: seq<Op>, column: Column, appID: nat, day: int)
    ensures DayTold(Exec(ops), column, appID, day, DayClean(ops, appID, day))
  {
    if ops != [] {
      var before := Exec(Init(ops));
      DayTells(Init(ops), column, appID, day);
      match Last(ops)
      case Insert(batch) =>
        InsertTells(before, batch, column, appID, day * 86400, (day + 1) * 86400, DaySaid(before, column, appID, day),
                    DayClean(Init(ops), appID, day));
      case HourlyTick(now) =>
        HourlyTickKeeps(before, now);
      case DailyTick(now) =>
        DayHours(day);
        HoursTell(Init(ops), column, appID, day * 86400, 24);
        DailyTickTells(before, now, column, appID, day, HoursClean(Init(ops), appID, day * 86400, 24),
                       DayClean(Init(ops), appID, day));
    }
  }

  lemma DailyTickTells(t: Tables, now: Instant, column: Column, appID: nat, day: int, hours: bool, clean: bool)
    requires HoursTold(t, column, appID, day * 86400, (day + 1) * 86400, hours) && DayTold(t, column, appID, day, clean)
    ensures DayTold(Perform(t, DailyTick(now)), column, appID, day, if CoversDay(now, day) then hours else clean)
  {
    var (from, to) := DailyWindow(now);
    WindowsAligned(now);
    DailyTickKeeps(t, now);
    InDays(from, to, day);
    SumDaily(t, from, to, column, All(appID), day);
  }

  /** A column of application_daily is what the day's requests add up to. */
  ghost predicate DayAgrees(t: Tables, column: Column, appID: nat, day: int) {
    Sum(t.applicationDaily, column, Part(appID, None), day, day + 1) ==
      Total(t.requests, column, Part(appID, None), day * 86400, (day + 1) * 86400)
  }

  ghost predicate DayExact(t: Tables, appID: nat, day: int) {
    forall column: Column :: DayAgrees(t, column, appID, day)
  }

  /** After any run a day's totals are right if and only if the day is clean. */
  lemma DayExactIffClean(ops: seq<Op>, appID: nat, day: int)
    ensures DayExact(Exec(ops), appID, day) <==> DayClean(ops, appID, day)
  {
    forall column: Column ensures DayTold(Exec(ops), column, appID, day, DayClean(ops, appID, day)) {
      DayTells(ops, column, appID, day);
    }
    ToldIsAgreed(Exec(ops), appID, day, DayClean(ops, appID, day));
  }

  lemma ToldIsAgreed(t: Tables, appID: nat, day: int, clean: bool)
    requires forall column: Column :: DayTold(t, column, appID, day, clean)
    ensures DayExact(t, appID, day) <==> clean
  {
    assert DayTold(t, Requests, appID, day, clean);
    if clean {
      forall column: Column ensures DayAgrees(t, column, appID, day) {
        assert DayTold(t, column, appID, day, clean);
      }
    } else {
      assert !DayAgrees(t, Requests, appID, day);
    }
  }

  lemma HourInDay(hour: int) returns (i: nat)
    requires hour % 3600 == 0
    ensures var day := DayNumber(hour);
            i < 24 && NthHour(day * 86400, i) == hour && day * 86400 <= hour && hour + 3600 <= (day + 1) * 86400
  {
    var n := hour / 3600;
    i := n % 24;
    assert hour == n * 3600 == n / 24 * 86400 + i * 3600;
  }

  /** A request that lands after its hour has left every later hourly window
      leaves the hour and its day unclean, however often the jobs run. */
  lemma {:induction false} LateRequestStaysOut(ops: seq<Op>, batch: seq<Request>, later: seq<Op>, appID: nat, hour: int)
    requires hour % 3600 == 0 && Touches(batch, appID, hour, hour + 3600)
    requires forall i :: 0 <= i < |later| && later[i].HourlyTick? ==> !CoversHour(later[i].now, hour)
    ensures !HourClean(ops + [Insert(batch)] + later, appID, hour)
    ensures !DayClean(ops + [Insert(batch)] + later, appID, DayNumber(hour))
  {
    var all := ops + [Insert(batch)] + later;
    var day := DayNumber(hour);
    var i := HourInDay(hour);
    if later == [] {
      assert Last(all) == Insert(batch);
      var k :| 0 <= k < |batch| && batch[k].appID == appID && hour <= batch[k].startedAt < hour + 3600;
      assert day * 86400 <= batch[k].startedAt < (day + 1) * 86400;
    } else {
      LateRequestStaysOut(ops, batch, Init(later), appID, hour);
      assert Init(all) == ops + [Insert(batch)] + Init(later) && Last(all) == Last(later);
      assert Last(all).HourlyTick? ==> !CoversHour(Last(all).now, hour);
    }
  }

  /** The hour's and the day's request counts are below the truth. */
  ghost predicate Short(t: Tables, appID: nat, hour: int, day: int) {
    && HoursSaid(t, Requests, appID, hour, hour + 3600) < Truth(t, Requests, appID, hour, hour + 3600)
    && DaySaid(t, Requests, appID, day) < Truth(t, Requests, appID, day * 86400, (day + 1) * 86400)
  }

  /** So those counts stay below the truth for good. */
  lemma LateRequestNeverCounted(ops: seq<Op>, batch: seq<Request>, later: seq<Op>, appID: nat, hour: int)
    requires hour % 3600 == 0 && Touches(batch, appID, hour, hour + 3600)
    requires forall i :: 0 <= i < |later| && later[i].HourlyTick? ==> !CoversHour(later[i].now, hour)
    ensures Short(Exec(ops + [Insert(batch)] + later), appID, hour, DayNumber(hour))
  {
    LateRequestStaysOut(ops, batch, later, appID, hour);
    UncleanIsShort(ops + [Insert(batch)] + later, appID, hour, DayNumber(hour));
  }

  lemma UncleanIsShort(ops: seq<Op>, appID: nat, hour: int, day: int)
    requires hour % 3600 == 0 && !HourClean(ops, appID, hour) && !DayClean(ops, appID, day)
    ensures Short(Exec(ops), appID, hour, day)
  {
    HourTells(ops, Requests, appID, hour);
    DayTells(ops, Requests, appID, day);
  }

  /** application_daily always has at most one row per application and day. */
  lemma {:induction false} ApplicationRows(ops: seq<Op>)
    ensures OneRowPerDay(Exec(ops).applicationDaily)
  {
    if ops != [] {
      ApplicationRows(Init(ops));
      var before := Exec(Init(ops));
      match Last(ops)
      case Insert(_) =>
      case HourlyTick(now) =>
        WindowsAligned(now);
        HourlyRecompute(before, HourlyWindow(now).0, HourlyWindow(now).1);
      case DailyTick(now) =>
        WindowsAligned(now);
        RecomputedRows(before, DailyWindow(now).0, DailyWindow(now).1);
    }
  }

  ghost predicate CountsItsDay(row: Row, t: Tables) {
    row.stats == Direct(t.requests, Part(row.key.appID, None), row.key.slot * 86400, (row.key.slot + 1) * 86400)
  }

  /** The row the Applications screen reads is the count and the sums of the
      requests of its application and day if and only if the day is clean. */
  lemma DayRowExact(ops: seq<Op>, i: nat)
    requires i < |Exec(ops).applicationDaily|
    ensures var row := Exec(ops).applicationDaily[i];
            CountsItsDay(row, Exec(ops)) <==> DayClean(ops, row.key.appID, row.key.slot)
  {
    ApplicationRows(ops);
    DayRowByColumn(Exec(ops), i);
    DayExactIffClean(ops, Exec(ops).applicationDaily[i].key.appID, Exec(ops).applicationDaily[i].key.slot);
  }

  lemma DayRowByColumn(t: Tables, i: nat)
    requires i < |t.applicationDaily| && OneRowPerDay(t.applicationDaily)
    ensures var row := t.applicationDaily[i];
            DayExact(t, row.key.appID, row.key.slot) <==> CountsItsDay(row, t)
  {
    var row := t.applicationDaily[i];
    var from, to := row.key.slot * 86400, (row.key.slot + 1) * 86400;
    StatsByColumn(row, t.requests, from, to);
    forall column: Column
      ensures DayAgrees(t, column, row.key.appID, row.key.slot) <==>
                Measure(row, column) == Total(t.requests, column, All(row.key.appID), from, to)
    {
      SumIsTheRow(t.applicationDaily, column, i);
    }
  }

  /** A row is the direct aggregate exactly if every column of it is. */
  lemma StatsByColumn(row: Row, requests: seq<Request>, from: int, to: int)
    requires row.key.dimension.None?
    ensures (forall column: Column :: Measure(row, column) == Total(requests, column, All(row.key.appID), from, to))
            <==> row.stats == Direct(requests, All(row.key.appID), from, to)
  {
    if forall column: Column :: Measure(row, column) == Total(requests, column, All(row.key.appID), from, to) {
      SameStats(row, requests, from, to);
    } else {
      var column: Column :| Measure(row, column) != Total(requests, column, All(row.key.appID), from, to);
      assert row.stats != Direct(requests, All(row.key.appID), from, to) by {
        match column
        case Requests => case Errors => case InputTokens => case OutputTokens =>
        case TotalTokens => case CostMicro => case DurationMS =>
      }
    }
  }
}
