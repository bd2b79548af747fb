/** The hourly and daily recompute jobs of internal/rollup over those tables. */
module Rollup {
  import opened Prelude
  import opened Calendar
  import opened RollupTables

  const HOURLY_LOOKBACK_HOURS := 2
  const DAILY_LOOKBACK_DAYS := 1

  /** HourlyWindow: two completed hours and the current one. */
  function HourlyWindow(now: Instant): (int, int) {
    var currentHour := HourOf(now);
    (currentHour - HOURLY_LOOKBACK_HOURS * 3600, currentHour + 3600)
  }

  /** DailyWindow: yesterday and today. */
  function DailyWindow(now: Instant): (int, int) {
    var today := DayNumber(now) * 86400;
    (today - DAILY_LOOKBACK_DAYS * 86400, today + 86400)
  }

  datatype Tables = Tables(requests: seq<Request>, hourly: Table, daily: Table, applicationDaily: Table)

  predicate SharesKey(a: Table, b: Table) {
    exists i, j :: 0 <= i < |a| && 0 <= j < |b| && a[i].key == b[j].key
  }

  /** No key stands in both tables. */
  ghost predicate Apart(a: Table, b: Table) {
    forall k: RollupKey :: HasKey(a, k) ==> !HasKey(b, k)
  }

  lemma ApartIff(a: Table, b: Table)
    ensures Apart(a, b) <==> !SharesKey(a, b)
  {
    if k :| HasKey(a, k) && HasKey(b, k) {
      var i :| 0 <= i < |a| && a[i].key == k;
      var j :| 0 <= j < |b| && b[j].key == k;
    }
    if SharesKey(a, b) {
      var i, j :| 0 <= i < |a| && 0 <= j < |b| && a[i].key == b[j].key;
      assert HasKey(a, a[i].key) && HasKey(b, a[i].key);
    }
  }

  /** DELETE a window, INSERT the fill; a primary-key clash fails the transaction. */
  function Replaced(table: Table, fill: Table, from: int, to: int): Option<Table> {
    if SharesKey(Outside(table, from, to), fill) then None else Some(Outside(table, from, to) + fill)
  }

  function HourlyFill(requests: seq<Request>, from: int, to: int): Table {
    Group(RequestRows(Started(requests, from, to)))
  }

  function DailyFill(hourly: Table, from: int, to: int): Table {
    Group(ByDay(Inside(hourly, from, to)))
  }

  function ApplicationFill(daily: Table, from: int, to: int): Table {
    Group(Collapse(Inside(daily, DayNumber(from), DayNumber(to))))
  }

  function AfterHourly(t: Tables, from: int, to: int): Tables {
    match Replaced(t.hourly, HourlyFill(t.requests, from, to), from, to)
    case None => t
    case Some(hourly) => t.(hourly := hourly)
  }

  function AfterDaily(t: Tables, from: int, to: int): Tables {
    match Replaced(t.daily, DailyFill(t.hourly, from, to), DayNumber(from), DayNumber(to))
    case None => t
    case Some(daily) =>
      match Replaced(t.applicationDaily, ApplicationFill(daily, from, to), DayNumber(from), DayNumber(to))
      case None => t
      case Some(applicationDaily) => t.(daily := daily, applicationDaily := applicationDaily)
  }

  /** The database the jobs run against, one SQL statement per assignment. */
  class Warehouse {
    var requests: seq<Request>
    var hourly: Table
    var daily: Table
    var applicationDaily: Table

    constructor ()
      ensures Contents() == Tables([], [], [], [])
    {
      requests, hourly, daily, applicationDaily := [], [], [], [];
    }

    function Contents(): Tables
      reads this
    {
      Tables(requests, hourly, daily, applicationDaily)
    }

    method InsertBatch(batch: seq<Request>)
      modifies this`requests
      ensures requests == old(requests) + batch
    {
      requests := requests + batch;
    }

    method ComputeHourly(from: int, to: int) returns (ok: bool)
      modifies this`hourly
      ensures Contents() == AfterHourly(old(Contents()), from, to)
      ensures !ok ==> Contents() == old(Contents())
      ensures ok <==> Apart(Outside(old(hourly), from, to), HourlyFill(requests, from, to))
    {
      var before := hourly;
      hourly := Outside(hourly, from, to);
      var fill := HourlyFill(requests, from, to);
      ApartIff(hourly, fill);
      ok := !SharesKey(hourly, fill);
      hourly := if ok then hourly + fill else before;
    }

    method ComputeDaily(from: int, to: int) returns (ok: bool)
      modifies this`daily, this`applicationDaily
      ensures Contents() == AfterDaily(old(Contents()), from, to)
      ensures !ok ==> Contents() == old(Contents())
      ensures var lo, hi := DayNumber(from), DayNumber(to);
              var fill := DailyFill(hourly, from, to);
              ok <==> Apart(Outside(old(daily), lo, hi), fill)
                      && Apart(Outside(old(applicationDaily), lo, hi),
                               ApplicationFill(Outside(old(daily), lo, hi) + fill, from, to))
    {
      var dailyBefore, applicationBefore := daily, applicationDaily;
      daily := Outside(daily, DayNumber(from), DayNumber(to));
      var fill := DailyFill(hourly, from, to);
      ApartIff(daily, fill);
      if SharesKey(daily, fill) {
        daily := dailyBefore;
        return false;
      }
      daily := daily + fill;
      applicationDaily := Outside(applicationDaily, DayNumber(from), DayNumber(to));
      fill := ApplicationFill(daily, from, to);
      ApartIff(applicationDaily, fill);
      if SharesKey(applicationDaily, fill) {
        daily, applicationDaily := dailyBefore, applicationBefore;
        return false;
      }
      applicationDaily := applicationDaily + fill;
      ok := true;
    }
  }

  // ---------------------------------------------------------------- one recompute

  ghost predicate HourAligned(from: int, to: int) {
    from % 3600 == 0 && to % 3600 == 0
  }

  ghost predicate DayAligned(from: int, to: int) {
    from % 86400 == 0 && to % 86400 == 0
  }

  lemma WindowsAligned(now: Instant)
    ensures HourAligned(HourlyWindow(now).0, HourlyWindow(now).1) && HourlyWindow(now).0 <= now < HourlyWindow(now).1
    ensures DayAligned(DailyWindow(now).0, DailyWindow(now).1) && DailyWindow(now).0 <= now < DailyWindow(now).1
  {
  }

  /** The two windows in seconds. */
  lemma WindowsAre(now: Instant)
    ensures HourlyWindow(now) == (now - now % 3600 - 7200, now - now % 3600 + 3600)
    ensures DailyWindow(now) == (now - now % 86400 - 86400, now - now % 86400 + 86400)
  {
  }

  /** Rows of a fill lie inside its window, so they never clash with what the
      DELETE left. */
  lemma NoClash(table: Table, fill: Table, from: int, to: int)
    requires AllWithin(fill, from, to)
    ensures Replaced(table, fill, from, to) == Some(Outside(table, from, to) + fill)
  {
    OutsideWithout(table, from, to);
  }

  lemma HourWithin(t: int, from: int, to: int)
    requires HourAligned(from, to)
    ensures from <= HourOf(t) < to <==> from <= t < to
  {
  }

  lemma {:induction false} StartedIsInside(requests: seq<Request>, from: int, to: int)
    requires HourAligned(from, to)
    ensures RequestRows(Started(requests, from, to)) == Inside(RequestRows(requests), from, to)
  {
    if requests != [] {
      StartedIsInside(Init(requests), from, to);
      var row := RequestRow(Last(requests));
      assert Init(RequestRows(requests)) == RequestRows(Init(requests)) && Last(RequestRows(requests)) == row;
      HourWithin(Last(requests).startedAt, from, to);
      if Within(row, from, to) {
        assert Init(Started(requests, from, to)) == Started(Init(requests), from, to);
      } else {
        assert Started(requests, from, to) == Started(Init(requests), from, to);
        assert Inside(RequestRows(requests), from, to) == Inside(RequestRows(Init(requests)), from, to);
      }
    }
  }

  lemma {:induction false} ByDayWithin(table: Table, from: int, to: int)
    requires DayAligned(from, to) && AllWithin(table, from, to)
    ensures AllWithin(ByDay(table), DayNumber(from), DayNumber(to))
  {
    if table != [] {
      assert forall i :: 0 <= i < |Init(table)| ==> Init(table)[i] == table[i];
      ByDayWithin(Init(table), from, to);
      assert Within(Last(table), from, to);
    }
  }

  lemma {:induction false} CollapseWithin(table: Table, from: int, to: int)
    requires AllWithin(table, from, to)
    ensures AllWithin(Collapse(table), from, to) && AllCollapsed(Collapse(table))
  {
    if table != [] {
      assert forall i :: 0 <= i < |Init(table)| ==> Init(table)[i] == table[i];
      CollapseWithin(Init(table), from, to);
      assert Within(Last(table), from, to);
    }
  }

  /** On an aligned window the hourly job succeeds, and the window then holds the
      requests of those hours grouped, nothing else having moved. */
  lemma HourlyRecompute(t: Tables, from: int, to: int)
    requires HourAligned(from, to)
    ensures var after := AfterHourly(t, from, to);
            && after == t.(hourly := after.hourly)
            && Inside(after.hourly, from, to) == Group(Inside(RequestRows(t.requests), from, to))
            && Outside(after.hourly, from, to) == Outside(t.hourly, from, to)
            && AfterHourly(after, from, to) == after
  {
    var fill := HourlyFill(t.requests, from, to);
    StartedIsInside(t.requests, from, to);
    InsideWithin(RequestRows(t.requests), from, to);
    GroupWithin(Inside(RequestRows(t.requests), from, to), from, to);
    NoClash(t.hourly, fill, from, to);
    ReplaceWindow(t.hourly, fill, from, to);
    NoClash(AfterHourly(t, from, to).hourly, fill, from, to);
  }

  lemma DailyFillsWithin(t: Tables, from: int, to: int)
    requires DayAligned(from, to)
    ensures var fill := DailyFill(t.hourly, from, to);
            AllWithin(fill, DayNumber(from), DayNumber(to))
  {
    InsideWithin(t.hourly, from, to);
    ByDayWithin(Inside(t.hourly, from, to), from, to);
    GroupWithin(ByDay(Inside(t.hourly, from, to)), DayNumber(from), DayNumber(to));
  }

  lemma ApplicationFillsWithin(daily: Table, from: int, to: int)
    ensures var fill := ApplicationFill(daily, from, to);
            AllWithin(fill, DayNumber(from), DayNumber(to))
  {
    InsideWithin(daily, DayNumber(from), DayNumber(to));
    CollapseWithin(Inside(daily, DayNumber(from), DayNumber(to)), DayNumber(from), DayNumber(to));
    GroupWithin(Collapse(Inside(daily, DayNumber(from), DayNumber(to))), DayNumber(from), DayNumber(to));
  }

  /** The same for the daily job and its two tables. */
  lemma DailyRecompute(t: Tables, from: int, to: int)
    requires DayAligned(from, to)
    ensures var after, lo, hi := AfterDaily(t, from, to), DayNumber(from), DayNumber(to);
            && after == t.(daily := after.daily, applicationDaily := after.applicationDaily)
            && Inside(after.daily, lo, hi) == DailyFill(t.hourly, from, to)
            && Inside(after.applicationDaily, lo, hi) == Group(Collapse(DailyFill(t.hourly, from, to)))
            && Outside(after.daily, lo, hi) == Outside(t.daily, lo, hi)
            && Outside(after.applicationDaily, lo, hi) == Outside(t.applicationDaily, lo, hi)
            && AfterDaily(after, from, to) == after
  {
    var lo, hi, fill := DayNumber(from), DayNumber(to), DailyFill(t.hourly, from, to);
    DailyFillsWithin(t, from, to);
    NoClash(t.daily, fill, lo, hi);
    ReplaceWindow(t.daily, fill, lo, hi);
    var daily := Outside(t.daily, lo, hi) + fill;
    var second := ApplicationFill(daily, from, to);
    ApplicationFillsWithin(daily, from, to);
    NoClash(t.applicationDaily, second, lo, hi);
    ReplaceWindow(t.applicationDaily, second, lo, hi);
    NoClash(daily, fill, lo, hi);
    NoClash(Outside(t.applicationDaily, lo, hi) + second, second, lo, hi);
  }

  lemma ApplicationRecompute(t: Tables, from: int, to: int)
    requires DayAligned(from, to)
    ensures var after, lo, hi := AfterDaily(t, from, to).applicationDaily, DayNumber(from), DayNumber(to);
            && Inside(after, lo, hi) == Group(Collapse(DailyFill(t.hourly, from, to)))
            && Outside(after, lo, hi) == Outside(t.applicationDaily, lo, hi)
  {
    DailyRecompute(t, from, to);
  }

  lemma SumHourly(t: Tables, from: int, to: int, column: Column, who: Part, lo: int, hi: int)
    requires HourAligned(from, to)
    ensures var sum := Sum(AfterHourly(t, from, to).hourly, column, who, lo, hi);
            && (from <= lo && hi <= to ==> sum == Sum(RequestRows(t.requests), column, who, lo, hi))
            && (hi <= from || to <= lo ==> sum == Sum(t.hourly, column, who, lo, hi))
  {
    var after := AfterHourly(t, from, to);
    HourlyRecompute(t, from, to);
    if from <= lo && hi <= to {
      SumInside(after.hourly, column, who, from, to, lo, hi);
      SumGroup(Inside(RequestRows(t.requests), from, to), column, who, lo, hi);
      SumInside(RequestRows(t.requests), column, who, from, to, lo, hi);
    }
    SumOutside(after.hourly, column, who, from, to, lo, hi);
    SumOutside(t.hourly, column, who, from, to, lo, hi);
  }

  /** A day's fill adds up to the hourly rows of that day. */
  lemma SumDailyFill(hourly: Table, from: int, to: int, column: Column, who: Part, day: int)
    requires who.dimension.None? && DayAligned(from, to) && DayNumber(from) <= day < DayNumber(to)
    ensures Sum(Group(Collapse(DailyFill(hourly, from, to))), column, who, day, day + 1)
              == Sum(hourly, column, who, day * 86400, (day + 1) * 86400)
  {
    DaysAreHours(from, to, day);
    var chosen := Inside(hourly, from, to);
    SumGroup(Collapse(DailyFill(hourly, from, to)), column, who, day, day + 1);
    SumCollapse(DailyFill(hourly, from, to), column, who, day, day + 1);
    SumGroup(ByDay(chosen), column, who, day, day + 1);
    SumByDay(chosen, column, who, day);
    SumInside(hourly, column, who, from, to, day * 86400, (day + 1) * 86400);
  }

  /** A day of application_daily after the job: the hourly rows of that day. */
  lemma SumDaily(t: Tables, from: int, to: int, column: Column, who: Part, day: int)
    requires who.dimension.None? && DayAligned(from, to)
    ensures Sum(AfterDaily(t, from, to).applicationDaily, column, who, day, day + 1) ==
              if DayNumber(from) <= day < DayNumber(to) then Sum(t.hourly, column, who, day * 86400, (day + 1) * 86400)
              else Sum(t.applicationDaily, column, who, day, day + 1)
  {
    var after, lo, hi := AfterDaily(t, from, to).applicationDaily, DayNumber(from), DayNumber(to);
    ApplicationRecompute(t, from, to);
    SumOfWindow(after, t.applicationDaily, lo, hi, column, who, day);
    if lo <= day < hi {
      SumDailyFill(t.hourly, from, to, column, who, day);
    }
  }

  /** A slot's sum after its window was replaced. */
  lemma SumOfWindow(after: Table, before: Table, lo: int, hi: int, column: Column, who: Part, slot: int)
    requires Outside(after, lo, hi) == Outside(before, lo, hi)
    ensures Sum(after, column, who, slot, slot + 1) ==
              if lo <= slot < hi then Sum(Inside(after, lo, hi), column, who, slot, slot + 1)
              else Sum(before, column, who, slot, slot + 1)
  {
    if lo <= slot < hi {
      SumInside(after, column, who, lo, hi, slot, slot + 1);
    } else {
      SumOutside(after, column, who, lo, hi, slot, slot + 1);
      SumOutside(before, column, who, lo, hi, slot, slot + 1);
    }
  }

  lemma DaysAreHours(from: int, to: int, day: int)
    requires DayAligned(from, to) && DayNumber(from) <= day < DayNumber(to)
    ensures HourAligned(from, to) && from <= day * 86400 && (day + 1) * 86400 <= to
    ensures day * 86400 % 3600 == 0 && (day + 1) * 86400 % 3600 == 0
  {
    DayMultiple(from);
    DayMultiple(to);
    DayStartsAnHour(day);
    DayStartsAnHour(day + 1);
  }

  lemma DayStartsAnHour(day: int)
    ensures day * 86400 % 3600 == 0
  {
    assert day * 86400 == day * 24 * 3600;
  }

  lemma InDays(from: int, to: int, day: int)
    requires DayAligned(from, to)
    ensures DayNumber(from) <= day < DayNumber(to) <==> from <= day * 86400 < to
  {
  }

  lemma DayMultiple(t: int)
    requires t % 86400 == 0
    ensures t == DayNumber(t) * 86400 && t % 3600 == 0
  {
    assert t == (DayNumber(t) * 24) * 3600;
  }

  /** Hourly then daily over the same days gives application_daily exactly what
      aggregating the requests of each day directly would, errors included: */
  lemma TwoLevelsAreDirect(t: Tables, from: int, to: int, column: Column, appID: nat, day: int)
    requires DayAligned(from, to) && DayNumber(from) <= day < DayNumber(to)
    ensures Sum(AfterDaily(AfterHourly(t, from, to), from, to).applicationDaily, column, Part(appID, None), day, day + 1)
              == Total(t.requests, column, Part(appID, None), day * 86400, (day + 1) * 86400)
  {
    DaysAreHours(from, to, day);
    SumDaily(AfterHourly(t, from, to), from, to, column, Part(appID, None), day);
    SumHourly(t, from, to, column, Part(appID, None), day * 86400, (day + 1) * 86400);
    RowsAddUp(t.requests, column, Part(appID, None), day * 86400, (day + 1) * 86400);
  }

  ghost predicate IsDirect(row: Row, requests: seq<Request>, from: int, to: int) {
    && row.stats == Direct(requests, Part(row.key.appID, row.key.dimension), from, to)
    && row.stats.requests > 0
  }

  /** The tables with a dimension keep no errors column. */
  ghost predicate IsDirectButErrors(row: Row, requests: seq<Request>, from: int, to: int) {
    && row.key.dimension.Some?
    && row.stats.(errors := 0) == Direct(requests, Part(row.key.appID, row.key.dimension), from, to).(errors := 0)
    && row.stats.requests > 0
  }

  /** A row a fill put in: those that the DELETE left lie outside. */
  lemma RowOfFill(kept: Table, fill: Table, from: int, to: int, i: nat) returns (k: nat)
    requires i < |Outside(kept, from, to) + fill| && Within((Outside(kept, from, to) + fill)[i], from, to)
    ensures k < |fill| && fill[k] == (Outside(kept, from, to) + fill)[i]
  {
    OutsideWithout(kept, from, to);
    k := i - |Outside(kept, from, to)|;
  }

  lemma {:induction false} RequestRowsDimensioned(requests: seq<Request>)
    ensures Dimensioned(RequestRows(requests))
  {
    if requests != [] {
      RequestRowsDimensioned(Init(requests));
    }
  }

  /** Rows of whole hours, each with its dimension. */
  ghost predicate Dimensioned(table: Table) {
    forall i :: 0 <= i < |table| ==> table[i].key.dimension.Some? && table[i].key.slot % 3600 == 0
  }

  lemma GroupDimensioned(table: Table)
    requires forall i :: 0 <= i < |table| ==> table[i].key.dimension.Some?
    ensures forall i :: 0 <= i < |Group(table)| ==> Group(table)[i].key.dimension.Some?
    ensures Dimensioned(table) ==> Dimensioned(Group(table))
  {
    GroupKeys(table);
    forall i | 0 <= i < |Group(table)|
      ensures Group(table)[i].key.dimension.Some?
      ensures Dimensioned(table) ==> Group(table)[i].key.slot % 3600 == 0
    {
      assert HasKey(Group(table), Group(table)[i].key);
    }
  }

  /** Every hourly row of the window is the count and the sums of the requests of
      its application, dimension and hour. */
  lemma HourlyRowsAreDirect(t: Tables, from: int, to: int, i: nat)
    requires HourAligned(from, to) && i < |AfterHourly(t, from, to).hourly|
    requires from <= AfterHourly(t, from, to).hourly[i].key.slot < to
    ensures var row := AfterHourly(t, from, to).hourly[i];
            row.key.slot % 3600 == 0 && IsDirectButErrors(row, t.requests, row.key.slot, row.key.slot + 3600)
  {
    HourlyTable(t, from, to);
    var k := RowOfFill(t.hourly, HourlyFill(t.requests, from, to), from, to, i);
    HourlyFillIsDirect(t.requests, from, to, k);
  }

  lemma HourlyTable(t: Tables, from: int, to: int)
    requires HourAligned(from, to)
    ensures AfterHourly(t, from, to).hourly == Outside(t.hourly, from, to) + HourlyFill(t.requests, from, to)
  {
    StartedIsInside(t.requests, from, to);
    InsideWithin(RequestRows(t.requests), from, to);
    GroupWithin(Inside(RequestRows(t.requests), from, to), from, to);
    NoClash(t.hourly, HourlyFill(t.requests, from, to), from, to);
  }

  lemma HourlyFillIsDirect(requests: seq<Request>, from: int, to: int, k: nat)
    requires HourAligned(from, to) && k < |HourlyFill(requests, from, to)|
    requires Within(HourlyFill(requests, from, to)[k], from, to)
    ensures var row := HourlyFill(requests, from, to)[k];
            row.key.slot % 3600 == 0 && IsDirectButErrors(row, requests, row.key.slot, row.key.slot + 3600)
  {
    var row := HourlyFill(requests, from, to)[k];
    HourlyFillShape(requests, from, to);
    forall column: Column
      ensures Measure(row, column) ==
                Total(requests, column, Part(row.key.appID, row.key.dimension), row.key.slot, row.key.slot + 3600)
    {
      HourlyFillColumn(requests, from, to, k, column);
    }
    SameStats(row, requests, row.key.slot, row.key.slot + 3600);
  }

  lemma HourlyFillShape(requests: seq<Request>, from: int, to: int)
    ensures Positive(HourlyFill(requests, from, to)) && Dimensioned(HourlyFill(requests, from, to))
  {
    RequestRowsDimensioned(Started(requests, from, to));
    RowsArePositive(Started(requests, from, to));
    GroupPositive(RequestRows(Started(requests, from, to)));
    GroupDimensioned(RequestRows(Started(requests, from, to)));
  }

  lemma HourlyFillColumn(requests: seq<Request>, from: int, to: int, k: nat, column: Column)
    requires HourAligned(from, to) && k < |HourlyFill(requests, from, to)|
    requires Within(HourlyFill(requests, from, to)[k], from, to)
    ensures var row := HourlyFill(requests, from, to)[k];
            Measure(row, column) ==
              Total(requests, column, Part(row.key.appID, row.key.dimension), row.key.slot, row.key.slot + 3600)
  {
    var key := HourlyFill(requests, from, to)[k].key;
    HourlyFillShape(requests, from, to);
    StartedIsInside(requests, from, to);
    GroupRow(Inside(RequestRows(requests), from, to), k, column);
    SumInside(RequestRows(requests), column, Part(key.appID, key.dimension), from, to, key.slot, key.slot + 1);
    RowsAddUp(requests, column, Part(key.appID, key.dimension), key.slot, key.slot);
  }

  lemma {:induction false} ByDayDimensioned(table: Table)
    requires forall i :: 0 <= i < |table| ==> table[i].key.dimension.Some?
    ensures forall i :: 0 <= i < |ByDay(table)| ==> ByDay(table)[i].key.dimension.Some?
  {
    if table != [] {
      assert forall i :: 0 <= i < |Init(table)| ==> Init(table)[i] == table[i];
      ByDayDimensioned(Init(table));
      assert Last(table).key.dimension.Some?;
    }
  }

  /** The daily fill after the hourly job over the same days. */
  lemma DailyFillShape(t: Tables, from: int, to: int)
    requires HourAligned(from, to)
    ensures var fill := DailyFill(AfterHourly(t, from, to).hourly, from, to);
            Positive(fill) && forall i :: 0 <= i < |fill| ==> fill[i].key.dimension.Some?
  {
    var chosen := Inside(AfterHourly(t, from, to).hourly, from, to);
    HourlyRecompute(t, from, to);
    StartedIsInside(t.requests, from, to);
    HourlyFillShape(t.requests, from, to);
    ReshapedPositive(chosen, from, to);
    ByDayDimensioned(chosen);
    GroupPositive(ByDay(chosen));
    GroupDimensioned(ByDay(chosen));
  }

  lemma DailyFillColumn(t: Tables, from: int, to: int, k: nat, column: Column)
    requires DayAligned(from, to)
    requires k < |DailyFill(AfterHourly(t, from, to).hourly, from, to)|
    ensures var row := DailyFill(AfterHourly(t, from, to).hourly, from, to)[k];
            Measure(row, column) ==
              Total(t.requests, column, Part(row.key.appID, row.key.dimension), row.key.slot * 86400, (row.key.slot + 1) * 86400)
  {
    var hourly := AfterHourly(t, from, to).hourly;
    var key := DailyFill(hourly, from, to)[k].key;
    var who, lo, hi := Part(key.appID, key.dimension), key.slot * 86400, (key.slot + 1) * 86400;
    DailyFillsWithin(AfterHourly(t, from, to), from, to);
    assert Within(DailyFill(hourly, from, to)[k], DayNumber(from), DayNumber(to));
    DaysAreHours(from, to, key.slot);
    DailyFillShape(t, from, to);
    GroupRow(ByDay(Inside(hourly, from, to)), k, column);
    SumByDay(Inside(hourly, from, to), column, who, key.slot);
    SumInside(hourly, column, who, from, to, lo, hi);
    SumHourly(t, from, to, column, who, lo, hi);
    RowsAddUp(t.requests, column, who, lo, hi);
  }

  /** Every daily row of the window is the count and the sums of the requests of
      its application, dimension and day. */
  lemma DailyRowsAreDirect(t: Tables, from: int, to: int, i: nat)
    requires DayAligned(from, to) && from < to && i < |AfterDaily(AfterHourly(t, from, to), from, to).daily|
    requires from <= AfterDaily(AfterHourly(t, from, to), from, to).daily[i].key.slot * 86400 < to
    ensures var row := AfterDaily(AfterHourly(t, from, to), from, to).daily[i];
            IsDirectButErrors(row, t.requests, row.key.slot * 86400, (row.key.slot + 1) * 86400)
  {
    var t' := AfterHourly(t, from, to);
    var fill := DailyFill(t'.hourly, from, to);
    DayMultiple(from);
    DayMultiple(to);
    DailyTables(t', from, to);
    var k := RowOfFill(t'.daily, fill, DayNumber(from), DayNumber(to), i);
    DailyFillIsDirect(t, from, to, k);
  }

  lemma DailyFillIsDirect(t: Tables, from: int, to: int, k: nat)
    requires DayAligned(from, to)
    requires k < |DailyFill(AfterHourly(t, from, to).hourly, from, to)|
    ensures var row := DailyFill(AfterHourly(t, from, to).hourly, from, to)[k];
            IsDirectButErrors(row, t.requests, row.key.slot * 86400, (row.key.slot + 1) * 86400)
  {
    var row := DailyFill(AfterHourly(t, from, to).hourly, from, to)[k];
    DayMultiple(from);
    DayMultiple(to);
    DailyFillShape(t, from, to);
    forall column: Column
      ensures Measure(row, column) ==
                Total(t.requests, column, Part(row.key.appID, row.key.dimension), row.key.slot * 86400, (row.key.slot + 1) * 86400)
    {
      DailyFillColumn(t, from, to, k, column);
    }
    SameStats(row, t.requests, row.key.slot * 86400, (row.key.slot + 1) * 86400);
  }

  /** What the two transactions leave, fill by fill. */
  lemma DailyTables(t: Tables, from: int, to: int)
    requires DayAligned(from, to)
    ensures var lo, hi := DayNumber(from), DayNumber(to);
            var daily := Outside(t.daily, lo, hi) + DailyFill(t.hourly, from, to);
            && AfterDaily(t, from, to).daily == daily
            && AfterDaily(t, from, to).applicationDaily ==
                 Outside(t.applicationDaily, lo, hi) + ApplicationFill(daily, from, to)
  {
    var lo, hi, fill := DayNumber(from), DayNumber(to), DailyFill(t.hourly, from, to);
    var daily := Outside(t.daily, lo, hi) + fill;
    DailyFillsWithin(t, from, to);
    NoClash(t.daily, fill, lo, hi);
    ApplicationFillsWithin(daily, from, to);
    NoClash(t.applicationDaily, ApplicationFill(daily, from, to), lo, hi);
  }

  lemma SameStats(row: Row, requests: seq<Request>, from: int, to: int)
    requires forall column: Column ::
               Measure(row, column) == Total(requests, column, Part(row.key.appID, row.key.dimension), from, to)
    ensures var direct := Direct(requests, Part(row.key.appID, row.key.dimension), from, to);
            && row.stats.(errors := 0) == direct.(errors := 0)
            && (row.key.dimension.None? ==> row.stats == direct)
  {
    assert Measure(row, Requests) == row.stats.requests && Measure(row, InputTokens) == row.stats.inputTokens;
    assert Measure(row, OutputTokens) == row.stats.outputTokens && Measure(row, TotalTokens) == row.stats.totalTokens;
    assert Measure(row, CostMicro) == row.stats.costMicro && Measure(row, DurationMS) == row.stats.durationMS;
    assert row.key.dimension.None? ==> Measure(row, Errors) == row.stats.errors;
  }

  /** The table the screen reads: every row of the window counts and sums the
      requests of its application and day, errors those whose status is not ok; */
  lemma ApplicationRowsAreDirect(t: Tables, from: int, to: int, i: nat)
    requires DayAligned(from, to) && i < |AfterDaily(AfterHourly(t, from, to), from, to).applicationDaily|
    requires from <= AfterDaily(AfterHourly(t, from, to), from, to).applicationDaily[i].key.slot * 86400 < to
    ensures var row := AfterDaily(AfterHourly(t, from, to), from, to).applicationDaily[i];
            row.key.dimension.None? && IsDirect(row, t.requests, row.key.slot * 86400, (row.key.slot + 1) * 86400)
  {
    ApplicationTable(t, from, to);
    InDays(from, to, AfterDaily(AfterHourly(t, from, to), from, to).applicationDaily[i].key.slot);
    var k := RowOfFill(t.applicationDaily, FillOfDay(t, from, to), DayNumber(from), DayNumber(to), i);
    ApplicationFillIsDirect(t, from, to, k);
  }

  /** What the second transaction step inserts, after both jobs. */
  ghost function FillOfDay(t: Tables, from: int, to: int): Table {
    Group(Collapse(DailyFill(AfterHourly(t, from, to).hourly, from, to)))
  }

  lemma ApplicationFillShape(t: Tables, from: int, to: int)
    requires DayAligned(from, to)
    ensures var fill := FillOfDay(t, from, to);
            Positive(fill) && AllCollapsed(fill) && UniqueKeys(fill) && AllWithin(fill, DayNumber(from), DayNumber(to))
  {
    var daily := DailyFill(AfterHourly(t, from, to).hourly, from, to);
    DayMultiple(from);
    DayMultiple(to);
    DailyFillShape(t, from, to);
    DailyFillsWithin(AfterHourly(t, from, to), from, to);
    CollapsedShape(daily, DayNumber(from), DayNumber(to));
  }

  lemma CollapsedShape(daily: Table, lo: int, hi: int)
    requires Positive(daily) && AllWithin(daily, lo, hi)
    ensures var fill := Group(Collapse(daily));
            Positive(fill) && AllCollapsed(fill) && UniqueKeys(fill)
            && AllWithin(fill, lo, hi)
  {
    var fill := Group(Collapse(daily));
    ReshapedPositive(daily, lo, hi);
    CollapseWithin(daily, lo, hi);
    GroupPositive(Collapse(daily));
    GroupKeys(Collapse(daily));
    GroupWithin(Collapse(daily), lo, hi);
    forall i | 0 <= i < |fill| ensures fill[i].key.dimension.None? {
      assert HasKey(fill, fill[i].key);
    }
  }

  lemma ApplicationFillColumn(t: Tables, from: int, to: int, k: nat, column: Column)
    requires DayAligned(from, to) && k < |FillOfDay(t, from, to)|
    ensures var row := FillOfDay(t, from, to)[k];
            Measure(row, column) ==
              Total(t.requests, column, Part(row.key.appID, None), row.key.slot * 86400, (row.key.slot + 1) * 86400)
  {
    ApplicationFillShape(t, from, to);
    var row := FillOfDay(t, from, to)[k];
    assert Within(row, DayNumber(from), DayNumber(to));
    SumIsTheRow(FillOfDay(t, from, to), column, k);
    FillOfDaySum(t, from, to, column, row.key.appID, row.key.slot);
  }

  lemma FillOfDaySum(t: Tables, from: int, to: int, column: Column, appID: nat, day: int)
    requires DayAligned(from, to) && DayNumber(from) <= day < DayNumber(to)
    ensures Sum(FillOfDay(t, from, to), column, Part(appID, None), day, day + 1) ==
              Total(t.requests, column, Part(appID, None), day * 86400, (day + 1) * 86400)
  {
    var who := Part(appID, None);
    DaysAreHours(from, to, day);
    SumDailyFill(AfterHourly(t, from, to).hourly, from, to, column, who, day);
    SumHourly(t, from, to, column, who, day * 86400, (day + 1) * 86400);
    RowsAddUp(t.requests, column, who, day * 86400, (day + 1) * 86400);
  }

  lemma ApplicationFillIsDirect(t: Tables, from: int, to: int, k: nat)
    requires DayAligned(from, to) && k < |FillOfDay(t, from, to)|
    ensures var row := FillOfDay(t, from, to)[k];
            row.key.dimension.None? && IsDirect(row, t.requests, row.key.slot * 86400, (row.key.slot + 1) * 86400)
  {
    var row := FillOfDay(t, from, to)[k];
    ApplicationFillShape(t, from, to);
    forall column: Column
      ensures Measure(row, column) ==
                Total(t.requests, column, Part(row.key.appID, row.key.dimension), row.key.slot * 86400, (row.key.slot + 1) * 86400)
    {
      ApplicationFillColumn(t, from, to, k, column);
    }
    SameStats(row, t.requests, row.key.slot * 86400, (row.key.slot + 1) * 86400);
  }

  /** application_daily after both jobs: what the DELETE left, and that fill. */
  lemma ApplicationTable(t: Tables, from: int, to: int)
    requires DayAligned(from, to)
    ensures AfterDaily(AfterHourly(t, from, to), from, to).applicationDaily ==
              Outside(t.applicationDaily, DayNumber(from), DayNumber(to)) + FillOfDay(t, from, to)
  {
    var t' := AfterHourly(t, from, to);
    DayMultiple(from);
    DayMultiple(to);
    HourlyRecompute(t, from, to);
    DailyTables(t', from, to);
    DailyRecompute(t', from, to);
  }

  /** and every request of the window has its row there. */
  lemma RequestHasItsRow(t: Tables, from: int, to: int, k: nat)
    requires DayAligned(from, to) && k < |t.requests| && from <= t.requests[k].startedAt < to
    ensures var table, r := AfterDaily(AfterHourly(t, from, to), from, to).applicationDaily, t.requests[k];
            exists i :: 0 <= i < |table| && table[i].key.appID == r.appID && table[i].key.slot == r.startedAt / 86400
  {
    var table, r := AfterDaily(AfterHourly(t, from, to), from, to).applicationDaily, t.requests[k];
    var who, day := Part(r.appID, None), r.startedAt / 86400;
    DayMultiple(from);
    DayMultiple(to);
    if forall i :: 0 <= i < |table| ==> !(table[i].key.appID == r.appID && table[i].key.slot == day) {
      NoRowNoSum(table, Requests, who, day);
      TwoLevelsAreDirect(t, from, to, Requests, r.appID, day);
      TotalCounts(t.requests, who, day * 86400, (day + 1) * 86400, k);
    }
  }

  lemma {:induction false} TotalCounts(requests: seq<Request>, who: Part, from: int, to: int, k: nat)
    requires k < |requests| && Counted(requests[k], who, from, to)
    ensures Total(requests, Requests, who, from, to) > 0
  {
    if k < |requests| - 1 {
      TotalCounts(Init(requests), who, from, to, k);
    } else {
      TotalNotNegative(Init(requests), who, from, to);
    }
  }

  lemma {:induction false} TotalNotNegative(requests: seq<Request>, who: Part, from: int, to: int)
    ensures Total(requests, Requests, who, from, to) >= 0
  {
    if requests != [] {
      TotalNotNegative(Init(requests), who, from, to);
    }
  }

  // ---------------------------------------------------------------- one row per day

  ghost predicate OneRowPerDay(table: Table) {
    UniqueKeys(table) && AllCollapsed(table)
  }

  lemma {:induction false} OutsideUnique(table: Table, from: int, to: int)
    requires UniqueKeys(table)
    ensures UniqueKeys(Outside(table, from, to))
    ensures forall k: RollupKey :: HasKey(Outside(table, from, to), k) ==> HasKey(table, k)
  {
    if table != [] {
      var shorter := Init(table);
      assert forall i :: 0 <= i < |shorter| ==> shorter[i] == table[i];
      OutsideUnique(shorter, from, to);
      forall k: RollupKey | HasKey(Outside(table, from, to), k) ensures HasKey(table, k) {
        HasKeySplit(table, k);
        if !Within(Last(table), from, to) {
          HasKeySplit(Outside(table, from, to), k);
          assert Init(Outside(table, from, to)) == Outside(shorter, from, to);
        }
      }
      assert !HasKey(shorter, Last(table).key);
      forall i | 0 <= i < |Outside(shorter, from, to)| ensures Outside(shorter, from, to)[i].key != Last(table).key {
        assert HasKey(Outside(shorter, from, to), Outside(shorter, from, to)[i].key);
      }
    }
  }

  lemma RecomputedRows(t: Tables, from: int, to: int)
    requires DayAligned(from, to) && OneRowPerDay(t.applicationDaily)
    ensures OneRowPerDay(AfterDaily(t, from, to).applicationDaily)
  {
    var lo, hi := DayNumber(from), DayNumber(to);
    var kept := Outside(t.applicationDaily, lo, hi);
    var daily := Outside(t.daily, lo, hi) + DailyFill(t.hourly, from, to);
    var fill := ApplicationFill(daily, from, to);
    DailyFillsWithin(t, from, to);
    NoClash(t.daily, DailyFill(t.hourly, from, to), lo, hi);
    ApplicationFillsWithin(daily, from, to);
    NoClash(t.applicationDaily, fill, lo, hi);
    OutsideUnique(t.applicationDaily, lo, hi);
    OutsideWithout(t.applicationDaily, lo, hi);
    GroupKeys(Collapse(Inside(daily, lo, hi)));
    InsideWithin(daily, lo, hi);
    CollapseWithin(Inside(daily, lo, hi), lo, hi);
    forall i | 0 <= i < |fill| ensures fill[i].key.dimension.None? {
      assert HasKey(fill, fill[i].key);
    }
    forall i | 0 <= i < |kept| ensures kept[i].key.dimension.None? {
      assert HasKey(kept, kept[i].key);
    }
  }
}
