/**
 The rollup tables of internal/rollup and the SQL aggregations between them.
 Every level is a table of keyed statistics; the one fact the rest is built on
 is that grouping, re-keying by day and collapsing dimensions all keep `Sum`.
 */
module RollupTables {
  import opened Prelude
  import opened ReplayFacts
  import opened Calendar

  datatype Dimension = Dimension(provider: nat, model: Model, status: Status)

  /** `errors` is a column of application_daily alone; elsewhere it is 0. */
  datatype Stats = Stats(
    requests: int, errors: int, inputTokens: int, outputTokens: int,
    totalTokens: int, costMicro: int, durationMS: int)

  /** `slot` is an hour's first instant, or a day number; application_daily has
      no dimension. */
  datatype RollupKey = RollupKey(appID: nat, slot: int, dimension: Option<Dimension>)
  datatype Row = Row(key: RollupKey, stats: Stats)
  type Table = seq<Row>

  datatype Request = Request(
    appID: nat, startedAt: Instant, dimension: Dimension,
    inputTokens: int, outputTokens: int, totalTokens: int, costMicro: int, durationMS: int)

  function Plus(a: Stats, b: Stats): Stats {
    Stats(a.requests + b.requests, a.errors + b.errors, a.inputTokens + b.inputTokens,
          a.outputTokens + b.outputTokens, a.totalTokens + b.totalTokens,
          a.costMicro + b.costMicro, a.durationMS + b.durationMS)
  }

  /** date_trunc('hour', ...) */
  function HourOf(t: int): int { t / 3600 * 3600 }

  function DayNumber(t: int): int { t / 86400 }

  function RequestRow(r: Request): Row {
    Row(RollupKey(r.appID, HourOf(r.startedAt), Some(r.dimension)),
        Stats(1, 0, r.inputTokens, r.outputTokens, r.totalTokens, r.costMicro, r.durationMS))
  }

  function RequestRows(requests: seq<Request>): Table {
    if requests == [] then [] else RequestRows(Init(requests)) + [RequestRow(Last(requests))]
  }

  predicate Within(row: Row, from: int, to: int) {
    from <= row.key.slot < to
  }

  /** WHERE slot >= from AND slot < to, and what the matching DELETE leaves. */
  function Inside(table: Table, from: int, to: int): (r: Table) {
    if table == [] then []
    else Inside(Init(table), from, to) + (if Within(Last(table), from, to) then [Last(table)] else [])
  }

  function Outside(table: Table, from: int, to: int): (r: Table) {
    if table == [] then []
    else Outside(Init(table), from, to) + (if Within(Last(table), from, to) then [] else [Last(table)])
  }

  /** WHERE started_at >= from AND started_at < to. */
  function Started(requests: seq<Request>, from: int, to: int): seq<Request> {
    if requests == [] then []
    else Started(Init(requests), from, to)
         + (if from <= Last(requests).startedAt < to then [Last(requests)] else [])
  }

  /** Add a row to its group, opening the group if it is the first of its key. */
  function AddRow(table: Table, row: Row): Table {
    if table == [] then [row]
    else if Last(table).key == row.key then Init(table) + [Row(row.key, Plus(Last(table).stats, row.stats))]
    else AddRow(Init(table), row) + [Last(table)]
  }

  /** GROUP BY key with every statistic summed. */
  function Group(table: Table): Table {
    if table == [] then [] else AddRow(Group(Init(table)), Last(table))
  }

  function ByDay(table: Table): (r: Table) {
    if table == [] then []
    else ByDay(Init(table)) + [Row(Last(table).key.(slot := DayNumber(Last(table).key.slot)), Last(table).stats)]
  }

  /** The error count a row contributes: its requests if its status is not 'ok'. */
  function ErrorsOf(row: Row): int {
    match row.key.dimension
    case None => row.stats.errors
    case Some(d) => if d.status.Ok? then 0 else row.stats.requests
  }

  function Weigh(row: Row): Stats {
    row.stats.(errors := ErrorsOf(row))
  }

  function Collapse(table: Table): (r: Table) {
    if table == [] then []
    else Collapse(Init(table)) + [Row(Last(table).key.(dimension := None), Weigh(Last(table)))]
  }

  ghost predicate UniqueKeys(table: Table) {
    forall i, j :: 0 <= i < j < |table| ==> table[i].key != table[j].key
  }

  // ---------------------------------------------------------------- sums

  datatype Column = Requests | Errors | InputTokens | OutputTokens | TotalTokens | CostMicro | DurationMS

  function Measure(row: Row, column: Column): int {
    match column
    case Requests => row.stats.requests
    case Errors => ErrorsOf(row)
    case InputTokens => row.stats.inputTokens
    case OutputTokens => row.stats.outputTokens
    case TotalTokens => row.stats.totalTokens
    case CostMicro => row.stats.costMicro
    case DurationMS => row.stats.durationMS
  }

  /** An application's traffic, all of it or of one dimension. */
  datatype Part = Part(appID: nat, dimension: Option<Dimension>)

  ghost predicate Concerns(who: Part, key: RollupKey) {
    key.appID == who.appID && (who.dimension.None? || key.dimension == who.dimension)
  }

  /** What one row adds to a column's sum. */
  ghost function Share(row: Row, column: Column, who: Part, from: int, to: int): int {
    if Concerns(who, row.key) && Within(row, from, to) then Measure(row, column) else 0
  }

  /** A column added up for some traffic and a range of slots. */
  ghost function Sum(table: Table, column: Column, who: Part, from: int, to: int): int {
    if table == [] then 0
    else Sum(Init(table), column, who, from, to) + Share(Last(table), column, who, from, to)
  }

  lemma {:induction false} SumAddRow(table: Table, row: Row, column: Column, who: Part, from: int, to: int)
    ensures Sum(AddRow(table, row), column, who, from, to)
              == Sum(table, column, who, from, to) + Share(row, column, who, from, to)
  {
    if table == [] {
      assert Init([row]) == [];
    } else if Last(table).key == row.key {
      assert Init(AddRow(table, row)) == Init(table);
    } else {
      SumAddRow(Init(table), row, column, who, from, to);
      assert Init(AddRow(table, row)) == AddRow(Init(table), row);
    }
  }

  lemma {:induction false} SumGroup(table: Table, column: Column, who: Part, from: int, to: int)
    ensures Sum(Group(table), column, who, from, to) == Sum(table, column, who, from, to)
  {
    if table != [] {
      SumGroup(Init(table), column, who, from, to);
      SumAddRow(Group(Init(table)), Last(table), column, who, from, to);
    }
  }

  lemma SumMore(table: Table, row: Row, column: Column, who: Part, from: int, to: int)
    ensures Sum(table + [row], column, who, from, to)
              == Sum(table, column, who, from, to) + Share(row, column, who, from, to)
  {
    assert Init(table + [row]) == table;
  }

  lemma {:induction false} SumInside(table: Table, column: Column, who: Part, lo: int, hi: int, from: int, to: int)
    requires lo <= from && to <= hi
    ensures Sum(Inside(table, lo, hi), column, who, from, to) == Sum(table, column, who, from, to)
  {
    if table != [] {
      SumInside(Init(table), column, who, lo, hi, from, to);
      var inside := Inside(Init(table), lo, hi);
      if Within(Last(table), lo, hi) {
        SumMore(inside, Last(table), column, who, from, to);
      } else {
        assert Inside(table, lo, hi) == inside;
      }
    }
  }

  /** Deleting a window leaves nothing of it, and all of what lies apart from it. */
  lemma {:induction false} SumOutside(table: Table, column: Column, who: Part, lo: int, hi: int, from: int, to: int)
    ensures lo <= from && to <= hi ==> Sum(Outside(table, lo, hi), column, who, from, to) == 0
    ensures to <= lo || hi <= from ==>
              Sum(Outside(table, lo, hi), column, who, from, to) == Sum(table, column, who, from, to)
  {
    if table != [] {
      SumOutside(Init(table), column, who, lo, hi, from, to);
      if Within(Last(table), lo, hi) {
        assert Outside(table, lo, hi) == Outside(Init(table), lo, hi);
      } else {
        assert Init(Outside(table, lo, hi)) == Outside(Init(table), lo, hi);
      }
    }
  }

  lemma {:induction false} SumByDay(table: Table, column: Column, who: Part, day: int)
    ensures Sum(ByDay(table), column, who, day, day + 1) == Sum(table, column, who, day * 86400, (day + 1) * 86400)
  {
    if table != [] {
      SumByDay(Init(table), column, who, day);
      assert Init(ByDay(table)) == ByDay(Init(table));
    }
  }

  lemma {:induction false} SumCollapse(table: Table, column: Column, who: Part, from: int, to: int)
    requires who.dimension.None?
    ensures Sum(Collapse(table), column, who, from, to) == Sum(table, column, who, from, to)
  {
    if table != [] {
      SumCollapse(Init(table), column, who, from, to);
      assert Init(Collapse(table)) == Collapse(Init(table));
    }
  }

  lemma {:induction false} SumSplits(table: Table, column: Column, who: Part, a: int, b: int, c: int)
    requires a <= b <= c
    ensures Sum(table, column, who, a, c) == Sum(table, column, who, a, b) + Sum(table, column, who, b, c)
  {
    if table != [] {
      SumSplits(Init(table), column, who, a, b, c);
    }
  }

  // ---------------------------------------------------------------- shapes

  ghost predicate AllWithin(table: Table, from: int, to: int) {
    forall i :: 0 <= i < |table| ==> Within(table[i], from, to)
  }

  ghost predicate NoneWithin(table: Table, from: int, to: int) {
    forall i :: 0 <= i < |table| ==> !Within(table[i], from, to)
  }

  lemma {:induction false} InsideWithin(table: Table, from: int, to: int)
    ensures AllWithin(Inside(table, from, to), from, to)
  {
    if table != [] {
      InsideWithin(Init(table), from, to);
    }
  }

  lemma {:induction false} OutsideWithout(table: Table, from: int, to: int)
    ensures NoneWithin(Outside(table, from, to), from, to)
  {
    if table != [] {
      OutsideWithout(Init(table), from, to);
    }
  }

  lemma {:induction false} AddRowKeys(table: Table, row: Row)
    ensures forall k: RollupKey :: HasKey(AddRow(table, row), k) <==> HasKey(table, k) || k == row.key
    ensures UniqueKeys(table) ==> UniqueKeys(AddRow(table, row))
  {
    if table == [] {
      assert AddRow(table, row)[0].key == row.key;
    } else if Last(table).key == row.key {
      var grown := AddRow(table, row);
      assert forall i :: 0 <= i < |table| ==> grown[i].key == table[i].key;
    } else {
      AddRowKeys(Init(table), row);
      var shorter, grown := AddRow(Init(table), row), AddRow(table, row);
      assert grown == shorter + [Last(table)];
      forall k: RollupKey ensures HasKey(grown, k) <==> HasKey(table, k) || k == row.key {
        HasKeySplit(grown, k);
        HasKeySplit(table, k);
        assert Init(grown) == shorter;
      }
      if UniqueKeys(table) {
        assert UniqueKeys(Init(table));
        forall i | 0 <= i < |shorter| ensures shorter[i].key != Last(table).key {
          assert HasKey(shorter, shorter[i].key);
        }
      }
    }
  }

  ghost predicate HasKey(table: Table, k: RollupKey) {
    exists i :: 0 <= i < |table| && table[i].key == k
  }

  lemma HasKeySplit(table: Table, k: RollupKey)
    requires table != []
    ensures HasKey(table, k) <==> HasKey(Init(table), k) || Last(table).key == k
  {
    if HasKey(table, k) {
      var i :| 0 <= i < |table| && table[i].key == k;
      if i < |table| - 1 {
        assert Init(table)[i].key == k;
      }
    }
    if HasKey(Init(table), k) {
      var i :| 0 <= i < |Init(table)| && Init(table)[i].key == k;
      assert table[i].key == k;
    }
    assert table[|table| - 1] == Last(table);
  }

  /** Grouping yields one row per key that occurs. */
  lemma {:induction false} GroupKeys(table: Table)
    ensures UniqueKeys(Group(table))
    ensures forall k: RollupKey :: HasKey(Group(table), k) <==> HasKey(table, k)
  {
    if table != [] {
      GroupKeys(Init(table));
      AddRowKeys(Group(Init(table)), Last(table));
      forall k: RollupKey ensures HasKey(Group(table), k) <==> HasKey(table, k) {
        HasKeySplit(table, k);
      }
    }
  }

  lemma GroupWithin(table: Table, from: int, to: int)
    requires AllWithin(table, from, to)
    ensures AllWithin(Group(table), from, to)
  {
    GroupKeys(table);
    forall i | 0 <= i < |Group(table)| ensures Within(Group(table)[i], from, to) {
      assert HasKey(Group(table), Group(table)[i].key);
    }
  }

  lemma WithinParts(table: Table, from: int, to: int)
    requires table != []
    ensures Init(table) + [Last(table)] == table
    ensures AllWithin(table, from, to) ==> AllWithin(Init(table), from, to) && Within(Last(table), from, to)
    ensures NoneWithin(table, from, to) ==> NoneWithin(Init(table), from, to) && !Within(Last(table), from, to)
  {
  }

  lemma {:induction false} InsideOfWithin(table: Table, from: int, to: int)
    requires AllWithin(table, from, to)
    ensures Inside(table, from, to) == table && Outside(table, from, to) == []
  {
    if table != [] {
      WithinParts(table, from, to);
      InsideOfWithin(Init(table), from, to);
    }
  }

  lemma {:induction false} InsideOfWithout(table: Table, from: int, to: int)
    requires NoneWithin(table, from, to)
    ensures Inside(table, from, to) == [] && Outside(table, from, to) == table
  {
    if table != [] {
      WithinParts(table, from, to);
      InsideOfWithout(Init(table), from, to);
    }
  }

  lemma {:induction false} WindowConcat(a: Table, b: Table, from: int, to: int)
    ensures Inside(a + b, from, to) == Inside(a, from, to) + Inside(b, from, to)
    ensures Outside(a + b, from, to) == Outside(a, from, to) + Outside(b, from, to)
  {
    if b == [] {
      assert a + b == a;
    } else {
      assert Init(a + b) == a + Init(b) && Last(a + b) == Last(b);
      WindowConcat(a, Init(b), from, to);
    }
  }

  /** Replacing a window by rows of that window: what is inside afterwards, what
      is outside, and that doing it again changes nothing. */
  lemma ReplaceWindow(table: Table, fill: Table, from: int, to: int)
    requires AllWithin(fill, from, to)
    ensures var after := Outside(table, from, to) + fill;
            && Inside(after, from, to) == fill
            && Outside(after, from, to) == Outside(table, from, to)
  {
    var kept := Outside(table, from, to);
    OutsideWithout(table, from, to);
    InsideOfWithout(kept, from, to);
    InsideOfWithin(fill, from, to);
    WindowConcat(kept, fill, from, to);
    assert [] + fill == fill && kept + [] == kept;
  }

  // ---------------------------------------------------------------- the requests themselves

  /** What one request contributes to a column. */
  ghost function Amount(r: Request, column: Column): int {
    match column
    case Requests => 1
    case Errors => if r.dimension.status == Ok then 0 else 1
    case InputTokens => r.inputTokens
    case OutputTokens => r.outputTokens
    case TotalTokens => r.totalTokens
    case CostMicro => r.costMicro
    case DurationMS => r.durationMS
  }

  ghost predicate Counted(r: Request, who: Part, from: int, to: int) {
    r.appID == who.appID && (who.dimension.None? || who.dimension == Some(r.dimension)) && from <= r.startedAt < to
  }

  /** A column over the requests that started in a span of time, without any table. */
  ghost function Total(requests: seq<Request>, column: Column, who: Part, from: int, to: int): int {
    if requests == [] then 0
    else Total(Init(requests), column, who, from, to)
         + (if Counted(Last(requests), who, from, to) then Amount(Last(requests), column) else 0)
  }

  ghost function Direct(requests: seq<Request>, who: Part, from: int, to: int): Stats {
    Stats(Total(requests, Requests, who, from, to), Total(requests, Errors, who, from, to),
          Total(requests, InputTokens, who, from, to), Total(requests, OutputTokens, who, from, to),
          Total(requests, TotalTokens, who, from, to), Total(requests, CostMicro, who, from, to),
          Total(requests, DurationMS, who, from, to))
  }

  /** The rows of the requests add up to them over whole hours, and so does the
      one slot of an hour. */
  lemma {:induction false} RowsAddUp(requests: seq<Request>, column: Column, who: Part, from: int, to: int)
    requires from % 3600 == 0
    ensures to % 3600 == 0 ==> Sum(RequestRows(requests), column, who, from, to) == Total(requests, column, who, from, to)
    ensures Sum(RequestRows(requests), column, who, from, from + 1) == Total(requests, column, who, from, from + 3600)
  {
    if requests != [] {
      RowsAddUp(Init(requests), column, who, from, to);
      assert Init(RequestRows(requests)) == RequestRows(Init(requests));
      RowCounts(Last(requests), column, who, from, to);
    }
  }

  lemma RowCounts(r: Request, column: Column, who: Part, from: int, to: int)
    requires from % 3600 == 0
    ensures to % 3600 == 0 ==>
              Share(RequestRow(r), column, who, from, to) == if Counted(r, who, from, to) then Amount(r, column) else 0
    ensures Share(RequestRow(r), column, who, from, from + 1) == if Counted(r, who, from, from + 3600) then Amount(r, column) else 0
  {
  }

  /** Grouping gives one row per key, and it is the sum of the key's rows. */
  lemma GroupRow(table: Table, i: nat, column: Column)
    requires i < |Group(table)|
    requires Group(table)[i].key.dimension.Some? || AllCollapsed(Group(table))
    ensures var row := Group(table)[i];
            Measure(row, column) == Sum(table, column, Part(row.key.appID, row.key.dimension), row.key.slot, row.key.slot + 1)
  {
    var key := Group(table)[i].key;
    GroupKeys(table);
    SumIsTheRow(Group(table), column, i);
    SumGroup(table, column, Part(key.appID, key.dimension), key.slot, key.slot + 1);
  }

  ghost predicate AllCollapsed(table: Table) {
    forall i :: 0 <= i < |table| ==> table[i].key.dimension.None?
  }

  /** In a table with one row per key the sum for a key is its row. */
  lemma {:induction false} SumIsTheRow(table: Table, column: Column, i: nat)
    requires i < |table| && UniqueKeys(table)
    requires table[i].key.dimension.Some? || AllCollapsed(table)
    ensures var key := table[i].key;
            Sum(table, column, Part(key.appID, key.dimension), key.slot, key.slot + 1) == Measure(table[i], column)
  {
    var shorter, key := Init(table), table[i].key;
    assert forall j :: 0 <= j < |shorter| ==> shorter[j] == table[j];
    if i < |shorter| {
      SumIsTheRow(shorter, column, i);
      assert Last(table).key != key;
    } else {
      NoRowNoSum(shorter, column, Part(key.appID, key.dimension), key.slot);
    }
  }

  lemma {:induction false} NoRowNoSum(table: Table, column: Column, who: Part, slot: int)
    requires forall i :: 0 <= i < |table| ==> !(Concerns(who, table[i].key) && table[i].key.slot == slot)
    ensures Sum(table, column, who, slot, slot + 1) == 0
  {
    if table != [] {
      assert forall j :: 0 <= j < |Init(table)| ==> Init(table)[j] == table[j];
      NoRowNoSum(Init(table), column, who, slot);
      assert !(Concerns(who, Last(table).key) && Last(table).key.slot == slot);
    }
  }

  /** No row without a request: every row counts at least one. */
  ghost predicate Positive(table: Table) {
    forall i :: 0 <= i < |table| ==> table[i].stats.requests > 0
  }

  lemma {:induction false} RowsArePositive(requests: seq<Request>)
    ensures Positive(RequestRows(requests))
  {
    if requests != [] {
      RowsArePositive(Init(requests));
    }
  }

  lemma {:induction false} AddRowPositive(table: Table, row: Row)
    requires Positive(table) && row.stats.requests > 0
    ensures Positive(AddRow(table, row))
  {
    if table != [] && Last(table).key != row.key {
      AddRowPositive(Init(table), row);
    }
  }

  lemma {:induction false} GroupPositive(table: Table)
    requires Positive(table)
    ensures Positive(Group(table))
  {
    if table != [] {
      assert forall j :: 0 <= j < |Init(table)| ==> Init(table)[j] == table[j];
      GroupPositive(Init(table));
      AddRowPositive(Group(Init(table)), Last(table));
    }
  }

  lemma {:induction false} ReshapedPositive(table: Table, from: int, to: int)
    requires Positive(table)
    ensures Positive(ByDay(table)) && Positive(Collapse(table)) && Positive(Inside(table, from, to))
  {
    if table != [] {
      assert forall j :: 0 <= j < |Init(table)| ==> Init(table)[j] == table[j];
      ReshapedPositive(Init(table), from, to);
      assert Last(table).stats.requests > 0;
    }
  }
}
