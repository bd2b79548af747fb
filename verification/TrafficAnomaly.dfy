/**
 The traffic-anomaly detector (internal/detect/anomaly.go): a seasonal baseline
 per hour of the week from the 26 days before the last 48 hours, and those 48
 hours scored against it.  Hours are counted from 1970-01-01T00:00Z, a Thursday.
 */
module TrafficAnomaly {
  import opened Prelude
  import opened RobustStats
  import opened AnomalyRuns

  datatype Stat = Stat(hour: int, requests: nat, errors: nat, tokens: nat, cost: int)

  const LOOKBACK_HOURS := 28 * 24
  const MIN_HISTORY_HOURS := 14 * 24
  const EVALUATION_HOURS := 48
  const MIN_SLOT_SAMPLES := 3

  /** One of the 168 hours of a week, from Sunday 00:00. */
  type Slot = nat

  function HourOfWeek(hour: int): Slot {
    (hour + 4 * 24) % 168
  }

  function ErrorRateOf(s: Stat): real {
    if s.requests == 0 then 0.0 else s.errors as real / s.requests as real
  }

  function ValueOf(s: Stat, m: Metric): real {
    match m
    case RequestCount => s.requests as real
    case Cost => s.cost as real
    case Tokens => s.tokens as real
    case ErrorRate => ErrorRateOf(s)
  }

  // ---------------------------------------------------------------- rows in time order

  ghost predicate InTimeOrder(stats: seq<Stat>) {
    forall i, j :: 0 <= i < j < |stats| ==> stats[i].hour <= stats[j].hour
  }

  function InsertStat(s: Stat, rows: seq<Stat>): (r: seq<Stat>)
    requires InTimeOrder(rows)
    ensures InTimeOrder(r) && |r| == |rows| + 1 && forall x :: x in r <==> x == s || x in rows
  {
    if rows == [] || s.hour <= rows[0].hour then [s] + rows
    else
      var rest := InsertStat(s, rows[1..]);
      assert forall i :: 0 <= i < |rest| ==> rest[i] in rest;
      [rows[0]] + rest
  }

  /** sort.Slice by bucket. */
  function SortStats(stats: seq<Stat>): (r: seq<Stat>)
    ensures InTimeOrder(r) && |r| == |stats| && forall x :: x in r <==> x in stats
  {
    if stats == [] then [] else InsertStat(stats[0], SortStats(stats[1..]))
  }

  /** byBucket: the row of an hour, or an empty one. */
  function RowOf(rows: seq<Stat>, hour: int): (s: Stat)
    ensures s.hour == hour && (s in rows || (s == Stat(hour, 0, 0, 0, 0) && forall r :: r in rows ==> r.hour != hour))
  {
    if rows == [] then Stat(hour, 0, 0, 0, 0)
    else if rows[|rows| - 1].hour == hour then rows[|rows| - 1]
    else RowOf(rows[..|rows| - 1], hour)
  }

  // ---------------------------------------------------------------- the baseline

  predicate InBaseline(s: Stat, hourEnd: int) {
    hourEnd - LOOKBACK_HOURS <= s.hour < hourEnd - EVALUATION_HOURS
  }

  /** The rows of a slot that the baseline is built from. */
  function SlotRows(rows: seq<Stat>, hourEnd: int, slot: Slot): seq<Stat> {
    if rows == [] then []
    else SlotRows(rows[..|rows| - 1], hourEnd, slot)
         + if InBaseline(rows[|rows| - 1], hourEnd) && HourOfWeek(rows[|rows| - 1].hour) == slot
           then [rows[|rows| - 1]] else []
  }

  function Values(rows: seq<Stat>, m: Metric): (vals: seq<real>)
    ensures |vals| == |rows|
  {
    seq(|rows|, i requires 0 <= i < |rows| => ValueOf(rows[i], m))
  }

  datatype Center = Center(median: real, mad: real)

  datatype Baseline = Baseline(requests: Center, cost: Center, tokens: Center, errorRate: Center)

  function CenterOf(rows: seq<Stat>, m: Metric): Center
    requires rows != []
  {
    Center(Median(Values(rows, m)), MAD(Values(rows, m)))
  }

  function BaselineOf(rows: seq<Stat>): Baseline
    requires rows != []
  {
    Baseline(CenterOf(rows, RequestCount), CenterOf(rows, Cost), CenterOf(rows, Tokens), CenterOf(rows, ErrorRate))
  }

  function Bucket(bySlot: map<Slot, seq<Stat>>, slot: Slot): seq<Stat> {
    if slot in bySlot then bySlot[slot] else []
  }

  method GroupBySlot(rows: seq<Stat>, hourEnd: int) returns (bySlot: map<Slot, seq<Stat>>)
    ensures forall slot :: Bucket(bySlot, slot) == SlotRows(rows, hourEnd, slot)
  {
    bySlot := map[];
    for i := 0 to |rows|
      invariant forall slot :: Bucket(bySlot, slot) == SlotRows(rows[..i], hourEnd, slot)
    {
      assert rows[..i + 1][..i] == rows[..i];
      var s := rows[i];
      if InBaseline(s, hourEnd) {
        var slot := HourOfWeek(s.hour);
        bySlot := bySlot[slot := Bucket(bySlot, slot) + [s]];
      }
    }
    assert rows[..|rows|] == rows;
  }

  /** A center for every slot with enough samples. */
  method BuildBaselines(rows: seq<Stat>, hourEnd: int) returns (baselines: map<Slot, Baseline>)
    ensures forall slot :: slot in baselines <==> |SlotRows(rows, hourEnd, slot)| >= 3
    ensures forall slot :: slot in baselines ==> baselines[slot] == BaselineOf(SlotRows(rows, hourEnd, slot))
  {
    var bySlot := GroupBySlot(rows, hourEnd);
    baselines := Centers(bySlot);
  }

  method Centers(bySlot: map<Slot, seq<Stat>>) returns (baselines: map<Slot, Baseline>)
    ensures forall slot :: slot in baselines <==> |Bucket(bySlot, slot)| >= MIN_SLOT_SAMPLES
    ensures forall slot :: slot in baselines ==> baselines[slot] == BaselineOf(Bucket(bySlot, slot))
  {
    baselines := map[];
    var slots := bySlot.Keys;
    while slots != {}
      invariant slots <= bySlot.Keys
      invariant forall slot :: slot in baselines <==> slot !in slots && |Bucket(bySlot, slot)| >= MIN_SLOT_SAMPLES
      invariant forall slot :: slot in baselines ==> baselines[slot] == BaselineOf(Bucket(bySlot, slot))
      decreases slots
    {
      var slot :| slot in slots;
      slots := slots - {slot};
      if |bySlot[slot]| >= MIN_SLOT_SAMPLES {
        baselines := baselines[slot := BaselineOf(bySlot[slot])];
      }
    }
  }

  // ---------------------------------------------------------------- scoring

  function Larger(a: Peak, b: Peak): Peak {
    if Abs(b.z) > Abs(a.z) then b else a
  }

  /** pickPeak: the first metric to reach the largest score. */
  function PickPeak(requests: Peak, cost: Peak, tokens: Peak, errorRate: Peak): Peak {
    Larger(Larger(Larger(requests, cost), tokens), errorRate)
  }

  function CenterFor(b: Baseline, m: Metric): Center {
    match m
    case RequestCount => b.requests
    case Cost => b.cost
    case Tokens => b.tokens
    case ErrorRate => b.errorRate
  }

  function PeakOf(s: Stat, b: Baseline, m: Metric): Peak {
    var c := CenterFor(b, m);
    Peak(RobustZ(ValueOf(s, m), c.median, c.mad), m, ValueOf(s, m), c.median)
  }

  const NO_PEAK := Peak(0.0, RequestCount, 0.0, 0.0)

  /** The score of an hour that has a baseline. */
  function Scored(s: Stat, b: Baseline): HourResult {
    HourResult(s.hour, s.requests, PeakOf(s, b, Cost).z,
               PickPeak(PeakOf(s, b, RequestCount), PeakOf(s, b, Cost), PeakOf(s, b, Tokens), PeakOf(s, b, ErrorRate)),
               ErrorRateOf(s) - b.errorRate.median)
  }

  /** An hour whose slot has too few samples is never hot. */
  function Score(rows: seq<Stat>, hourEnd: int, hour: int): HourResult {
    var s, past := RowOf(rows, hour), SlotRows(rows, hourEnd, HourOfWeek(hour));
    if |past| >= MIN_SLOT_SAMPLES then Scored(s, BaselineOf(past)) else HourResult(hour, s.requests, 0.0, NO_PEAK, 0.0)
  }

  function Results(rows: seq<Stat>, hourEnd: int): seq<HourResult> {
    seq(48, i requires 0 <= i < 48 => Score(rows, hourEnd, hourEnd - 48 + i))
  }

  method ScoreHours(rows: seq<Stat>, hourEnd: int) returns (results: seq<HourResult>)
    ensures results == Results(rows, hourEnd)
  {
    var baselines := BuildBaselines(rows, hourEnd);
    results := [];
    var start := hourEnd - EVALUATION_HOURS;
    for i := 0 to EVALUATION_HOURS
      invariant results == Results(rows, hourEnd)[..i]
    {
      var hour := start + i;
      var s := RowOf(rows, hour);
      var slot := HourOfWeek(hour);
      var hr := HourResult(hour, s.requests, 0.0, NO_PEAK, 0.0);
      if slot in baselines {
        hr := Scored(s, baselines[slot]);
      }
      assert hr == Score(rows, hourEnd, hour);
      results := results + [hr];
    }
  }

  /** DetectTrafficAnomaly: nothing without rows at least 14 days back; otherwise
      a candidate for every run of two hot hours or more in the last 48. */
  method DetectTrafficAnomaly(stats: seq<Stat>, now: int) returns (candidates: seq<Candidate>)
    ensures var hourEnd := now / 3600;
            if exists s :: s in stats && s.hour <= hourEnd - 14 * 24
            then DescribeRuns(candidates, Results(SortStats(stats), hourEnd))
            else candidates == []
  {
    candidates := [];
    if |stats| == 0 {
      return;
    }
    var rows := SortStats(stats);
    var hourEnd := now / 3600;
    assert rows[0] in rows;
    if rows[0].hour > hourEnd - MIN_HISTORY_HOURS {
      return;
    }
    var results := ScoreHours(rows, hourEnd);
    candidates := Extract(results);
  }

  // ---------------------------------------------------------------- what is hot

  /** More than 3.5 MADs from the median of its hour of the week. */
  ghost predicate Deviates(s: Stat, past: seq<Stat>, m: Metric)
    requires past != []
  {
    var deviation, mad := ValueOf(s, m) - Median(Values(past, m)), MAD(Values(past, m));
    deviation > 3.5 * mad || -deviation > 3.5 * mad
  }

  ghost predicate PastThreshold(z: real) {
    z > 3.5 || z < -3.5
  }

  ghost predicate SomeMetricDeviates(s: Stat, past: seq<Stat>) {
    past != [] && exists m: Metric :: Deviates(s, past, m)
  }

  lemma PeakMeansDeviation(s: Stat, past: seq<Stat>, m: Metric)
    requires past != []
    ensures PastThreshold(PeakOf(s, BaselineOf(past), m).z) <==> Deviates(s, past, m)
  {
    var vals := Values(past, m);
    AllWithinSomething(vals);
    ZMeaning(ValueOf(s, m), Median(vals), MAD(vals));
  }

  lemma {:induction false} SpreadExists(vals: seq<real>) returns (lo: real, hi: real)
    ensures lo <= hi && Within(vals, lo, hi) == |vals|
  {
    if vals == [] {
      lo, hi := 0.0, 0.0;
    } else {
      var l, h := SpreadExists(vals[1..]);
      lo := if vals[0] < l then vals[0] else l;
      hi := if vals[0] > h then vals[0] else h;
      WithinGrows(vals[1..], l, h, lo, hi);
    }
  }

  lemma {:induction false} WithinGrows(vals: seq<real>, lo: real, hi: real, lo': real, hi': real)
    requires lo' <= lo && hi <= hi'
    ensures Within(vals, lo, hi) <= Within(vals, lo', hi')
  {
    if vals != [] {
      WithinGrows(vals[1..], lo, hi, lo', hi');
    }
  }

  lemma AllWithinSomething(vals: seq<real>)
    requires vals != []
    ensures MAD(vals) >= 0.0
  {
    var lo, hi := SpreadExists(vals);
    MADOfMajority(vals, lo, hi);
  }

  lemma StrongestMetric(s: Stat, b: Baseline)
    ensures var p := Scored(s, b).peak;
            p == PeakOf(s, b, p.metric) && forall m: Metric :: Abs(PeakOf(s, b, m).z) <= Abs(p.z)
  {
    forall m: Metric ensures Abs(PeakOf(s, b, m).z) <= Abs(Scored(s, b).peak.z) {
      match m case _ =>
    }
  }

  lemma ScoredMeaning(s: Stat, past: seq<Stat>)
    requires past != []
    ensures Hot(Scored(s, BaselineOf(past))) <==> SomeMetricDeviates(s, past)
  {
    var b := BaselineOf(past);
    StrongestMetric(s, b);
    forall m: Metric ensures PastThreshold(PeakOf(s, b, m).z) <==> Deviates(s, past, m) {
      PeakMeansDeviation(s, past, m);
    }
    var p := Scored(s, b).peak;
    assert PastThreshold(PeakOf(s, b, p.metric).z) <==> Deviates(s, past, p.metric);
  }

  /** An hour is hot exactly if its slot has three samples and one of the four
      metrics deviates from them. */
  lemma HotMeaning(rows: seq<Stat>, hourEnd: int, hour: int)
    ensures var s, past := RowOf(rows, hour), SlotRows(rows, hourEnd, HourOfWeek(hour));
            && (Hot(Score(rows, hourEnd, hour)) <==> |past| >= 3 && SomeMetricDeviates(s, past))
            && (Hot(Score(rows, hourEnd, hour)) <==> PastThreshold(Score(rows, hourEnd, hour).peak.z))
  {
    var s, past := RowOf(rows, hour), SlotRows(rows, hourEnd, HourOfWeek(hour));
    if |past| >= 3 {
      ScoredMeaning(s, past);
    }
  }

  // ---------------------------------------------------------------- what is scored

  /** Two hours share a slot exactly if whole weeks lie between them. */
  lemma SameSlotIff(a: int, b: int)
    ensures HourOfWeek(a) == HourOfWeek(b) <==> (a - b) % (7 * 24) == 0
  {
  }

  /** An hour's past: the rows of the 26 days before the 48 hours that lie whole
      weeks from it, each where it was. */
  lemma {:induction false} SlotRowsMeaning(rows: seq<Stat>, hourEnd: int, hour: int) returns (at: seq<nat>)
    ensures Picks(rows, SlotRows(rows, hourEnd, HourOfWeek(hour)), at)
    ensures forall i: nat :: i in at <==>
              i < |rows| && hourEnd - 28 * 24 <= rows[i].hour < hourEnd - 48 && (rows[i].hour - hour) % (7 * 24) == 0
  {
    at := [];
    if rows != [] {
      var before, last := rows[..|rows| - 1], rows[|rows| - 1];
      at := SlotRowsMeaning(before, hourEnd, hour);
      PicksOn(before, SlotRows(before, hourEnd, HourOfWeek(hour)), at, last);
      SameSlotIff(last.hour, hour);
      assert rows == before + [last];
      if InBaseline(last, hourEnd) && HourOfWeek(last.hour) == HourOfWeek(hour) {
        at := at + [|before|];
      }
    }
  }

  /** `x` is what the hour's row says of the metric; without requests the error
      rate is 0. */
  ghost predicate Reads(x: real, s: Stat, m: Metric) {
    match m
    case RequestCount => x == s.requests as real
    case Cost => x == s.cost as real
    case Tokens => x == s.tokens as real
    case ErrorRate => if s.requests == 0 then x == 0.0 else x * s.requests as real == s.errors as real
  }

  /** The metric `m` of the hour against its past, in its own readings. */
  ghost predicate Measures(p: Peak, m: Metric, s: Stat, past: seq<Stat>, readings: seq<real>) {
    && |readings| == |past| > 0 && (forall i :: 0 <= i < |past| ==> Reads(readings[i], past[i], m))
    && p.metric == m && Reads(p.value, s, m) && p.median == Median(readings)
    && p.z == RobustZ(p.value, Median(readings), MAD(readings))
  }

  lemma PeakMeaning(s: Stat, past: seq<Stat>, m: Metric)
    requires past != []
    ensures Measures(PeakOf(s, BaselineOf(past), m), m, s, past, Values(past, m))
  {
    ValueMeaning(s, m);
    forall i | 0 <= i < |past| ensures Reads(Values(past, m)[i], past[i], m) {
      ValueMeaning(past[i], m);
    }
  }

  lemma ValueMeaning(s: Stat, m: Metric)
    ensures Reads(ValueOf(s, m), s, m)
  {
  }

  /** What an evaluated hour with three samples is given: the strongest of its four
      metrics, the first of equals in the order requests, cost, tokens, error rate;
      the score of its cost; and how far its error rate is above the median's.
      With fewer samples it is given nothing. */
  lemma ScoreMeaning(rows: seq<Stat>, hourEnd: int, hour: int)
    ensures var r, s, past := Score(rows, hourEnd, hour), RowOf(rows, hour), SlotRows(rows, hourEnd, HourOfWeek(hour));
            && r.hour == hour && r.requests == s.requests
            && (|past| < 3 ==> r.peak == Peak(0.0, RequestCount, 0.0, 0.0) && r.zCost == 0.0 && r.errorSpike == 0.0)
            && (|past| >= 3 ==>
                  && Measures(r.peak, r.peak.metric, s, past, Values(past, r.peak.metric))
                  && (exists cost: Peak :: Measures(cost, Cost, s, past, Values(past, Cost)) && r.zCost == cost.z)
                  && (exists rate: Peak :: Measures(rate, ErrorRate, s, past, Values(past, ErrorRate))
                                           && r.errorSpike == rate.value - rate.median)
                  && FirstStrongest(r.peak, s, past))
  {
    var s, past := RowOf(rows, hour), SlotRows(rows, hourEnd, HourOfWeek(hour));
    if |past| >= 3 {
      PeakMeaning(s, past, Cost);
      PeakMeaning(s, past, ErrorRate);
      StrongestComesFirst(s, past);
      PeakMeaning(s, past, Scored(s, BaselineOf(past)).peak.metric);
    }
  }

  function Place(m: Metric): nat {
    match m
    case RequestCount => 0
    case Cost => 1
    case Tokens => 2
    case ErrorRate => 3
  }

  /** No metric is further from zero, and none before it as far. */
  ghost predicate FirstStrongest(peak: Peak, s: Stat, past: seq<Stat>)
    requires past != []
  {
    forall m: Metric ::
      var z := PeakOf(s, BaselineOf(past), m).z;
      Further(peak.z, z) || (!Further(z, peak.z) && Place(peak.metric) <= Place(m))
  }

  /** Further from zero. */
  ghost predicate Further(y: real, z: real) {
    (y > z && y > -z) || (-y > z && -y > -z)
  }

  lemma StrongestComesFirst(s: Stat, past: seq<Stat>)
    requires past != []
    ensures var p := Scored(s, BaselineOf(past)).peak;
            p == PeakOf(s, BaselineOf(past), p.metric) && FirstStrongest(p, s, past)
  {
    var b := BaselineOf(past);
    var p := Scored(s, b).peak;
    StrongestMetric(s, b);
    forall m: Metric
      ensures var z := PeakOf(s, b, m).z; Further(p.z, z) || (!Further(z, p.z) && Place(p.metric) <= Place(m))
    {
      FirstOfEquals(s, b, m);
    }
  }

  lemma FirstOfEquals(s: Stat, b: Baseline, m: Metric)
    ensures var p := Scored(s, b).peak; Abs(PeakOf(s, b, m).z) < Abs(p.z) || Place(p.metric) <= Place(m)
  {
  }

  // ---------------------------------------------------------------- the baseline's independence

  /** The rows before the evaluated hours. */
  function Past(rows: seq<Stat>, hourEnd: int): seq<Stat> {
    if rows == [] then []
    else Past(rows[..|rows| - 1], hourEnd)
         + if rows[|rows| - 1].hour < hourEnd - EVALUATION_HOURS then [rows[|rows| - 1]] else []
  }

  lemma {:induction false} SlotRowsFromPast(rows: seq<Stat>, hourEnd: int, slot: Slot)
    ensures SlotRows(rows, hourEnd, slot) == SlotRows(Past(rows, hourEnd), hourEnd, slot)
  {
    if rows != [] {
      var before, last := rows[..|rows| - 1], rows[|rows| - 1];
      SlotRowsFromPast(before, hourEnd, slot);
      assert rows == before + [last];
      assert Past(rows, hourEnd) ==
             if last.hour < hourEnd - EVALUATION_HOURS then Past(before, hourEnd) + [last] else Past(before, hourEnd);
    }
  }

  /** Whatever happens in the 48 evaluated hours, and later, leaves every baseline
      as it was: a spike cannot raise the bar it is measured against. */
  lemma BaselinesIgnoreEvaluatedHours(a: seq<Stat>, b: seq<Stat>, hourEnd: int, slot: Slot)
    requires Past(a, hourEnd) == Past(b, hourEnd)
    ensures SlotRows(a, hourEnd, slot) == SlotRows(b, hourEnd, slot)
  {
    SlotRowsFromPast(a, hourEnd, slot);
    SlotRowsFromPast(b, hourEnd, slot);
  }

  /** So an hour's verdict depends on nothing of the 48 hours but its own row. */
  lemma HotDependsOnOwnRow(a: seq<Stat>, b: seq<Stat>, hourEnd: int, hour: int)
    requires Past(a, hourEnd) == Past(b, hourEnd) && RowOf(a, hour) == RowOf(b, hour)
    ensures Score(a, hourEnd, hour) == Score(b, hourEnd, hour)
  {
    BaselinesIgnoreEvaluatedHours(a, b, hourEnd, HourOfWeek(hour));
  }
}
