/** Cutting scored hours into runs of hot ones (internal/detect/anomaly.go). */
module AnomalyRuns {
  import opened Prelude
  import opened RobustStats

  datatype Metric = RequestCount | Cost | Tokens | ErrorRate

  datatype Peak = Peak(z: real, metric: Metric, value: real, median: real)

  datatype HourResult = HourResult(hour: int, requests: nat, zCost: real, peak: Peak, errorSpike: real)

  datatype Candidate = Candidate(start: int, end: int, peak: Peak, errorSpike: real, requests: nat, high: bool)

  const HIGH_COST_Z := 5.0
  const HIGH_ERROR_SPIKE := 0.10
  const MIN_RUN_HOURS := 2

  predicate Hot(r: HourResult) {
    Abs(r.peak.z) > Z_THRESHOLD
  }

  // ---------------------------------------------------------------- runs

  ghost predicate AllHot(results: seq<HourResult>, s: int, e: int)
    requires 0 <= s <= e <= |results|
  {
    forall i :: s <= i < e ==> Hot(results[i])
  }

  /** Hot throughout, and hot neither just before nor just after. */
  ghost predicate IsRun(results: seq<HourResult>, s: int, e: int) {
    && 0 <= s < e <= |results| && AllHot(results, s, e)
    && (s > 0 ==> !Hot(results[s - 1])) && (e < |results| ==> !Hot(results[e]))
  }

  /** Two runs are the same or have a cold hour between them. */
  lemma RunsApart(results: seq<HourResult>, s: int, e: int, s': int, e': int)
    requires IsRun(results, s, e) && IsRun(results, s', e') && s <= s'
    ensures (s == s' && e == e') || e < s'
  {
  }

  /** A hot hour lies in a run. */
  lemma HotHourHasRun(results: seq<HourResult>, i: nat) returns (s: int, e: int)
    requires i < |results| && Hot(results[i])
    ensures s <= i < e && IsRun(results, s, e)
  {
    s, e := i, i + 1;
    while s > 0 && Hot(results[s - 1])
      invariant 0 <= s <= i && AllHot(results, s, e)
    {
      s := s - 1;
    }
    while e < |results| && Hot(results[e])
      invariant i < e <= |results| && AllHot(results, s, e)
    {
      e := e + 1;
    }
  }

  // ---------------------------------------------------------------- one run's candidate

  function SumRequests(run: seq<HourResult>): nat {
    if run == [] then 0 else SumRequests(run[..|run| - 1]) + run[|run| - 1].requests
  }

  predicate Severe(r: HourResult) {
    r.zCost > 5.0 || r.errorSpike > 0.10
  }

  /** The strongest hour of a run, the first if several are. */
  ghost predicate Strongest(run: seq<HourResult>, i: nat) {
    && i < |run|
    && (forall j :: 0 <= j < |run| ==> Abs(run[j].peak.z) <= Abs(run[i].peak.z))
    && (forall j :: 0 <= j < i ==> Abs(run[j].peak.z) < Abs(run[i].peak.z))
  }

  ghost predicate GreatestSpike(run: seq<HourResult>, spike: real) {
    (forall j :: 0 <= j < |run| ==> run[j].errorSpike <= spike) && exists j :: 0 <= j < |run| && run[j].errorSpike == spike
  }

  ghost predicate GreatestCostZ(run: seq<HourResult>, z: real) {
    (forall j :: 0 <= j < |run| ==> run[j].zCost <= z) && exists j :: 0 <= j < |run| && run[j].zCost == z
  }

  ghost predicate Describes(c: Candidate, run: seq<HourResult>) {
    && run != []
    && c.start == run[0].hour && c.end == run[|run| - 1].hour + 1
    && (exists i: nat :: Strongest(run, i) && c.peak == run[i].peak)
    && GreatestSpike(run, c.errorSpike)
    && c.requests == SumRequests(run)
    && (c.high <==> exists i :: 0 <= i < |run| && Severe(run[i]))
  }

  method Describe(run: seq<HourResult>) returns (c: Candidate)
    requires run != []
    ensures Describes(c, run)
  {
    var peak, spike, costZ, requests := run[0].peak, run[0].errorSpike, run[0].zCost, run[0].requests;
    ghost var at: nat := 0;
    assert run[..1][..0] == [];
    for i := 1 to |run|
      invariant at < i && peak == run[at].peak && Strongest(run[..i], at)
      invariant GreatestSpike(run[..i], spike) && GreatestCostZ(run[..i], costZ)
      invariant requests == SumRequests(run[..i])
    {
      var r := run[i];
      GreatestGrow(run, i, spike, costZ);
      StrongestGrows(run, i, at);
      if Abs(r.peak.z) > Abs(peak.z) {
        peak, at := r.peak, i;
      }
      requests := requests + r.requests;
      assert run[..i + 1][..i] == run[..i];
      if r.errorSpike > spike {
        spike := r.errorSpike;
      }
      if r.zCost > costZ {
        costZ := r.zCost;
      }
    }
    assert run[..|run|] == run;
    HighMeansSevere(run, spike, costZ);
    var high := costZ > HIGH_COST_Z || spike > HIGH_ERROR_SPIKE;
    c := Candidate(run[0].hour, run[|run| - 1].hour + 1, peak, spike, requests, high);
  }

  lemma HighMeansSevere(run: seq<HourResult>, spike: real, costZ: real)
    requires GreatestSpike(run, spike) && GreatestCostZ(run, costZ)
    ensures (costZ > HIGH_COST_Z || spike > HIGH_ERROR_SPIKE) <==> exists i :: 0 <= i < |run| && Severe(run[i])
  {
    var j :| 0 <= j < |run| && run[j].errorSpike == spike;
    var k :| 0 <= k < |run| && run[k].zCost == costZ;
    assert Severe(run[j]) || Severe(run[k]) || (costZ <= HIGH_COST_Z && spike <= HIGH_ERROR_SPIKE);
  }

  lemma StrongestGrows(run: seq<HourResult>, i: nat, at: nat)
    requires i < |run| && Strongest(run[..i], at)
    ensures Strongest(run[..i + 1], if Abs(run[i].peak.z) > Abs(run[at].peak.z) then i else at)
  {
  }

  lemma GreatestGrow(run: seq<HourResult>, i: nat, spike: real, costZ: real)
    requires i < |run| && GreatestSpike(run[..i], spike) && GreatestCostZ(run[..i], costZ)
    ensures GreatestSpike(run[..i + 1], if run[i].errorSpike > spike then run[i].errorSpike else spike)
    ensures GreatestCostZ(run[..i + 1], if run[i].zCost > costZ then run[i].zCost else costZ)
  {
    var j :| 0 <= j < i && run[..i][j].errorSpike == spike;
    var k :| 0 <= k < i && run[..i][k].zCost == costZ;
    assert run[..i + 1][j].errorSpike == spike && run[..i + 1][k].zCost == costZ && run[..i + 1][i] == run[i];
  }

  // ---------------------------------------------------------------- extraction

  datatype Span = Span(start: int, end: int)

  predicate LongEnough(sp: Span) {
    sp.end - sp.start >= 2
  }

  /** The long enough runs that start before `i`, in order. */
  ghost predicate SpansUpTo(results: seq<HourResult>, spans: seq<Span>, i: int) {
    && (forall sp: Span :: sp in spans <==> IsRun(results, sp.start, sp.end) && LongEnough(sp) && sp.start < i)
    && (forall j, k :: 0 <= j < k < |spans| ==> spans[j].end < spans[k].start)
  }

  ghost predicate AllDescribed(results: seq<HourResult>, spans: seq<Span>, candidates: seq<Candidate>) {
    && |candidates| == |spans|
    && forall k :: 0 <= k < |spans| ==>
         0 <= spans[k].start <= spans[k].end <= |results| && Describes(candidates[k], results[spans[k].start..spans[k].end])
  }

  /** Between the start and the end of a run no other run starts. */
  lemma OneRunStarts(results: seq<HourResult>, spans: seq<Span>, s: nat, e: nat)
    requires SpansUpTo(results, spans, s) && IsRun(results, s, e)
    ensures var more := if LongEnough(Span(s, e)) then spans + [Span(s, e)] else spans;
            SpansUpTo(results, more, e)
  {
    forall sp: Span | IsRun(results, sp.start, sp.end) && sp.start < e ensures sp.start < s || sp == Span(s, e) {
      if sp.start >= s {
        RunsApart(results, s, e, sp.start, sp.end);
      }
    }
    forall sp | sp in spans ensures sp.end < s {
      RunsApart(results, sp.start, sp.end, s, e);
    }
  }

  lemma DescribedMore(results: seq<HourResult>, spans: seq<Span>, candidates: seq<Candidate>, sp: Span, c: Candidate)
    requires AllDescribed(results, spans, candidates)
    requires 0 <= sp.start <= sp.end <= |results| && Describes(c, results[sp.start..sp.end])
    ensures AllDescribed(results, spans + [sp], candidates + [c])
  {
  }

  /** The inner loop: past the hot hours from `start` on. */
  method RunEnd(results: seq<HourResult>, start: nat) returns (i: nat)
    requires start < |results| && Hot(results[start])
    ensures start < i <= |results| && AllHot(results, start, i) && (i < |results| ==> !Hot(results[i]))
  {
    i := start + 1;
    while i < |results| && Hot(results[i])
      invariant start < i <= |results| && AllHot(results, start, i)
    {
      i := i + 1;
    }
  }

  /** The candidates describe all long enough runs, one each, in order. */
  ghost predicate DescribeRuns(candidates: seq<Candidate>, results: seq<HourResult>) {
    exists spans: seq<Span> :: SpansUpTo(results, spans, |results|) && AllDescribed(results, spans, candidates)
  }

  /** The extraction loop: one candidate for each run of two hours or more, in order. */
  method Extract(results: seq<HourResult>) returns (candidates: seq<Candidate>)
    ensures DescribeRuns(candidates, results)
  {
    candidates := [];
    ghost var spans: seq<Span> := [];
    var i := 0;
    while i < |results|
      invariant 0 <= i <= |results| && (0 < i < |results| && Hot(results[i]) ==> !Hot(results[i - 1]))
      invariant SpansUpTo(results, spans, i) && AllDescribed(results, spans, candidates)
    {
      if !Hot(results[i]) {
        i := i + 1;
        continue;
      }
      var start := i;
      i := RunEnd(results, start);
      assert IsRun(results, start, i);
      OneRunStarts(results, spans, start, i);
      if i - start >= MIN_RUN_HOURS {
        var c := Describe(results[start..i]);
        DescribedMore(results, spans, candidates, Span(start, i), c);
        candidates, spans := candidates + [c], spans + [Span(start, i)];
      }
    }
  }

  // ---------------------------------------------------------------- what the windows mean

  predicate Covers(sp: Span, i: int) {
    sp.start <= i < sp.end
  }

  /** A hot hour with a hot neighbour is in exactly one candidate's window; a cold
      or lone hot hour is in none. */
  lemma WindowsCoverHotPairs(results: seq<HourResult>, spans: seq<Span>, i: nat)
    requires SpansUpTo(results, spans, |results|) && i < |results|
    ensures (exists k :: 0 <= k < |spans| && Covers(spans[k], i)) <==>
              Hot(results[i]) && ((i > 0 && Hot(results[i - 1])) || (i + 1 < |results| && Hot(results[i + 1])))
    ensures forall j, k :: 0 <= j < |spans| && 0 <= k < |spans| && Covers(spans[j], i) && Covers(spans[k], i) ==> j == k
  {
    if k :| 0 <= k < |spans| && Covers(spans[k], i) {
      assert spans[k] in spans;
    }
    forall j, k | 0 <= j < |spans| && 0 <= k < |spans| && Covers(spans[j], i) && Covers(spans[k], i) ensures j == k {
      assert spans[j] in spans && spans[k] in spans;
    }
    if Hot(results[i]) {
      var s, e := HotHourHasRun(results, i);
      if e - s >= MIN_RUN_HOURS {
        assert Span(s, e) in spans;
        var k :| 0 <= k < |spans| && spans[k] == Span(s, e);
        assert Covers(spans[k], i);
      }
    }
  }
}
