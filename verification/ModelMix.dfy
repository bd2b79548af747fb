/** Rerouting a share of one model's traffic (internal/sim/modelmix.go), priced
    by the catalog arithmetic of pkg/pricing/catalog.go. */
module ModelMix {
  import opened Prelude
  import opened ReplayFacts

  // ---------------------------------------------------------------- pricing

  datatype ModelPrice = ModelPrice(inputPerMTokMicro: int, outputPerMTokMicro: int)
  type Catalog = map<Model, ModelPrice>

  /** Go's integer division drops the fraction of the quotient. */
  function Quotient(a: int, b: int): int
    requires b > 0
  {
    if a < 0 then -((-a) / b) else a / b
  }

  /** A model missing from the catalog costs nothing and says so. */
  function Calculate(catalog: Catalog, model: Model, inputTokens: int, outputTokens: int): (int, CostStatus) {
    if model !in catalog then (0, CostUnknown)
    else
      var price := catalog[model];
      (Quotient(inputTokens * price.inputPerMTokMicro, 1_000_000)
       + Quotient(outputTokens * price.outputPerMTokMicro, 1_000_000), CostKnown)
  }

  // ---------------------------------------------------------------- the split

  /** `cost` is a millionth of `product`, its fraction cut off towards zero. */
  ghost predicate Millionth(cost: int, product: int) {
    && (product >= 0 ==> 0 <= product - 1_000_000 * cost < 1_000_000)
    && (product <= 0 ==> 0 <= 1_000_000 * cost - product < 1_000_000)
  }

  /** A catalog's prices are per million tokens, and each direction is cut off for
      itself; a model it does not know costs nothing and has no known cost. */
  lemma PriceMeaning(catalog: Catalog, model: Model, inputTokens: int, outputTokens: int)
    returns (input: int, output: int)
    ensures model !in catalog ==> Calculate(catalog, model, inputTokens, outputTokens) == (0, CostUnknown)
    ensures model in catalog ==>
              && Millionth(input, inputTokens * catalog[model].inputPerMTokMicro)
              && Millionth(output, outputTokens * catalog[model].outputPerMTokMicro)
              && Calculate(catalog, model, inputTokens, outputTokens) == (input + output, CostKnown)
  {
    input, output := 0, 0;
    if model in catalog {
      input := Quotient(inputTokens * catalog[model].inputPerMTokMicro, 1_000_000);
      output := Quotient(outputTokens * catalog[model].outputPerMTokMicro, 1_000_000);
    }
  }

  datatype ModelMixScenario = ModelMixScenario(current: Model, candidate: Model, trafficWeight: real)
  datatype BreakdownRow = BreakdownRow(model: Model, requests: int, actualCostMicro: int, simulatedCostMicro: int)
  datatype ModelMixResult = ModelMixResult(
    replayedRequests: int,
    affectedRequests: int,
    actualCostMicro: int,
    simulatedCostMicro: int,
    breakdown: seq<BreakdownRow>)

  predicate Matches(f: ReplayFact, sc: ModelMixScenario) {
    f.requestedModel == sc.current && f.costStatus.CostKnown? && f.status.Ok?
  }

  /** The replayed requests the scenario is about. */
  ghost function Matching(facts: seq<ReplayFact>, sc: ModelMixScenario): seq<ReplayFact> {
    if facts == [] then []
    else Matching(Init(facts), sc) + (if Matches(Last(facts), sc) then [Last(facts)] else [])
  }

  /** Which those are: the successful requests for the current model whose cost is
      known, each where it was. */
  lemma {:induction false} MatchingMeaning(facts: seq<ReplayFact>, sc: ModelMixScenario) returns (at: seq<nat>)
    ensures Picks(facts, Matching(facts, sc), at)
    ensures forall i: nat :: i in at <==>
              i < |facts| && facts[i].requestedModel == sc.current && facts[i].costStatus == CostKnown && facts[i].status == Ok
  {
    at := [];
    if facts != [] {
      at := MatchingMeaning(Init(facts), sc);
      PicksOn(Init(facts), Matching(Init(facts), sc), at, Last(facts));
      assert facts == Init(facts) + [Last(facts)];
      if Matches(Last(facts), sc) {
        at := at + [|facts| - 1];
      }
    }
  }

  /** A weight outside [0, 1] acts as the nearer end. */
  ghost function Share(weight: real): real {
    if weight < 0.0 then 0.0 else if weight > 1.0 then 1.0 else weight
  }

  /** How many of the first n matching requests are rerouted. */
  ghost function Rerouted(weight: real, n: nat): int {
    (Share(weight) * n as real).Floor
  }

  /** Whether the matching request number n (from 0) is rerouted: it depends on
      the weight and the number alone. */
  ghost predicate Reroutes(weight: real, n: nat) {
    Rerouted(weight, n + 1) > Rerouted(weight, n)
  }

  ghost function CandidateCost(catalog: Catalog, sc: ModelMixScenario, f: ReplayFact): int {
    Calculate(catalog, sc.candidate, f.inputTokens, f.outputTokens).0
  }

  /** The cost of the matching requests that stay, and of those that move. */
  ghost function KeptCost(matching: seq<ReplayFact>, sc: ModelMixScenario): int {
    if matching == [] then 0
    else KeptCost(Init(matching), sc)
         + (if Reroutes(sc.trafficWeight, |matching| - 1) then 0 else Last(matching).costMicro)
  }

  ghost function MovedCost(matching: seq<ReplayFact>, sc: ModelMixScenario, catalog: Catalog): int {
    if matching == [] then 0
    else MovedCost(Init(matching), sc, catalog)
         + (if Reroutes(sc.trafficWeight, |matching| - 1) then CandidateCost(catalog, sc, Last(matching)) else 0)
  }

  /** The accumulator after n matching requests, of which `moved` were rerouted. */
  ghost predicate Accumulated(acc: real, weight: real, n: nat, moved: int) {
    && acc == weight * n as real - moved as real
    && moved == Rerouted(weight, n)
  }

  lemma {:induction false} TimesNotNegative(x: real, n: nat)
    requires x >= 0.0
    ensures x * n as real >= 0.0
  {
    if n > 0 {
      TimesNotNegative(x, n - 1);
      var fewer := n - 1;
      assert x * n as real == x * fewer as real + x;
    }
  }

  /** Outside [0, 1] the floor is clamped to none or all. */
  lemma ClampedOutside(weight: real, n: nat)
    ensures weight < 0.0 ==> weight * n as real <= 0.0
    ensures weight > 1.0 ==> weight * n as real >= n as real
  {
    if weight < 0.0 {
      TimesNotNegative(-weight, n);
      assert (-weight) * n as real == -(weight * n as real);
    } else if weight > 1.0 {
      TimesNotNegative(weight - 1.0, n);
      assert (weight - 1.0) * n as real == weight * n as real - n as real;
    }
  }

  /** Adding the weight and subtracting 1 on overflow steps through the floors. */
  lemma AccumulatorStep(acc: real, weight: real, n: nat, moved: int)
    requires Accumulated(acc, weight, n, moved)
    ensures acc + weight >= 1.0 <==> Reroutes(weight, n)
    ensures if Reroutes(weight, n) then Accumulated(acc + weight - 1.0, weight, n + 1, moved + 1)
            else Accumulated(acc + weight, weight, n + 1, moved)
  {
    var here := weight * n as real;
    assert weight * (n + 1) as real == here + weight;
    ClampedOutside(weight, n);
  }

  /** The bookkeeping per model. */
  datatype Books = Books(requests: map<Model, int>, actual: map<Model, int>, simulated: map<Model, int>)

  function At(m: map<Model, int>, model: Model): int {
    if model in m then m[model] else 0
  }

  function Add(m: map<Model, int>, model: Model, amount: int): map<Model, int> {
    m[model := At(m, model) + amount]
  }

  /** What one model's row must show; the two parts add up when the scenario
      names the same model twice. */
  ghost function Row(model: Model, matching: seq<ReplayFact>, sc: ModelMixScenario, catalog: Catalog): BreakdownRow {
    BreakdownRow(model,
      (if model == sc.current then |matching| else 0)
      + (if model == sc.candidate then Rerouted(sc.trafficWeight, |matching|) else 0),
      if model == sc.current then TotalCost(matching) else 0,
      (if model == sc.current then KeptCost(matching, sc) else 0)
      + (if model == sc.candidate then MovedCost(matching, sc, catalog) else 0))
  }

  predicate Blank(row: BreakdownRow) {
    row.requests == 0 && row.actualCostMicro == 0 && row.simulatedCostMicro == 0
  }

  ghost predicate BooksMatch(books: Books, matching: seq<ReplayFact>, sc: ModelMixScenario, catalog: Catalog) {
    forall model: Model ::
      BreakdownRow(model, At(books.requests, model), At(books.actual, model), At(books.simulated, model))
      == Row(model, matching, sc, catalog)
  }

  lemma RowStep(model: Model, matching: seq<ReplayFact>, f: ReplayFact, sc: ModelMixScenario, catalog: Catalog)
    ensures var before, after := Row(model, matching, sc, catalog), Row(model, matching + [f], sc, catalog);
            var moves, current, candidate := Reroutes(sc.trafficWeight, |matching|), model == sc.current, model == sc.candidate;
            && after.requests == before.requests + (if current then 1 else 0) + (if candidate && moves then 1 else 0)
            && after.actualCostMicro == before.actualCostMicro + (if current then f.costMicro else 0)
            && after.simulatedCostMicro == before.simulatedCostMicro
                 + (if current && !moves then f.costMicro else 0)
                 + (if candidate && moves then CandidateCost(catalog, sc, f) else 0)
  {
    assert Init(matching + [f]) == matching;
    ReroutedStep(sc.trafficWeight, |matching|);
  }

  lemma ReroutedStep(weight: real, n: nat)
    ensures Rerouted(weight, n + 1) == Rerouted(weight, n) + (if Reroutes(weight, n) then 1 else 0)
  {
    assert Share(weight) * (n + 1) as real == Share(weight) * n as real + Share(weight);
  }

  method Post(books: Books, f: ReplayFact, moves: bool, candidateCost: int, sc: ModelMixScenario,
              catalog: Catalog, ghost matching: seq<ReplayFact>)
    returns (posted: Books)
    requires BooksMatch(books, matching, sc, catalog)
    requires moves == Reroutes(sc.trafficWeight, |matching|) && candidateCost == CandidateCost(catalog, sc, f)
    ensures BooksMatch(posted, matching + [f], sc, catalog)
  {
    var requests := Add(books.requests, sc.current, 1);
    var actual := Add(books.actual, sc.current, f.costMicro);
    if moves {
      posted := Books(Add(requests, sc.candidate, 1), actual, Add(books.simulated, sc.candidate, candidateCost));
    } else {
      posted := Books(requests, actual, Add(books.simulated, sc.current, f.costMicro));
    }
    forall model: Model
      ensures BreakdownRow(model, At(posted.requests, model), At(posted.actual, model), At(posted.simulated, model))
              == Row(model, matching + [f], sc, catalog)
    {
      RowStep(model, matching, f, sc, catalog);
      assert BreakdownRow(model, At(books.requests, model), At(books.actual, model), At(books.simulated, model))
             == Row(model, matching, sc, catalog);
    }
  }

  ghost function Simulated(matching: seq<ReplayFact>, sc: ModelMixScenario, catalog: Catalog): int {
    KeptCost(matching, sc) + MovedCost(matching, sc, catalog)
  }

  lemma CostsStep(matching: seq<ReplayFact>, f: ReplayFact, sc: ModelMixScenario, catalog: Catalog)
    ensures TotalCost(matching + [f]) == TotalCost(matching) + f.costMicro
    ensures Simulated(matching + [f], sc, catalog) ==
              Simulated(matching, sc, catalog)
              + if Reroutes(sc.trafficWeight, |matching|) then CandidateCost(catalog, sc, f) else f.costMicro
  {
    assert Init(matching + [f]) == matching;
  }

  /** SimulateModelMix. */
  method SimulateModelMix(facts: seq<ReplayFact>, sc: ModelMixScenario, catalog: Catalog)
    returns (result: ModelMixResult)
    ensures var matching := Matching(facts, sc);
            && result.replayedRequests == |facts|
            && result.affectedRequests == Rerouted(sc.trafficWeight, |matching|)
            && result.actualCostMicro == TotalCost(matching)
            && result.simulatedCostMicro == KeptCost(matching, sc) + MovedCost(matching, sc, catalog)
            && result.breakdown == Rows(matching, sc, catalog)
  {
    var books := Books(map[], map[], map[]);
    var actual, simulated, affected := 0, 0, 0;
    var acc := 0.0;
    ghost var matching: seq<ReplayFact> := [];
    for i := 0 to |facts|
      invariant matching == Matching(facts[..i], sc)
      invariant BooksMatch(books, matching, sc, catalog)
      invariant Accumulated(acc, sc.trafficWeight, |matching|, affected)
      invariant actual == TotalCost(matching)
      invariant simulated == Simulated(matching, sc, catalog)
    {
      var f := facts[i];
      assert Init(facts[..i + 1]) == facts[..i];
      if !Matches(f, sc) {
        continue;
      }
      AccumulatorStep(acc, sc.trafficWeight, |matching|, affected);
      CostsStep(matching, f, sc, catalog);
      actual := actual + f.costMicro;
      acc := acc + sc.trafficWeight;
      var candidateCost := Calculate(catalog, sc.candidate, f.inputTokens, f.outputTokens).0;
      if acc >= 1.0 {
        acc := acc - 1.0;
        simulated := simulated + candidateCost;
        books := Post(books, f, true, candidateCost, sc, catalog, matching);
        affected := affected + 1;
      } else {
        simulated := simulated + f.costMicro;
        books := Post(books, f, false, candidateCost, sc, catalog, matching);
      }
      matching := matching + [f];
    }
    assert facts[..|facts|] == facts;
    var breakdown: seq<BreakdownRow> := [];
    var models := [sc.current, sc.candidate];
    for i := 0 to 2
      invariant breakdown == (if i > 0 then UnlessBlank(Row(sc.current, matching, sc, catalog)) else [])
                             + (if i > 1 then UnlessBlank(Row(sc.candidate, matching, sc, catalog)) else [])
    {
      var m := models[i];
      var row := BreakdownRow(m, At(books.requests, m), At(books.actual, m), At(books.simulated, m));
      assert row == Row(m, matching, sc, catalog);
      if Blank(row) {
        continue;
      }
      breakdown := breakdown + [row];
    }
    result := ModelMixResult(|facts|, affected, actual, simulated, breakdown);
  }

  // ---------------------------------------------------------------- what it promises

  /** Any m matching requests in a row send floor or ceiling of their share. */
  lemma WindowDiscrepancy(weight: real, from: nat, m: nat)
    ensures var moved, fair := Rerouted(weight, from + m) - Rerouted(weight, from), Share(weight) * m as real;
            moved == fair.Floor || (moved == fair.Floor + 1 && fair.Floor as real < fair)
  {
    assert Share(weight) * (from + m) as real == Share(weight) * from as real + Share(weight) * m as real;
  }

  lemma FloorOrRound(x: real)
    requires x >= 0.0
    ensures x.Floor == Round(x) <==> x - x.Floor as real < 0.5
  {
  }

  /** The documented round(weight x matched) is met exactly if the share's
      fractional part is below one half; otherwise one request too few moves. */
  lemma RoundIsReachedIff(weight: real, n: nat)
    ensures var fair := Share(weight) * n as real;
            && (Rerouted(weight, n) == Round(fair) <==> fair - Rerouted(weight, n) as real < 0.5)
            && (Rerouted(weight, n) != Round(fair) ==> Rerouted(weight, n) == Round(fair) - 1)
  {
    TimesNotNegative(Share(weight), n);
    FloorOrRound(Share(weight) * n as real);
  }

  /** For instance half of three is one. */
  lemma RoundIsNotReached()
    ensures Rerouted(0.5, 3) == 1 && Round(0.5 * 3.0) == 2
  {
  }

  ghost function SumActual(rows: seq<BreakdownRow>): int {
    if rows == [] then 0 else SumActual(Init(rows)) + Last(rows).actualCostMicro
  }

  ghost function SumSimulated(rows: seq<BreakdownRow>): int {
    if rows == [] then 0 else SumSimulated(Init(rows)) + Last(rows).simulatedCostMicro
  }

  ghost function Rows(matching: seq<ReplayFact>, sc: ModelMixScenario, catalog: Catalog): seq<BreakdownRow> {
    PresentRows(Row(sc.current, matching, sc, catalog), Row(sc.candidate, matching, sc, catalog))
  }

  /** The rows account for both totals exactly when the scenario names two
      models or there is nothing to account for. */
  lemma RowsSumToTotals(matching: seq<ReplayFact>, sc: ModelMixScenario, catalog: Catalog)
    ensures var rows, actual, simulated := Rows(matching, sc, catalog), TotalCost(matching),
                                           KeptCost(matching, sc) + MovedCost(matching, sc, catalog);
            SumActual(rows) == actual && SumSimulated(rows) == simulated
            <==> sc.current != sc.candidate || (actual == 0 && simulated == 0)
  {
    var current, candidate := Row(sc.current, matching, sc, catalog), Row(sc.candidate, matching, sc, catalog);
    RowPair(current, candidate);
    assert Rows(matching, sc, catalog) == PresentRows(current, candidate);
  }

  ghost function UnlessBlank(row: BreakdownRow): seq<BreakdownRow> {
    if Blank(row) then [] else [row]
  }

  ghost function PresentRows(a: BreakdownRow, b: BreakdownRow): seq<BreakdownRow> {
    UnlessBlank(a) + UnlessBlank(b)
  }

  /** A blank row adds nothing, so leaving it out changes no sum. */
  lemma RowPair(a: BreakdownRow, b: BreakdownRow)
    ensures SumActual(PresentRows(a, b)) == a.actualCostMicro + b.actualCostMicro
    ensures SumSimulated(PresentRows(a, b)) == a.simulatedCostMicro + b.simulatedCostMicro
  {
    SumOne(a);
    SumOne(b);
    var rows := PresentRows(a, b);
    if Blank(a) {
      assert rows == if Blank(b) then [] else [b];
    } else if Blank(b) {
      assert rows == [a];
    } else {
      assert Init(rows) == [a] && Last(rows) == b;
    }
  }

  lemma SumOne(a: BreakdownRow)
    ensures SumActual([a]) == a.actualCostMicro && SumSimulated([a]) == a.simulatedCostMicro
  {
    assert Init([a]) == [];
  }

  lemma {:induction false} NothingMoved(matching: seq<ReplayFact>, sc: ModelMixScenario, catalog: Catalog)
    requires Rerouted(sc.trafficWeight, |matching|) == 0
    ensures MovedCost(matching, sc, catalog) == 0
  {
    if matching != [] {
      ReroutedRises(sc.trafficWeight, |matching| - 1);
      NothingMoved(Init(matching), sc, catalog);
    }
  }

  lemma ReroutedRises(weight: real, n: nat)
    ensures 0 <= Rerouted(weight, n) <= Rerouted(weight, n + 1)
  {
    var w := Share(weight);
    assert w * (n + 1) as real == w * n as real + w;
    assert w * n as real >= 0.0;
  }

  /** Which rows are presented: none without a matching request, the current
      model's with one, and the candidate's once something moves to it. */
  lemma RowsMeaning(matching: seq<ReplayFact>, sc: ModelMixScenario, catalog: Catalog)
    requires sc.current != sc.candidate
    ensures Rows(matching, sc, catalog) ==
              (if matching != [] then [Row(sc.current, matching, sc, catalog)] else [])
              + (if Rerouted(sc.trafficWeight, |matching|) > 0 then [Row(sc.candidate, matching, sc, catalog)] else [])
  {
    ReroutedRises(sc.trafficWeight, |matching|);
    if Rerouted(sc.trafficWeight, |matching|) == 0 {
      NothingMoved(matching, sc, catalog);
    }
  }
}
