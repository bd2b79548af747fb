/** The request rows every replay simulation walks (internal/sim/replay.go). */
module ReplayFacts {

  datatype CostStatus = CostKnown | CostUnknown | CostLocal

  /** A cache key is a digest of which only equality matters; the empty key is NO_KEY. */
  type Key = nat
  const NO_KEY: Key := 0

  /** Model names, of which only equality matters, and the status text, of which
      only being 'ok' matters. */
  type Model = nat
  datatype Status = Ok | OtherStatus(code: nat)

  /** Instants are integers on one time line; costs are micro-USD. */
  datatype ReplayFact = ReplayFact(
    startedAt: int,
    requestedModel: Model,
    inputTokens: int,
    outputTokens: int,
    costMicro: int,
    costStatus: CostStatus,
    status: Status,
    cacheKey: Key)

  ghost predicate Chronological(facts: seq<ReplayFact>) {
    forall i, j :: 0 <= i < j < |facts| ==> facts[i].startedAt <= facts[j].startedAt
  }

  function TotalCost(facts: seq<ReplayFact>): int {
    if facts == [] then 0
    else TotalCost(facts[..|facts| - 1]) + facts[|facts| - 1].costMicro
  }
}
