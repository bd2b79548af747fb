/** The measurements table (internal/store/measurements.go). */
module MeasurementStore {
  import opened Prelude
  import opened Measure

  type MeasID = nat

  datatype MeasStatus = Collecting | Interim | Final | Withdrawn   // Withdrawn is the text 'reverted'

  /** The observed_* and verdict columns, always written together. */
  datatype Observation = Observation(
    start: int, end: int, requests: int, costMicro: int, comparison: Comparison, verdict: Verdict, reason: Reason)

  datatype Measurement = Measurement(
    org: nat, app: nat, opportunityID: nat, simulationID: Option<nat>, policyVersion: int, appliedAt: int,
    baselineRequests: int, baselineCostMicro: int, baselineCostPer1k: int,
    expectedSavingsMicro: int, expectedPct: real,
    observed: Option<Observation>, status: MeasStatus, finalizedAt: Option<int>)

  type MeasTable = map<MeasID, Measurement>

  predicate Pending(m: Measurement, now: int) {
    (m.status.Collecting? || m.status.Interim?) && m.appliedAt <= now
  }

  /** The same measurement, whatever has been observed of it. */
  ghost predicate SameMeasurement(m: Measurement, n: Measurement) {
    n == m.(observed := n.observed, status := n.status, finalizedAt := n.finalizedAt)
  }

  /** The partial unique index on live rows. */
  predicate HasLive(t: MeasTable, opportunityID: nat) {
    exists id :: id in t && t[id].opportunityID == opportunityID && !t[id].status.Withdrawn?
  }

  function WithInterim(t: MeasTable, id: MeasID, seen: Observation): MeasTable {
    if id in t then t[id := t[id].(observed := Some(seen), status := Interim)] else t
  }

  function WithFinal(t: MeasTable, id: MeasID, seen: Observation, now: int): MeasTable {
    if id in t then t[id := t[id].(observed := Some(seen), status := Final, finalizedAt := Some(now))] else t
  }

  function WithWithdrawn(t: MeasTable, org: nat, id: MeasID): MeasTable {
    if id in t && t[id].org == org then t[id := t[id].(status := Withdrawn)] else t
  }

  predicate Realized(m: Measurement, org: nat) {
    m.org == org && m.observed.Some? && (m.observed.value.verdict.Successful? || m.observed.value.verdict.Partial?)
  }

  /** What one row contributes to an org's realized savings. */
  function Contribution(m: Measurement, org: nat): int {
    if Realized(m, org) then m.observed.value.comparison.actualSavingsMicro else 0
  }

  /** SUM over the rows of `ids`, in any order. */
  ghost function SumSavings(t: MeasTable, ids: set<MeasID>, org: nat): int
    requires ids <= t.Keys
  {
    if ids == {} then 0
    else var id :| id in ids; Contribution(t[id], org) + SumSavings(t, ids - {id}, org)
  }

  lemma {:induction false} SumSavingsTake(t: MeasTable, ids: set<MeasID>, org: nat, id: MeasID)
    requires ids <= t.Keys && id in ids
    ensures SumSavings(t, ids, org) == Contribution(t[id], org) + SumSavings(t, ids - {id}, org)
    ensures Contribution(t[id], org) ==
              if t[id].org == org && t[id].observed.Some? && t[id].observed.value.verdict in {Successful, Partial}
              then t[id].observed.value.comparison.actualSavingsMicro else 0
  {
    var first :| first in ids && SumSavings(t, ids, org) == Contribution(t[first], org) + SumSavings(t, ids - {first}, org);
    if first != id {
      SumSavingsTake(t, ids - {first}, org, id);
      SumSavingsTake(t, ids - {id}, org, first);
      assert ids - {first} - {id} == ids - {id} - {first};
    }
  }

  class Measurements {
    var rows: MeasTable

    constructor ()
      ensures rows == map[]
    {
      rows := map[];
    }

    /** Create; None is a unique-index violation.  The row starts collecting,
        with nothing observed. */
    method Create(newID: MeasID, m: Measurement) returns (id: Option<MeasID>)
      requires newID !in rows
      modifies this
      ensures id == if HasLive(old(rows), m.opportunityID) then None else Some(newID)
      ensures id == None <==>
                exists k :: k in old(rows) && old(rows)[k].opportunityID == m.opportunityID && old(rows)[k].status != Withdrawn
      ensures rows == if id.None? then old(rows)
                      else old(rows)[newID := m.(observed := None, status := Collecting, finalizedAt := None)]
    {
      if HasLive(rows, m.opportunityID) {
        return None;
      }
      rows := rows[newID := m.(observed := None, status := Collecting, finalizedAt := None)];
      id := Some(newID);
    }

    method Get(org: nat, id: MeasID) returns (m: Option<Measurement>)
      ensures m == if id in rows && rows[id].org == org then Some(rows[id]) else None
    {
      m := if id in rows && rows[id].org == org then Some(rows[id]) else None;
    }

    /** The scheduler's worklist, oldest apply first. */
    method PendingIDs(now: int) returns (ids: seq<MeasID>)
      ensures Distinct(ids)
      ensures forall id :: id in ids <==> id in rows && rows[id].status in {Collecting, Interim} && rows[id].appliedAt <= now
      ensures forall i, j :: 0 <= i < j < |ids| && ids[i] in rows && ids[j] in rows ==>
                rows[ids[i]].appliedAt <= rows[ids[j]].appliedAt
    {
      ids := [];
      var left := rows.Keys;
      while left != {}
        invariant left <= rows.Keys && Distinct(ids)
        invariant forall id :: id in ids <==> id in rows && id !in left && Pending(rows[id], now)
        invariant Ordered(ids, rows)
        decreases |left|
      {
        var id :| id in left;
        left := left - {id};
        if Pending(rows[id], now) {
          ids := InsertByAge(ids, id, rows);
        }
      }
    }

    method RecordInterim(id: MeasID, seen: Observation) returns (ok: bool)
      modifies this
      ensures ok <==> id in old(rows)
      ensures rows == WithInterim(old(rows), id, seen)
    {
      if id !in rows {
        return false;
      }
      rows := rows[id := rows[id].(observed := Some(seen), status := Interim)];
      ok := true;
    }

    method RecordFinal(id: MeasID, seen: Observation, now: int) returns (ok: bool)
      modifies this
      ensures ok <==> id in old(rows)
      ensures rows == WithFinal(old(rows), id, seen, now)
    {
      if id !in rows {
        return false;
      }
      rows := rows[id := rows[id].(observed := Some(seen), status := Final, finalizedAt := Some(now))];
      ok := true;
    }

    method MarkReverted(org: nat, id: MeasID) returns (ok: bool)
      modifies this
      ensures ok <==> id in old(rows) && old(rows)[id].org == org
      ensures rows == WithWithdrawn(old(rows), org, id)
    {
      if id !in rows || rows[id].org != org {
        return false;
      }
      rows := rows[id := rows[id].(status := Withdrawn)];
      ok := true;
    }

    method RealizedSavings(org: nat) returns (total: int)
      ensures total == SumSavings(rows, rows.Keys, org)
    {
      total := 0;
      var left := rows.Keys;
      while left != {}
        invariant left <= rows.Keys
        invariant total + SumSavings(rows, left, org) == SumSavings(rows, rows.Keys, org)
        decreases |left|
      {
        var id :| id in left;
        SumSavingsTake(rows, left, org, id);
        total := total + Contribution(rows[id], org);
        left := left - {id};
      }
    }
  }

  ghost predicate Ordered(ids: seq<MeasID>, t: MeasTable) {
    && (forall i :: 0 <= i < |ids| ==> ids[i] in t)
    && forall i, j :: 0 <= i < j < |ids| ==> t[ids[i]].appliedAt <= t[ids[j]].appliedAt
  }

  function InsertByAge(ids: seq<MeasID>, id: MeasID, t: MeasTable): (r: seq<MeasID>)
    requires id in t && id !in ids && Distinct(ids) && Ordered(ids, t)
    ensures Distinct(r) && Ordered(r, t) && forall k :: k in r <==> k in ids || k == id
  {
    if ids == [] || t[id].appliedAt < t[ids[0]].appliedAt then [id] + ids
    else
      var rest := InsertByAge(ids[1..], id, t);
      assert forall i :: 0 <= i < |rest| ==> rest[i] in rest;
      [ids[0]] + rest
  }
}
