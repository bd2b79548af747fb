/** The opportunities table and its status-guarded updates (internal/store/opportunities.go). */
module OpportunityStore {
  import opened Prelude

  type OppID = nat

  datatype OppStatus = Open | Reviewed | Simulated | Applied | Measured | Dismissed | Stale | Reverted | Failed

  /** What a detector reports and a refresh overwrites. */
  datatype Finding = Finding(savingsMicro: int, savingsPct: real, evidence: nat)

  datatype Opportunity = Opportunity(
    org: nat, app: nat, fingerprint: nat, status: OppStatus, finding: Finding,
    reviewedAt: Option<int>, dismissedAt: Option<int>, dismissReason: Option<nat>, lastSeenAt: int)

  type OppTable = map<OppID, Opportunity>

  /** The states the partial unique index covers, and Apply and Dismiss accept from. */
  predicate Live(o: Opportunity) {
    o.status.Open? || o.status.Reviewed? || o.status.Simulated?
  }

  /** The live row an insert for (app, fingerprint) would collide with. */
  predicate Collides(t: OppTable, id: OppID, app: nat, fingerprint: nat) {
    id in t && Live(t[id]) && t[id].app == app && t[id].fingerprint == fingerprint
  }

  /** The partial unique index. */
  ghost predicate LiveUnique(t: OppTable) {
    forall a, b :: a in t && b in t && Live(t[a]) && Live(t[b]) && t[a].app == t[b].app && t[a].fingerprint == t[b].fingerprint
      ==> a == b
  }

  datatype MarkResult = Marked(opp: Opportunity) | NotFound | NotApplicable

  /** Rows an org may touch. */
  predicate Owned(t: OppTable, org: nat, id: OppID) {
    id in t && t[id].org == org
  }

  /** The guarded updates, as table to table. */
  function WithReviewed(t: OppTable, org: nat, id: OppID, now: int): OppTable {
    if Owned(t, org, id) && t[id].status.Open? then t[id := t[id].(status := Reviewed, reviewedAt := Some(now))] else t
  }

  function WithDismissed(t: OppTable, org: nat, id: OppID, reason: Option<nat>, now: int): OppTable {
    if Owned(t, org, id) && Live(t[id])
    then t[id := t[id].(status := Dismissed, dismissedAt := Some(now), dismissReason := reason)] else t
  }

  function WithApplied(t: OppTable, org: nat, id: OppID): OppTable {
    if Owned(t, org, id) && Live(t[id]) then t[id := t[id].(status := Applied)] else t
  }

  function WithReverted(t: OppTable, org: nat, id: OppID): OppTable {
    if Owned(t, org, id) && t[id].status.Applied? then t[id := t[id].(status := Reverted)] else t
  }

  function Refreshed(o: Opportunity, finding: Finding, now: int): Opportunity {
    o.(finding := finding, lastSeenAt := now)
  }

  function Opened(org: nat, app: nat, fingerprint: nat, finding: Finding, now: int): Opportunity {
    Opportunity(org, app, fingerprint, Open, finding, None, None, None, now)
  }

  /** UpsertOpen as a relation: refresh the colliding live row, or open a new one. */
  ghost predicate Upserted(t: OppTable, t': OppTable, newID: OppID, org: nat, app: nat, fingerprint: nat,
                           finding: Finding, now: int) {
    if exists id :: Collides(t, id, app, fingerprint)
    then exists id :: Collides(t, id, app, fingerprint) && t' == t[id := Refreshed(t[id], finding, now)]
    else t' == t[newID := Opened(org, app, fingerprint, finding, now)]
  }

  class Opportunities {
    var rows: OppTable

    constructor ()
      ensures rows == map[]
    {
      rows := map[];
    }

    /** `newID` is the id the database would generate. */
    method UpsertOpen(newID: OppID, org: nat, app: nat, fingerprint: nat, finding: Finding, now: int)
      returns (id: OppID)
      requires newID !in rows && LiveUnique(rows)
      modifies this
      ensures Upserted(old(rows), rows, newID, org, app, fingerprint, finding, now)
      ensures id in rows && Collides(rows, id, app, fingerprint) && rows[id].finding == finding && LiveUnique(rows)
      ensures id in old(rows) ==> rows[id].status == old(rows)[id].status && rows[id].reviewedAt == old(rows)[id].reviewedAt
      ensures id in old(rows) ==>
                && old(rows)[id].app == app && old(rows)[id].fingerprint == fingerprint
                && old(rows)[id].status in {Open, Reviewed, Simulated}
                && rows[id] == old(rows)[id].(finding := finding, lastSeenAt := now)
      ensures id !in old(rows) ==>
                && id == newID && rows[id] == Opportunity(org, app, fingerprint, Open, finding, None, None, None, now)
                && forall k :: k in old(rows) && old(rows)[k].app == app && old(rows)[k].fingerprint == fingerprint ==>
                     old(rows)[k].status !in {Open, Reviewed, Simulated}
      ensures forall other :: other in old(rows) && other != id ==> other in rows && rows[other] == old(rows)[other]
    {
      var ids := rows.Keys;
      while ids != {}
        invariant ids <= rows.Keys && rows == old(rows)
        invariant forall k :: k in rows && k !in ids ==> !Collides(rows, k, app, fingerprint)
        decreases ids
      {
        var k :| k in ids;
        if Collides(rows, k, app, fingerprint) {
          rows := rows[k := Refreshed(rows[k], finding, now)];
          return k;
        }
        ids := ids - {k};
      }
      assert forall k :: !Collides(rows, k, app, fingerprint);
      rows := rows[newID := Opened(org, app, fingerprint, finding, now)];
      id := newID;
    }

    method Get(org: nat, id: OppID) returns (o: Option<Opportunity>)
      ensures o == if Owned(rows, org, id) then Some(rows[id]) else None
    {
      o := if id in rows && rows[id].org == org then Some(rows[id]) else None;
    }

    /** Idempotent: from any later state it returns the row as it is. */
    method MarkReviewed(org: nat, id: OppID, now: int) returns (r: MarkResult)
      modifies this
      ensures rows == WithReviewed(old(rows), org, id, now)
      ensures r == if Owned(rows, org, id) then Marked(rows[id]) else NotFound
    {
      if id in rows && rows[id].org == org && rows[id].status.Open? {
        rows := rows[id := rows[id].(status := Reviewed, reviewedAt := Some(now))];
        return Marked(rows[id]);
      }
      r := if id in rows && rows[id].org == org then Marked(rows[id]) else NotFound;
    }

    method MarkDismissed(org: nat, id: OppID, reason: Option<nat>, now: int) returns (r: MarkResult)
      modifies this
      ensures rows == WithDismissed(old(rows), org, id, reason, now)
      ensures r == if !Owned(old(rows), org, id) then NotFound
                   else if Live(old(rows)[id]) then Marked(rows[id]) else NotApplicable
      ensures r.Marked? <==>
                id in old(rows) && old(rows)[id].org == org && old(rows)[id].status in {Open, Reviewed, Simulated}
    {
      if id in rows && rows[id].org == org && Live(rows[id]) {
        rows := rows[id := rows[id].(status := Dismissed, dismissedAt := Some(now), dismissReason := reason)];
        return Marked(rows[id]);
      }
      r := if id in rows && rows[id].org == org then NotApplicable else NotFound;
    }

    method MarkApplied(org: nat, id: OppID) returns (r: MarkResult)
      modifies this
      ensures rows == WithApplied(old(rows), org, id)
      ensures r == if !Owned(old(rows), org, id) then NotFound
                   else if Live(old(rows)[id]) then Marked(rows[id]) else NotApplicable
      ensures r.Marked? <==>
                id in old(rows) && old(rows)[id].org == org && old(rows)[id].status in {Open, Reviewed, Simulated}
    {
      if id in rows && rows[id].org == org && Live(rows[id]) {
        rows := rows[id := rows[id].(status := Applied)];
        return Marked(rows[id]);
      }
      r := if id in rows && rows[id].org == org then NotApplicable else NotFound;
    }

    method MarkReverted(org: nat, id: OppID) returns (r: MarkResult)
      modifies this
      ensures rows == WithReverted(old(rows), org, id)
      ensures r == if !Owned(old(rows), org, id) then NotFound
                   else if old(rows)[id].status.Applied? then Marked(rows[id]) else NotApplicable
      ensures r.Marked? <==> id in old(rows) && old(rows)[id].org == org && old(rows)[id].status == Applied
    {
      if id in rows && rows[id].org == org && rows[id].status.Applied? {
        rows := rows[id := rows[id].(status := Reverted)];
        return Marked(rows[id]);
      }
      r := if id in rows && rows[id].org == org then NotApplicable else NotFound;
    }
  }

  /** What any statement may do to a row: ownership stays, a row never becomes
      live again, and 'applied' and 'reverted' are left only in that order. */
  ghost predicate RowMoves(before: Opportunity, after: Opportunity) {
    && after.org == before.org && after.app == before.app && after.fingerprint == before.fingerprint
    && (Live(after) ==> Live(before))
    && (before.status.Applied? ==> after.status.Applied? || after.status.Reverted?)
    && (before.status.Reverted? ==> after.status.Reverted?)
  }

  ghost predicate TableMoves(t: OppTable, t': OppTable) {
    t.Keys <= t'.Keys && forall id :: id in t ==> RowMoves(t[id], t'[id])
  }

  lemma GuardedUpdatesMove(t: OppTable, org: nat, id: OppID, reason: Option<nat>, now: int)
    ensures TableMoves(t, WithReviewed(t, org, id, now)) && TableMoves(t, WithDismissed(t, org, id, reason, now))
    ensures TableMoves(t, WithApplied(t, org, id)) && TableMoves(t, WithReverted(t, org, id))
    ensures WithReviewed(t, org, id, now).Keys == WithDismissed(t, org, id, reason, now).Keys == t.Keys
    ensures WithApplied(t, org, id).Keys == WithReverted(t, org, id).Keys == t.Keys
  {
  }

  lemma UpsertMoves(t: OppTable, t': OppTable, newID: OppID, org: nat, app: nat, fingerprint: nat,
                    finding: Finding, now: int)
    requires LiveUnique(t) && newID !in t && Upserted(t, t', newID, org, app, fingerprint, finding, now)
    ensures LiveUnique(t') && TableMoves(t, t')
    ensures forall id :: id in t' && id !in t ==> id == newID && t'[id].status.Open?
    ensures forall id :: id in t ==> t'[id].status == t[id].status
  {
    if exists id :: Collides(t, id, app, fingerprint) {
      var id :| Collides(t, id, app, fingerprint) && t' == t[id := Refreshed(t[id], finding, now)];
      assert t'.Keys == t.Keys;
    } else {
      forall a, b | a in t' && b in t' && Live(t'[a]) && Live(t'[b]) && t'[a].app == t'[b].app && t'[a].fingerprint == t'[b].fingerprint
        ensures a == b
      {
        assert a != newID && a in t ==> !Collides(t, a, app, fingerprint);
        assert b != newID && b in t ==> !Collides(t, b, app, fingerprint);
      }
    }
  }
}
