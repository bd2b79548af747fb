/**
 Apply and Revert as a single caller runs them (internal/policy/apply.go,
 internal/policy/revert.go): ordered calls on the stores, each able to stop the
 rest.  What they do to the tables is the undisturbed run of the interleaved
 client in ControlPlane.
 */
module ApplyRevert {
  import opened Prelude
  import opened Calendar
  import opened Measure
  import opened PolicyDocuments
  import opened PolicyStore
  import opened OpportunityStore
  import opened MeasurementStore
  import opened MeasureRunner
  import opened ControlPlane

  type SimTable = map<nat, Simulation>

  datatype Outcome =
    | Done(record: Record)
    | UnknownOpportunity
    | WrongApplication
    | UnknownSimulation
    | SimulationRequired
    | InvalidTarget
    | VersionConflict
    | SavedNotTransitioned     // the policy is saved, the opportunity not moved
    | SavedNotMeasured         // the policy is saved, the opportunity applied, no new measurement
    | UnknownMeasurement
    | NoPriorVersion

  // ---------------------------------------------------------------- what Apply comes to

  /** Why Apply stops before touching anything; None if it goes on. */
  function Obstacle(opps: OppTable, sims: SimTable, log: PolicyLog, input: ApplyInput): Option<Outcome> {
    if !Owned(opps, input.org, input.opp) then Some(UnknownOpportunity)
    else if opps[input.opp].app != input.app then Some(WrongApplication)
    else if input.sim !in sims || sims[input.sim].org != input.org then Some(UnknownSimulation)
    else if sims[input.sim].opportunityID != Some(input.opp) then Some(SimulationRequired)
    else if !Valid(Rerouted(Current(log).document, input.routing)) then Some(InvalidTarget)
    else None
  }

  ghost function AppliedLog(log: PolicyLog, input: ApplyInput, now: int): PolicyLog {
    var base := Current(log);
    var target := Rerouted(base.document, input.routing);
    Saved(log, base.version, target,
          EntryNote(DiffOf(base.document, target), ByOpportunity, Some(input.opp), Some(input.sim)), now)
  }

  /** The measurement Apply freezes, unless the opportunity could not be moved or is measured already. */
  function AppliedMeas(opps: OppTable, log: PolicyLog, meas: MeasTable, input: ApplyInput, newID: MeasID, now: int,
                       served: seq<Served>): MeasTable
    requires Owned(opps, input.org, input.opp)
  {
    if Live(opps[input.opp]) && !HasLive(meas, input.opp)
    then meas[newID := Frozen(input, opps[input.opp].finding, Current(log).version + 1, now, served)] else meas
  }

  function AppliedOutcome(opps: OppTable, log: PolicyLog, meas: MeasTable, input: ApplyInput): Outcome
    requires Owned(opps, input.org, input.opp)
  {
    if !Live(opps[input.opp]) then SavedNotTransitioned
    else if HasLive(meas, input.opp) then SavedNotMeasured
    else Done(Record(Current(log).version + 1, Rerouted(Current(log).document, input.routing)))
  }

  class Simulations {
    var rows: SimTable

    constructor ()
      ensures rows == map[]
    {
      rows := map[];
    }

    method Get(org: nat, id: nat) returns (s: Option<Simulation>)
      ensures s == if id in rows && rows[id].org == org then Some(rows[id]) else None
    {
      s := if id in rows && rows[id].org == org then Some(rows[id]) else None;
    }
  }

  class Applier {
    const policies: Store
    const opportunities: Opportunities
    const simulations: Simulations
    const measurements: Measurements
    const requests: Requests

    constructor (policies: Store, opportunities: Opportunities, simulations: Simulations,
                 measurements: Measurements, requests: Requests)
      ensures this.policies == policies && this.opportunities == opportunities && this.simulations == simulations
      ensures this.measurements == measurements && this.requests == requests
    {
      this.policies, this.opportunities, this.simulations := policies, opportunities, simulations;
      this.measurements, this.requests := measurements, requests;
    }

    /** The loads and checks before anything is written. */
    method Check(input: ApplyInput) returns (stop: Option<Outcome>, finding: Finding, base: Record)
      ensures base == Current(policies.LogOf(input.app))
      ensures stop == Obstacle(opportunities.rows, simulations.rows, policies.LogOf(input.app), input)
      ensures stop.None? ==> finding == opportunities.rows[input.opp].finding
    {
      base := policies.Get(input.app);
      finding := Finding(0, 0.0, 0);
      var opp := opportunities.Get(input.org, input.opp);
      if opp.None? {
        return Some(UnknownOpportunity), finding, base;
      }
      if opp.value.app != input.app {
        return Some(WrongApplication), finding, base;
      }
      var sim := simulations.Get(input.org, input.sim);
      if sim.None? {
        return Some(UnknownSimulation), finding, base;
      }
      if sim.value.opportunityID != Some(input.opp) {
        return Some(SimulationRequired), finding, base;
      }
      if !Valid(Rerouted(base.document, input.routing)) {
        return Some(InvalidTarget), finding, base;
      }
      stop, finding := None, opp.value.finding;
    }

    /** Freezer.Freeze: the 14 days before, and a new collecting row. */
    method Freeze(input: ApplyInput, finding: Finding, version: int, newID: MeasID, now: int) returns (ok: bool)
      requires newID !in measurements.rows
      modifies measurements
      ensures ok <==> !HasLive(old(measurements.rows), input.opp)
      ensures measurements.rows == if ok then old(measurements.rows)[newID := Frozen(input, finding, version, now, requests.rows)]
                                   else old(measurements.rows)
    {
      var count, cost := requests.PeriodStats(input.app, now - FINAL_WINDOW_DAYS * DAY, now);
      var id := measurements.Create(newID,
        Measurement(input.org, input.app, input.opp, Some(input.sim), version, now,
                    count, cost, CostPer1k(cost, count), finding.savingsMicro, finding.savingsPct,
                    None, Collecting, None));
      ok := id.Some?;
    }

    /** Apply.  A refusal changes nothing; past the save nothing is undone. */
    method Apply(input: ApplyInput, newID: MeasID, now: int) returns (r: Outcome)
      requires Sound(policies.LogOf(input.app)) && newID !in measurements.rows
      modifies policies, opportunities, measurements
      ensures var stop := Obstacle(old(opportunities.rows), simulations.rows, old(policies.LogOf(input.app)), input);
              if stop.Some? then
                && r == stop.value && policies.LogOf(input.app) == old(policies.LogOf(input.app))
                && opportunities.rows == old(opportunities.rows) && measurements.rows == old(measurements.rows)
              else
                && r == AppliedOutcome(old(opportunities.rows), old(policies.LogOf(input.app)), old(measurements.rows), input)
                && policies.LogOf(input.app) == AppliedLog(old(policies.LogOf(input.app)), input, now)
                && opportunities.rows == WithApplied(old(opportunities.rows), input.org, input.opp)
                && measurements.rows == AppliedMeas(old(opportunities.rows), old(policies.LogOf(input.app)), old(measurements.rows),
                                                    input, newID, now, requests.rows)
      ensures Obstacle(old(opportunities.rows), simulations.rows, old(policies.LogOf(input.app)), input).None? ==>
                var before, after := old(Current(policies.LogOf(input.app))), Current(policies.LogOf(input.app));
                after.version == before.version + 1 && RoutesAsAsked(after.document, before.document, input.routing)
      ensures forall app: AppID :: app != input.app ==> policies.LogOf(app) == old(policies.LogOf(app))
    {
      var stop, finding, base := Check(input);
      if stop.Some? {
        return stop.value;
      }
      var target := Rerouted(base.document, input.routing);
      var diff := Diff(Some(base.document), Some(target));
      DiffIsUnique(diff, base.document, target);
      var saved := policies.Save(input.app, base.version, target,
                                 EntryNote(diff, ByOpportunity, Some(input.opp), Some(input.sim)), now);
      if saved.None? {
        return VersionConflict;
      }
      var moved := opportunities.MarkApplied(input.org, input.opp);
      if !moved.Marked? {
        return SavedNotTransitioned;
      }
      var frozen := Freeze(input, finding, saved.value.version, newID, now);
      r := if frozen then Done(saved.value) else SavedNotMeasured;
    }
  }

  /** The baseline a measurement is frozen with: the 14 days up to the apply, and the
      finding's estimate. */
  lemma FrozenMeaning(input: ApplyInput, finding: Finding, version: int, appliedAt: int, served: seq<Served>)
    ensures var m, since := Frozen(input, finding, version, appliedAt, served), appliedAt - 1209600;
            && m.org == input.org && m.app == input.app && m.opportunityID == input.opp && m.simulationID == Some(input.sim)
            && m.policyVersion == version && m.appliedAt == appliedAt
            && m.baselineRequests == CountIn(served, input.app, since, appliedAt)
            && m.baselineCostMicro == CostIn(served, input.app, since, appliedAt)
            && m.baselineCostPer1k == CostPer1k(m.baselineCostMicro, m.baselineRequests)
            && m.expectedSavingsMicro == finding.savingsMicro && m.expectedPct == finding.savingsPct
            && m.status == Collecting && m.observed == None && m.finalizedAt == None
  {
  }

  /** Apply refuses a target for its models, its weight, or a control that was
      already malformed, and for nothing else. */
  lemma InvalidTargetIff(opps: OppTable, sims: SimTable, log: PolicyLog, input: ApplyInput)
    requires input.opp in opps && opps[input.opp].org == input.org && opps[input.opp].app == input.app
    requires input.sim in sims && sims[input.sim] == Simulation(input.org, Some(input.opp))
    ensures var doc, r := Current(log).document, input.routing;
            Obstacle(opps, sims, log, input) ==
              if r.fromModel == 0 || r.toModel == 0 || r.fromModel == r.toModel || r.weight < 0.0 || r.weight > 1.0
                 || !(ValidControl(doc.caching) && ValidControl(doc.budget) && ValidControl(doc.rateLimit)
                      && ValidControl(doc.modelRestriction))
              then Some(InvalidTarget) else None
  {
  }

  // ---------------------------------------------------------------- what Revert comes to

  /** The document to go back to, if it can be loaded. */
  function Prior(log: PolicyLog, version: int): Option<PolicyDocument> {
    if version - 1 > 0 then EntryAt(log.history, version - 1) else Some(EMPTY_DOCUMENT)
  }

  ghost function RevertedLog(log: PolicyLog, prior: PolicyDocument, now: int): PolicyLog {
    var base := Current(log);
    Saved(log, base.version, prior, EntryNote(DiffOf(base.document, prior), ByRevert, None, None), now)
  }

  predicate IsApplied(opps: OppTable, org: nat, opp: OppID) {
    Owned(opps, org, opp) && opps[opp].status.Applied?
  }

  class Reverter {
    const policies: Store
    const opportunities: Opportunities
    const measurements: Measurements

    constructor (policies: Store, opportunities: Opportunities, measurements: Measurements)
      ensures this.policies == policies && this.opportunities == opportunities && this.measurements == measurements
    {
      this.policies, this.opportunities, this.measurements := policies, opportunities, measurements;
    }

    /** Load the measurement and the version before its apply. */
    method Load(org: nat, id: MeasID) returns (stop: Option<Outcome>, m: Option<Measurement>, prior: PolicyDocument)
      ensures m == if id in measurements.rows && measurements.rows[id].org == org then Some(measurements.rows[id]) else None
      ensures m.None? <==> stop == Some(UnknownMeasurement)
      ensures m.Some? ==> var found := Prior(policies.LogOf(m.value.app), m.value.policyVersion);
                          if found.Some? then stop == None && prior == found.value else stop == Some(NoPriorVersion)
    {
      prior := EMPTY_DOCUMENT;
      m := measurements.Get(org, id);
      if m.None? {
        return Some(UnknownMeasurement), m, prior;
      }
      var priorVersion := m.value.policyVersion - 1;
      if priorVersion > 0 {
        var found := policies.AtVersion(m.value.app, priorVersion);
        if found.None? {
          return Some(NoPriorVersion), m, prior;
        }
        prior := found.value;
      }
      stop := None;
    }

    /** Revert.  The policy goes back even when the opportunity is no longer
        applied; the measurement is withdrawn only when it was. */
    method Revert(org: nat, id: MeasID, now: int) returns (r: Outcome)
      requires id in measurements.rows ==> Sound(policies.LogOf(measurements.rows[id].app))
      modifies policies, opportunities, measurements
      ensures r == UnknownMeasurement <==> !(id in old(measurements.rows) && old(measurements.rows)[id].org == org)
      ensures r.UnknownMeasurement? || r.NoPriorVersion? ==>
                && opportunities.rows == old(opportunities.rows) && measurements.rows == old(measurements.rows)
                && forall app: AppID :: policies.LogOf(app) == old(policies.LogOf(app))
      ensures !r.UnknownMeasurement? ==>
                var m := old(measurements.rows)[id];
                var log := old(policies.LogOf(m.app));
                var prior := Prior(log, m.policyVersion);
                && (r.NoPriorVersion? <==> prior.None?)
                && (prior.Some? ==>
                      && policies.LogOf(m.app) == RevertedLog(log, prior.value, now)
                      && opportunities.rows == WithReverted(old(opportunities.rows), org, m.opportunityID)
                      && (if IsApplied(old(opportunities.rows), org, m.opportunityID)
                          then r == Done(Record(Current(log).version + 1, prior.value))
                               && measurements.rows == WithWithdrawn(old(measurements.rows), org, id)
                          else r == SavedNotTransitioned && measurements.rows == old(measurements.rows)))
                && forall app: AppID :: app != m.app ==> policies.LogOf(app) == old(policies.LogOf(app))
    {
      var stop, found, prior := Load(org, id);
      if stop.Some? {
        return stop.value;
      }
      var m := found.value;
      var base := policies.Get(m.app);
      var diff := Diff(Some(base.document), Some(prior));
      DiffIsUnique(diff, base.document, prior);
      var saved := policies.Save(m.app, base.version, prior, EntryNote(diff, ByRevert, None, None), now);
      if saved.None? {
        return VersionConflict;
      }
      var moved := opportunities.MarkReverted(org, m.opportunityID);
      if !moved.Marked? {
        return SavedNotTransitioned;
      }
      var _ := measurements.MarkReverted(org, id);
      r := Done(saved.value);
    }
  }

  // ---------------------------------------------------------------- the same, step by step

  /** Client `c` takes `n` steps with nobody in between. */
  ghost function Alone(s: System, c: ClientID, n: nat, newID: MeasID, served: seq<Served>): System
    decreases n
  {
    if n == 0 then s else Alone(Next(s, c, Proceed(newID, served)), c, n - 1, newID, served)
  }

  lemma {:induction false} IdleStays(s: System, c: ClientID, n: nat, newID: MeasID, served: seq<Served>)
    requires ClientOf(s, c).Idle?
    ensures Alone(s, c, n, newID, served) == s
  {
    if n > 0 {
      IdleStays(s, c, n - 1, newID, served);
    }
  }

  /** Apply's tables after its obstacles are past. */
  ghost function AppliedDB(db: DB, input: ApplyInput, newID: MeasID, served: seq<Served>): DB
    requires Owned(db.opps, input.org, input.opp)
  {
    var log := LogOf(db, input.app);
    db.(logs := db.logs[input.app := AppliedLog(log, input, db.clock)],
        opps := WithApplied(db.opps, input.org, input.opp),
        meas := AppliedMeas(db.opps, log, db.meas, input, newID, db.clock, served))
  }

  lemma MarkAndFreezeAlone(s: System, c: ClientID, input: ApplyInput, finding: Finding, version: int,
                           newID: MeasID, served: seq<Served>)
    requires ClientOf(s, c) == ApplySaved(input, finding, version) && newID !in s.db.meas
    ensures var db' := Alone(s, c, 2, newID, served).db;
            db' == s.db.(opps := WithApplied(s.db.opps, input.org, input.opp),
                         meas := if Owned(s.db.opps, input.org, input.opp) && Live(s.db.opps[input.opp]) && !HasLive(s.db.meas, input.opp)
                                 then s.db.meas[newID := Frozen(input, finding, version, s.db.clock, served)] else s.db.meas)
  {
    var s1 := Next(s, c, Proceed(newID, served));
    if ClientOf(s1, c).Idle? {
      IdleStays(s1, c, 1, newID, served);
    } else {
      assert Alone(s1, c, 1, newID, served) == Alone(Next(s1, c, Proceed(newID, served)), c, 0, newID, served);
    }
  }

  lemma SaveAlone(s: System, c: ClientID, input: ApplyInput, finding: Finding, newID: MeasID, served: seq<Served>)
    requires ClientOf(s, c) == ApplyRead(input, finding, Current(LogOf(s.db, input.app))) && newID !in s.db.meas
    requires Sound(LogOf(s.db, input.app))
    requires Owned(s.db.opps, input.org, input.opp) && finding == s.db.opps[input.opp].finding
    ensures Alone(s, c, 3, newID, served).db ==
              if Valid(Rerouted(Current(LogOf(s.db, input.app)).document, input.routing)) then AppliedDB(s.db, input, newID, served)
              else s.db
  {
    var base := Current(LogOf(s.db, input.app));
    var s1 := Next(s, c, Proceed(newID, served));
    if Valid(Rerouted(base.document, input.routing)) {
      assert Expects(LogOf(s.db, input.app), base.version);
      assert ClientOf(s1, c) == ApplySaved(input, finding, base.version + 1);
      MarkAndFreezeAlone(s1, c, input, finding, base.version + 1, newID, served);
    } else {
      IdleStays(s1, c, 2, newID, served);
    }
  }

  /** An undisturbed Apply client leaves the tables the method does. */
  lemma ApplyAlone(s: System, c: ClientID, input: ApplyInput, newID: MeasID, served: seq<Served>)
    requires ClientOf(s, c).Idle? && Sound(LogOf(s.db, input.app)) && newID !in s.db.meas
    ensures Alone(Next(s, c, StartApply(input)), c, 5, newID, served).db ==
              if Obstacle(s.db.opps, s.db.sims, LogOf(s.db, input.app), input).Some? then s.db
              else AppliedDB(s.db, input, newID, served)
  {
    var s0 := Next(s, c, StartApply(input));
    if ClientOf(s0, c).Idle? {
      IdleStays(s0, c, 5, newID, served);
    } else {
      LoadAlone(s0, c, input, s.db.opps[input.opp].finding, newID, served);
    }
  }

  lemma LoadAlone(s: System, c: ClientID, input: ApplyInput, finding: Finding, newID: MeasID, served: seq<Served>)
    requires ClientOf(s, c) == ApplyLoaded(input, finding) && Sound(LogOf(s.db, input.app)) && newID !in s.db.meas
    requires Owned(s.db.opps, input.org, input.opp) && s.db.opps[input.opp].app == input.app
    requires finding == s.db.opps[input.opp].finding
    ensures Alone(s, c, 5, newID, served).db ==
              if Obstacle(s.db.opps, s.db.sims, LogOf(s.db, input.app), input).Some? then s.db
              else AppliedDB(s.db, input, newID, served)
  {
    var s1 := Next(s, c, Proceed(newID, served));
    if ClientOf(s1, c).Idle? {
      IdleStays(s1, c, 4, newID, served);
    } else {
      var s2 := Next(s1, c, Proceed(newID, served));
      assert Alone(s1, c, 4, newID, served) == Alone(s2, c, 3, newID, served);
      SaveAlone(s2, c, input, finding, newID, served);
    }
  }

  /** Revert's tables once the prior document is loaded. */
  ghost function RevertedDB(db: DB, org: nat, id: MeasID, m: Measurement, prior: PolicyDocument): DB {
    db.(logs := db.logs[m.app := RevertedLog(LogOf(db, m.app), prior, db.clock)],
        opps := WithReverted(db.opps, org, m.opportunityID),
        meas := if IsApplied(db.opps, org, m.opportunityID) then WithWithdrawn(db.meas, org, id) else db.meas)
  }

  lemma UnmarkAlone(s: System, c: ClientID, org: nat, id: MeasID, m: Measurement)
    requires ClientOf(s, c) == RevertSaved(org, id, m)
    ensures Alone(s, c, 2, 0, []).db ==
              s.db.(opps := WithReverted(s.db.opps, org, m.opportunityID),
                    meas := if IsApplied(s.db.opps, org, m.opportunityID) then WithWithdrawn(s.db.meas, org, id) else s.db.meas)
  {
    var s1 := Next(s, c, Proceed(0, []));
    if ClientOf(s1, c).Idle? {
      IdleStays(s1, c, 1, 0, []);
    } else {
      assert Alone(s1, c, 1, 0, []) == Alone(Next(s1, c, Proceed(0, [])), c, 0, 0, []);
    }
  }

  lemma RestoreAlone(s: System, c: ClientID, org: nat, id: MeasID, m: Measurement, prior: PolicyDocument)
    requires ClientOf(s, c) == RevertRead(org, id, m, prior, Current(LogOf(s.db, m.app)))
    requires Sound(LogOf(s.db, m.app))
    ensures Alone(s, c, 3, 0, []).db == RevertedDB(s.db, org, id, m, prior)
  {
    var base := Current(LogOf(s.db, m.app));
    var s1 := Next(s, c, Proceed(0, []));
    assert Expects(LogOf(s.db, m.app), base.version);
    assert ClientOf(s1, c) == RevertSaved(org, id, m);
    UnmarkAlone(s1, c, org, id, m);
  }

  /** An undisturbed Revert client leaves the tables the method does. */
  lemma RevertAlone(s: System, c: ClientID, org: nat, id: MeasID)
    requires ClientOf(s, c).Idle? && id in s.db.meas && s.db.meas[id].org == org
    requires Sound(LogOf(s.db, s.db.meas[id].app))
    ensures var m := s.db.meas[id];
            var prior := Prior(LogOf(s.db, m.app), m.policyVersion);
            Alone(Next(s, c, StartRevert(org, id)), c, 5, 0, []).db ==
              if prior.None? then s.db else RevertedDB(s.db, org, id, m, prior.value)
  {
    LoadPriorAlone(Next(s, c, StartRevert(org, id)), c, org, id, s.db.meas[id]);
  }

  lemma LoadPriorAlone(s: System, c: ClientID, org: nat, id: MeasID, m: Measurement)
    requires ClientOf(s, c) == RevertLoaded(org, id, m) && Sound(LogOf(s.db, m.app))
    ensures var prior := Prior(LogOf(s.db, m.app), m.policyVersion);
            Alone(s, c, 5, 0, []).db == if prior.None? then s.db else RevertedDB(s.db, org, id, m, prior.value)
  {
    var prior := Prior(LogOf(s.db, m.app), m.policyVersion);
    var s1 := Next(s, c, Proceed(0, []));
    if prior.None? {
      IdleStays(s1, c, 4, 0, []);
    } else {
      var s2 := Next(s1, c, Proceed(0, []));
      assert Alone(s1, c, 4, 0, []) == Alone(s2, c, 3, 0, []);
      RestoreAlone(s2, c, org, id, m, prior.value);
    }
  }
}
