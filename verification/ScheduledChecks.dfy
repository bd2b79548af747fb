/**
 The scheduler's check among the other clients: undisturbed it is the runner's
 tick, and a run from the start in which it brings a reverted measurement back.
 */
module ScheduledChecks {
  import opened Prelude
  import opened Calendar
  import opened PolicyDocuments
  import opened PolicyStore
  import opened OpportunityStore
  import opened MeasurementStore
  import opened MeasureRunner
  import opened ControlPlane
  import opened ControlPlaneRuns
  import opened ApplyRevert

  // ---------------------------------------------------------------- undisturbed

  /** A client checks whichever window of `id` is due, with nobody in between. */
  ghost function Round(s: System, c: ClientID, id: MeasID, served: seq<Served>): System {
    Alone(Next(s, c, StartCheck(id)), c, 2, 0, served)
  }

  function Checked(m: Measurement, served: seq<Served>, history: seq<HistoryEntry>, now: int): Measurement {
    match DueWindow(m, now)
    case None => m
    case Some(days) => if days == INTERIM_WINDOW_DAYS then AfterInterim(m, served, history) else AfterFinal(m, served, history, now)
  }

  lemma RoundChecks(s: System, c: ClientID, id: MeasID, served: seq<Served>)
    requires ClientOf(s, c).Idle? && id in s.db.meas
    ensures var m, after := s.db.meas[id], Round(s, c, id, served);
            && ClientOf(after, c).Idle?
            && after.db == s.db.(meas := s.db.meas[id := Checked(m, served, LogOf(s.db, m.app).history, s.db.clock)])
  {
    var s0 := Next(s, c, StartCheck(id));
    if ClientOf(s0, c).Idle? {
      IdleStays(s0, c, 2, 0, served);
      assert s.db.meas == s.db.meas[id := s.db.meas[id]];
    } else {
      var s1 := Next(s0, c, Proceed(0, served));
      assert Alone(s1, c, 1, 0, served) == Alone(Next(s1, c, Proceed(0, served)), c, 0, 0, served);
    }
  }

  /** Two undisturbed rounds, interim and final, are one tick of the runner. */
  lemma TickAlone(s: System, c: ClientID, id: MeasID, served: seq<Served>)
    requires ClientOf(s, c).Idle? && id in s.db.meas && Pending(s.db.meas[id], s.db.clock)
    ensures var m := s.db.meas[id];
            Round(Round(s, c, id, served), c, id, served).db ==
              s.db.(meas := s.db.meas[id := Ticked(m, served, LogOf(s.db, m.app).history, s.db.clock)])
  {
    RoundChecks(s, c, id, served);
    RoundChecks(Round(s, c, id, served), c, id, served);
  }

  // ---------------------------------------------------------------- what can be reached

  ghost predicate Reachable(s: System) {
    exists steps: seq<Step> :: Run(START, steps) == s
  }

  lemma ReachNext(s: System, c: ClientID, a: Action)
    requires Reachable(s)
    ensures Reachable(Next(s, c, a))
  {
    var steps: seq<Step> :| Run(START, steps) == s;
    var longer := steps + [Step(c, a)];
    assert Init(longer) == steps;
    assert Run(START, longer) == Next(s, c, a);
  }

  lemma {:induction false} ReachAlone(s: System, c: ClientID, n: nat, newID: MeasID, served: seq<Served>)
    requires Reachable(s)
    ensures Reachable(Alone(s, c, n, newID, served))
    decreases n
  {
    if n > 0 {
      ReachNext(s, c, Proceed(newID, served));
      ReachAlone(Next(s, c, Proceed(newID, served)), c, n - 1, newID, served);
    }
  }

  lemma {:induction false} AloneOthers(s: System, c: ClientID, n: nat, newID: MeasID, served: seq<Served>, d: ClientID)
    requires d != c
    ensures ClientOf(Alone(s, c, n, newID, served), d) == ClientOf(s, d)
    decreases n
  {
    if n > 0 {
      OthersStayPut(s, c, Proceed(newID, served), d);
      AloneOthers(Next(s, c, Proceed(newID, served)), c, n - 1, newID, served, d);
    }
  }

  // ---------------------------------------------------------------- a reverted measurement comes back

  const FINDING := Finding(0, 0.0, 0)
  const INPUT := ApplyInput(0, 0, 0, 0, RoutingPolicy(true, 1, 2, 0.5, false))
  const TARGET := EMPTY_DOCUMENT.(routing := Some(Routing(INPUT.routing)))

  /** An opportunity is found and simulated. */
  lemma Prepared() returns (s: System)
    ensures Reachable(s) && s.clients == map[]
    ensures s.db == DB(map[], map[0 := Opened(0, 0, 0, FINDING, 0)], map[0 := Simulation(0, Some(0))], map[], 0)
  {
    assert Run(START, []) == START;
    ReachNext(START, 0, Detect(0, 0, 0, 0, FINDING));
    s := Next(START, 0, Detect(0, 0, 0, 0, FINDING));
    assert s.db.opps == map[0 := Opened(0, 0, 0, FINDING, 0)] by {
      assert forall id: OppID :: !Collides(map[], id, 0, 0);
    }
    ReachNext(s, 0, AddSimulation(0, Simulation(0, Some(0))));
    s := Next(s, 0, AddSimulation(0, Simulation(0, Some(0))));
  }

  /** A client that starts something and goes on alone. */
  ghost function StartedAlone(s: System, c: ClientID, a: Action, n: nat, newID: MeasID): System {
    Alone(Next(s, c, a), c, n, newID, [])
  }

  lemma ReachStarted(s: System, c: ClientID, a: Action, n: nat, newID: MeasID, d: ClientID)
    requires Reachable(s) && d != c && (a.StartApply? || a.StartRevert?)
    ensures Reachable(StartedAlone(s, c, a, n, newID)) && ClientOf(StartedAlone(s, c, a, n, newID), d) == ClientOf(s, d)
  {
    ReachNext(s, c, a);
    ReachAlone(Next(s, c, a), c, n, newID, []);
    AloneOthers(Next(s, c, a), c, n, newID, [], d);
  }

  lemma StartedApply(s: System, c: ClientID, input: ApplyInput, newID: MeasID)
    requires ClientOf(s, c).Idle? && Sound(LogOf(s.db, input.app)) && newID !in s.db.meas
    requires Obstacle(s.db.opps, s.db.sims, LogOf(s.db, input.app), input).None?
    ensures StartedAlone(s, c, StartApply(input), 5, newID).db == AppliedDB(s.db, input, newID, [])
  {
    ApplyAlone(s, c, input, newID, []);
  }

  lemma StartedRevert(s: System, c: ClientID, org: nat, id: MeasID)
    requires ClientOf(s, c).Idle? && id in s.db.meas && s.db.meas[id].org == org
    requires s.db.meas[id].policyVersion == 1 && Sound(LogOf(s.db, s.db.meas[id].app))
    ensures StartedAlone(s, c, StartRevert(org, id), 5, 0).db == RevertedDB(s.db, org, id, s.db.meas[id], EMPTY_DOCUMENT)
  {
    RevertAlone(s, c, org, id);
  }

  /** The opportunity is applied, under measurement, and a week has passed. */
  ghost predicate UnderMeasurement(db: DB) {
    && Sound(LogOf(db, 0))
    && IsApplied(db.opps, 0, 0)
    && 0 in db.meas && db.meas[0].status.Collecting? && db.meas[0].appliedAt == 0
    && db.meas[0].org == db.meas[0].app == db.meas[0].opportunityID == 0 && db.meas[0].policyVersion == 1
  }

  lemma AppliedOf(db: DB)
    requires db == DB(map[], map[0 := Opened(0, 0, 0, FINDING, 0)], map[0 := Simulation(0, Some(0))], map[], 0)
    ensures Obstacle(db.opps, db.sims, LogOf(db, 0), INPUT).None?
    ensures UnderMeasurement(AppliedDB(db, INPUT, 0, [])) && AppliedDB(db, INPUT, 0, []).clock == 0
  {
    assert Rerouted(Current(NO_LOG).document, INPUT.routing) == TARGET;
    SaveKeepsSound(NO_LOG, 0, TARGET,
                   EntryNote(DiffOf(EMPTY_DOCUMENT, TARGET), ByOpportunity, Some(0), Some(0)), 0);
  }

  lemma Applied() returns (s: System)
    ensures Reachable(s) && UnderMeasurement(s.db) && s.db.clock == 0 && ClientOf(s, 1).Idle?
  {
    var p := Prepared();
    AppliedOf(p.db);
    StartedApply(p, 0, INPUT, 0);
    ReachStarted(p, 0, StartApply(INPUT), 5, 0, 1);
    s := StartedAlone(p, 0, StartApply(INPUT), 5, 0);
  }

  /** A week later a check reads the row. */
  lemma WeekLater(s: System) returns (r: System)
    requires Reachable(s) && UnderMeasurement(s.db) && s.db.clock == 0 && ClientOf(s, 1).Idle?
    ensures Reachable(r) && UnderMeasurement(r.db) && ClientOf(r, 1).CheckLoaded? && ClientOf(r, 1).id == 0
    ensures ClientOf(r, 1).days == INTERIM_WINDOW_DAYS
  {
    ReachNext(s, 1, PassTime(INTERIM_WINDOW_DAYS * DAY));
    var t := Next(s, 1, PassTime(INTERIM_WINDOW_DAYS * DAY));
    assert UnderMeasurement(t.db) && ClientOf(t, 1).Idle?;
    ReachNext(t, 1, StartCheck(0));
    r := Next(t, 1, StartCheck(0));
  }

  lemma CheckReads(s: System) returns (r: System)
    requires Reachable(s) && UnderMeasurement(s.db) && ClientOf(s, 1).CheckLoaded?
    ensures Reachable(r) && UnderMeasurement(r.db) && ClientOf(r, 1).CheckSeen?
    ensures ClientOf(r, 1).id == ClientOf(s, 1).id && ClientOf(r, 1).days == ClientOf(s, 1).days
  {
    ReachNext(s, 1, Proceed(0, []));
    r := Next(s, 1, Proceed(0, []));
  }

  /** A client that gives up is idle. */
  lemma Settles(s: System) returns (r: System)
    requires Reachable(s)
    ensures Reachable(r) && r.db == s.db && ClientOf(r, 2).Idle? && ClientOf(r, 1) == ClientOf(s, 1)
  {
    ReachNext(s, 2, GiveUp);
    r := Next(s, 2, GiveUp);
  }

  /** Then the whole revert runs. */
  lemma RevertedMeanwhile() returns (s: System)
    ensures Reachable(s) && 0 in s.db.meas && s.db.meas[0].status.Withdrawn?
    ensures ClientOf(s, 1).CheckSeen? && ClientOf(s, 1).id == 0 && ClientOf(s, 1).days == INTERIM_WINDOW_DAYS
    ensures 0 in s.db.opps && s.db.opps[0].status.Reverted?
  {
    var p := Applied();
    p := WeekLater(p);
    p := CheckReads(p);
    p := Settles(p);
    StartedRevert(p, 2, 0, 0);
    ReachStarted(p, 2, StartRevert(0, 0), 5, 0, 1);
    s := StartedAlone(p, 2, StartRevert(0, 0), 5, 0);
  }

  /** A run from the start at whose end the check records: the measurement is
      interim again while its opportunity stays reverted. */
  lemma RevivedByLateCheck() returns (s: System)
    ensures Reachable(s) && 0 in s.db.meas && s.db.meas[0].status.Withdrawn? && LateCheck(s, 1, Proceed(0, []), 0)
    ensures var after := Next(s, 1, Proceed(0, []));
            && 0 in after.db.meas && after.db.meas[0].status.Interim?
            && 0 in after.db.opps && after.db.opps[0].status.Reverted?
  {
    s := RevertedMeanwhile();
  }
}
