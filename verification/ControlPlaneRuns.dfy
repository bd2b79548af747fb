/** Every step keeps the system good, so every run does; and what that means. */
module ControlPlaneRuns {
  import opened Prelude
  import opened Calendar
  import opened Measure
  import opened PolicyDocuments
  import opened PolicyStore
  import opened OpportunityStore
  import opened MeasurementStore
  import opened MeasureRunner
  import opened ControlPlane
  import opened ControlPlaneSafety

  // ---------------------------------------------------------------- saves

  /** A caller whose version was not newer than its own read, and whose save
      finds that version, has read the current row. */
  lemma BaseIsCurrent(l: PolicyLog, base: Record, expected: int)
    requires Sound(l) && WasRead(l, base) && Expects(l, expected) && expected <= base.version
    ensures base == Current(l) && expected == base.version
  {
  }

  lemma Move(s: System, c: ClientID, pc: Client)
    requires GoodSystem(s) && GoodClient(s.db, pc) && !pc.ApplyMarked?
    ensures GoodSystem(At(s, c, pc))
  {
    StayPut(s.db);
    PlainStep(s, s.db, c, pc);
  }

  lemma Known(s: System, c: ClientID)
    requires GoodSystem(s)
    ensures GoodClient(s.db, ClientOf(s, c))
  {
  }

  lemma LogIsGood(db: DB, app: AppID)
    requires GoodDB(db)
    ensures GoodLog(LogOf(db, app), db.clock) && WasRead(LogOf(db, app), Current(LogOf(db, app)))
  {
    assert GoodLog(LogOf(db, app), db.clock);
  }

  /** A save that replaces the document it read keeps everything good. */
  lemma ReplaceStep(s: System, c: ClientID, app: AppID, expected: int, doc: PolicyDocument, base: Record,
                    source: ChangeSource, opp: Option<OppID>, sim: Option<nat>, landed: Client)
    requires GoodSystem(s) && !landed.ApplyMarked? && Valid(doc) && WasRead(LogOf(s.db, app), base) && expected <= base.version
    requires source.ByOpportunity? ==> doc == base.document.(routing := doc.routing)
    requires var note := EntryNote(DiffOf(base.document, doc), source, opp, sim);
             SaveAllowed(s.db, app, expected, doc, note) ==> GoodClient(WithSave(s.db, app, expected, doc, note), landed)
    ensures GoodSystem(SaveThen(s, c, app, expected, doc, EntryNote(DiffOf(base.document, doc), source, opp, sim), landed))
  {
    LogIsGood(s.db, app);
    if Expects(LogOf(s.db, app), expected) {
      var note := EntryNote(DiffOf(base.document, doc), source, opp, sim);
      BaseIsCurrent(LogOf(s.db, app), base, expected);
      SaveKeeps(s.db, app, expected, doc, note);
      PlainStep(s, WithSave(s.db, app, expected, doc, note), c, landed);
    } else {
      Move(s, c, Idle);
    }
  }

  // ---------------------------------------------------------------- the sequences

  lemma EditorStep(s: System, c: ClientID)
    requires GoodSystem(s)
    ensures GoodSystem(ProceedEditor(s, c))
  {
    Known(s, c);
    match ClientOf(s, c)
    case PutRead(app, doc, expected, base) =>
      ReplaceStep(s, c, app, expected, doc, base, ByUser, None, None, Idle);
    case RestoreTarget(app, doc) =>
      LogIsGood(s.db, app);
      Move(s, c, RestoreRead(app, doc, Current(LogOf(s.db, app))));
    case RestoreRead(app, doc, base) =>
      ReplaceStep(s, c, app, base.version, doc, base, ByRevert, None, None, Idle);
    case _ =>
  }

  /** After its save, Apply's client knows which history row is its own. */
  lemma SavedIsWritten(db: DB, input: ApplyInput, finding: Finding, expected: int, doc: PolicyDocument, note: EntryNote)
    requires GoodDB(db) && KnownOpp(db, input) && SaveAllowed(db, input.app, expected, doc, note)
    requires note.source.ByOpportunity? && note.opportunityID == Some(input.opp)
    ensures GoodClient(WithSave(db, input.app, expected, doc, note), ApplySaved(input, finding, expected + 1))
  {
    LogIsGood(db, input.app);
  }

  lemma ApplySaveStep(s: System, c: ClientID, input: ApplyInput, finding: Finding, base: Record)
    requires GoodSystem(s) && GoodClient(s.db, ApplyRead(input, finding, base))
    requires Valid(Rerouted(base.document, input.routing))
    ensures var target := Rerouted(base.document, input.routing);
            var note := EntryNote(DiffOf(base.document, target), ByOpportunity, Some(input.opp), Some(input.sim));
            GoodSystem(SaveThen(s, c, input.app, base.version, target, note, ApplySaved(input, finding, base.version + 1)))
  {
    var target := Rerouted(base.document, input.routing);
    var note := EntryNote(DiffOf(base.document, target), ByOpportunity, Some(input.opp), Some(input.sim));
    if SaveAllowed(s.db, input.app, base.version, target, note) {
      SavedIsWritten(s.db, input, finding, base.version, target, note);
    }
    ReplaceStep(s, c, input.app, base.version, target, base, ByOpportunity, Some(input.opp), Some(input.sim),
                ApplySaved(input, finding, base.version + 1));
  }

  /** Marking: only one client can move an opportunity out of its live states, so
      the ticket is fresh. */
  lemma ApplyMarkStep(s: System, c: ClientID, input: ApplyInput, finding: Finding, version: int)
    requires GoodSystem(s) && ClientOf(s, c) == ApplySaved(input, finding, version)
    ensures GoodSystem(ProceedApply(s, c, 0, []))
  {
    Known(s, c);
    var opps := s.db.opps;
    if Owned(opps, input.org, input.opp) && Live(opps[input.opp]) {
      var db' := s.db.(opps := WithApplied(opps, input.org, input.opp));
      var pc := ApplyMarked(input, finding, version);
      GuardedUpdatesMove(opps, input.org, input.opp, None, 0);
      OppsKeep(s.db, db'.opps);
      ClientStays(s.db, db', ApplySaved(input, finding, version));
      assert GoodClient(db', pc);
      LiveIsUnmeasured(s.db, input.opp);
      LiveHasNoTicket(s, input.opp);
      TicketStep(s, db', c, pc);
    } else {
      Move(s, c, Idle);
    }
  }

  lemma LiveIsUnmeasured(db: DB, opp: OppID)
    requires GoodDB(db) && opp in db.opps && Live(db.opps[opp])
    ensures Unmeasured(db.meas, opp)
  {
    forall id | id in db.meas ensures db.meas[id].opportunityID != opp {
      assert GoodMeasurement(db.opps, LogOf(db, db.meas[id].app), db.meas[id]);
    }
  }

  lemma LiveHasNoTicket(s: System, opp: OppID)
    requires GoodSystem(s) && opp in s.db.opps && Live(s.db.opps[opp])
    ensures forall d :: !HoldsTicket(s.clients, d, opp)
  {
    forall d ensures !HoldsTicket(s.clients, d, opp) {
      Known(s, d);
    }
  }

  lemma NewTicket(db: DB, clients: map<ClientID, Client>, c: ClientID, pc: Client)
    requires GoodTickets(db, clients) && pc.ApplyMarked? && Unmeasured(db.meas, pc.input.opp)
    requires forall d :: !HoldsTicket(clients, d, pc.input.opp)
    ensures GoodTickets(db, clients[c := pc])
  {
    var after := clients[c := pc];
    forall d, opp | HoldsTicket(after, d, opp) ensures if d == c then opp == pc.input.opp else HoldsTicket(clients, d, opp) {
    }
  }

  lemma TicketStep(s: System, db': DB, c: ClientID, pc: Client)
    requires GoodSystem(s) && GoodDB(db') && Grows(s.db, db') && GoodClient(db', pc) && db'.meas == s.db.meas
    requires pc.ApplyMarked? && Unmeasured(s.db.meas, pc.input.opp)
    requires forall d :: !HoldsTicket(s.clients, d, pc.input.opp)
    ensures GoodSystem(At(s, c, pc).(db := db'))
  {
    ClientsStay(s.db, db', s.clients);
    HeldStays(s.db, db', s.held);
    NewTicket(s.db, s.clients, c, pc);
  }

  /** Handing a ticket in for the measurement it was for. */
  lemma SpendTicket(db: DB, db': DB, clients: map<ClientID, Client>, c: ClientID, id: MeasID, m: Measurement)
    requires GoodTickets(db, clients) && HoldsTicket(clients, c, m.opportunityID)
    requires db'.meas == db.meas[id := m]
    ensures GoodTickets(db', clients[c := Idle])
  {
    var after := clients[c := Idle];
    forall d, opp | HoldsTicket(after, d, opp) ensures HoldsTicket(clients, d, opp) && Unmeasured(db'.meas, opp) {
      assert HoldsTicket(clients, d, opp) && HoldsTicket(clients, c, m.opportunityID);
    }
  }

  lemma FreezeKeeps(db: DB, input: ApplyInput, finding: Finding, version: int, newID: MeasID, served: seq<Served>)
    requires GoodDB(db) && GoodClient(db, ApplyMarked(input, finding, version))
    requires Unmeasured(db.meas, input.opp) && newID !in db.meas
    ensures var db' := db.(meas := db.meas[newID := Frozen(input, finding, version, db.clock, served)]);
            GoodDB(db') && Grows(db, db')
  {
    var m := Frozen(input, finding, version, db.clock, served);
    MeasKeep(db, newID, m);
  }

  /** Freezing: the ticket holder creates the opportunity's only measurement. */
  lemma FreezeStep(s: System, c: ClientID, input: ApplyInput, finding: Finding, version: int, newID: MeasID,
                   served: seq<Served>)
    requires GoodSystem(s) && ClientOf(s, c) == ApplyMarked(input, finding, version) && newID !in s.db.meas
    ensures !HasLive(s.db.meas, input.opp)
    ensures GoodSystem(At(s, c, Idle).(db := s.db.(meas := s.db.meas[newID := Frozen(input, finding, version, s.db.clock, served)])))
  {
    Known(s, c);
    assert HoldsTicket(s.clients, c, input.opp);
    assert Unmeasured(s.db.meas, input.opp);
    FreezeKeeps(s.db, input, finding, version, newID, served);
    var m := Frozen(input, finding, version, s.db.clock, served);
    var db' := s.db.(meas := s.db.meas[newID := m]);
    ClientsStay(s.db, db', s.clients);
    HeldStays(s.db, db', s.held);
    SpendTicket(s.db, db', s.clients, c, newID, m);
  }

  lemma ApplyReadStep(s: System, c: ClientID, newID: MeasID, served: seq<Served>)
    requires GoodSystem(s) && (ClientOf(s, c).ApplyLoaded? || ClientOf(s, c).ApplyCleared?)
    ensures GoodSystem(ProceedApply(s, c, newID, served))
  {
    Known(s, c);
    match ClientOf(s, c)
    case ApplyLoaded(input, finding) =>
      Move(s, c, ApplyCleared(input, finding));
      Move(s, c, Idle);
    case ApplyCleared(input, finding) =>
      LogIsGood(s.db, input.app);
      Move(s, c, ApplyRead(input, finding, Current(LogOf(s.db, input.app))));
  }

  lemma TargetCase(s: System, c: ClientID, input: ApplyInput, finding: Finding, base: Record, newID: MeasID,
                   served: seq<Served>)
    requires ClientOf(s, c) == ApplyRead(input, finding, base)
    ensures var target := Rerouted(base.document, input.routing);
            var note := EntryNote(DiffOf(base.document, target), ByOpportunity, Some(input.opp), Some(input.sim));
            ProceedApply(s, c, newID, served) ==
              if Valid(target)
              then SaveThen(s, c, input.app, base.version, target, note, ApplySaved(input, finding, base.version + 1))
              else At(s, c, Idle)
  {
  }

  lemma ApplyTargetStep(s: System, c: ClientID, input: ApplyInput, finding: Finding, base: Record, newID: MeasID,
                        served: seq<Served>)
    requires GoodSystem(s) && ClientOf(s, c) == ApplyRead(input, finding, base)
    ensures GoodSystem(ProceedApply(s, c, newID, served))
  {
    Known(s, c);
    TargetCase(s, c, input, finding, base, newID, served);
    if Valid(Rerouted(base.document, input.routing)) {
      ApplySaveStep(s, c, input, finding, base);
    } else {
      Move(s, c, Idle);
    }
  }

  lemma ApplyFreezeStep(s: System, c: ClientID, input: ApplyInput, finding: Finding, version: int, newID: MeasID,
                        served: seq<Served>)
    requires GoodSystem(s) && ClientOf(s, c) == ApplyMarked(input, finding, version)
    ensures GoodSystem(ProceedApply(s, c, newID, served))
  {
    if newID in s.db.meas {
      Move(s, c, Idle);
    } else {
      FreezeStep(s, c, input, finding, version, newID, served);
    }
  }

  lemma ApplyStep(s: System, c: ClientID, newID: MeasID, served: seq<Served>)
    requires GoodSystem(s)
    ensures GoodSystem(ProceedApply(s, c, newID, served))
  {
    match ClientOf(s, c)
    case ApplyLoaded(_, _) => ApplyReadStep(s, c, newID, served);
    case ApplyCleared(_, _) => ApplyReadStep(s, c, newID, served);
    case ApplyRead(input, finding, base) => ApplyTargetStep(s, c, input, finding, base, newID, served);
    case ApplySaved(input, finding, version) => ApplyMarkStep(s, c, input, finding, version);
    case ApplyMarked(input, finding, version) => ApplyFreezeStep(s, c, input, finding, version, newID, served);
    case _ =>
  }

  /** The version before a measurement's apply can always be loaded. */
  lemma PriorExists(db: DB, id: MeasID, m: Measurement)
    requires GoodDB(db) && KnownMeasurement(db, id, m)
    ensures var l, v := LogOf(db, m.app), m.policyVersion - 1;
            && 0 <= v < |l.history|
            && (v > 0 ==> EntryAt(l.history, v) == Some(DocumentAt(l, v)))
            && Valid(DocumentAt(l, v))
  {
    assert GoodMeasurement(db.opps, LogOf(db, db.meas[id].app), db.meas[id]);
    LogIsGood(db, m.app);
    AtVersionFinds(LogOf(db, m.app), m.policyVersion - 1);
  }

  lemma RevertLoadStep(s: System, c: ClientID, org: nat, id: MeasID, m: Measurement)
    requires GoodSystem(s) && ClientOf(s, c) == RevertLoaded(org, id, m)
    ensures GoodSystem(ProceedRevert(s, c))
  {
    Known(s, c);
    PriorExists(s.db, id, m);
    Move(s, c, RevertPrior(org, id, m, DocumentAt(LogOf(s.db, m.app), m.policyVersion - 1)));
  }

  lemma RevertReadStep(s: System, c: ClientID, org: nat, id: MeasID, m: Measurement, prior: PolicyDocument)
    requires GoodSystem(s) && ClientOf(s, c) == RevertPrior(org, id, m, prior)
    ensures GoodSystem(ProceedRevert(s, c))
  {
    Known(s, c);
    LogIsGood(s.db, m.app);
    Move(s, c, RevertRead(org, id, m, prior, Current(LogOf(s.db, m.app))));
  }

  lemma RevertSaveStep(s: System, c: ClientID, org: nat, id: MeasID, m: Measurement, prior: PolicyDocument,
                       base: Record)
    requires GoodSystem(s) && ClientOf(s, c) == RevertRead(org, id, m, prior, base)
    ensures GoodSystem(ProceedRevert(s, c))
  {
    Known(s, c);
    ReplaceStep(s, c, m.app, base.version, prior, base, ByRevert, None, None, RevertSaved(org, id, m));
  }

  lemma RevertStep(s: System, c: ClientID)
    requires GoodSystem(s)
    ensures GoodSystem(ProceedRevert(s, c))
  {
    match ClientOf(s, c)
    case RevertLoaded(org, id, m) => RevertLoadStep(s, c, org, id, m);
    case RevertPrior(org, id, m, prior) => RevertReadStep(s, c, org, id, m, prior);
    case RevertRead(org, id, m, prior, base) => RevertSaveStep(s, c, org, id, m, prior, base);
    case RevertSaved(org, id, m) => RevertMarkStep(s, c, org, id, m);
    case RevertMarked(org, id, m) => WithdrawStep(s, c, org, id, m);
    case _ =>
  }

  lemma RevertMarkStep(s: System, c: ClientID, org: nat, id: MeasID, m: Measurement)
    requires GoodSystem(s) && ClientOf(s, c) == RevertSaved(org, id, m)
    ensures GoodSystem(ProceedRevert(s, c))
  {
    Known(s, c);
    var opps := s.db.opps;
    if Owned(opps, org, m.opportunityID) && opps[m.opportunityID].status.Applied? {
      var db' := s.db.(opps := WithReverted(opps, org, m.opportunityID));
      GuardedUpdatesMove(opps, org, m.opportunityID, None, 0);
      OppsKeep(s.db, db'.opps);
      PlainStep(s, db', c, RevertMarked(org, id, m));
    } else {
      Move(s, c, Idle);
    }
  }

  /** Overwriting a row's outcome columns as its client finishes. */
  lemma RowStep(s: System, c: ClientID, id: MeasID, row: Measurement)
    requires GoodSystem(s) && id in s.db.meas && SameMeasurement(s.db.meas[id], row)
    requires row.status.Withdrawn? ==> row.opportunityID in s.db.opps && s.db.opps[row.opportunityID].status.Reverted?
    requires row.observed.Some? ==> HonestVerdict(row.observed.value)
    ensures GoodSystem(At(s, c, Idle).(db := s.db.(meas := s.db.meas[id := row])))
  {
    assert GoodMeasurement(s.db.opps, LogOf(s.db, s.db.meas[id].app), s.db.meas[id]);
    MeasKeep(s.db, id, row);
    PlainStep(s, s.db.(meas := s.db.meas[id := row]), c, Idle);
  }

  lemma WithdrawStep(s: System, c: ClientID, org: nat, id: MeasID, m: Measurement)
    requires GoodSystem(s) && ClientOf(s, c) == RevertMarked(org, id, m)
    ensures GoodSystem(ProceedRevert(s, c))
  {
    Known(s, c);
    if s.db.meas[id].org == org {
      RowStep(s, c, id, s.db.meas[id].(status := Withdrawn));
    } else {
      Move(s, c, Idle);
    }
  }

  /** A check's verdict and savings never contradict each other. */
  lemma ObservationIsHonest(m: Measurement, days: int, served: seq<Served>, history: seq<HistoryEntry>)
    requires m.baselineCostPer1k >= 0
    ensures HonestVerdict(Observe(m, days, served, history))
  {
    var end := m.appliedAt + days * DAY;
    VerdictMatchesSavings(m.baselineCostPer1k, CostIn(served, m.app, m.appliedAt, end),
                          CountIn(served, m.app, m.appliedAt, end), m.expectedPct, m.baselineRequests, Changed(history, m.policyVersion, end));
  }

  lemma ObserveStep(s: System, c: ClientID, served: seq<Served>, id: MeasID, m: Measurement, days: int, now: int)
    requires GoodSystem(s) && GoodClient(s.db, CheckLoaded(id, m, days, now))
    ensures GoodSystem(At(s, c, CheckSeen(id, m, days, now, Observe(m, days, served, LogOf(s.db, m.app).history))))
  {
    assert GoodMeasurement(s.db.opps, LogOf(s.db, s.db.meas[id].app), s.db.meas[id]);
    ObservationIsHonest(m, days, served, LogOf(s.db, m.app).history);
    Move(s, c, CheckSeen(id, m, days, now, Observe(m, days, served, LogOf(s.db, m.app).history)));
  }

  lemma RecordStep(s: System, c: ClientID, id: MeasID, m: Measurement, days: int, now: int, seen: Observation)
    requires GoodSystem(s) && GoodClient(s.db, CheckSeen(id, m, days, now, seen))
    ensures GoodSystem(At(s, c, Idle).(db := s.db.(meas :=
              if days == INTERIM_WINDOW_DAYS then WithInterim(s.db.meas, id, seen) else WithFinal(s.db.meas, id, seen, now))))
  {
    if days == INTERIM_WINDOW_DAYS {
      RowStep(s, c, id, s.db.meas[id].(observed := Some(seen), status := Interim));
    } else {
      RowStep(s, c, id, s.db.meas[id].(observed := Some(seen), status := Final, finalizedAt := Some(now)));
    }
  }

  lemma CheckStep(s: System, c: ClientID, served: seq<Served>)
    requires GoodSystem(s)
    ensures GoodSystem(ProceedCheck(s, c, served))
  {
    Known(s, c);
    match ClientOf(s, c)
    case CheckLoaded(id, m, days, now) => ObserveStep(s, c, served, id, m, days, now);
    case CheckSeen(id, m, days, now, seen) => RecordStep(s, c, id, m, days, now, seen);
    case _ =>
  }

  // ---------------------------------------------------------------- beginnings

  lemma OppsStep(s: System, opps: OppTable)
    requires GoodSystem(s) && LiveUnique(opps) && TableMoves(s.db.opps, opps)
    ensures GoodSystem(s.(db := s.db.(opps := opps)))
  {
    OppsKeep(s.db, opps);
    TableStep(s, s.db.(opps := opps));
  }

  lemma ClockStep(s: System, db': DB)
    requires GoodSystem(s) && db' == s.db.(clock := db'.clock, sims := db'.sims) && s.db.clock <= db'.clock
    ensures GoodSystem(s.(db := db'))
  {
    TimeKeeps(s.db, db');
    TableStep(s, db');
  }

  lemma ClockedStep(s: System, c: ClientID, seconds: nat)
    requires GoodSystem(s)
    ensures GoodSystem(Begin(s, c, PassTime(seconds)))
  {
    var later := s.db.(clock := s.db.clock + seconds);
    assert Begin(s, c, PassTime(seconds)) == s.(db := later);
    ClockStep(s, later);
  }

  lemma SimulationStep(s: System, c: ClientID, simID: nat, simulation: Simulation)
    requires GoodSystem(s)
    ensures GoodSystem(Begin(s, c, AddSimulation(simID, simulation)))
  {
    if simID !in s.db.sims {
      ClockStep(s, s.db.(sims := s.db.sims[simID := simulation]));
    }
  }

  lemma DetectorStep(s: System, c: ClientID, newOpp: OppID, org: nat, app: AppID, fingerprint: nat, finding: Finding)
    requires GoodSystem(s)
    ensures GoodSystem(Begin(s, c, Detect(newOpp, org, app, fingerprint, finding)))
  {
    if newOpp !in s.db.opps {
      var opps := Detected(s.db.opps, newOpp, org, app, fingerprint, finding, s.db.clock);
      UpsertMoves(s.db.opps, opps, newOpp, org, app, fingerprint, finding, s.db.clock);
      OppsStep(s, opps);
    }
  }

  lemma ReviewStep(s: System, c: ClientID, org: nat, opp: OppID)
    requires GoodSystem(s)
    ensures GoodSystem(Begin(s, c, Review(org, opp)))
  {
    GuardedUpdatesMove(s.db.opps, org, opp, None, s.db.clock);
    OppsStep(s, WithReviewed(s.db.opps, org, opp, s.db.clock));
  }

  lemma DismissStep(s: System, c: ClientID, org: nat, opp: OppID, reason: Option<nat>)
    requires GoodSystem(s)
    ensures GoodSystem(Begin(s, c, Dismiss(org, opp, reason)))
  {
    GuardedUpdatesMove(s.db.opps, org, opp, reason, s.db.clock);
    OppsStep(s, WithDismissed(s.db.opps, org, opp, reason, s.db.clock));
  }

  lemma StartStep(s: System, c: ClientID, a: Action)
    requires GoodSystem(s)
    requires a.FetchPolicy? || a.StartPut? || a.StartRestore? || a.StartApply? || a.StartRevert? || a.StartCheck?
    ensures GoodSystem(Begin(s, c, a))
  {
    match a
    case FetchPolicy(app) =>
      LogIsGood(s.db, app);
    case StartPut(app, doc) =>
      LogIsGood(s.db, app);
      if ClientOf(s, c).Idle? && Valid(doc) && (c, app) in s.held {
        Move(s, c, PutRead(app, doc, s.held[(c, app)], Current(LogOf(s.db, app))));
      }
    case StartRestore(app, version) =>
      LogIsGood(s.db, app);
      AtVersionFinds(LogOf(s.db, app), version);
      var found := EntryAt(LogOf(s.db, app).history, version);
      if ClientOf(s, c).Idle? && found.Some? {
        Move(s, c, RestoreTarget(app, found.value));
      }
    case StartApply(input) =>
      if ClientOf(s, c).Idle? && Owned(s.db.opps, input.org, input.opp) && s.db.opps[input.opp].app == input.app {
        Move(s, c, ApplyLoaded(input, s.db.opps[input.opp].finding));
      }
    case StartRevert(org, id) =>
      if ClientOf(s, c).Idle? && id in s.db.meas && s.db.meas[id].org == org {
        Move(s, c, RevertLoaded(org, id, s.db.meas[id]));
      }
    case StartCheck(id) =>
      if ClientOf(s, c).Idle? && id in s.db.meas && DueWindow(s.db.meas[id], s.db.clock).Some? {
        Move(s, c, CheckLoaded(id, s.db.meas[id], DueWindow(s.db.meas[id], s.db.clock).value, s.db.clock));
      }
  }

  lemma NextKeeps(s: System, c: ClientID, a: Action)
    requires GoodSystem(s)
    ensures GoodSystem(Next(s, c, a))
  {
    match a
    case GiveUp => Move(s, c, Idle);
    case Proceed(newID, served) =>
      EditorStep(s, c);
      ApplyStep(s, c, newID, served);
      CheckStep(s, c, served);
      RevertStep(s, c);
    case FetchPolicy(_) => StartStep(s, c, a);
    case StartPut(_, _) => StartStep(s, c, a);
    case StartRestore(_, _) => StartStep(s, c, a);
    case StartApply(_) => StartStep(s, c, a);
    case StartRevert(_, _) => StartStep(s, c, a);
    case StartCheck(_) => StartStep(s, c, a);
    case Review(org, opp) => ReviewStep(s, c, org, opp);
    case Dismiss(org, opp, reason) => DismissStep(s, c, org, opp, reason);
    case Detect(newOpp, org, app, fingerprint, finding) => DetectorStep(s, c, newOpp, org, app, fingerprint, finding);
    case PassTime(seconds) => ClockedStep(s, c, seconds);
    case AddSimulation(simID, simulation) => SimulationStep(s, c, simID, simulation);
  }

  lemma {:induction false} StaysGood(s: System, steps: seq<Step>)
    requires GoodSystem(s)
    ensures GoodSystem(Run(s, steps))
  {
    if steps != [] {
      StaysGood(s, Init(steps));
      NextKeeps(Run(s, Init(steps)), Last(steps).client, Last(steps).action);
    }
  }

  /** Every reachable state is good. */
  lemma AlwaysGood(steps: seq<Step>)
    ensures GoodSystem(Run(START, steps))
  {
    StaysGood(START, steps);
  }

  // ---------------------------------------------------------------- what follows

  /** In every reachable state an application's history is versions 1 to v, the
      last of them current, and the stored diffs alone rebuild each of them. */
  lemma HistoryIsFaithful(steps: seq<Step>, app: AppID, version: nat)
    requires version <= |LogOf(Run(START, steps).db, app).history|
    ensures var l := LogOf(Run(START, steps).db, app);
            && Current(l) == Record(|l.history|, DocumentAt(l, |l.history|))
            && (version > 0 ==> l.history[version - 1].version == version && Valid(l.history[version - 1].document))
            && Rebuild(l.history[..version]) == DocumentAt(l, version)
  {
    AlwaysGood(steps);
    LogIsGood(Run(START, steps).db, app);
    DiffsRebuild(LogOf(Run(START, steps).db, app), version);
  }

  lemma BeginExtends(s: System, c: ClientID, a: Action, app: AppID)
    ensures Begin(s, c, a).db.logs == s.db.logs
  {
  }

  lemma CheckExtends(s: System, c: ClientID, served: seq<Served>)
    ensures ProceedCheck(s, c, served).db.logs == s.db.logs
  {
  }

  /** Logs never lose or change a row from one step to the next. */
  lemma NextExtends(s: System, c: ClientID, a: Action, app: AppID)
    ensures Extends(LogOf(s.db, app), LogOf(Next(s, c, a).db, app))
  {
    match a
    case GiveUp =>
    case Proceed(newID, served) =>
      CheckExtends(s, c, served);
    case _ => BeginExtends(s, c, a, app);
  }

  /** Whatever runs in between, no history row changes or goes. */
  lemma {:induction false} NothingIsRewritten(s: System, steps: seq<Step>, app: AppID)
    ensures Extends(LogOf(s.db, app), LogOf(Run(s, steps).db, app))
  {
    if steps != [] {
      NothingIsRewritten(s, Init(steps), app);
      NextExtends(Run(s, Init(steps)), Last(steps).client, Last(steps).action, app);
    }
  }

  /** The opportunity and measurement lifecycles agree in every reachable state,
      half-finished applies and reverts included. */
  lemma LifecyclesAgree(steps: seq<Step>)
    ensures var db := Run(START, steps).db;
            && LiveUnique(db.opps) && OneEach(db.meas)
            && forall id :: id in db.meas ==>
                 var m := db.meas[id];
                 && AppliedOnce(db.opps, m.opportunityID, m.app)
                 && WrittenBy(LogOf(db, m.app), m.policyVersion, m.opportunityID)
                 && (m.status.Withdrawn? ==> db.opps[m.opportunityID].status.Reverted?)
  {
    AlwaysGood(steps);
    var db := Run(START, steps).db;
    forall id | id in db.meas ensures GoodMeasurement(db.opps, LogOf(db, db.meas[id].app), db.meas[id]) {
    }
  }

  /** Revert never fails for want of the version it needs. */
  lemma PriorAlwaysLoads(steps: seq<Step>, id: MeasID)
    requires id in Run(START, steps).db.meas
    ensures var db := Run(START, steps).db;
            var m := db.meas[id];
            && m.policyVersion >= 1
            && (m.policyVersion > 1 ==>
                  EntryAt(LogOf(db, m.app).history, m.policyVersion - 1) == Some(DocumentAt(LogOf(db, m.app), m.policyVersion - 1)))
  {
    AlwaysGood(steps);
    var db := Run(START, steps).db;
    PriorExists(db, id, db.meas[id]);
  }

  /** Apply's save lands on the document it read and replaces its routing alone. */
  lemma ApplyOnlyTouchesRouting(steps: seq<Step>, app: AppID, version: nat, opp: OppID)
    requires WrittenBy(LogOf(Run(START, steps).db, app), version, opp)
    ensures var l := LogOf(Run(START, steps).db, app);
            DocumentAt(l, version) == DocumentAt(l, version - 1).(routing := DocumentAt(l, version).routing)
  {
    AlwaysGood(steps);
    LogIsGood(Run(START, steps).db, app);
  }

  /** The save of an apply in progress: when it lands, the routing asked for is
      current, and every other control is as in the document read. */
  lemma ApplySavesAsAsked(s: System, c: ClientID, input: ApplyInput, finding: Finding, base: Record, newID: MeasID,
                          served: seq<Served>)
    requires ClientOf(s, c) == ApplyRead(input, finding, base)
    requires Next(s, c, Proceed(newID, served)).clients[c].ApplySaved?
    ensures var after := Current(LogOf(Next(s, c, Proceed(newID, served)).db, input.app));
            after.version == base.version + 1 && RoutesAsAsked(after.document, base.document, input.routing)
  {
    TargetCase(s, c, input, finding, base, newID, served);
  }

  /** The save of a revert in progress. */
  lemma RevertSaves(s: System, c: ClientID, org: nat, id: MeasID, m: Measurement, prior: PolicyDocument, base: Record)
    requires Sound(LogOf(s.db, m.app)) && IsPrior(s.db, m, prior)
    requires ClientOf(s, c) == RevertRead(org, id, m, prior, base) && Expects(LogOf(s.db, m.app), base.version)
    ensures var l, l' := LogOf(s.db, m.app), LogOf(ProceedRevert(s, c).db, m.app);
            && Current(l') == Record(Current(l).version + 1, DocumentAt(l, m.policyVersion - 1))
            && Extends(l, l')
  {
  }

  lemma KnownPrior(s: System, c: ClientID)
    requires GoodSystem(s) && ClientOf(s, c).RevertRead?
    ensures var pc := ClientOf(s, c);
            Sound(LogOf(s.db, pc.m.app)) && IsPrior(s.db, pc.m, pc.prior) && KnownMeasurement(s.db, pc.id, pc.m)
  {
    Known(s, c);
    LogIsGood(s.db, ClientOf(s, c).m.app);
  }

  /** A revert whose save lands makes the document that stood before the apply
      current again, whatever other versions came in between; and that document
      is still where it was in the history. */
  lemma RevertRestores(steps: seq<Step>, c: ClientID, newID: MeasID, served: seq<Served>)
    requires ClientOf(Run(START, steps), c).RevertRead?
    requires Next(Run(START, steps), c, Proceed(newID, served)).clients[c].RevertSaved?
    ensures var before, after := Run(START, steps), Next(Run(START, steps), c, Proceed(newID, served));
            var m := ClientOf(before, c).m;
            var l, l' := LogOf(before.db, m.app), LogOf(after.db, m.app);
            && Current(l') == Record(Current(l).version + 1, DocumentAt(l, m.policyVersion - 1))
            && DocumentAt(l', m.policyVersion - 1) == DocumentAt(l, m.policyVersion - 1)
  {
    var s := Run(START, steps);
    AlwaysGood(steps);
    KnownPrior(s, c);
    var pc := ClientOf(s, c);
    RevertSaves(s, c, pc.org, pc.id, pc.m, pc.prior, pc.base);
    PriorExists(s.db, pc.id, pc.m);
    ExtendsKeeps(LogOf(s.db, pc.m.app), LogOf(ProceedRevert(s, c).db, pc.m.app), pc.m.policyVersion - 1);
  }

  /** What a client read of an application is still in its history, whatever runs. */
  lemma StillRead(s: System, c: ClientID, a: Action, between: seq<Step>)
    requires GoodSystem(s) && ClientOf(s, c).ApplyRead?
    ensures var pc := ClientOf(s, c);
            var later := LogOf(Run(Next(s, c, a), between).db, pc.input.app);
            pc.base.version <= |later.history| && DocumentAt(later, pc.base.version) == pc.base.document
  {
    Known(s, c);
    var pc := ClientOf(s, c);
    var app := pc.input.app;
    var s1 := Next(s, c, a);
    NextExtends(s, c, a, app);
    ReadStays(LogOf(s.db, app), LogOf(s1.db, app), pc.base);
    NothingIsRewritten(s1, between, app);
    ReadStays(LogOf(s1.db, app), LogOf(Run(s1, between).db, app), pc.base);
  }

  /** Apply reads `base` and its save lands, as the version after; anything at all
      happens; a revert of a measurement of that version then saves.  The
      document Apply had read is current again. */
  lemma ApplyThenRevert(before: seq<Step>, c: ClientID, input: ApplyInput, finding: Finding,
                      base: Record, newID: MeasID, served: seq<Served>, between: seq<Step>,
                      d: ClientID, org: nat, id: MeasID, m: Measurement, prior: PolicyDocument, base2: Record)
    requires ClientOf(Run(START, before), c) == ApplyRead(input, finding, base)
    requires var s2 := Run(Next(Run(START, before), c, Proceed(newID, served)), between);
             && ClientOf(s2, d) == RevertRead(org, id, m, prior, base2)
             && m.app == input.app && m.policyVersion == base.version + 1
             && Expects(LogOf(s2.db, input.app), base2.version)
    ensures var s2 := Run(Next(Run(START, before), c, Proceed(newID, served)), between);
            Current(LogOf(ProceedRevert(s2, d).db, input.app)) ==
              Record(Current(LogOf(s2.db, input.app)).version + 1, base.document)
  {
    var s := Run(START, before);
    var s1 := Next(s, c, Proceed(newID, served));
    AlwaysGood(before);
    NextKeeps(s, c, Proceed(newID, served));
    StaysGood(s1, between);
    StillRead(s, c, Proceed(newID, served), between);
    KnownPrior(Run(s1, between), d);
    RevertSaves(Run(s1, between), d, org, id, m, prior, base2);
  }

  /** The row `id` after a step that is neither a check nor a revert's last. */
  lemma OtherStepsKeepRow(s: System, c: ClientID, a: Action, id: MeasID)
    requires id in s.db.meas
    requires a.Proceed? ==> !ClientOf(s, c).CheckSeen? && !ClientOf(s, c).RevertMarked?
    ensures id in Next(s, c, a).db.meas && Next(s, c, a).db.meas[id] == s.db.meas[id]
  {
    match a
    case Proceed(_, _) =>
    case GiveUp =>
    case _ => BeginKeepsRows(s, c, a);
  }

  lemma BeginKeepsRows(s: System, c: ClientID, a: Action)
    ensures Begin(s, c, a).db.meas == s.db.meas
  {
  }

  /** The recording half of a check of `id` that had read the row before. */
  ghost predicate LateCheck(s: System, c: ClientID, a: Action, id: MeasID) {
    a.Proceed? && ClientOf(s, c).CheckSeen? && ClientOf(s, c).id == id
  }

  /** A withdrawn measurement stays withdrawn through a step exactly when the step
      does not record a check. */
  lemma WithdrawnStays(s: System, c: ClientID, a: Action, id: MeasID)
    requires id in s.db.meas && s.db.meas[id].status.Withdrawn?
    ensures id in Next(s, c, a).db.meas
    ensures Next(s, c, a).db.meas[id].status.Withdrawn? <==> !LateCheck(s, c, a, id)
  {
    if a.Proceed? && ClientOf(s, c).CheckSeen? {
      RecordedRow(s, c, a, id);
    } else if a.Proceed? && ClientOf(s, c).RevertMarked? {
      WithdrawnRow(s, c, a, id);
    } else {
      OtherStepsKeepRow(s, c, a, id);
    }
  }

  lemma RecordedRow(s: System, c: ClientID, a: Action, id: MeasID)
    requires id in s.db.meas && a.Proceed? && ClientOf(s, c).CheckSeen?
    ensures id in Next(s, c, a).db.meas
    ensures var row := Next(s, c, a).db.meas[id];
            if ClientOf(s, c).id == id then row.status.Interim? || row.status.Final? else row == s.db.meas[id]
  {
  }

  lemma WithdrawnRow(s: System, c: ClientID, a: Action, id: MeasID)
    requires id in s.db.meas && a.Proceed? && ClientOf(s, c).RevertMarked?
    ensures id in Next(s, c, a).db.meas
    ensures Next(s, c, a).db.meas[id].status.Withdrawn? || Next(s, c, a).db.meas[id] == s.db.meas[id]
  {
  }

  /** A client has read the row `id` for a check and has yet to record it. */
  ghost predicate Checking(s: System, c: ClientID, id: MeasID) {
    (ClientOf(s, c).CheckLoaded? || ClientOf(s, c).CheckSeen?) && ClientOf(s, c).id == id
  }

  ghost predicate IsWithdrawn(s: System, id: MeasID) {
    id in s.db.meas && s.db.meas[id].status.Withdrawn?
  }

  lemma OthersStayPut(s: System, c: ClientID, a: Action, d: ClientID)
    requires d != c
    ensures ClientOf(Next(s, c, a), d) == ClientOf(s, d)
  {
    match a
    case Proceed(_, _) =>
    case _ =>
  }

  /** Going on with something else never turns into a check of `id`. */
  lemma ProceedStaysUnchecked(s: System, c: ClientID, newID: MeasID, served: seq<Served>, id: MeasID)
    requires !Checking(s, c, id)
    ensures !Checking(Next(s, c, Proceed(newID, served)), c, id)
  {
  }

  /** And a check never starts on a withdrawn row. */
  lemma StaysUnchecked(s: System, c: ClientID, a: Action, id: MeasID)
    requires IsWithdrawn(s, id) && forall d :: !Checking(s, d, id)
    ensures IsWithdrawn(Next(s, c, a), id) && forall d :: !Checking(Next(s, c, a), d, id)
  {
    assert !Checking(s, c, id);
    WithdrawnStays(s, c, a, id);
    if a.Proceed? {
      ProceedStaysUnchecked(s, c, a.newID, a.served, id);
    } else {
      BeginStaysUnchecked(s, c, a, id);
    }
    forall d ensures !Checking(Next(s, c, a), d, id) {
      assert !Checking(s, d, id);
      if d != c {
        OthersStayPut(s, c, a, d);
      }
    }
  }

  lemma BeginStaysUnchecked(s: System, c: ClientID, a: Action, id: MeasID)
    requires IsWithdrawn(s, id) && !Checking(s, c, id) && !a.Proceed?
    ensures !Checking(Next(s, c, a), c, id)
  {
  }

  lemma {:induction false} StaysUncheckedAlways(s: System, steps: seq<Step>, id: MeasID)
    requires IsWithdrawn(s, id) && forall c :: !Checking(s, c, id)
    ensures IsWithdrawn(Run(s, steps), id) && forall c :: !Checking(Run(s, steps), c, id)
  {
    if steps != [] {
      StaysUncheckedAlways(s, Init(steps), id);
      StaysUnchecked(Run(s, Init(steps)), Last(steps).client, Last(steps).action, id);
    }
  }

  /** A check under way can always be finished, and then the row lives again. */
  lemma CheckRevives(s: System, c: ClientID, id: MeasID) returns (steps: seq<Step>)
    requires IsWithdrawn(s, id) && Checking(s, c, id)
    ensures !IsWithdrawn(Run(s, steps), id)
  {
    var step := Step(c, Proceed(0, []));
    assert Init([step]) == [] && Init([step, step]) == [step];
    assert Run(s, [step]) == Next(s, c, Proceed(0, []));
    steps := if ClientOf(s, c).CheckSeen? then [step] else [step, step];
    if ClientOf(s, c).CheckSeen? {
      WithdrawnStays(s, c, Proceed(0, []), id);
    } else {
      var read := Next(s, c, Proceed(0, []));
      assert IsWithdrawn(read, id) && LateCheck(read, c, Proceed(0, []), id);
      WithdrawnStays(read, c, Proceed(0, []), id);
    }
  }

  /** A withdrawn measurement is withdrawn for good, whatever anyone does, exactly
      if no client has a check of it under way. */
  lemma WithdrawnForGoodIff(s: System, id: MeasID)
    requires IsWithdrawn(s, id)
    ensures (forall steps: seq<Step> :: IsWithdrawn(Run(s, steps), id)) <==> forall c :: !Checking(s, c, id)
  {
    if c :| Checking(s, c, id) {
      var steps := CheckRevives(s, c, id);
    } else {
      forall steps: seq<Step> ensures IsWithdrawn(Run(s, steps), id) {
        StaysUncheckedAlways(s, steps, id);
      }
    }
  }

  /** The endpoints of a single call, in the tables' own columns. */
  lemma SingleCalls(s: System, c: ClientID, org: nat, opp: OppID, reason: Option<nat>, simID: nat, simulation: Simulation,
                    app: AppID)
    ensures var o, own := s.db.opps, opp in s.db.opps && s.db.opps[opp].org == org;
            && Begin(s, c, Review(org, opp)) == s.(db := s.db.(opps :=
                 if own && o[opp].status == Open
                 then o[opp := o[opp].(status := Reviewed, reviewedAt := Some(s.db.clock))] else o))
            && Begin(s, c, Dismiss(org, opp, reason)) == s.(db := s.db.(opps :=
                 if own && o[opp].status in {Open, Reviewed, OppStatus.Simulated}
                 then o[opp := o[opp].(status := Dismissed, dismissedAt := Some(s.db.clock), dismissReason := reason)] else o))
    ensures Begin(s, c, AddSimulation(simID, simulation)) ==
              s.(db := s.db.(sims := if simID in s.db.sims then s.db.sims else s.db.sims[simID := simulation]))
    ensures Begin(s, c, FetchPolicy(app)) == s.(held := s.held[(c, app) := Current(LogOf(s.db, app)).version])
  {
  }

  lemma {:induction false} NoLossIn(t: MeasTable, ids: set<MeasID>, org: nat)
    requires ids <= t.Keys
    requires forall id :: id in t && t[id].observed.Some? ==> HonestVerdict(t[id].observed.value)
    ensures SumSavings(t, ids, org) >= 0
  {
    if ids != {} {
      var id :| id in ids;
      SumSavingsTake(t, ids, org, id);
      NoLossIn(t, ids - {id}, org);
    }
  }

  /** Realized savings are never negative. */
  lemma RealizedSavingsNotNegative(steps: seq<Step>, org: nat)
    ensures var t := Run(START, steps).db.meas; SumSavings(t, t.Keys, org) >= 0
  {
    AlwaysGood(steps);
    var db := Run(START, steps).db;
    forall id | id in db.meas && db.meas[id].observed.Some? ensures HonestVerdict(db.meas[id].observed.value) {
      assert GoodMeasurement(db.opps, LogOf(db, db.meas[id].app), db.meas[id]);
    }
    NoLossIn(db.meas, db.meas.Keys, org);
  }

  /** What a put stores, and the check that would do: its diff is right exactly if
      its own read was the current document; and its read was the current row
      exactly if the version the client names is not newer than the one read. */
  lemma PutIsRightIff(l: PolicyLog, base: Record, expected: int, doc: PolicyDocument, now: int)
    requires Sound(l) && DiffsLinked(l) && WasRead(l, base) && Expects(l, expected)
    ensures DiffsLinked(Saved(l, expected, doc, EntryNote(DiffOf(base.document, doc), ByUser, None, None), now))
            <==> base.document == Current(l).document
    ensures base == Current(l) <==> expected <= base.version
  {
    ReadThenSaveKeepsDiffs(l, base, expected, doc, ByUser, None, None, now);
    if expected <= base.version {
      BaseIsCurrent(l, base, expected);
    }
  }

  /** For instance a put that reads before another's save and names the version
      that save will have: the store accepts it with a diff from the wrong document. */
  lemma GuessedVersionMisleads() returns (l: PolicyLog, base: Record, doc: PolicyDocument)
    ensures Sound(l) && DiffsLinked(l) && WasRead(l, base) && base.version < 1 && Expects(l, 1) && Valid(doc)
    ensures !DiffsLinked(Saved(l, 1, doc, EntryNote(DiffOf(base.document, doc), ByUser, None, None), 0))
  {
    var cached := EMPTY_DOCUMENT.(caching := Some(Other(1, true)));
    var note := EntryNote(DiffOf(EMPTY_DOCUMENT, cached), ByUser, None, None);
    l := Saved(NO_LOG, 0, cached, note, 0);
    base, doc := Record(0, EMPTY_DOCUMENT), cached;
    assert IsDiff(note.diff, EMPTY_DOCUMENT, cached);
    SaveKeepsSound(NO_LOG, 0, cached, note, 0);
    SaveKeepsDiffs(NO_LOG, 0, cached, note, 0);
    PutIsRightIff(l, base, 1, doc, 0);
  }
}
