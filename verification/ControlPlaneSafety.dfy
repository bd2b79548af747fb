/** What every step of the interleaved control plane keeps. */
module ControlPlaneSafety {
  import opened Prelude
  import opened Measure
  import opened PolicyDocuments
  import opened PolicyStore
  import opened OpportunityStore
  import opened MeasurementStore
  import opened MeasureRunner
  import opened ControlPlane

  // ---------------------------------------------------------------- the tables

  /** An entry written by Apply changes the routing control of the version before it and nothing else. */
  ghost predicate ApplyOnlyReroutes(l: PolicyLog) {
    forall i :: 0 <= i < |l.history| && l.history[i].note.source.ByOpportunity? ==>
      l.history[i].document == DocumentAt(l, i).(routing := l.history[i].document.routing)
  }

  ghost predicate Dated(l: PolicyLog, clock: int) {
    forall i :: 0 <= i < |l.history| ==> l.history[i].changedAt <= clock
  }

  ghost predicate GoodLog(l: PolicyLog, clock: int) {
    Sound(l) && DiffsLinked(l) && ApplyOnlyReroutes(l) && Dated(l, clock)
  }

  ghost predicate GoodLogs(db: DB) {
    forall app: AppID {:trigger GoodLog(LogOf(db, app), db.clock)} :: GoodLog(LogOf(db, app), db.clock)
  }

  /** History holds this version as the work of this opportunity's apply. */
  ghost predicate WrittenBy(l: PolicyLog, version: int, opp: OppID) {
    && 1 <= version <= |l.history|
    && l.history[version - 1].note.source.ByOpportunity?
    && l.history[version - 1].note.opportunityID == Some(opp)
  }

  ghost predicate AppliedOnce(t: OppTable, opp: OppID, app: AppID) {
    opp in t && t[opp].app == app && (t[opp].status.Applied? || t[opp].status.Reverted?)
  }

  ghost predicate HonestVerdict(seen: Observation) {
    && (seen.verdict.Successful? || seen.verdict.Partial? ==> seen.comparison.actualSavingsMicro >= 0)
    && (seen.verdict.Regressed? ==> seen.comparison.actualSavingsMicro <= 0)
  }

  /** `l` is the log of the measurement's application. */
  ghost predicate GoodMeasurement(opps: OppTable, l: PolicyLog, m: Measurement) {
    && AppliedOnce(opps, m.opportunityID, m.app)
    && WrittenBy(l, m.policyVersion, m.opportunityID)
    && (m.status.Withdrawn? ==> opps[m.opportunityID].status.Reverted?)
    && m.baselineCostPer1k >= 0
    && (m.observed.Some? ==> HonestVerdict(m.observed.value))
  }

  ghost predicate GoodMeasurements(db: DB) {
    forall id :: id in db.meas ==> GoodMeasurement(db.opps, LogOf(db, db.meas[id].app), db.meas[id])
  }

  ghost predicate OneEach(t: MeasTable) {
    forall a, b :: a in t && b in t && t[a].opportunityID == t[b].opportunityID ==> a == b
  }

  ghost predicate GoodDB(db: DB) {
    GoodLogs(db) && LiveUnique(db.opps) && GoodMeasurements(db) && OneEach(db.meas)
  }

  // ---------------------------------------------------------------- how the tables move

  /** Logs only gain rows, opportunities only move along their lifecycle,
      measurements keep what was frozen. */
  ghost predicate Grows(db: DB, db': DB) {
    && (forall app: AppID :: Extends(LogOf(db, app), LogOf(db', app)))
    && TableMoves(db.opps, db'.opps)
    && (forall id :: id in db.meas ==> id in db'.meas && SameMeasurement(db.meas[id], db'.meas[id]))
    && db.clock <= db'.clock
  }

  lemma WrittenStays(l: PolicyLog, later: PolicyLog, version: int, opp: OppID)
    requires Extends(l, later) && WrittenBy(l, version, opp)
    ensures WrittenBy(later, version, opp)
  {
  }

  lemma AppliedStays(t: OppTable, t': OppTable, opp: OppID, app: AppID)
    requires TableMoves(t, t') && AppliedOnce(t, opp, app)
    ensures AppliedOnce(t', opp, app) && (t[opp].status.Reverted? ==> t'[opp].status.Reverted?)
  {
  }

  lemma MeasurementsStay(db: DB, db': DB)
    requires GoodMeasurements(db) && Grows(db, db') && db'.meas == db.meas
    ensures GoodMeasurements(db')
  {
    forall id | id in db'.meas ensures GoodMeasurement(db'.opps, LogOf(db', db'.meas[id].app), db'.meas[id]) {
      var m := db.meas[id];
    }
  }

  // ---------------------------------------------------------------- one kind of change at a time

  lemma SaveKeepsRerouting(l: PolicyLog, expected: int, doc: PolicyDocument, note: EntryNote, clock: int)
    requires Sound(l) && ApplyOnlyReroutes(l) && Expects(l, expected)
    requires note.source.ByOpportunity? ==> doc == Current(l).document.(routing := doc.routing)
    ensures ApplyOnlyReroutes(Saved(l, expected, doc, note, clock))
  {
    var s := Saved(l, expected, doc, note, clock);
    forall i | 0 <= i < |s.history| && s.history[i].note.source.ByOpportunity?
      ensures s.history[i].document == DocumentAt(s, i).(routing := s.history[i].document.routing)
    {
      ExtendsKeeps(l, s, i);
    }
  }

  lemma SaveGoodLog(l: PolicyLog, expected: int, doc: PolicyDocument, note: EntryNote, clock: int)
    requires GoodLog(l, clock) && Expects(l, expected) && Valid(doc) && IsDiff(note.diff, Current(l).document, doc)
    requires note.source.ByOpportunity? ==> doc == Current(l).document.(routing := doc.routing)
    ensures var s := Saved(l, expected, doc, note, clock); GoodLog(s, clock) && Extends(l, s)
  {
    SaveKeepsSound(l, expected, doc, note, clock);
    SaveKeepsDiffs(l, expected, doc, note, clock);
    SaveKeepsRerouting(l, expected, doc, note, clock);
  }

  ghost predicate SaveAllowed(db: DB, app: AppID, expected: int, doc: PolicyDocument, note: EntryNote) {
    var l := LogOf(db, app);
    && Expects(l, expected) && Valid(doc) && IsDiff(note.diff, Current(l).document, doc)
    && (note.source.ByOpportunity? ==> doc == Current(l).document.(routing := doc.routing))
  }

  function WithSave(db: DB, app: AppID, expected: int, doc: PolicyDocument, note: EntryNote): DB {
    db.(logs := db.logs[app := Saved(LogOf(db, app), expected, doc, note, db.clock)])
  }

  lemma SaveKeeps(db: DB, app: AppID, expected: int, doc: PolicyDocument, note: EntryNote)
    requires GoodDB(db) && SaveAllowed(db, app, expected, doc, note)
    ensures GoodDB(WithSave(db, app, expected, doc, note)) && Grows(db, WithSave(db, app, expected, doc, note))
  {
    var db' := WithSave(db, app, expected, doc, note);
    assert GoodLog(LogOf(db, app), db.clock);
    SaveGoodLog(LogOf(db, app), expected, doc, note, db.clock);
    forall other: AppID ensures GoodLog(LogOf(db', other), db'.clock) && Extends(LogOf(db, other), LogOf(db', other)) {
      assert GoodLog(LogOf(db, other), db.clock);
    }
    MeasurementsStay(db, db');
  }

  lemma OppsKeep(db: DB, opps: OppTable)
    requires GoodDB(db) && LiveUnique(opps) && TableMoves(db.opps, opps)
    ensures GoodDB(db.(opps := opps)) && Grows(db, db.(opps := opps))
  {
    var db' := db.(opps := opps);
    forall app: AppID ensures LogOf(db', app) == LogOf(db, app) {
    }
    MeasurementsStay(db, db');
  }

  lemma MeasKeep(db: DB, id: MeasID, m: Measurement)
    requires GoodDB(db) && GoodMeasurement(db.opps, LogOf(db, m.app), m)
    requires if id in db.meas then SameMeasurement(db.meas[id], m) else Unmeasured(db.meas, m.opportunityID)
    ensures GoodDB(db.(meas := db.meas[id := m])) && Grows(db, db.(meas := db.meas[id := m]))
  {
    var db' := db.(meas := db.meas[id := m]);
    SameLogs(db, db');
  }

  lemma SameLogs(db: DB, db': DB)
    requires GoodLogs(db) && db'.logs == db.logs && db'.clock == db.clock
    ensures GoodLogs(db') && forall app: AppID :: Extends(LogOf(db, app), LogOf(db', app))
  {
    forall app: AppID ensures LogOf(db', app) == LogOf(db, app) && GoodLog(LogOf(db', app), db'.clock) {
      assert GoodLog(LogOf(db, app), db.clock);
    }
  }

  ghost predicate Unmeasured(t: MeasTable, opp: OppID) {
    forall id :: id in t ==> t[id].opportunityID != opp
  }

  lemma TimeKeeps(db: DB, db': DB)
    requires GoodDB(db) && db' == db.(clock := db'.clock, sims := db'.sims) && db.clock <= db'.clock
    ensures GoodDB(db') && Grows(db, db')
  {
    forall app: AppID ensures GoodLog(LogOf(db', app), db'.clock) && LogOf(db', app) == LogOf(db, app) {
      assert GoodLog(LogOf(db, app), db.clock);
    }
    MeasurementsStay(db, db');
  }

  // ---------------------------------------------------------------- the clients

  ghost predicate KnownMeasurement(db: DB, id: MeasID, m: Measurement) {
    id in db.meas && SameMeasurement(m, db.meas[id])
  }

  ghost predicate KnownOpp(db: DB, input: ApplyInput) {
    input.opp in db.opps && db.opps[input.opp].app == input.app
  }

  /** What a client's local variables mean, whatever the others have done since. */
  ghost predicate GoodClient(db: DB, pc: Client) {
    match pc
    case Idle => true
    case PutRead(app, doc, expected, base) => Valid(doc) && expected <= base.version && WasRead(LogOf(db, app), base)
    case RestoreTarget(app, doc) => Valid(doc)
    case RestoreRead(app, doc, base) => Valid(doc) && WasRead(LogOf(db, app), base)
    case ApplyLoaded(input, _) => KnownOpp(db, input)
    case ApplyCleared(input, _) => KnownOpp(db, input)
    case ApplyRead(input, _, base) => KnownOpp(db, input) && WasRead(LogOf(db, input.app), base)
    case ApplySaved(input, _, version) => KnownOpp(db, input) && WrittenBy(LogOf(db, input.app), version, input.opp)
    case ApplyMarked(input, _, version) =>
      AppliedOnce(db.opps, input.opp, input.app) && WrittenBy(LogOf(db, input.app), version, input.opp)
    case RevertLoaded(_, id, m) => KnownMeasurement(db, id, m)
    case RevertPrior(_, id, m, prior) => KnownMeasurement(db, id, m) && IsPrior(db, m, prior)
    case RevertRead(_, id, m, prior, base) =>
      KnownMeasurement(db, id, m) && IsPrior(db, m, prior) && WasRead(LogOf(db, m.app), base)
    case RevertSaved(_, id, m) => KnownMeasurement(db, id, m)
    case RevertMarked(_, id, m) =>
      KnownMeasurement(db, id, m) && m.opportunityID in db.opps && db.opps[m.opportunityID].status.Reverted?
    case CheckLoaded(id, m, _, _) => KnownMeasurement(db, id, m)
    case CheckSeen(id, m, _, _, seen) => KnownMeasurement(db, id, m) && HonestVerdict(seen)
  }

  /** The document of the version before the measurement's apply. */
  ghost predicate IsPrior(db: DB, m: Measurement, prior: PolicyDocument) {
    Valid(prior) && prior == DocumentAt(LogOf(db, m.app), m.policyVersion - 1)
  }

  lemma ReadStays(l: PolicyLog, later: PolicyLog, r: Record)
    requires Extends(l, later) && WasRead(l, r)
    ensures WasRead(later, r)
  {
    ExtendsKeeps(l, later, r.version);
  }

  lemma PriorStays(db: DB, db': DB, id: MeasID, m: Measurement, prior: PolicyDocument)
    requires GoodDB(db) && Grows(db, db') && KnownMeasurement(db, id, m) && IsPrior(db, m, prior)
    ensures IsPrior(db', m, prior)
  {
    assert GoodMeasurement(db.opps, LogOf(db, db.meas[id].app), db.meas[id]);
    ExtendsKeeps(LogOf(db, m.app), LogOf(db', m.app), m.policyVersion - 1);
  }

  /** Nothing the tables do can falsify what a waiting client knows. */
  lemma ClientStays(db: DB, db': DB, pc: Client)
    requires GoodDB(db) && Grows(db, db') && GoodClient(db, pc)
    ensures GoodClient(db', pc)
  {
    match pc
    case Idle =>
    case PutRead(app, _, _, base) => ReadStays(LogOf(db, app), LogOf(db', app), base);
    case RestoreTarget(_, _) =>
    case RestoreRead(app, _, base) => ReadStays(LogOf(db, app), LogOf(db', app), base);
    case ApplyLoaded(_, _) =>
    case ApplyCleared(_, _) =>
    case ApplyRead(input, _, base) => ReadStays(LogOf(db, input.app), LogOf(db', input.app), base);
    case ApplySaved(input, _, version) => WrittenStays(LogOf(db, input.app), LogOf(db', input.app), version, input.opp);
    case ApplyMarked(input, _, version) =>
      WrittenStays(LogOf(db, input.app), LogOf(db', input.app), version, input.opp);
      AppliedStays(db.opps, db'.opps, input.opp, input.app);
    case RevertLoaded(_, _, _) =>
    case RevertPrior(_, id, m, prior) => PriorStays(db, db', id, m, prior);
    case RevertRead(_, id, m, prior, base) =>
      PriorStays(db, db', id, m, prior);
      ReadStays(LogOf(db, m.app), LogOf(db', m.app), base);
    case RevertSaved(_, _, _) =>
    case RevertMarked(_, _, m) =>
    case CheckLoaded(_, _, _, _) =>
    case CheckSeen(_, _, _, _, _) =>
  }

  // ---------------------------------------------------------------- the system

  ghost predicate GoodClients(db: DB, clients: map<ClientID, Client>) {
    forall c :: c in clients ==> GoodClient(db, clients[c])
  }

  ghost predicate HoldsTicket(clients: map<ClientID, Client>, c: ClientID, opp: OppID) {
    c in clients && clients[c].ApplyMarked? && clients[c].input.opp == opp
  }

  /** Between marking an opportunity applied and freezing its baseline a client
      is alone with it, and it has no measurement yet. */
  ghost predicate GoodTickets(db: DB, clients: map<ClientID, Client>) {
    && (forall c, opp :: HoldsTicket(clients, c, opp) ==> Unmeasured(db.meas, opp))
    && (forall c, d, opp :: HoldsTicket(clients, c, opp) && HoldsTicket(clients, d, opp) ==> c == d)
  }

  ghost predicate GoodHeld(db: DB, held: map<(ClientID, AppID), int>) {
    forall key :: key in held ==> held[key] <= Current(LogOf(db, key.1)).version
  }

  ghost predicate GoodSystem(s: System) {
    GoodDB(s.db) && GoodClients(s.db, s.clients) && GoodTickets(s.db, s.clients) && GoodHeld(s.db, s.held)
  }

  lemma HeldStays(db: DB, db': DB, held: map<(ClientID, AppID), int>)
    requires GoodDB(db) && GoodDB(db') && Grows(db, db') && GoodHeld(db, held)
    ensures GoodHeld(db', held)
  {
    forall key | key in held ensures held[key] <= Current(LogOf(db', key.1)).version {
      assert GoodLog(LogOf(db, key.1), db.clock) && GoodLog(LogOf(db', key.1), db'.clock);
      assert Extends(LogOf(db, key.1), LogOf(db', key.1));
    }
  }

  lemma ClientsStay(db: DB, db': DB, clients: map<ClientID, Client>)
    requires GoodDB(db) && Grows(db, db') && GoodClients(db, clients)
    ensures GoodClients(db', clients)
  {
    forall c | c in clients ensures GoodClient(db', clients[c]) {
      ClientStays(db, db', clients[c]);
    }
  }

  /** A step that gives the client no ticket and creates no measurement. */
  lemma PlainStep(s: System, db': DB, c: ClientID, pc: Client)
    requires GoodSystem(s) && GoodDB(db') && Grows(s.db, db') && GoodClient(db', pc)
    requires !pc.ApplyMarked? && db'.meas.Keys == s.db.meas.Keys
    ensures GoodSystem(At(s, c, pc).(db := db'))
  {
    var clients := s.clients[c := pc];
    ClientsStay(s.db, db', s.clients);
    HeldStays(s.db, db', s.held);
    forall d, opp | HoldsTicket(clients, d, opp) ensures Unmeasured(db'.meas, opp) {
      assert HoldsTicket(s.clients, d, opp);
    }
    forall d, e, opp | HoldsTicket(clients, d, opp) && HoldsTicket(clients, e, opp) ensures d == e {
      assert HoldsTicket(s.clients, d, opp) && HoldsTicket(s.clients, e, opp);
    }
  }

  /** A single-call endpoint: no client moves. */
  lemma TableStep(s: System, db': DB)
    requires GoodSystem(s) && GoodDB(db') && Grows(s.db, db') && db'.meas == s.db.meas
    ensures GoodSystem(s.(db := db'))
  {
    ClientsStay(s.db, db', s.clients);
    HeldStays(s.db, db', s.held);
  }

  lemma StayPut(db: DB)
    ensures Grows(db, db)
  {
  }
}
