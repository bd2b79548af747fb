/**
 Apply, Revert and the policy editor as the sequences of store calls they are
 (internal/policy/apply.go, revert.go, internal/api/handler_policy.go), with
 any number of clients interleaving between the calls, and with detectors,
 reviews, dismissals and measurement checks in between.  Each store call is one
 atomic step; a client may also give up half-way.
 */
module ControlPlane {
  import opened Prelude
  import opened Calendar
  import opened Measure
  import opened PolicyDocuments
  import opened PolicyStore
  import opened OpportunityStore
  import opened MeasurementStore
  import opened MeasureRunner

  type ClientID = nat

  datatype Simulation = Simulation(org: nat, opportunityID: Option<OppID>)

  /** The shared tables and the database clock. */
  datatype DB = DB(
    logs: map<AppID, PolicyLog>, opps: OppTable, sims: map<nat, Simulation>, meas: MeasTable, clock: int)

  function LogOf(db: DB, app: AppID): PolicyLog {
    if app in db.logs then db.logs[app] else NO_LOG
  }

  datatype ApplyInput = ApplyInput(org: nat, app: AppID, opp: OppID, sim: nat, routing: RoutingPolicy)

  /** Where a client stands between two store calls, with its local variables. */
  datatype Client =
    | Idle
    | PutRead(app: AppID, doc: PolicyDocument, expected: int, base: Record)
    | RestoreTarget(app: AppID, doc: PolicyDocument)
    | RestoreRead(app: AppID, doc: PolicyDocument, base: Record)
    | ApplyLoaded(input: ApplyInput, finding: Finding)
    | ApplyCleared(input: ApplyInput, finding: Finding)
    | ApplyRead(input: ApplyInput, finding: Finding, base: Record)
    | ApplySaved(input: ApplyInput, finding: Finding, version: int)
    | ApplyMarked(input: ApplyInput, finding: Finding, version: int)
    | RevertLoaded(org: nat, id: MeasID, m: Measurement)
    | RevertPrior(org: nat, id: MeasID, m: Measurement, prior: PolicyDocument)
    | RevertRead(org: nat, id: MeasID, m: Measurement, prior: PolicyDocument, base: Record)
    | RevertSaved(org: nat, id: MeasID, m: Measurement)
    | RevertMarked(org: nat, id: MeasID, m: Measurement)
    | CheckLoaded(id: MeasID, m: Measurement, days: int, now: int)
    | CheckSeen(id: MeasID, m: Measurement, days: int, now: int, seen: Observation)

  datatype Action =
    // one store call each
    | PassTime(seconds: nat)
    | AddSimulation(simID: nat, simulation: Simulation)
    | Detect(newOpp: OppID, org: nat, app: AppID, fingerprint: nat, finding: Finding)
    | Review(org: nat, opp: OppID)
    | Dismiss(org: nat, opp: OppID, reason: Option<nat>)
    // the editor: fetch, then put; or restore an old version
    | FetchPolicy(app: AppID)
    | StartPut(app: AppID, doc: PolicyDocument)
    | StartRestore(app: AppID, version: int)
    | StartApply(input: ApplyInput)
    | StartRevert(org: nat, id: MeasID)
    | StartCheck(id: MeasID)
    // the client's next store call, with what the database would supply
    | Proceed(newID: MeasID, served: seq<Served>)
    | GiveUp

  /** `held` is the version each client last fetched of each application. */
  datatype System = System(db: DB, clients: map<ClientID, Client>, held: map<(ClientID, AppID), int>)

  function ClientOf(s: System, c: ClientID): Client {
    if c in s.clients then s.clients[c] else Idle
  }

  function At(s: System, c: ClientID, pc: Client): System {
    s.(clients := s.clients[c := pc])
  }

  /** A save by a client: the client moves on if it lands, and fails otherwise. */
  function SaveThen(s: System, c: ClientID, app: AppID, expected: int, doc: PolicyDocument, note: EntryNote,
                    landed: Client): System {
    var log := LogOf(s.db, app);
    if Expects(log, expected)
    then At(s, c, landed).(db := s.db.(logs := s.db.logs[app := Saved(log, expected, doc, note, s.db.clock)]))
    else At(s, c, Idle)
  }

  function Rerouted(d: PolicyDocument, r: RoutingPolicy): PolicyDocument {
    d.(routing := Some(Routing(r.(enabled := true))))
  }

  /** What an apply asks for: its routing switched on, everything else as it was. */
  ghost predicate RoutesAsAsked(doc: PolicyDocument, before: PolicyDocument, asked: RoutingPolicy) {
    && doc.routing == Some(Routing(RoutingPolicy(true, asked.fromModel, asked.toModel, asked.weight, asked.sticky)))
    && doc.caching == before.caching && doc.budget == before.budget
    && doc.rateLimit == before.rateLimit && doc.modelRestriction == before.modelRestriction
  }

  // ---------------------------------------------------------------- the sequences

  /** handlePutPolicy and handleRevertPolicy after their reads. */
  ghost function ProceedEditor(s: System, c: ClientID): System {
    match ClientOf(s, c)
    case PutRead(app, doc, expected, base) =>
      SaveThen(s, c, app, expected, doc, EntryNote(DiffOf(base.document, doc), ByUser, None, None), Idle)
    case RestoreTarget(app, doc) => At(s, c, RestoreRead(app, doc, Current(LogOf(s.db, app))))
    case RestoreRead(app, doc, base) =>
      SaveThen(s, c, app, base.version, doc, EntryNote(DiffOf(base.document, doc), ByRevert, None, None), Idle)
    case _ => s
  }

  /** The rest of Applier.Apply. */
  ghost function ProceedApply(s: System, c: ClientID, newID: MeasID, served: seq<Served>): System {
    match ClientOf(s, c)
    case ApplyLoaded(input, finding) =>
      if input.sim in s.db.sims && s.db.sims[input.sim] == Simulation(input.org, Some(input.opp))
      then At(s, c, ApplyCleared(input, finding)) else At(s, c, Idle)
    case ApplyCleared(input, finding) =>
      At(s, c, ApplyRead(input, finding, Current(LogOf(s.db, input.app))))
    case ApplyRead(input, finding, base) =>
      var target := Rerouted(base.document, input.routing);
      if !Valid(target) then At(s, c, Idle)
      else SaveThen(s, c, input.app, base.version, target,
                    EntryNote(DiffOf(base.document, target), ByOpportunity, Some(input.opp), Some(input.sim)),
                    ApplySaved(input, finding, base.version + 1))
    case ApplySaved(input, finding, version) =>
      if Owned(s.db.opps, input.org, input.opp) && Live(s.db.opps[input.opp])
      then At(s, c, ApplyMarked(input, finding, version)).(db := s.db.(opps := WithApplied(s.db.opps, input.org, input.opp)))
      else At(s, c, Idle)
    case ApplyMarked(input, finding, version) =>
      if newID in s.db.meas || HasLive(s.db.meas, input.opp) then At(s, c, Idle)
      else At(s, c, Idle).(db := s.db.(meas := s.db.meas[newID := Frozen(input, finding, version, s.db.clock, served)]))
    case _ => s
  }

  /** FreezeBaseline over the 14 days before the apply, and the new row. */
  function Frozen(input: ApplyInput, finding: Finding, version: int, appliedAt: int, served: seq<Served>): Measurement {
    var since := appliedAt - FINAL_WINDOW_DAYS * DAY;
    var requests, cost := CountIn(served, input.app, since, appliedAt), CostIn(served, input.app, since, appliedAt);
    Measurement(input.org, input.app, input.opp, Some(input.sim), version, appliedAt,
                requests, cost, CostPer1k(cost, requests), finding.savingsMicro, finding.savingsPct,
                None, Collecting, None)
  }

  /** The rest of Reverter.Revert. */
  ghost function ProceedRevert(s: System, c: ClientID): System {
    match ClientOf(s, c)
    case RevertLoaded(org, id, m) =>
      if m.policyVersion - 1 > 0
      then match EntryAt(LogOf(s.db, m.app).history, m.policyVersion - 1)
        case None => At(s, c, Idle)
        case Some(prior) => At(s, c, RevertPrior(org, id, m, prior))
      else At(s, c, RevertPrior(org, id, m, EMPTY_DOCUMENT))
    case RevertPrior(org, id, m, prior) => At(s, c, RevertRead(org, id, m, prior, Current(LogOf(s.db, m.app))))
    case RevertRead(org, id, m, prior, base) =>
      SaveThen(s, c, m.app, base.version, prior, EntryNote(DiffOf(base.document, prior), ByRevert, None, None),
               RevertSaved(org, id, m))
    case RevertSaved(org, id, m) =>
      if Owned(s.db.opps, org, m.opportunityID) && s.db.opps[m.opportunityID].status.Applied?
      then At(s, c, RevertMarked(org, id, m)).(db := s.db.(opps := WithReverted(s.db.opps, org, m.opportunityID)))
      else At(s, c, Idle)
    case RevertMarked(org, id, m) =>
      At(s, c, Idle).(db := s.db.(meas := WithWithdrawn(s.db.meas, org, id)))
    case _ => s
  }

  /** One window's check: read, then record, with no guard on the row's status. */
  ghost function ProceedCheck(s: System, c: ClientID, served: seq<Served>): System {
    match ClientOf(s, c)
    case CheckLoaded(id, m, days, now) =>
      At(s, c, CheckSeen(id, m, days, now, Observe(m, days, served, LogOf(s.db, m.app).history)))
    case CheckSeen(id, m, days, now, seen) =>
      At(s, c, Idle).(db := s.db.(meas :=
        if days == INTERIM_WINDOW_DAYS then WithInterim(s.db.meas, id, seen) else WithFinal(s.db.meas, id, seen, now)))
    case _ => s
  }

  /** Which window of a measurement is due. */
  function DueWindow(m: Measurement, now: int): Option<int> {
    if m.status.Collecting? && now >= m.appliedAt + INTERIM_WINDOW_DAYS * DAY then Some(INTERIM_WINDOW_DAYS)
    else if m.status.Interim? && now >= m.appliedAt + FINAL_WINDOW_DAYS * DAY then Some(FINAL_WINDOW_DAYS)
    else None
  }

  ghost function Detected(t: OppTable, newOpp: OppID, org: nat, app: AppID, fingerprint: nat, finding: Finding,
                          now: int): OppTable
    requires LiveUnique(t) && newOpp !in t
    ensures Upserted(t, Detected(t, newOpp, org, app, fingerprint, finding, now), newOpp, org, app, fingerprint, finding, now)
  {
    if exists id :: Collides(t, id, app, fingerprint)
    then var id :| Collides(t, id, app, fingerprint); t[id := Refreshed(t[id], finding, now)]
    else t[newOpp := Opened(org, app, fingerprint, finding, now)]
  }

  /** Whatever an idle client starts, and the single-call endpoints. */
  ghost function Begin(s: System, c: ClientID, a: Action): System {
    match a
    case PassTime(seconds) => s.(db := s.db.(clock := s.db.clock + seconds))
    case AddSimulation(simID, simulation) =>
      if simID in s.db.sims then s else s.(db := s.db.(sims := s.db.sims[simID := simulation]))
    case Detect(newOpp, org, app, fingerprint, finding) =>
      if newOpp in s.db.opps || !LiveUnique(s.db.opps) then s
      else s.(db := s.db.(opps := Detected(s.db.opps, newOpp, org, app, fingerprint, finding, s.db.clock)))
    case Review(org, opp) => s.(db := s.db.(opps := WithReviewed(s.db.opps, org, opp, s.db.clock)))
    case Dismiss(org, opp, reason) => s.(db := s.db.(opps := WithDismissed(s.db.opps, org, opp, reason, s.db.clock)))
    case FetchPolicy(app) => s.(held := s.held[(c, app) := Current(LogOf(s.db, app)).version])
    case StartPut(app, doc) =>
      if ClientOf(s, c).Idle? && Valid(doc) && (c, app) in s.held
      then At(s, c, PutRead(app, doc, s.held[(c, app)], Current(LogOf(s.db, app)))) else s
    case StartRestore(app, version) =>
      var found := EntryAt(LogOf(s.db, app).history, version);
      if ClientOf(s, c).Idle? && found.Some? then At(s, c, RestoreTarget(app, found.value)) else s
    case StartApply(input) =>
      if ClientOf(s, c).Idle? && Owned(s.db.opps, input.org, input.opp) && s.db.opps[input.opp].app == input.app
      then At(s, c, ApplyLoaded(input, s.db.opps[input.opp].finding)) else s
    case StartRevert(org, id) =>
      if ClientOf(s, c).Idle? && id in s.db.meas && s.db.meas[id].org == org
      then At(s, c, RevertLoaded(org, id, s.db.meas[id])) else s
    case StartCheck(id) =>
      if ClientOf(s, c).Idle? && id in s.db.meas && DueWindow(s.db.meas[id], s.db.clock).Some?
      then At(s, c, CheckLoaded(id, s.db.meas[id], DueWindow(s.db.meas[id], s.db.clock).value, s.db.clock)) else s
    case _ => s
  }

  ghost function Next(s: System, c: ClientID, a: Action): System {
    match a
    case GiveUp => At(s, c, Idle)
    case Proceed(newID, served) =>
      match ClientOf(s, c) {
        case Idle => s
        case PutRead(_, _, _, _) => ProceedEditor(s, c)
        case RestoreTarget(_, _) => ProceedEditor(s, c)
        case RestoreRead(_, _, _) => ProceedEditor(s, c)
        case ApplyLoaded(_, _) => ProceedApply(s, c, newID, served)
        case ApplyCleared(_, _) => ProceedApply(s, c, newID, served)
        case ApplyRead(_, _, _) => ProceedApply(s, c, newID, served)
        case ApplySaved(_, _, _) => ProceedApply(s, c, newID, served)
        case ApplyMarked(_, _, _) => ProceedApply(s, c, newID, served)
        case CheckLoaded(_, _, _, _) => ProceedCheck(s, c, served)
        case CheckSeen(_, _, _, _, _) => ProceedCheck(s, c, served)
        case _ => ProceedRevert(s, c)
      }
    case _ => Begin(s, c, a)
  }

  datatype Step = Step(client: ClientID, action: Action)

  const START := System(DB(map[], map[], map[], map[], 0), map[], map[])

  ghost function Run(s: System, steps: seq<Step>): System {
    if steps == [] then s
    else Next(Run(s, Init(steps)), Last(steps).client, Last(steps).action)
  }
}
