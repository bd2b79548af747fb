/**
 The two endpoints that edit a policy by hand (internal/api/handler_policy.go),
 as one caller runs them: read, diff, save.
 */
module PolicyEditor {
  import opened Prelude
  import opened PolicyDocuments
  import opened PolicyStore
  import opened ControlPlane
  import opened ApplyRevert

  datatype Response = Stored(record: Record) | BadDocument | NoSuchVersion | Conflict

  /** The log after a save that replaces the current document by `doc`. */
  ghost function EditedLog(log: PolicyLog, expected: int, doc: PolicyDocument, source: ChangeSource, now: int): PolicyLog {
    Saved(log, expected, doc, EntryNote(DiffOf(Current(log).document, doc), source, None, None), now)
  }

  class Editor {
    const policies: Store

    constructor (policies: Store)
      ensures this.policies == policies
    {
      this.policies := policies;
    }

    /** handlePutPolicy: the diff is against the handler's own read, the save
        against the version the client names. */
    method Put(app: AppID, doc: PolicyDocument, expected: int, now: int) returns (r: Response)
      modifies policies
      ensures r == if !Valid(doc) then BadDocument
                   else if Expects(old(policies.LogOf(app)), expected) then Stored(Record(expected + 1, doc)) else Conflict
      ensures policies.LogOf(app) == if r.Stored? then EditedLog(old(policies.LogOf(app)), expected, doc, ByUser, now)
                                     else old(policies.LogOf(app))
      ensures forall other: AppID :: other != app ==> policies.LogOf(other) == old(policies.LogOf(other))
    {
      if !Valid(doc) {
        return BadDocument;
      }
      var base := policies.Get(app);
      var diff := Diff(Some(base.document), Some(doc));
      DiffIsUnique(diff, base.document, doc);
      var saved := policies.Save(app, expected, doc, EntryNote(diff, ByUser, None, None), now);
      r := if saved.Some? then Stored(saved.value) else Conflict;
    }

    /** handleRevertPolicy: an old version again, as a new one. */
    method Restore(app: AppID, version: int, now: int) returns (r: Response)
      requires Sound(policies.LogOf(app))
      modifies policies
      ensures var log := old(policies.LogOf(app));
              var found := EntryAt(log.history, version);
              if found.None? then r == NoSuchVersion && policies.LogOf(app) == log
              else r == Stored(Record(Current(log).version + 1, found.value))
                   && policies.LogOf(app) == EditedLog(log, Current(log).version, found.value, ByRevert, now)
      ensures forall other: AppID :: other != app ==> policies.LogOf(other) == old(policies.LogOf(other))
    {
      var found := policies.AtVersion(app, version);
      if found.None? {
        return NoSuchVersion;
      }
      var base := policies.Get(app);
      var diff := Diff(Some(base.document), found);
      DiffIsUnique(diff, base.document, found.value);
      var saved := policies.Save(app, base.version, found.value, EntryNote(diff, ByRevert, None, None), now);
      r := if saved.Some? then Stored(saved.value) else Conflict;
    }
  }

  // ---------------------------------------------------------------- the same, step by step

  /** An undisturbed put client leaves the log the method leaves. */
  lemma PutAlone(s: System, c: ClientID, app: AppID, doc: PolicyDocument)
    requires ClientOf(s, c).Idle? && Valid(doc) && (c, app) in s.held
    ensures var log, expected := LogOf(s.db, app), s.held[(c, app)];
            Alone(Next(s, c, StartPut(app, doc)), c, 1, 0, []).db ==
              if Expects(log, expected) then s.db.(logs := s.db.logs[app := EditedLog(log, expected, doc, ByUser, s.db.clock)])
              else s.db
  {
    var s0 := Next(s, c, StartPut(app, doc));
    assert Alone(s0, c, 1, 0, []) == Alone(Next(s0, c, Proceed(0, [])), c, 0, 0, []);
  }

  /** And an undisturbed restore likewise. */
  lemma RestoreVersionAlone(s: System, c: ClientID, app: AppID, version: int)
    requires ClientOf(s, c).Idle? && Sound(LogOf(s.db, app))
    ensures var log := LogOf(s.db, app);
            var found := EntryAt(log.history, version);
            Alone(Next(s, c, StartRestore(app, version)), c, 2, 0, []).db ==
              if found.None? then s.db
              else s.db.(logs := s.db.logs[app := EditedLog(log, Current(log).version, found.value, ByRevert, s.db.clock)])
  {
    var s0 := Next(s, c, StartRestore(app, version));
    if EntryAt(LogOf(s.db, app).history, version).None? {
      IdleStays(s0, c, 2, 0, []);
    } else {
      RestoreFoundAlone(s0, c, app, EntryAt(LogOf(s.db, app).history, version).value);
    }
  }

  lemma RestoreFoundAlone(s: System, c: ClientID, app: AppID, doc: PolicyDocument)
    requires ClientOf(s, c) == RestoreTarget(app, doc) && Sound(LogOf(s.db, app))
    ensures var log := LogOf(s.db, app);
            Alone(s, c, 2, 0, []).db ==
              s.db.(logs := s.db.logs[app := EditedLog(log, Current(log).version, doc, ByRevert, s.db.clock)])
  {
    var s1 := Next(s, c, Proceed(0, []));
    assert Alone(s1, c, 1, 0, []) == Alone(Next(s1, c, Proceed(0, [])), c, 0, 0, []);
    assert Expects(LogOf(s.db, app), Current(LogOf(s.db, app)).version);
  }
}
