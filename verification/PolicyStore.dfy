/**
 The versioned policy store of internal/policy/store.go: one current row per
 application, replaced only by a caller who names its version, and a history
 row for every replacement.
 */
module PolicyStore {
  import opened Prelude
  import opened PolicyDocuments

  type AppID = nat

  datatype ChangeSource = ByUser | ByOpportunity | ByRevert

  datatype Record = Record(version: int, document: PolicyDocument)

  /** What a caller adds to a save. */
  datatype EntryNote = EntryNote(
    diff: DocumentDiff, source: ChangeSource, opportunityID: Option<nat>, simulationID: Option<nat>)

  datatype HistoryEntry = HistoryEntry(version: int, document: PolicyDocument, note: EntryNote, changedAt: int)

  /** The rows of one application. */
  datatype PolicyLog = PolicyLog(current: Option<Record>, history: seq<HistoryEntry>)

  const NO_LOG := PolicyLog(None, [])

  /** No row reads as version 0 of the empty document. */
  function Current(l: PolicyLog): Record {
    match l.current
    case None => Record(0, EMPTY_DOCUMENT)
    case Some(r) => r
  }

  /** Whether the conditional INSERT (expecting no row) or UPDATE finds its row. */
  predicate Expects(l: PolicyLog, expected: int) {
    if expected == 0 then l.current.None? else l.current.Some? && l.current.value.version == expected
  }

  function Saved(l: PolicyLog, expected: int, doc: PolicyDocument, note: EntryNote, now: int): PolicyLog {
    PolicyLog(Some(Record(expected + 1, doc)), l.history + [HistoryEntry(expected + 1, doc, note, now)])
  }

  class Store {
    var policies: map<AppID, Record>
    var history: map<AppID, seq<HistoryEntry>>

    constructor ()
      ensures forall app: AppID :: LogOf(app) == NO_LOG
    {
      policies, history := map[], map[];
    }

    ghost function LogOf(app: AppID): PolicyLog
      reads this
    {
      PolicyLog(if app in policies then Some(policies[app]) else None, if app in history then history[app] else [])
    }

    method Get(app: AppID) returns (rec: Record)
      ensures rec == Current(LogOf(app))
    {
      if app !in policies {
        return Record(0, EMPTY_DOCUMENT);
      }
      rec := policies[app];
    }

    /** Save; None is ErrVersionConflict.  The row and its history entry are
        written together or not at all. */
    method Save(app: AppID, expected: int, doc: PolicyDocument, note: EntryNote, now: int) returns (rec: Option<Record>)
      modifies this
      ensures rec.Some? <==> Expects(old(LogOf(app)), expected)
      ensures rec.Some? ==> rec.value == Record(expected + 1, doc)
      ensures LogOf(app) == if rec.Some? then Saved(old(LogOf(app)), expected, doc, note, now) else old(LogOf(app))
      ensures forall other: AppID :: other != app ==> LogOf(other) == old(LogOf(other))
    {
      var newVersion := expected + 1;
      if expected == 0 {
        if app in policies {
          return None;
        }
      } else if app !in policies || policies[app].version != expected {
        return None;
      }
      var row := Record(newVersion, doc);
      policies := policies[app := row];
      var rows := if app in history then history[app] else [];
      history := history[app := rows + [HistoryEntry(newVersion, doc, note, now)]];
      rec := Some(row);
    }

    method AtVersion(app: AppID, version: int) returns (doc: Option<PolicyDocument>)
      ensures doc == EntryAt(LogOf(app).history, version)
    {
      var rows := if app in history then history[app] else [];
      for i := 0 to |rows|
        invariant EntryAt(rows, version) == EntryAt(rows[i..], version)
      {
        if rows[i].version == version {
          return Some(rows[i].document);
        }
        assert rows[i..][1..] == rows[i + 1..];
      }
      doc := None;
    }

    method ChangedSince(app: AppID, version: int, before: int) returns (changed: bool)
      ensures changed <==> Changed(LogOf(app).history, version, before)
    {
      var rows := if app in history then history[app] else [];
      for i := 0 to |rows|
        invariant forall j :: 0 <= j < i ==> !(rows[j].version > version && rows[j].changedAt < before)
      {
        if rows[i].version > version && rows[i].changedAt < before {
          return true;
        }
      }
      changed := false;
    }
  }

  /** SELECT document WHERE version = v. */
  function EntryAt(rows: seq<HistoryEntry>, version: int): Option<PolicyDocument> {
    if rows == [] then None
    else if rows[0].version == version then Some(rows[0].document)
    else EntryAt(rows[1..], version)
  }

  predicate Changed(rows: seq<HistoryEntry>, version: int, before: int) {
    exists i :: 0 <= i < |rows| && rows[i].version > version && rows[i].changedAt < before
  }

  // ---------------------------------------------------------------- one application's log

  /** The document of a version; version 0 is the empty one. */
  ghost function DocumentAt(l: PolicyLog, version: int): PolicyDocument {
    if 1 <= version <= |l.history| then l.history[version - 1].document else EMPTY_DOCUMENT
  }

  /** History is versions 1, 2, ..., the last of them is current, all are valid. */
  ghost predicate Sound(l: PolicyLog) {
    && (forall i :: 0 <= i < |l.history| ==> l.history[i].version == i + 1 && Valid(l.history[i].document))
    && Current(l) == Record(|l.history|, DocumentAt(l, |l.history|))
    && (l.current.None? <==> l.history == [])
  }

  /** Every stored diff leads from the version before. */
  ghost predicate DiffsLinked(l: PolicyLog) {
    forall i :: 0 <= i < |l.history| ==>
      IsDiff(l.history[i].note.diff, DocumentAt(l, i), l.history[i].document)
  }

  /** Two logs of one application, the second later: no row has changed or gone. */
  ghost predicate Extends(l: PolicyLog, later: PolicyLog) {
    l.history <= later.history
  }

  /** A record some earlier read returned. */
  ghost predicate WasRead(l: PolicyLog, r: Record) {
    0 <= r.version <= |l.history| && r.document == DocumentAt(l, r.version)
  }

  lemma ExtendsKeeps(l: PolicyLog, later: PolicyLog, version: int)
    requires Extends(l, later) && version <= |l.history|
    ensures DocumentAt(later, version) == DocumentAt(l, version)
  {
  }

  lemma SaveKeepsSound(l: PolicyLog, expected: int, doc: PolicyDocument, note: EntryNote, now: int)
    requires Sound(l) && Expects(l, expected) && Valid(doc)
    ensures var s := Saved(l, expected, doc, note, now);
            && Sound(s) && Extends(l, s) && |s.history| == expected + 1
            && DocumentAt(s, expected) == Current(l).document && DocumentAt(s, expected + 1) == doc
  {
  }

  /** A save keeps the diffs linked exactly when its own diff starts from what
      was current when it landed. */
  lemma SaveKeepsDiffs(l: PolicyLog, expected: int, doc: PolicyDocument, note: EntryNote, now: int)
    requires Sound(l) && Expects(l, expected) && DiffsLinked(l)
    ensures DiffsLinked(Saved(l, expected, doc, note, now)) <==> IsDiff(note.diff, Current(l).document, doc)
  {
    var s := Saved(l, expected, doc, note, now);
    forall i | 0 <= i < |l.history| ensures s.history[i] == l.history[i] && DocumentAt(s, i) == DocumentAt(l, i) {
    }
    assert s.history[expected].note == note && DocumentAt(s, expected) == Current(l).document;
    if IsDiff(note.diff, Current(l).document, doc) {
      forall i | 0 <= i < |s.history| ensures IsDiff(s.history[i].note.diff, DocumentAt(s, i), s.history[i].document) {
        assert i < |l.history| || i == expected;
      }
    }
  }

  /** A diff taken from `base` leads from `current` exactly if the two are one document. */
  lemma DiffStartsThere(base: PolicyDocument, current: PolicyDocument, doc: PolicyDocument)
    ensures IsDiff(DiffOf(base, doc), current, doc) <==> base == current
  {
    DiffCarries(DiffOf(base, doc), base, doc);
    if IsDiff(DiffOf(base, doc), current, doc) {
      DiffCarries(DiffOf(base, doc), current, doc);
    }
  }

  /** A caller that diffs its own read and saves against the version it names
      keeps the diffs linked exactly if it had read the current document. */
  lemma ReadThenSaveKeepsDiffs(l: PolicyLog, base: Record, expected: int, doc: PolicyDocument, source: ChangeSource,
                               opp: Option<nat>, sim: Option<nat>, now: int)
    requires Sound(l) && DiffsLinked(l) && Expects(l, expected)
    ensures DiffsLinked(Saved(l, expected, doc, EntryNote(DiffOf(base.document, doc), source, opp, sim), now))
            <==> base.document == Current(l).document
  {
    SaveKeepsDiffs(l, expected, doc, EntryNote(DiffOf(base.document, doc), source, opp, sim), now);
    DiffStartsThere(base.document, Current(l).document, doc);
  }

  /** Which versions AtVersion finds, and what it returns. */
  lemma {:induction false} EntryAtFinds(rows: seq<HistoryEntry>, first: int, version: int)
    requires forall i :: 0 <= i < |rows| ==> rows[i].version == first + i
    ensures EntryAt(rows, version) ==
              if first <= version < first + |rows| then Some(rows[version - first].document) else None
  {
    if rows != [] {
      assert forall i :: 0 <= i < |rows[1..]| ==> rows[1..][i] == rows[i + 1];
      EntryAtFinds(rows[1..], first + 1, version);
    }
  }

  lemma AtVersionFinds(l: PolicyLog, version: int)
    requires Sound(l)
    ensures EntryAt(l.history, version) ==
              if 1 <= version <= Current(l).version then Some(DocumentAt(l, version)) else None
  {
    EntryAtFinds(l.history, 1, version);
  }

  /** Replay the stored diffs over the empty document. */
  function Rebuild(rows: seq<HistoryEntry>): PolicyDocument {
    if rows == [] then EMPTY_DOCUMENT else Patch(Rebuild(Init(rows)), Last(rows).note.diff)
  }

  /** The diffs alone rebuild every version. */
  lemma {:induction false} DiffsRebuild(l: PolicyLog, version: nat)
    requires DiffsLinked(l) && version <= |l.history|
    ensures Rebuild(l.history[..version]) == DocumentAt(l, version)
  {
    if version > 0 {
      var rows := l.history[..version];
      assert Init(rows) == l.history[..version - 1];
      DiffsRebuild(l, version - 1);
      DiffCarries(Last(rows).note.diff, DocumentAt(l, version - 1), DocumentAt(l, version));
    }
  }

  /** A save confounds exactly the windows that end after it, of what was applied in
      an earlier version. */
  lemma SaveConfoundsIff(l: PolicyLog, expected: int, doc: PolicyDocument, note: EntryNote, now: int, version: int, before: int)
    ensures Changed(Saved(l, expected, doc, note, now).history, version, before) <==>
              Changed(l.history, version, before) || (version < expected + 1 && now < before)
  {
    var longer := Saved(l, expected, doc, note, now).history;
    assert longer[|l.history|] == HistoryEntry(expected + 1, doc, note, now);
    assert forall i :: 0 <= i < |l.history| ==> longer[i] == l.history[i];
    if Changed(l.history, version, before) {
      var i :| 0 <= i < |l.history| && l.history[i].version > version && l.history[i].changedAt < before;
      assert longer[i] == l.history[i];
    }
  }

  /** The answer to ChangedSince about a moment that has passed is final: rows
      written later carry later times. */
  lemma ChangedIsFinal(l: PolicyLog, later: PolicyLog, version: int, before: int)
    requires Extends(l, later)
    requires forall i :: |l.history| <= i < |later.history| ==> later.history[i].changedAt >= before
    ensures Changed(later.history, version, before) == Changed(l.history, version, before)
  {
    assert forall i :: 0 <= i < |l.history| ==> later.history[i] == l.history[i];
  }
}
