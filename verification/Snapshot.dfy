/**
 The gateway's policy cache (internal/policy/snapshot.go): five seconds of the
 store's answer per application, dropped on Invalidate.  Readers do not hold the
 lock between reading the store and filling the cache.
 */
module Snapshot {
  import opened Prelude
  import opened PolicyDocuments
  import opened PolicyStore

  const TTL := 5

  datatype Entry = Entry(record: Record, expiresAt: int)

  type Cache = map<AppID, Entry>

  /** Fresh up to and including the instant of expiry. */
  predicate Fresh(cache: Cache, app: AppID, now: int) {
    app in cache && now <= cache[app].expiresAt
  }

  class SnapshotCache {
    const store: Store
    var cache: Cache

    constructor (store: Store)
      ensures this.store == store && cache == map[]
    {
      this.store, cache := store, map[];
    }

    method FromCache(app: AppID, now: int) returns (e: Option<Entry>)
      ensures e == if Fresh(cache, app, now) then Some(cache[app]) else None
    {
      if app !in cache || now > cache[app].expiresAt {
        return None;
      }
      e := Some(cache[app]);
    }

    method Remember(app: AppID, record: Record, now: int)
      modifies this
      ensures cache == old(cache)[app := Entry(record, now + TTL)]
    {
      cache := cache[app := Entry(record, now + TTL)];
    }

    method Invalidate(app: AppID)
      modifies this
      ensures cache == old(cache) - {app}
    {
      cache := cache - {app};
    }

    /** Get, with nobody in between; `later` is the clock when the cache is filled. */
    method Get(app: AppID, now: int, later: int) returns (record: Record)
      modifies this
      ensures if Fresh(old(cache), app, now) then record == old(cache)[app].record && cache == old(cache)
              else record == Current(store.LogOf(app)) && cache == old(cache)[app := Entry(record, later + 5)]
    {
      var e := FromCache(app, now);
      if e.Some? {
        return e.value.record;
      }
      record := store.Get(app);
      Remember(app, record, later);
    }
  }

  // ---------------------------------------------------------------- many readers

  type ClientID = nat

  /** A reader that missed, before and after its store read. */
  datatype Fill = Missed(app: AppID) | HasRead(app: AppID, record: Record)

  datatype State = State(logs: map<AppID, PolicyLog>, cache: Cache, fills: map<ClientID, Fill>, clock: int)

  const EMPTY: State := State(map[], map[], map[], 0)

  function LogIn(s: State, app: AppID): PolicyLog {
    if app in s.logs then s.logs[app] else NO_LOG
  }

  datatype Step =
    | PassTime(seconds: nat)
    | Save(app: AppID, expected: int, doc: PolicyDocument, note: EntryNote)
    | Invalidate(app: AppID)          // by a saver, or from another process's message
    | StartGet(c: ClientID, app: AppID)
    | ReadStore(c: ClientID)
    | Remember(c: ClientID)

  function Next(s: State, step: Step): State {
    match step
    case PassTime(seconds) => s.(clock := s.clock + seconds)
    case Save(app, expected, doc, note) =>
      if Expects(LogIn(s, app), expected) && Valid(doc)
      then s.(logs := s.logs[app := Saved(LogIn(s, app), expected, doc, note, s.clock)]) else s
    case Invalidate(app) => s.(cache := s.cache - {app})
    case StartGet(c, app) =>
      if c in s.fills || Fresh(s.cache, app, s.clock) then s else s.(fills := s.fills[c := Missed(app)])
    case ReadStore(c) =>
      if c in s.fills && s.fills[c].Missed?
      then s.(fills := s.fills[c := HasRead(s.fills[c].app, Current(LogIn(s, s.fills[c].app)))]) else s
    case Remember(c) =>
      if c in s.fills && s.fills[c].HasRead?
      then s.(cache := s.cache[s.fills[c].app := Entry(s.fills[c].record, s.clock + TTL)], fills := s.fills - {c}) else s
  }

  function Run(s: State, steps: seq<Step>): State {
    if steps == [] then s else Next(Run(s, Init(steps)), Last(steps))
  }

  /** The three steps of a Get that meets nobody are the method's: a hit changes
      nothing, a miss fills the cache from the store. */
  lemma GetAlone(s: State, c: ClientID, app: AppID)
    requires c !in s.fills
    ensures Run(s, [StartGet(c, app), ReadStore(c), Remember(c)]) ==
              if Fresh(s.cache, app, s.clock) then s
              else s.(cache := s.cache[app := Entry(Current(LogIn(s, app)), s.clock + TTL)])
  {
    var s1 := Next(s, StartGet(c, app));
    var s2 := Next(s1, ReadStore(c));
    assert Init([StartGet(c, app), ReadStore(c), Remember(c)]) == [StartGet(c, app), ReadStore(c)];
    assert Init([StartGet(c, app), ReadStore(c)]) == [StartGet(c, app)] && Init([StartGet(c, app)]) == [];
    assert Run(s, [StartGet(c, app)]) == s1;
    assert Run(s, [StartGet(c, app), ReadStore(c)]) == s2;
  }

  predicate IsHit(s: State, step: Step, app: AppID) {
    step.StartGet? && step.app == app && step.c !in s.fills && Fresh(s.cache, app, s.clock)
  }

  /** What a step returns to a caller of Get(app). */
  function Serves(s: State, step: Step, app: AppID): Option<Record> {
    if IsHit(s, step, app) then Some(s.cache[app].record)
    else if step.Remember? && step.c in s.fills && s.fills[step.c].HasRead? && s.fills[step.c].app == app
    then Some(s.fills[step.c].record) else None
  }

  /** An entry is served up to and including the instant it expires. */
  lemma ExpiryMeaning(s: State, c: ClientID, app: AppID, seconds: nat)
    requires c !in s.fills
    ensures IsHit(Next(s, PassTime(seconds)), StartGet(c, app), app) <==>
              app in s.cache && s.clock + seconds <= s.cache[app].expiresAt
  {
  }

  // ---------------------------------------------------------------- real pairs

  ghost predicate SoundLogs(s: State) {
    forall app: AppID :: Sound(LogIn(s, app))
  }

  ghost predicate PairsCached(s: State) {
    forall app :: app in s.cache ==> WasRead(LogIn(s, app), s.cache[app].record)
  }

  ghost predicate PairsHeld(s: State) {
    forall c :: c in s.fills && s.fills[c].HasRead? ==> WasRead(LogIn(s, s.fills[c].app), s.fills[c].record)
  }

  ghost predicate GoodState(s: State) {
    SoundLogs(s) && PairsCached(s) && PairsHeld(s)
  }

  lemma PairStays(l: PolicyLog, later: PolicyLog, r: Record)
    requires WasRead(l, r) && Extends(l, later)
    ensures WasRead(later, r)
  {
    ExtendsKeeps(l, later, r.version);
  }

  lemma SaveStep(s: State, step: Step)
    requires GoodState(s) && step.Save?
    ensures GoodState(Next(s, step))
  {
    var s' := Next(s, step);
    forall app: AppID ensures Sound(LogIn(s', app)) && Extends(LogIn(s, app), LogIn(s', app)) {
      assert Sound(LogIn(s, app));
      if app == step.app && s' != s {
        SaveKeepsSound(LogIn(s, app), step.expected, step.doc, step.note, s.clock);
      }
    }
    forall app | app in s'.cache ensures WasRead(LogIn(s', app), s'.cache[app].record) {
      PairStays(LogIn(s, app), LogIn(s', app), s.cache[app].record);
    }
    forall c | c in s'.fills && s'.fills[c].HasRead? ensures WasRead(LogIn(s', s'.fills[c].app), s'.fills[c].record) {
      PairStays(LogIn(s, s.fills[c].app), LogIn(s', s.fills[c].app), s.fills[c].record);
    }
  }

  lemma NextIsGood(s: State, step: Step)
    requires GoodState(s)
    ensures GoodState(Next(s, step))
  {
    if step.Save? {
      SaveStep(s, step);
    } else {
      var s' := Next(s, step);
      assert forall app: AppID :: LogIn(s', app) == LogIn(s, app);
      assert step.ReadStore? && step.c in s.fills ==> Sound(LogIn(s, s.fills[step.c].app));
    }
  }

  lemma {:induction false} AlwaysGood(steps: seq<Step>)
    ensures GoodState(Run(EMPTY, steps))
  {
    if steps != [] {
      AlwaysGood(Init(steps));
      NextIsGood(Run(EMPTY, Init(steps)), Last(steps));
    }
  }

  /** Every document and version served are a real pair of the history. */
  lemma ServedIsReal(steps: seq<Step>, step: Step, app: AppID)
    requires Serves(Run(EMPTY, steps), step, app).Some?
    ensures WasRead(LogIn(Run(EMPTY, steps), app), Serves(Run(EMPTY, steps), step, app).value)
  {
    AlwaysGood(steps);
  }

  // ---------------------------------------------------------------- how stale a hit may be

  /** `r` was current for `app` after the first `i` steps. */
  predicate WasCurrent(steps: seq<Step>, i: nat, app: AppID, r: Record) {
    i <= |steps| && Current(LogIn(Run(EMPTY, steps[..i]), app)) == r
  }

  /** The cached record was read at step `i` and stored at step `j`. */
  ghost predicate FilledAt(steps: seq<Step>, i: nat, j: nat, app: AppID, e: Entry) {
    i <= j <= |steps| && WasCurrent(steps, i, app, e.record) && Run(EMPTY, steps[..j]).clock + TTL == e.expiresAt
  }

  /** Where a fill in flight got its record from. */
  lemma {:induction false} FillOrigin(steps: seq<Step>, c: ClientID) returns (i: nat)
    requires var s := Run(EMPTY, steps); c in s.fills && s.fills[c].HasRead?
    ensures var f := Run(EMPTY, steps).fills[c]; WasCurrent(steps, i, f.app, f.record)
  {
    var before, step := Run(EMPTY, Init(steps)), Last(steps);
    if step == ReadStore(c) && c in before.fills && before.fills[c].Missed? {
      i := |steps| - 1;
      assert steps[..i] == Init(steps);
    } else {
      i := FillOrigin(Init(steps), c);
      assert Init(steps)[..i] == steps[..i];
    }
  }

  lemma {:induction false} EntryOrigin(steps: seq<Step>, app: AppID) returns (i: nat, j: nat)
    requires app in Run(EMPTY, steps).cache
    ensures FilledAt(steps, i, j, app, Run(EMPTY, steps).cache[app])
  {
    var before, step := Run(EMPTY, Init(steps)), Last(steps);
    if step.Remember? && step.c in before.fills && before.fills[step.c].HasRead? && before.fills[step.c].app == app {
      i := FillOrigin(Init(steps), step.c);
      j := |steps| - 1;
      assert steps[..j] == Init(steps) && Init(steps)[..i] == steps[..i];
    } else {
      i, j := EntryOrigin(Init(steps), app);
      assert Init(steps)[..i] == steps[..i] && Init(steps)[..j] == steps[..j];
    }
  }

  /** A hit's record was current when its filler read the store, and was put in
      the cache no longer than the TTL before the hit. */
  lemma HitIsRecent(steps: seq<Step>, step: Step, app: AppID) returns (i: nat, j: nat)
    requires IsHit(Run(EMPTY, steps), step, app)
    ensures i <= j <= |steps| && WasCurrent(steps, i, app, Serves(Run(EMPTY, steps), step, app).value)
    ensures Run(EMPTY, steps).clock <= Run(EMPTY, steps[..j]).clock + 5
  {
    i, j := EntryOrigin(steps, app);
  }

  // ---------------------------------------------------------------- what Invalidate guarantees

  /** A reader holds a record of `app` older than `v` and has yet to store it. */
  predicate OldFill(s: State, c: ClientID, app: AppID, v: int) {
    c in s.fills && s.fills[c].HasRead? && s.fills[c].app == app && s.fills[c].record.version < v
  }

  /** Nothing older than `v` can reach a reader of `app`. */
  ghost predicate Floor(s: State, app: AppID, v: int) {
    && Current(LogIn(s, app)).version >= v
    && (app in s.cache ==> s.cache[app].record.version >= v)
    && forall c :: !OldFill(s, c, app, v)
  }

  lemma FloorStays(s: State, step: Step, app: AppID, v: int)
    requires Floor(s, app, v)
    ensures Floor(Next(s, step), app, v)
    ensures var r := Serves(s, step, app); r.Some? ==> r.value.version >= v
  {
    var s' := Next(s, step);
    forall c ensures !OldFill(s', c, app, v) {
      assert !OldFill(s, c, app, v);
    }
    if step.Remember? {
      assert !OldFill(s, step.c, app, v);
    }
  }

  lemma {:induction false} FloorAlways(s: State, steps: seq<Step>, app: AppID, v: int)
    requires Floor(s, app, v)
    ensures Floor(Run(s, steps), app, v)
  {
    if steps != [] {
      FloorAlways(s, Init(steps), app, v);
      FloorStays(Run(s, Init(steps)), Last(steps), app, v);
    }
  }

  /** No Get of `app` from here on returns anything older than `v`. */
  ghost predicate ServesOnlyFrom(s: State, app: AppID, v: int) {
    forall steps: seq<Step>, step: Step ::
      var r := Serves(Run(s, steps), step, app); r.Some? ==> r.value.version >= v
  }

  /** No Get of `app` that starts from here on finds anything older than `v` in the cache. */
  ghost predicate HitsOnlyFrom(s: State, app: AppID, v: int) {
    forall steps: seq<Step>, step: Step ::
      IsHit(Run(s, steps), step, app) ==> Run(s, steps).cache[app].record.version >= v
  }

  /** There is always one more client. */
  lemma {:induction false} AnotherClient(taken: set<ClientID>) returns (d: ClientID)
    ensures forall c :: c in taken ==> c < d
  {
    if taken == {} {
      return 0;
    }
    var c :| c in taken;
    d := AnotherClient(taken - {c});
    assert forall x :: x in taken ==> x == c || x in taken - {c};
    d := if c < d then d else c + 1;
  }

  /** After Invalidate no Get that starts later hits anything older than what was
      current then, exactly if no older fill was in flight; and exactly then no
      answer at all is older, those of the Gets in flight included. */
  lemma InvalidateHoldsIff(s: State, app: AppID)
    ensures var v := Current(LogIn(s, app)).version;
            && (HitsOnlyFrom(Next(s, Invalidate(app)), app, v) <==> forall c :: !OldFill(s, c, app, v))
            && (ServesOnlyFrom(Next(s, Invalidate(app)), app, v) <==> forall c :: !OldFill(s, c, app, v))
  {
    var v, s' := Current(LogIn(s, app)).version, Next(s, Invalidate(app));
    if c :| OldFill(s, c, app, v) {
      var d := AnotherClient(s.fills.Keys);
      var filled := [Remember(c), PassTime(0)];
      OldFillLingers(s, c, app, d, 0);
      assert IsHit(Run(s', filled), StartGet(d, app), app);
      assert Serves(Run(s', filled), StartGet(d, app), app).value.version < v;
    } else {
      assert forall c :: OldFill(s', c, app, v) ==> OldFill(s, c, app, v);
      forall steps: seq<Step>, step: Step
        ensures var r := Serves(Run(s', steps), step, app); r.Some? ==> r.value.version >= v
        ensures IsHit(Run(s', steps), step, app) ==> Run(s', steps).cache[app].record.version >= v
      {
        FloorAlways(s', steps, app, v);
        FloorStays(Run(s', steps), step, app, v);
      }
      assert HitsOnlyFrom(s', app, v);
    }
  }

  /** And such a fill is served to others too, for as long as the TTL lasts. */
  lemma OldFillLingers(s: State, c: ClientID, app: AppID, d: ClientID, seconds: nat)
    requires OldFill(s, c, app, Current(LogIn(s, app)).version) && d !in s.fills && d != c && seconds <= TTL
    ensures var later := Run(Next(s, Invalidate(app)), [Remember(c), PassTime(seconds)]);
            && IsHit(later, StartGet(d, app), app) && LogIn(later, app) == LogIn(s, app)
            && Serves(later, StartGet(d, app), app).value.version < Current(LogIn(later, app)).version
  {
    var s' := Next(s, Invalidate(app));
    assert Init([Remember(c), PassTime(seconds)]) == [Remember(c)] && Init([Remember(c)]) == [];
    assert Run(s', [Remember(c)]) == Next(s', Remember(c));
  }

  /** Such a fill arises from the empty store: read, save, invalidate, remember;
      and the next reader gets version 0 while version 1 is current. */
  lemma StaleRun(app: AppID, doc: PolicyDocument, note: EntryNote) returns (before: seq<Step>, after: seq<Step>)
    requires Valid(doc)
    ensures OldFill(Run(EMPTY, before), 0, app, Current(LogIn(Run(EMPTY, before), app)).version)
    ensures after == before + [Invalidate(app), Remember(0)]
    ensures var s := Run(EMPTY, after);
            IsHit(s, StartGet(1, app), app) && Serves(s, StartGet(1, app), app) == Some(Record(0, EMPTY_DOCUMENT))
            && Current(LogIn(s, app)) == Record(1, doc)
  {
    before := StaleStart(app, doc, note);
    after := before + [Invalidate(app)] + [Remember(0)];
    assert after == before + [Invalidate(app), Remember(0)];
    RunMore(EMPTY, before, Invalidate(app));
    RunMore(EMPTY, before + [Invalidate(app)], Remember(0));
  }

  lemma RunMore(s: State, steps: seq<Step>, step: Step)
    ensures Run(s, steps + [step]) == Next(Run(s, steps), step)
  {
    assert Init(steps + [step]) == steps;
  }

  lemma StaleStart(app: AppID, doc: PolicyDocument, note: EntryNote) returns (steps: seq<Step>)
    requires Valid(doc)
    ensures Run(EMPTY, steps) ==
              State(map[app := Saved(NO_LOG, 0, doc, note, 0)], map[], map[0 := HasRead(app, Record(0, EMPTY_DOCUMENT))], 0)
  {
    var start, read: seq<Step> := [StartGet(0, app)], [StartGet(0, app)] + [ReadStore(0)];
    steps := read + [Save(app, 0, doc, note)];
    assert [] + [StartGet(0, app)] == start;
    RunMore(EMPTY, [], StartGet(0, app));
    RunMore(EMPTY, start, ReadStore(0));
    RunMore(EMPTY, read, Save(app, 0, doc, note));
    StaleSteps(app, doc, note);
  }

  lemma StaleSteps(app: AppID, doc: PolicyDocument, note: EntryNote)
    requires Valid(doc)
    ensures Next(Next(Next(EMPTY, StartGet(0, app)), ReadStore(0)), Save(app, 0, doc, note)) ==
              State(map[app := Saved(NO_LOG, 0, doc, note, 0)], map[], map[0 := HasRead(app, Record(0, EMPTY_DOCUMENT))], 0)
  {
  }
}
