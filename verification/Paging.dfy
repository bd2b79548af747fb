/**
 The Requests screen's keyset pagination (internal/store/requests_query.go):
 newest first by (started_at, id), each page seeking below the last row of the
 one before.
 */
module Paging {
  import opened Prelude

  const MAX_ID := 0xffffffff_ffffffff_ffffffff_ffffffff

  type UUID = x: int | 0 <= x <= MAX_ID

  /** Microseconds since 1970, and the row's id. */
  datatype Key = Key(startedAt: int, id: UUID)

  /** The columns a listing filters on; 0 is the empty string. */
  datatype Row = Row(key: Key, org: nat, app: nat, model: nat, status: nat, cacheStatus: nat)

  datatype Filter = Filter(
    org: nat, app: nat, model: nat, status: nat, cacheStatus: nat, since: Option<int>, until: Option<int>)

  /** SQL's row comparison. */
  predicate Below(a: Key, b: Key) {
    a.startedAt < b.startedAt || (a.startedAt == b.startedAt && a.id < b.id)
  }

  /** (started_at, id) is the primary key. */
  ghost predicate Keyed(t: set<Row>) {
    forall a, b :: a in t && b in t && a.key == b.key ==> a == b
  }

  predicate Matches(r: Row, f: Filter) {
    && r.org == f.org
    && (f.app == 0 || r.app == f.app)
    && (f.model == 0 || r.model == f.model)
    && (f.status == 0 || r.status == f.status)
    && (f.cacheStatus == 0 || r.cacheStatus == f.cacheStatus)
    && (f.since.None? || r.key.startedAt >= f.since.value)
    && (f.until.None? || r.key.startedAt < f.until.value)
  }

  function Selected(t: set<Row>, f: Filter, cursor: Key): set<Row> {
    set r | r in t && Matches(r, f) && Below(r.key, cursor)
  }

  // ---------------------------------------------------------------- cursors

  const BAR := '|'

  /** The library's time and uuid texts. */
  datatype Codec = Codec(
    formatTime: int -> string, parseTime: string -> Option<int>, formatID: UUID -> string, parseID: string -> Option<UUID>)

  /** Texts read back as what they were, and a time has no bar in it. */
  ghost predicate Lossless(c: Codec) {
    && (forall ts :: c.parseTime(c.formatTime(ts)) == Some(ts) && BAR !in c.formatTime(ts))
    && (forall id: UUID :: c.parseID(c.formatID(id)) == Some(id))
  }

  /** 9999-01-01T00:00:00Z and the all-ones uuid, where an empty cursor starts. */
  const MAX_CURSOR := Key(253_370_764_800_000_000, MAX_ID)

  function EncodeCursor(c: Codec, k: Key): string {
    c.formatTime(k.startedAt) + [BAR] + c.formatID(k.id)
  }

  /** Where the first bar is; the length if there is none. */
  function FirstBar(s: string): (i: nat)
    ensures i <= |s| && (forall j :: 0 <= j < i ==> s[j] != BAR) && (i < |s| ==> s[i] == BAR)
  {
    if s == [] || s[0] == BAR then 0 else 1 + FirstBar(s[1..])
  }

  /** The cursor's two texts; None unless it splits at a bar into a time and the rest. */
  function SplitCursor(c: Codec, s: string): Option<(int, string)> {
    var bar := FirstBar(s);
    if bar == |s| then None
    else match c.parseTime(s[..bar])
      case None => None
      case Some(ts) => Some((ts, s[bar + 1..]))
  }

  datatype Decoded = At(cursor: Key) | Invalid | BadID

  /** An empty cursor starts from the top; a cursor whose id text is no uuid gets
      as far as the query. */
  function DecodeCursor(c: Codec, s: string): Decoded {
    if s == "" then At(MAX_CURSOR)
    else match SplitCursor(c, s)
      case None => Invalid
      case Some((ts, text)) =>
        match c.parseID(text)
        case None => BadID
        case Some(id) => At(Key(ts, id))
  }

  /** Even an id text with bars in it comes back whole. */
  lemma DecodeInvertsEncode(c: Codec, k: Key)
    requires Lossless(c)
    ensures DecodeCursor(c, EncodeCursor(c, k)) == At(k)
    ensures EncodeCursor(c, k) != ""
  {
    var s := EncodeCursor(c, k);
    var time := c.formatTime(k.startedAt);
    assert s[|time|] == BAR;
    assert forall j :: 0 <= j < |time| ==> s[j] == time[j];
    assert s[..|time|] == time && s[|time| + 1..] == c.formatID(k.id);
  }

  // ---------------------------------------------------------------- one page

  datatype Page = Page(rows: seq<Row>, next: Option<Key>)

  ghost predicate StrictlyDescending(rows: seq<Row>) {
    forall i, j :: 0 <= i < j < |rows| ==> Below(rows[j].key, rows[i].key)
  }

  /** All of `s`, in order. */
  ghost predicate Lists(rows: seq<Row>, s: set<Row>) {
    StrictlyDescending(rows) && Elements(rows) == s
  }

  /** The rows of `s` after a key. */
  ghost function Under(s: set<Row>, k: Key): set<Row> {
    set r | r in s && Below(r.key, k)
  }

  /** A page of `s`: all of it if it fits; otherwise `limit` rows, down to the
      one the cursor names, and there are more below that. */
  ghost predicate IsPage(p: Page, s: set<Row>, limit: nat) {
    match p.next
    case None => Lists(p.rows, s) && |p.rows| <= limit
    case Some(k) =>
      && |p.rows| == limit > 0 && p.rows[limit - 1].key == k
      && Lists(p.rows, s - Under(s, k)) && Under(s, k) != {}
  }

  /** Put a row where it belongs. */
  function Insert(rows: seq<Row>, r: Row): (out: seq<Row>)
    requires StrictlyDescending(rows) && forall s :: s in rows ==> s.key != r.key
    ensures StrictlyDescending(out) && forall s :: s in out <==> s in rows || s == r
  {
    if rows == [] || Below(rows[0].key, r.key) then [r] + rows
    else
      var rest := Insert(rows[1..], r);
      assert forall i :: 0 <= i < |rest| ==> rest[i] in rest;
      [rows[0]] + rest
  }

  /** Rows cut from the end of a listing come after all that stay. */
  lemma CutIsBelow(rows: seq<Row>, count: nat)
    requires StrictlyDescending(rows) && count <= |rows|
    ensures StrictlyDescending(rows[..count]) && Elements(rows[..count]) <= Elements(rows)
    ensures forall r, s :: r in rows && r !in rows[..count] && s in rows[..count] ==> Below(r.key, s.key)
  {
  }

  datatype ListResult = Listed(rows: seq<Row>, next: string) | InvalidCursor | QueryFailed

  /** The answer is a page of `s`, its cursor the text of the last row's key. */
  ghost predicate Answers(c: Codec, r: ListResult, s: set<Row>, limit: nat)
    requires r.Listed?
  {
    if r.next == "" then IsPage(Page(r.rows, None), s, limit)
    else
      && r.rows != [] && r.next == EncodeCursor(c, Last(r.rows).key)
      && IsPage(Page(r.rows, Some(Last(r.rows).key)), s, limit)
  }

  class Requests {
    var rows: set<Row>

    constructor ()
      ensures rows == {}
    {
      rows := {};
    }

    /** The SELECT: the first `count` rows below the cursor. */
    method Select(f: Filter, cursor: Key, count: nat) returns (found: seq<Row>)
      requires Keyed(rows)
      ensures StrictlyDescending(found) && |found| <= count
      ensures Elements(found) <= Selected(rows, f, cursor)
      ensures |found| < count ==> Elements(found) == Selected(rows, f, cursor)
      ensures forall r :: r in Selected(rows, f, cursor) && r !in found ==> forall s :: s in found ==> Below(r.key, s.key)
    {
      found := [];
      var left := Selected(rows, f, cursor);
      while left != {}
        invariant left <= Selected(rows, f, cursor)
        invariant StrictlyDescending(found)
        invariant forall s :: s in found <==> s in Selected(rows, f, cursor) && s !in left
        decreases |left|
      {
        var r :| r in left;
        left := left - {r};
        found := Insert(found, r);
      }
      if |found| > count {
        CutIsBelow(found, count);
        found := found[..count];
      }
    }

    method List(c: Codec, f: Filter, cursor: string, limitArg: int) returns (r: ListResult)
      requires Keyed(rows)
      ensures match DecodeCursor(c, cursor)
              case Invalid => r.InvalidCursor?
              case BadID => r.QueryFailed?
              case At(k) => r.Listed? && Answers(c, r, Selected(rows, f, k), if 1 <= limitArg <= 200 then limitArg else 50)
    {
      var limit := if limitArg <= 0 || limitArg > 200 then 50 else limitArg;
      var k := MAX_CURSOR;
      if cursor != "" {
        var split := SplitCursor(c, cursor);
        if split.None? {
          return InvalidCursor;
        }
        var id := c.parseID(split.value.1);
        if id.None? {
          return QueryFailed;
        }
        k := Key(split.value.0, id.value);
      }
      var found := Select(f, k, limit + 1);
      var next := "";
      if |found| > limit {
        var last := found[limit - 1];
        FullPage(found, Selected(rows, f, k), limit);
        next := EncodeCursor(c, last.key);
        found := found[..limit];
      }
      r := Listed(found, next);
    }
  }

  /** One row more than the limit shows that there is a next page. */
  lemma FullPage(found: seq<Row>, s: set<Row>, limit: nat)
    requires StrictlyDescending(found) && |found| == limit + 1 && limit > 0 && Elements(found) <= s
    requires forall r :: r in s && r !in found ==> forall x :: x in found ==> Below(r.key, x.key)
    ensures IsPage(Page(found[..limit], Some(found[limit - 1].key)), s, limit)
  {
    var rows, k := found[..limit], found[limit - 1].key;
    forall r ensures r in rows <==> r in s && !Below(r.key, k) {
      if r in rows {
        var i :| 0 <= i < limit && rows[i] == r;
        assert r in found && (i < limit - 1 ==> Below(k, r.key));
      } else if r in s && r in found {
        assert r == found[limit];
      } else if r in s {
        assert found[limit - 1] in found;
      }
    }
    assert found[limit] in Under(s, k);
  }

  /** A cursor text: none starts above every date up to year 9999, without a bar or
      a readable time it is invalid, without a readable id the query fails. */
  lemma CursorMeaning(c: Codec, time: string, id: string)
    requires BAR !in time
    ensures DecodeCursor(c, "") == At(Key(253_370_764_800_000_000, 0xffffffff_ffffffff_ffffffff_ffffffff))
    ensures time != "" ==> DecodeCursor(c, time) == Invalid
    ensures DecodeCursor(c, time + "|" + id) ==
              if c.parseTime(time).None? then Invalid
              else if c.parseID(id).None? then BadID
              else At(Key(c.parseTime(time).value, c.parseID(id).value))
  {
    var s := time + "|" + id;
    assert forall j :: 0 <= j < |time| ==> s[j] == time[j] && time[j] in time;
    assert s[|time|] == '|';
    assert s[..|time|] == time && s[|time| + 1..] == id;
  }

  /** The rows an answer lists are of the organisation and pass every filter that is
      set, newest first and ids breaking ties, all below the cursor and no more than
      the limit; what it leaves out below the cursor is below its last row, and then
      there is a next cursor. */
  lemma AnswerMeaning(c: Codec, r: ListResult, t: set<Row>, f: Filter, cursor: Key, limit: nat)
    requires r.Listed? && Answers(c, r, Selected(t, f, cursor), limit)
    ensures |r.rows| <= limit && forall i, j :: 0 <= i < j < |r.rows| ==> NewerFirst(r.rows[i].key, r.rows[j].key)
    ensures forall x :: x in r.rows ==> x in t && Passes(x, f) && NewerFirst(cursor, x.key)
    ensures forall x :: x in t && Passes(x, f) && NewerFirst(cursor, x.key) && x !in r.rows ==>
              r.next != "" && r.rows != [] && NewerFirst(Last(r.rows).key, x.key)
  {
    var s := Selected(t, f, cursor);
    forall x: Row ensures x in s <==> x in t && Passes(x, f) && NewerFirst(cursor, x.key) {
    }
    assert forall x :: x in r.rows <==> x in Elements(r.rows);
  }

  ghost predicate NewerFirst(a: Key, b: Key) {
    a.startedAt > b.startedAt || (a.startedAt == b.startedAt && a.id > b.id)
  }

  /** A filter left empty passes every row; the dates are since, inclusive, and until, exclusive. */
  ghost predicate Passes(r: Row, f: Filter) {
    && r.org == f.org
    && (f.app != 0 ==> r.app == f.app) && (f.model != 0 ==> r.model == f.model)
    && (f.status != 0 ==> r.status == f.status) && (f.cacheStatus != 0 ==> r.cacheStatus == f.cacheStatus)
    && match f.since { case None => true case Some(since) => since <= r.key.startedAt }
    && match f.until { case None => true case Some(until) => r.key.startedAt < until }
  }

  // ---------------------------------------------------------------- following the cursor

  /** Pages got by following `next` from `cursor`, each from the table as it then was. */
  ghost predicate IsWalk(pages: seq<Page>, tables: seq<set<Row>>, f: Filter, cursor: Key, limit: nat) {
    if pages == [] then true
    else
      && tables != []
      && IsPage(pages[0], Selected(tables[0], f, cursor), limit)
      && match pages[0].next
         case None => |pages| == 1
         case Some(k) => IsWalk(pages[1..], tables[1..], f, k, limit)
  }

  /** The same as a client sees it: the answers to one List call after another,
      each given the cursor text of the one before. */
  ghost predicate IsSession(c: Codec, answers: seq<ListResult>, tables: seq<set<Row>>, f: Filter, cursor: string,
                            limit: nat) {
    if answers == [] then true
    else
      && tables != []
      && DecodeCursor(c, cursor).At? && answers[0].Listed?
      && Answers(c, answers[0], Selected(tables[0], f, DecodeCursor(c, cursor).cursor), limit)
      && if answers[0].next == "" then |answers| == 1
         else IsSession(c, answers[1..], tables[1..], f, answers[0].next, limit)
  }

  function PageOf(r: ListResult): Page
    requires r.Listed?
  {
    Page(r.rows, if r.next == "" || r.rows == [] then None else Some(Last(r.rows).key))
  }

  function PagesOf(answers: seq<ListResult>): seq<Page>
    requires forall i :: 0 <= i < |answers| ==> answers[i].Listed?
  {
    if answers == [] then [] else [PageOf(answers[0])] + PagesOf(answers[1..])
  }

  /** The cursor texts lose nothing: what a client collects is a walk by keys. */
  lemma {:induction false} SessionIsWalk(c: Codec, answers: seq<ListResult>, tables: seq<set<Row>>, f: Filter,
                                         cursor: string, limit: nat)
    requires Lossless(c) && IsSession(c, answers, tables, f, cursor, limit) && DecodeCursor(c, cursor).At?
    ensures forall i :: 0 <= i < |answers| ==> answers[i].Listed?
    ensures IsWalk(PagesOf(answers), tables, f, DecodeCursor(c, cursor).cursor, limit)
  {
    if answers != [] {
      var first := answers[0];
      if first.next != "" {
        DecodeInvertsEncode(c, Last(first.rows).key);
        SessionIsWalk(c, answers[1..], tables[1..], f, first.next, limit);
        assert forall i :: 1 <= i < |answers| ==> answers[i] == answers[1..][i - 1];
      } else {
        assert answers[1..] == [] && PagesOf(answers) == [PageOf(first)];
      }
    }
  }

  ghost predicate Finished(pages: seq<Page>) {
    pages != [] && Last(pages).next.None?
  }

  function AllRows(pages: seq<Page>): seq<Row> {
    if pages == [] then [] else pages[0].rows + AllRows(pages[1..])
  }

  lemma PageIsInOrder(p: Page, t: set<Row>, f: Filter, cursor: Key, limit: nat)
    requires IsPage(p, Selected(t, f, cursor), limit)
    ensures StrictlyDescending(p.rows)
    ensures forall r :: r in p.rows ==> r in t && Matches(r, f) && Below(r.key, cursor)
    ensures p.next.Some? ==> (forall r :: r in p.rows ==> !Below(r.key, p.next.value)) && Below(p.next.value, cursor)
  {
    assert forall r :: r in p.rows ==> r in Elements(p.rows);
    if p.next.Some? {
      assert p.rows[limit - 1] in p.rows;
    }
  }

  /** Whatever is inserted or deleted between pages, no key comes twice and the
      order never turns. */
  lemma {:induction false} WalkDescends(pages: seq<Page>, tables: seq<set<Row>>, f: Filter, cursor: Key, limit: nat)
    requires IsWalk(pages, tables, f, cursor, limit)
    ensures StrictlyDescending(AllRows(pages))
    ensures forall r :: r in AllRows(pages) ==> Below(r.key, cursor) && Matches(r, f)
  {
    if pages != [] {
      PageIsInOrder(pages[0], tables[0], f, cursor, limit);
      if pages[0].next.Some? {
        var k := pages[0].next.value;
        WalkDescends(pages[1..], tables[1..], f, k, limit);
        forall r, s | r in pages[0].rows && s in AllRows(pages[1..]) ensures Below(s.key, r.key) {
          assert !Below(r.key, k) && Below(s.key, k);
        }
      } else {
        assert pages[1..] == [] && AllRows(pages) == pages[0].rows;
      }
    }
  }

  /** The walk's page that covers a key: the first whose `next` is not above it. */
  function Covering(pages: seq<Page>, k: Key): (i: nat)
    ensures i <= |pages|
  {
    if pages == [] then 0
    else if pages[0].next.None? || !Below(k, pages[0].next.value) then 0
    else 1 + Covering(pages[1..], k)
  }

  /** One page returns the rows from the cursor down to its own next cursor. */
  lemma PageReturns(p: Page, t: set<Row>, f: Filter, cursor: Key, limit: nat, r: Row)
    requires IsPage(p, Selected(t, f, cursor), limit) && Matches(r, f) && Below(r.key, cursor)
    ensures r in p.rows <==> r in t && (p.next.None? || !Below(r.key, p.next.value))
  {
    assert r in p.rows <==> r in Elements(p.rows);
  }

  /** A row is returned exactly if it was in the table when the page covering its
      key was fetched: changes ahead of or behind the cursor do not disturb it. */
  lemma {:induction false} WalkReturns(pages: seq<Page>, tables: seq<set<Row>>, f: Filter, cursor: Key, limit: nat,
                                       r: Row)
    requires IsWalk(pages, tables, f, cursor, limit) && |pages| <= |tables| && Finished(pages)
    requires Matches(r, f) && Below(r.key, cursor)
    ensures Covering(pages, r.key) < |pages|
    ensures r in AllRows(pages) <==> r in tables[Covering(pages, r.key)]
  {
    var p := pages[0];
    PageReturns(p, tables[0], f, cursor, limit, r);
    if p.next.None? {
      assert AllRows(pages[1..]) == [];
    } else {
      WalkDescends(pages[1..], tables[1..], f, p.next.value, limit);
      if Below(r.key, p.next.value) {
        WalkReturns(pages[1..], tables[1..], f, p.next.value, limit, r);
      }
    }
  }

  /** So a row that stays throughout is returned. */
  lemma StayingRowsReturned(pages: seq<Page>, tables: seq<set<Row>>, f: Filter, cursor: Key, limit: nat, r: Row)
    requires IsWalk(pages, tables, f, cursor, limit) && |pages| <= |tables| && Finished(pages)
    requires Matches(r, f) && Below(r.key, cursor) && forall i :: 0 <= i < |tables| ==> r in tables[i]
    ensures r in AllRows(pages)
  {
    WalkReturns(pages, tables, f, cursor, limit, r);
  }

  // ---------------------------------------------------------------- a table that stands still

  /** How many pages n rows take. */
  function PagesFor(n: nat, limit: nat): nat
    requires limit > 0
  {
    if n <= limit then 1 else 1 + PagesFor(n - limit, limit)
  }

  /** The least number of pages of `limit` rows that hold n rows, and one for nothing. */
  lemma {:induction false} PagesForIsCeiling(n: nat, limit: nat)
    requires limit > 0
    ensures var pages := PagesFor(n, limit);
            n <= limit * pages && if n == 0 then pages == 1 else limit * (pages - 1) < n
  {
    if n > limit {
      PagesForIsCeiling(n - limit, limit);
      var rest := PagesFor(n - limit, limit);
      assert limit * (1 + rest) == limit + limit * rest && limit * (1 + (rest - 1)) == limit + limit * (rest - 1);
    }
  }

  /** What is left after a full page. */
  lemma RestOfPage(p: Page, t: set<Row>, f: Filter, cursor: Key, limit: nat)
    requires IsPage(p, Selected(t, f, cursor), limit) && p.next.Some?
    ensures var s := Selected(t, f, cursor);
            && Selected(t, f, p.next.value) == Under(s, p.next.value)
            && |s| > limit && |Under(s, p.next.value)| == |s| - limit
            && Elements(p.rows) + Under(s, p.next.value) == s
  {
    var s, k := Selected(t, f, cursor), p.next.value;
    PageIsInOrder(p, t, f, cursor, limit);
    assert Distinct(p.rows);
    DistinctSize(p.rows);
    assert s == (s - Under(s, k)) + Under(s, k);
  }

  /** What is known of the walk so far, as counts and as rows. */
  ghost predicate WalkOf(pages: seq<Page>, s: set<Row>, limit: nat)
    requires limit > 0
  {
    if Finished(pages) then Elements(AllRows(pages)) == s && |pages| == PagesFor(|s|, limit)
    else |pages| < PagesFor(|s|, limit)
  }

  lemma WalkOfMore(pages: seq<Page>, s: set<Row>, under: set<Row>, limit: nat)
    requires limit > 0 && pages != [] && pages[0].next.Some?
    requires |s| > limit && |under| == |s| - limit && Elements(pages[0].rows) + under == s
    requires WalkOf(pages[1..], under, limit)
    ensures WalkOf(pages, s, limit)
  {
    assert Finished(pages) <==> Finished(pages[1..]);
  }

  lemma LastPage(p: Page, s: set<Row>, limit: nat)
    requires limit > 0 && IsPage(p, s, limit) && p.next.None?
    ensures WalkOf([p], s, limit)
  {
    assert AllRows([p]) == p.rows;
    assert Distinct(p.rows);
    DistinctSize(p.rows);
  }

  /** With no changes meanwhile, following the cursor to the end lists every
      matching row once, in order, in ceil(n / limit) pages; and it does end. */
  lemma {:induction false} StillWalk(pages: seq<Page>, tables: seq<set<Row>>, t: set<Row>, f: Filter, cursor: Key,
                                     limit: nat)
    requires IsWalk(pages, tables, f, cursor, limit) && |pages| <= |tables| && limit > 0
    requires forall i :: 0 <= i < |tables| ==> tables[i] == t
    ensures StrictlyDescending(AllRows(pages))
    ensures if Finished(pages) then Elements(AllRows(pages)) == Selected(t, f, cursor)
                                    && |pages| == PagesFor(|Selected(t, f, cursor)|, limit)
            else |pages| < PagesFor(|Selected(t, f, cursor)|, limit)
  {
    WalkDescends(pages, tables, f, cursor, limit);
    if pages != [] {
      var s, p := Selected(t, f, cursor), pages[0];
      assert tables[0] == t;
      if p.next.Some? {
        RestOfPage(p, t, f, cursor, limit);
        StillWalk(pages[1..], tables[1..], t, f, p.next.value, limit);
        WalkOfMore(pages, s, Under(s, p.next.value), limit);
      } else {
        LastPage(p, s, limit);
        assert pages == [p];
      }
    }
  }

  /** The first page starts above every row but those from the year 9999 on. */
  lemma FirstPageSeesAll(t: set<Row>, f: Filter)
    ensures (forall r :: r in t && Matches(r, f) ==> r in Selected(t, f, MAX_CURSOR)) <==>
            (forall r :: r in t && Matches(r, f) ==> r.key.startedAt < MAX_CURSOR.startedAt
                                                     || (r.key.startedAt == MAX_CURSOR.startedAt && r.key.id != MAX_ID))
  {
  }
}
