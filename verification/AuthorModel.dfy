/**
  An author job's works: pages of works are saved under growing keys, one work after the
  other, while workers fetch the details in any order and clients read the finished works
  page by page. A read looks at the job, then at the first unfinished work, then at the
  rows; anything can happen in between. A page is saved to its end before the next.
 */
module AuthorModel {
  import opened AuthorKeys
  import opened Wrappers

  datatype Detail = Pending | Running | Complete | Failed {
    predicate Open() { Pending? || Running? }
  }

  /** `attempts` counts how often a worker took the work. */
  datatype Row = Row(workId: string, page: nat, index: nat, detail: Detail, attempts: nat) {
    function Sequence(): string { Key(page, index) }
  }

  /** A work as the platform lists it, with the state its details start in. */
  datatype Found = Found(workId: string, detail: Detail)

  /** The stored works in the order of insertion, the pages saved, the works handled of the
      page being saved, and whether the job is queued or running. */
  datatype Author = Author(rows: seq<Row>, pages: nat, handled: nat, active: bool)

  // ------------------------------------------------------------------------ saving

  predicate Saved(rows: seq<Row>, workId: string) { exists r :: r in rows && r.workId == workId }

  /** `$setOnInsert`: a work that is already stored is left alone. */
  function Upsert(rows: seq<Row>, f: Found, page: nat, index: nat): seq<Row> {
    if Saved(rows, f.workId) then rows else rows + [Row(f.workId, page, index, f.detail, 0)]
  }

  function SavePage(rows: seq<Row>, page: nat, works: seq<Found>): seq<Row> {
    if |works| == 0 then rows
    else
      var n := |works| - 1;
      Upsert(SavePage(rows, page, works[..n]), works[n], page, n)
  }

  // ----------------------------------------------------------------------- details

  function SetDetail(rows: seq<Row>, i: nat, d: Detail): seq<Row>
    requires i < |rows|
  {
    rows[i := rows[i].(detail := d)]
  }

  function Claim(rows: seq<Row>, i: nat): seq<Row>
    requires i < |rows|
  {
    rows[i := rows[i].(detail := Running, attempts := rows[i].attempts + 1)]
  }

  /** Interrupted details, and on resume failed ones, are to be fetched again. */
  function Reopened(r: Row, retryFailed: bool): Row {
    if r.detail.Running? || (retryFailed && r.detail.Failed?) then r.(detail := Pending) else r
  }

  function Prepare(rows: seq<Row>, retryFailed: bool): (s: seq<Row>)
    ensures |s| == |rows|
    ensures forall k :: 0 <= k < |rows| ==> s[k] == Reopened(rows[k], retryFailed)
  {
    seq(|rows|, k requires 0 <= k < |rows| => Reopened(rows[k], retryFailed))
  }

  function FirstWith(rows: seq<Row>, open: bool): (i: nat)
    ensures i <= |rows|
    ensures i < |rows| ==> rows[i].detail.Pending? || (open && rows[i].detail.Running?)
    ensures forall k :: 0 <= k < i ==> !rows[k].detail.Pending? && (open ==> !rows[k].detail.Running?)
    decreases |rows|
  {
    if |rows| == 0 || rows[0].detail.Pending? || (open && rows[0].detail.Running?) then 0
    else 1 + FirstWith(rows[1..], open)
  }

  // ----------------------------------------------------------------------- reading

  predicate Wanted(r: Row, after: string, before: Option<string>) {
    && (after != "" ==> Less(after, r.Sequence()))
    && (before.Some? ==> Less(r.Sequence(), before.value))
  }

  /** Rows after the cursor, and before the first unfinished one if told to wait. */
  function Select(rows: seq<Row>, after: string, before: Option<string>): seq<Row> {
    if |rows| == 0 then []
    else
      var r := rows[|rows| - 1];
      Select(rows[..|rows| - 1], after, before)
      + if Wanted(r, after, before) then [r] else []
  }

  function Barrier(rows: seq<Row>, wait: bool): Option<string> {
    var i := FirstWith(rows, true);
    if wait && i < |rows| then Some(rows[i].Sequence()) else None
  }

  function Take(rows: seq<Row>, limit: nat): seq<Row> {
    if |rows| <= limit then rows else rows[..limit]
  }

  /** The second query: rows are stored in key order, so none are moved. */
  function Results(rows: seq<Row>, after: string, before: Option<string>, limit: nat): seq<Row> {
    Take(Select(rows, after, before), limit)
  }

  function WorkIds(rows: seq<Row>): (r: seq<string>)
    ensures |r| == |rows|
    ensures forall k :: 0 <= k < |rows| ==> r[k] == rows[k].workId
  {
    seq(|rows|, k requires 0 <= k < |rows| => rows[k].workId)
  }

  /** `after` is the cursor held, `""` before the first page. Of the read under way,
      `glance` tells whether the job was active and `barrier` is the key of the first
      unfinished work, if one was found; `last` is what the last page held. */
  datatype Reader = Reader(
    after: string, seen: seq<string>, ended: bool,
    glance: Option<bool>, barrier: Option<Option<string>>, last: seq<Row>)

  const NEW_READER := Reader("", [], false, None, None, [])

  /** The end of `results`: one more row than asked for shows if there is more. */
  function Fetch(rows: seq<Row>, r: Reader, active: bool, before: Option<string>, limit: nat): Reader {
    var fetched := Results(rows, r.after, before, limit + 1);
    var page := Take(fetched, limit);
    var after := if |page| > 0 then page[|page| - 1].Sequence() else r.after;
    Reader(after, r.seen + WorkIds(page), !(|fetched| > limit || active), None, None, page)
  }

  // ------------------------------------------------------------------------ events

  datatype Event =
    | SavesWork(found: Found)
    | EndsPage
    | Claims
    | SavesDetail(i: nat, complete: bool)
    | Reopens(i: nat)
    | Ends
    | Resumes
    | Glances
    | Bars
    | Fetches(limit: nat)

  datatype Scene = Scene(author: Author, reader: Reader)

  const OPENING := Scene(Author([], 0, 0, true), NEW_READER)

  /** Interrupted details are reopened at any start of a run, failed ones on resume. */
  predicate Enabled(s: Scene, e: Event) {
    var a, r := s.author, s.reader;
    match e
    case SavesWork(_) => a.active && FitsKey(a.pages, a.handled)
    case EndsPage => a.active
    case Claims => a.active && FirstWith(a.rows, false) < |a.rows|
    case SavesDetail(i, _) => a.active && i < |a.rows| && a.rows[i].detail.Running?
    case Reopens(i) => i < |a.rows| && (a.rows[i].detail.Running? || (!a.active && a.rows[i].detail.Failed?))
    case Ends => a.active && a.handled == 0
    case Resumes => !a.active
    case Glances => !r.ended && r.glance.None?
    case Bars => !r.ended && r.glance.Some? && r.barrier.None?
    case Fetches(limit) => !r.ended && r.glance.Some? && r.barrier.Some? && limit > 0
  }

  function Next(s: Scene, e: Event): Scene
    requires Enabled(s, e)
  {
    var a, r := s.author, s.reader;
    match e
    case SavesWork(f) =>
      s.(author := a.(rows := Upsert(a.rows, f, a.pages, a.handled), handled := a.handled + 1))
    case EndsPage => s.(author := a.(pages := a.pages + 1, handled := 0))
    case Claims => s.(author := a.(rows := Claim(a.rows, FirstWith(a.rows, false))))
    case SavesDetail(i, complete) =>
      s.(author := a.(rows := SetDetail(a.rows, i, if complete then Complete else Failed)))
    case Reopens(i) => s.(author := a.(rows := SetDetail(a.rows, i, Pending)))
    case Ends => s.(author := a.(active := false))
    case Resumes => s.(author := a.(active := true))
    case Glances => s.(reader := r.(glance := Some(a.active)))
    case Bars => s.(reader := r.(barrier := Some(Barrier(a.rows, r.glance.value))))
    case Fetches(limit) => s.(reader := Fetch(a.rows, r, r.glance.value, r.barrier.value, limit))
  }

  function Run(events: seq<Event>): Option<Scene> {
    if |events| == 0 then Some(OPENING)
    else
      var before := Run(events[..|events| - 1]);
      var e := events[|events| - 1];
      if before.Some? && Enabled(before.value, e) then Some(Next(before.value, e)) else None
  }
}
