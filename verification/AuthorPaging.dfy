/** Reading an author job never skips or repeats a work. */
module AuthorPaging {
  import opened AuthorKeys
  import opened AuthorModel
  import opened Wrappers

  // -------------------------------------------------------------------- stored rows

  predicate Earlier(r: Row, s: Row) { r.page < s.page || (r.page == s.page && r.index < s.index) }

  /** Keys grow in insertion order, within the widths. */
  predicate Ordered(rows: seq<Row>) {
    && (forall k :: 0 <= k < |rows| ==> FitsKey(rows[k].page, rows[k].index))
    && (forall j, k :: 0 <= j < k < |rows| ==> Earlier(rows[j], rows[k]))
  }

  predicate DistinctWorks(rows: seq<Row>) {
    forall j, k :: 0 <= j < k < |rows| ==> rows[j].workId != rows[k].workId
  }

  /** The next key to be given out is behind every stored one. */
  predicate Behind(rows: seq<Row>, pages: nat, handled: nat) {
    forall k :: 0 <= k < |rows| ==> rows[k].page < pages || (rows[k].page == pages && rows[k].index < handled)
  }

  predicate Stored(a: Author) {
    Ordered(a.rows) && DistinctWorks(a.rows) && Behind(a.rows, a.pages, a.handled)
  }

  lemma UpsertDistinct(rows: seq<Row>, f: Found, page: nat, index: nat)
    requires DistinctWorks(rows)
    ensures DistinctWorks(Upsert(rows, f, page, index))
  {
    if !Saved(rows, f.workId) {
      forall k | 0 <= k < |rows|
        ensures rows[k].workId != f.workId
      {
        assert rows[k] in rows;
      }
    }
  }

  /** What was stored stays in front; what is new carries the page's number. */
  lemma {:induction false} SavePageExtends(rows: seq<Row>, page: nat, works: seq<Found>)
    requires DistinctWorks(rows)
    ensures var saved := SavePage(rows, page, works);
            && |rows| <= |saved| && saved[..|rows|] == rows
            && DistinctWorks(saved)
            && (forall k :: |rows| <= k < |saved| ==> saved[k].page == page && saved[k].index < |works|)
            && (forall j, k :: |rows| <= j < k < |saved| ==> saved[j].index < saved[k].index)
    decreases |works|
  {
    hide DistinctWorks, Saved;
    if |works| == 0 {
    } else {
      var n := |works| - 1;
      SavePageExtends(rows, page, works[..n]);
      UpsertDistinct(SavePage(rows, page, works[..n]), works[n], page, n);
    }
  }

  /** Afterwards a work is stored exactly when it was before or the page lists it. */
  lemma {:induction false} SavePageStores(rows: seq<Row>, page: nat, works: seq<Found>, id: string)
    ensures Saved(SavePage(rows, page, works), id) <==>
            Saved(rows, id) || exists f :: f in works && f.workId == id
    decreases |works|
  {
    if |works| == 0 {
    } else {
      var n := |works| - 1;
      var before := SavePage(rows, page, works[..n]);
      SavePageStores(rows, page, works[..n], id);
      UpsertStores(before, works[n], page, n, id);
      assert works == works[..n] + [works[n]];
    }
  }

  lemma UpsertStores(rows: seq<Row>, f: Found, page: nat, index: nat, id: string)
    ensures Saved(Upsert(rows, f, page, index), id) <==> Saved(rows, id) || f.workId == id
  {
    if !Saved(rows, f.workId) {
      var r := Row(f.workId, page, index, f.detail, 0);
      assert r in rows + [r];
      if Saved(rows, id) {
        var s :| s in rows && s.workId == id;
        assert s in rows + [r];
      }
    }
  }

  lemma UpsertStored(a: Author, f: Found)
    requires Stored(a) && FitsKey(a.pages, a.handled)
    ensures Stored(a.(rows := Upsert(a.rows, f, a.pages, a.handled), handled := a.handled + 1))
  {
    hide Pow10;
    UpsertDistinct(a.rows, f, a.pages, a.handled);
  }

  // ----------------------------------------------------------------------- selecting

  /** The bounds name the m-th and the h-th row. */
  predicate Bounds(rows: seq<Row>, m: nat, h: nat, after: string, before: Option<string>) {
    && m <= |rows| && h <= |rows|
    && (if m == 0 then after == "" else after == rows[m - 1].Sequence())
    && (if h == |rows| then before.None? else before == Some(rows[h].Sequence()))
  }

  lemma WantedIsBetween(rows: seq<Row>, k: nat, m: nat, h: nat, after: string, before: Option<string>)
    requires Ordered(rows) && Bounds(rows, m, h, after, before) && k < |rows|
    ensures Wanted(rows[k], after, before) <==> m <= k < h
  {
    hide Less, Key, Pow10, Ordered;
    var r := rows[k];
    OrderedFits(rows, k);
    if m > 0 {
      var s := rows[m - 1];
      OrderedFits(rows, m - 1);
      KeyOrder(s.page, s.index, r.page, r.index);
      KeyOrder(s.page, s.index, s.page, s.index);
      OrderedPair(rows, m - 1, k);
    }
    if h < |rows| {
      var t := rows[h];
      OrderedFits(rows, h);
      KeyOrder(r.page, r.index, t.page, t.index);
      OrderedPair(rows, k, h);
    }
  }

  lemma OrderedFits(rows: seq<Row>, k: nat)
    requires Ordered(rows) && k < |rows|
    ensures FitsKey(rows[k].page, rows[k].index)
  {
  }

  function Slice(rows: seq<Row>, m: nat, h: nat): seq<Row> {
    if m <= h <= |rows| then rows[m..h] else []
  }

  /** In key order, the rows after the m-th and before the h-th are a slice. */
  lemma {:induction false} SelectIsSlice(rows: seq<Row>, n: nat, m: nat, h: nat, after: string,
                                         before: Option<string>)
    requires Ordered(rows) && Bounds(rows, m, h, after, before) && n <= |rows|
    ensures Select(rows[..n], after, before) == Slice(rows, m, Lower(n, h))
    decreases n
  {
    hide Ordered, Wanted, Slice;
    if n == 0 {
      NoSlice(rows, m, Lower(n, h));
    } else {
      assert rows[..n][..n - 1] == rows[..n - 1];
      SelectIsSlice(rows, n - 1, m, h, after, before);
      WantedIsBetween(rows, n - 1, m, h, after, before);
      SliceGrows(rows, n, m, h);
    }
  }

  lemma NoSlice(rows: seq<Row>, m: nat, h: nat)
    requires h == 0
    ensures Slice(rows, m, h) == []
  {
  }

  lemma SliceGrows(rows: seq<Row>, n: nat, m: nat, h: nat)
    requires 0 < n <= |rows|
    ensures Slice(rows, m, Lower(n, h)) ==
            Slice(rows, m, Lower(n - 1, h)) + if m <= n - 1 < h then [rows[n - 1]] else []
  {
  }

  function Lower(a: nat, b: nat): nat { if a <= b then a else b }

  lemma OrderedPair(rows: seq<Row>, j: nat, k: nat)
    requires Ordered(rows) && j < |rows| && k < |rows|
    ensures Earlier(rows[j], rows[k]) <==> j < k
  {
  }

  // ------------------------------------------------------------------- the invariant

  /** The pages so far are the first `m` works, and the cursor is the m-th key. */
  ghost predicate ReadUpTo(rows: seq<Row>, r: Reader, m: nat) {
    && m <= |rows|
    && r.seen == WorkIds(rows[..m])
    && r.after == if m == 0 then "" else rows[m - 1].Sequence()
  }

  /** A barrier found is the key of a stored row; only an active job has one. */
  ghost predicate BarrierKnown(rows: seq<Row>, r: Reader) {
    && (r.barrier.Some? ==> r.glance.Some?)
    && (r.barrier.Some? && r.barrier.value.Some? ==>
          && r.glance == Some(true)
          && exists h :: 0 <= h < |rows| && rows[h].Sequence() == r.barrier.value.value)
  }

  ghost predicate Faithful(s: Scene) {
    && Stored(s.author)
    && BarrierKnown(s.author.rows, s.reader)
    && exists m: nat :: ReadUpTo(s.author.rows, s.reader, m)
  }

  /** The place of the barrier. */
  ghost function Reach(rows: seq<Row>, before: Option<string>): (h: nat)
    requires before.Some? ==> exists h :: 0 <= h < |rows| && rows[h].Sequence() == before.value
    ensures h <= |rows|
    ensures if before.None? then h == |rows| else h < |rows| && rows[h].Sequence() == before.value
  {
    if before.None? then |rows|
    else
      var h: nat :| h < |rows| && rows[h].Sequence() == before.value;
      h
  }

  lemma FetchShape(rows: seq<Row>, r: Reader, active: bool, before: Option<string>, limit: nat)
    ensures var selected := Select(rows, r.after, before);
            var next := Fetch(rows, r, active, before, limit);
            && next.last == Take(selected, limit)
            && next.ended == !(|selected| > limit || active)
            && next.seen == r.seen + WorkIds(next.last)
            && next.after == if |next.last| > 0 then next.last[|next.last| - 1].Sequence() else r.after
  {
    hide Select, WorkIds, Take;
    TakeTwice(Select(rows, r.after, before), limit);
  }

  lemma FetchReads(rows: seq<Row>, r: Reader, m: nat, h: nat, active: bool, before: Option<string>, limit: nat)
    requires Ordered(rows) && ReadUpTo(rows, r, m) && limit > 0
    requires Bounds(rows, m, h, r.after, before)
    ensures var next := Fetch(rows, r, active, before, limit);
            && |next.last| == (if m <= h then Lower(limit, h - m) else 0)
            && m + |next.last| <= |rows|
            && next.last == rows[m..m + |next.last|]
            && ReadUpTo(rows, next, m + |next.last|)
            && (next.ended <==> !active && !(m <= h && h - m > limit))
  {
    hide Fetch, Take, Slice, Select, Ordered, WorkIds, Key;
    assert rows[..|rows|] == rows;
    SelectIsSlice(rows, |rows|, m, h, r.after, before);
    FetchShape(rows, r, active, before, limit);
    TakeOfSlice(rows, m, h, limit);
    var next := Fetch(rows, r, active, before, limit);
    assert rows[..m + |next.last|] == rows[..m] + next.last;
    WorkIdsOfAppend(rows[..m], next.last);
  }

  lemma TakeTwice(rows: seq<Row>, limit: nat)
    ensures Take(Take(rows, limit + 1), limit) == Take(rows, limit)
    ensures |Take(rows, limit + 1)| > limit <==> |rows| > limit
  {
  }

  lemma TakeOfSlice(rows: seq<Row>, m: nat, h: nat, limit: nat)
    requires m <= |rows| && h <= |rows|
    ensures var page := Take(Slice(rows, m, h), limit);
            && |page| == (if m <= h then Lower(limit, h - m) else 0)
            && page == rows[m..m + |page|]
    ensures |Slice(rows, m, h)| == if m <= h then h - m else 0
  {
  }

  lemma WorkIdsOfAppend(a: seq<Row>, b: seq<Row>)
    ensures WorkIds(a + b) == WorkIds(a) + WorkIds(b)
  {
  }

  /** Rows may be added behind or change their detail. */
  predicate Extends(before: seq<Row>, after: seq<Row>) {
    && |before| <= |after|
    && forall k :: 0 <= k < |before| ==>
         after[k] == before[k].(detail := after[k].detail, attempts := after[k].attempts)
  }

  /** The reader does not notice. */
  lemma StillRead(before: seq<Row>, after: seq<Row>, r: Reader, m: nat)
    requires ReadUpTo(before, r, m) && Extends(before, after)
    ensures ReadUpTo(after, r, m)
  {
    hide Key;
    SameKeys(before, after);
    assert WorkIds(after[..m]) == WorkIds(before[..m]);
  }

  lemma SameKeys(before: seq<Row>, after: seq<Row>)
    requires Extends(before, after)
    ensures forall k :: 0 <= k < |before| ==> after[k].Sequence() == before[k].Sequence()
  {
  }

  lemma StillBarred(before: seq<Row>, after: seq<Row>, r: Reader)
    requires BarrierKnown(before, r) && Extends(before, after)
    ensures BarrierKnown(after, r)
  {
    hide Key, Extends;
    SameKeys(before, after);
    if r.barrier.Some? && r.barrier.value.Some? {
      var h :| 0 <= h < |before| && before[h].Sequence() == r.barrier.value.value;
      assert |before| <= |after| by { LongerThan(before, after); }
      assert after[h].Sequence() == r.barrier.value.value;
    }
  }

  lemma LongerThan(before: seq<Row>, after: seq<Row>)
    requires Extends(before, after)
    ensures |before| <= |after|
  {
  }

  lemma SameKeysStored(a: Author, b: Author)
    requires Stored(a) && a.pages == b.pages && a.handled == b.handled
    requires |a.rows| == |b.rows| && Extends(a.rows, b.rows)
    ensures Stored(b)
  {
    hide Pow10;
    forall j, k | 0 <= j < k < |b.rows|
      ensures Earlier(b.rows[j], b.rows[k]) && b.rows[j].workId != b.rows[k].workId
    {
      assert Earlier(a.rows[j], a.rows[k]) && a.rows[j].workId != a.rows[k].workId;
    }
  }

  lemma UpsertExtends(rows: seq<Row>, f: Found, page: nat, index: nat)
    ensures Extends(rows, Upsert(rows, f, page, index))
  {
  }

  lemma EndPageStored(a: Author)
    requires Stored(a)
    ensures Stored(a.(pages := a.pages + 1, handled := 0))
  {
    hide Pow10;
  }

  /** Every step but the reader's own only extends the rows and keeps the keys growing. */
  lemma AuthorStep(s: Scene, e: Event)
    requires Stored(s.author) && Enabled(s, e)
    ensures Stored(Next(s, e).author)
    ensures Extends(s.author.rows, Next(s, e).author.rows)
  {
    hide Stored, Pow10, Upsert, Fetch, Barrier;
    var a := s.author;
    match e
    case SavesWork(f) =>
      UpsertStored(a, f);
      UpsertExtends(a.rows, f, a.pages, a.handled);
    case EndsPage => EndPageStored(a);
    case _ => SameKeysStored(a, Next(s, e).author);
  }

  lemma StepFaithful(s: Scene, e: Event)
    requires Faithful(s) && Enabled(s, e)
    ensures Faithful(Next(s, e))
  {
    hide Stored, ReadUpTo, BarrierKnown, Pow10, Fetch, Barrier, Extends, Upsert;
    var m: nat :| ReadUpTo(s.author.rows, s.reader, m);
    var t := Next(s, e);
    AuthorStep(s, e);
    match e
    case Fetches(limit) =>
      FetchFaithful(s, m, limit);
      assert ReadUpTo(t.author.rows, t.reader, m + |t.reader.last|);
    case Glances =>
      GlanceReads(s.author.rows, s.reader, t.reader, m);
      GlanceBars(s.author.rows, s.reader, t.reader);
      assert ReadUpTo(t.author.rows, t.reader, m);
    case Bars =>
      GlanceReads(s.author.rows, s.reader, t.reader, m);
      BarsKnown(s);
      assert ReadUpTo(t.author.rows, t.reader, m);
    case _ =>
      StillRead(s.author.rows, t.author.rows, s.reader, m);
      StillBarred(s.author.rows, t.author.rows, s.reader);
      assert ReadUpTo(t.author.rows, t.reader, m);
  }

  lemma FetchFaithful(s: Scene, m: nat, limit: nat)
    requires Stored(s.author) && ReadUpTo(s.author.rows, s.reader, m) && BarrierKnown(s.author.rows, s.reader)
    requires Enabled(s, Fetches(limit))
    ensures var t := Next(s, Fetches(limit));
            ReadUpTo(t.author.rows, t.reader, m + |t.reader.last|) && BarrierKnown(t.author.rows, t.reader)
  {
    hide Pow10, Key, Fetch, Ordered, DistinctWorks, Behind, WorkIds;
    var rows, before := s.author.rows, s.reader.barrier.value;
    FetchReads(rows, s.reader, m, Reach(rows, before), s.reader.glance.value, before, limit);
    FetchClears(rows, s.reader, s.reader.glance.value, before, limit);
  }

  lemma FetchClears(rows: seq<Row>, r: Reader, active: bool, before: Option<string>, limit: nat)
    ensures Fetch(rows, r, active, before, limit).barrier.None?
    ensures Fetch(rows, r, active, before, limit).glance.None?
  {
    hide Results, Take, WorkIds;
  }

  lemma BarsKnown(s: Scene)
    requires Enabled(s, Bars)
    ensures BarrierKnown(s.author.rows, Next(s, Bars).reader)
  {
    hide Key, FirstWith;
  }

  lemma GlanceReads(rows: seq<Row>, r: Reader, t: Reader, m: nat)
    requires ReadUpTo(rows, r, m) && t.after == r.after && t.seen == r.seen
    ensures ReadUpTo(rows, t, m)
  {
  }

  lemma GlanceBars(rows: seq<Row>, r: Reader, t: Reader)
    requires BarrierKnown(rows, r) && r.glance.None? && t.barrier == r.barrier
    ensures BarrierKnown(rows, t)
  {
  }

  lemma OpeningFaithful()
    ensures Faithful(OPENING)
  {
    assert WorkIds(OPENING.author.rows[..0]) == [];
    assert ReadUpTo(OPENING.author.rows, OPENING.reader, 0);
  }

  lemma {:induction false} RunFaithful(events: seq<Event>)
    requires Run(events).Some?
    ensures Faithful(Run(events).value)
    decreases |events|
  {
    hide Faithful, Next, Enabled;
    if |events| == 0 {
      OpeningFaithful();
    } else {
      RunFaithful(events[..|events| - 1]);
      StepFaithful(Run(events[..|events| - 1]).value, events[|events| - 1]);
    }
  }

  /** Whatever the order in which pages arrive and details finish, the works a client has
      been given are the first stored ones, each once; none at or before its cursor is
      missing. */
  lemma ReadingIsExact(events: seq<Event>)
    requires Run(events).Some?
    ensures var s := Run(events).value;
            exists m: nat {:trigger s.author.rows[..m]} :: m <= |s.author.rows|
              && s.reader.seen == WorkIds(s.author.rows[..m])
              && (forall j, k :: 0 <= j < k < m ==> s.reader.seen[j] != s.reader.seen[k])
              && (forall k :: 0 <= k < |s.author.rows| && s.reader.after != "" ==>
                    (k < m <==> !Less(s.reader.after, s.author.rows[k].Sequence())))
  {
    hide Run, Key, Less, Pow10;
    RunFaithful(events);
    var s := Run(events).value;
    var m: nat :| ReadUpTo(s.author.rows, s.reader, m);
    forall k | 0 <= k < |s.author.rows| && m > 0
      ensures k < m <==> !Less(s.reader.after, s.author.rows[k].Sequence())
    {
      var r, t := s.author.rows[m - 1], s.author.rows[k];
      assert FitsKey(r.page, r.index) && FitsKey(t.page, t.index);
      KeyOrder(r.page, r.index, t.page, t.index);
      OrderedPair(s.author.rows, m - 1, k);
    }
  }

  // --------------------------------------------------------------- unfinished works

  /** The k-th row is wanted, and fewer than `limit` rows before it are. */
  predicate Within(rows: seq<Row>, k: nat, after: string, before: Option<string>, limit: nat)
    requires k < |rows|
  {
    Wanted(rows[k], after, before) && |Select(rows[..k], after, before)| < limit
  }

  /** Among the first `limit` rows after the cursor and before the barrier, one is
      unfinished. */
  ghost predicate OpenAhead(rows: seq<Row>, after: string, before: Option<string>, limit: nat) {
    exists k :: 0 <= k < |rows| && Within(rows, k, after, before, limit) && rows[k].detail.Open()
  }

  ghost predicate Placed(rows: seq<Row>, n: nat, w: Row, after: string, before: Option<string>, limit: nat)
    requires n <= |rows|
  {
    exists k :: 0 <= k < n && rows[k] == w && Within(rows, k, after, before, limit)
  }

  /** What a page holds. */
  lemma {:induction false} SelectPlaces(rows: seq<Row>, n: nat, after: string, before: Option<string>, limit: nat)
    requires n <= |rows|
    ensures forall w :: w in Take(Select(rows[..n], after, before), limit) <==>
              Placed(rows, n, w, after, before, limit)
    decreases n
  {
    hide Wanted;
    if n == 0 {
      assert rows[..n] == [];
    } else {
      SelectPlaces(rows, n - 1, after, before, limit);
      assert rows[..n][..n - 1] == rows[..n - 1];
      var front, r := Select(rows[..n - 1], after, before), rows[n - 1];
      TakeOfAppend(front, r, limit);
      assert Select(rows[..n], after, before) == if Wanted(r, after, before) then front + [r] else front;
      forall w
        ensures Placed(rows, n, w, after, before, limit) <==>
                || Placed(rows, n - 1, w, after, before, limit)
                || (w == r && Within(rows, n - 1, after, before, limit))
      {
        if w == r && Within(rows, n - 1, after, before, limit) {
          assert rows[n - 1] == w;
        }
      }
    }
  }

  lemma TakeOfAppend(rows: seq<Row>, r: Row, limit: nat)
    ensures Take(rows + [r], limit) == if |rows| < limit then Take(rows, limit) + [r] else Take(rows, limit)
  {
  }

  lemma PageHoldsOpen(rows: seq<Row>, r: Reader, active: bool, before: Option<string>, limit: nat)
    ensures (exists w :: w in Fetch(rows, r, active, before, limit).last && w.detail.Open())
       <==> OpenAhead(rows, r.after, before, limit)
  {
    hide Fetch, Take, Select, Wanted, WorkIds;
    FetchShape(rows, r, active, before, limit);
    assert rows[..|rows|] == rows;
    SelectPlaces(rows, |rows|, r.after, before, limit);
    var page := Fetch(rows, r, active, before, limit).last;
    if OpenAhead(rows, r.after, before, limit) {
      var k :| 0 <= k < |rows| && Within(rows, k, r.after, before, limit) && rows[k].detail.Open();
      assert Placed(rows, |rows|, rows[k], r.after, before, limit);
    }
    if w :| w in page && w.detail.Open() {
      assert Placed(rows, |rows|, w, r.after, before, limit);
      var k :| 0 <= k < |rows| && rows[k] == w && Within(rows, k, r.after, before, limit);
      assert OpenAhead(rows, r.after, before, limit);
    }
  }

  /** An active job's page holds an unfinished work exactly when, at the second query, one
      of the next `limit` works before the stored barrier is unfinished; it never ends the
      reading. A read of a job that is not active either gives a further cursor and moves
      on, or has given every work. */
  lemma PageIsSound(s: Scene, limit: nat)
    requires Faithful(s) && Enabled(s, Fetches(limit))
    ensures var t := Next(s, Fetches(limit));
            && (s.reader.glance.value ==>
                  && !t.reader.ended
                  && ((exists w :: w in t.reader.last && w.detail.Open()) <==>
                      OpenAhead(s.author.rows, s.reader.after, s.reader.barrier.value, limit)))
            && (!s.reader.glance.value && !t.reader.ended ==>
                  |s.reader.seen| < |t.reader.seen| < |s.author.rows|)
            && (t.reader.ended ==> t.reader.seen == WorkIds(s.author.rows))
  {
    hide Pow10, Key, Fetch, Ordered, OpenAhead;
    var m: nat :| ReadUpTo(s.author.rows, s.reader, m);
    var rows, before := s.author.rows, s.reader.barrier.value;
    FetchReads(rows, s.reader, m, Reach(rows, before), s.reader.glance.value, before, limit);
    PageHoldsOpen(rows, s.reader, s.reader.glance.value, before, limit);
    assert rows[..|rows|] == rows;
  }

  /** One whole read, with nothing in between. */
  ghost function ReadOnce(s: Scene, limit: nat): Scene
    requires !s.reader.ended && s.reader.glance.None? && s.reader.barrier.None? && limit > 0
  {
    Next(Next(Next(s, Glances), Bars), Fetches(limit))
  }

  /** One read after another until no further cursor is given. */
  ghost function Reads(s: Scene, limits: seq<nat>): Scene
    requires s.reader.glance.None? && s.reader.barrier.None? && forall k :: 0 <= k < |limits| ==> limits[k] > 0
    decreases |limits|
  {
    if |limits| == 0 || s.reader.ended then s
    else Reads(ReadOnce(s, limits[0]), limits[1..])
  }

  lemma ReadOnceMoves(s: Scene, limit: nat)
    requires Faithful(s) && !s.author.active && !s.reader.ended && limit > 0
    requires s.reader.glance.None? && s.reader.barrier.None?
    ensures var t := ReadOnce(s, limit);
            && Faithful(t) && t.author == s.author && t.reader.glance.None? && t.reader.barrier.None?
            && (t.reader.ended ==> t.reader.seen == WorkIds(s.author.rows))
            && (!t.reader.ended ==> |s.reader.seen| < |t.reader.seen| < |s.author.rows|)
  {
    hide Faithful, Fetch;
    StepFaithful(s, Glances);
    var glanced := Next(s, Glances);
    StepFaithful(glanced, Bars);
    var barred := Next(glanced, Bars);
    StepFaithful(barred, Fetches(limit));
    FetchClears(s.author.rows, barred.reader, false, barred.reader.barrier.value, limit);
    PageIsSound(barred, limit);
  }

  /** A job that is not active is read to the end in at most as many reads as it has works
      left, or in one if none are left; and then every work has been given. */
  lemma {:induction false} ReadingEnds(s: Scene, limits: seq<nat>)
    requires Faithful(s) && !s.author.active && !s.reader.ended
    requires s.reader.glance.None? && s.reader.barrier.None?
    requires forall k :: 0 <= k < |limits| ==> limits[k] > 0
    requires |limits| > 0 && |limits| >= |s.author.rows| - |s.reader.seen|
    ensures var last := Reads(s, limits);
            last.author == s.author && last.reader.ended && last.reader.seen == WorkIds(s.author.rows)
    decreases |limits|
  {
    hide Faithful, ReadOnce;
    ReadOnceMoves(s, limits[0]);
    if ReadOnce(s, limits[0]).reader.ended {
    } else {
      ReadingEnds(ReadOnce(s, limits[0]), limits[1..]);
    }
  }

  /** While a read of an active job waits for its second query, everything it can return is
      finished. */
  predicate Shielded(s: Scene) {
    s.reader.glance == Some(true) && s.reader.barrier.Some? ==>
      forall k :: 0 <= k < |s.author.rows| && Wanted(s.author.rows[k], s.reader.after, s.reader.barrier.value) ==>
        !s.author.rows[k].detail.Open()
  }

  /** A read under way found no unfinished work and a new unfinished one is saved, or a
      failed work it can still return is reopened. */
  predicate Exposes(s: Scene, e: Event) {
    && s.reader.glance == Some(true) && s.reader.barrier.Some?
    && match e
       case SavesWork(f) =>
         s.reader.barrier.value.None? && f.detail.Open() && !Saved(s.author.rows, f.workId)
       case Reopens(i) =>
         i < |s.author.rows| && s.author.rows[i].detail.Failed?
         && Wanted(s.author.rows[i], s.reader.after, s.reader.barrier.value)
       case _ => false
  }

  lemma BarsShields(s: Scene)
    requires Faithful(s) && Enabled(s, Bars)
    ensures Shielded(Next(s, Bars))
  {
    hide Pow10, Key, Ordered, Wanted, WorkIds;
    var rows, t := s.author.rows, Next(s, Bars).reader;
    var m: nat :| ReadUpTo(rows, s.reader, m);
    if t.glance == Some(true) {
      var h := FirstWith(rows, true);
      forall k | 0 <= k < |rows| && Wanted(rows[k], t.after, t.barrier.value)
        ensures !rows[k].detail.Open()
      {
        WantedIsBetween(rows, k, m, h, t.after, t.barrier.value);
      }
    }
  }

  /** A new row stands behind the cursor, and behind a barrier. */
  lemma NewRowIsWanted(s: Scene, f: Found)
    requires Faithful(s) && Enabled(s, SavesWork(f)) && !Saved(s.author.rows, f.workId)
    requires s.reader.barrier.Some?
    ensures var rows := Next(s, SavesWork(f)).author.rows;
            && |rows| == |s.author.rows| + 1
            && (Wanted(rows[|rows| - 1], s.reader.after, s.reader.barrier.value) <==>
                s.reader.barrier.value.None?)
  {
    hide Pow10, Key, Ordered, Wanted, WorkIds, BarrierKnown, ReadUpTo;
    var t := Next(s, SavesWork(f));
    var rows := t.author.rows;
    StepFaithful(s, SavesWork(f));
    var m: nat :| ReadUpTo(s.author.rows, s.reader, m);
    UpsertExtends(s.author.rows, f, s.author.pages, s.author.handled);
    StillRead(s.author.rows, rows, s.reader, m);
    PlaceOfBarrier(s.author.rows, rows, s.reader, m);
    var h :| 0 <= h <= |rows| && Bounds(rows, m, h, s.reader.after, s.reader.barrier.value)
      && (s.reader.barrier.value.Some? ==> h < |s.author.rows|);
    WantedIsBetween(rows, |rows| - 1, m, h, s.reader.after, s.reader.barrier.value);
    assert m <= |s.author.rows| by { ReadWithin(s.author.rows, s.reader, m); }
    BoundsEnd(rows, m, h, s.reader.after, s.reader.barrier.value);
  }

  lemma ReadWithin(rows: seq<Row>, r: Reader, m: nat)
    requires ReadUpTo(rows, r, m)
    ensures m <= |rows|
  {
  }

  lemma BoundsEnd(rows: seq<Row>, m: nat, h: nat, after: string, before: Option<string>)
    requires Bounds(rows, m, h, after, before)
    ensures before.None? <==> h == |rows|
  {
  }

  lemma PlaceOfBarrier(earlier: seq<Row>, rows: seq<Row>, r: Reader, m: nat)
    requires Extends(earlier, rows) && ReadUpTo(rows, r, m) && BarrierKnown(earlier, r) && r.barrier.Some?
    ensures exists h: nat {:trigger Bounds(rows, m, h, r.after, r.barrier.value)} ::
              && h <= |rows| && Bounds(rows, m, h, r.after, r.barrier.value)
              && (r.barrier.value.Some? ==> h < |earlier|)
  {
    hide Key, WorkIds;
    SameKeys(earlier, rows);
    if r.barrier.value.Some? {
      var h: nat :| h < |earlier| && earlier[h].Sequence() == r.barrier.value.value;
      assert Bounds(rows, m, h, r.after, r.barrier.value);
    } else {
      assert Bounds(rows, m, |rows|, r.after, r.barrier.value);
    }
  }

  lemma SameRowsShielded(s: Scene, t: Scene)
    requires s.author.rows == t.author.rows && s.reader == t.reader
    ensures Shielded(t) <==> Shielded(s)
  {
  }

  /** One stored row changes its detail. */
  lemma DetailShields(s: Scene, t: Scene, i: nat)
    requires Shielded(s) && t.reader == s.reader
    requires i < |s.author.rows| == |t.author.rows| && Extends(s.author.rows, t.author.rows)
    requires forall k :: 0 <= k < |s.author.rows| && k != i ==> t.author.rows[k] == s.author.rows[k]
    requires s.reader.glance == Some(true) && s.reader.barrier.Some?
    ensures Shielded(t) <==>
            !(t.author.rows[i].detail.Open() && Wanted(s.author.rows[i], s.reader.after, s.reader.barrier.value))
  {
    hide Less, Key;
    SameKeys(s.author.rows, t.author.rows);
    var w := t.author.rows[i];
    assert w.Sequence() == s.author.rows[i].Sequence();
  }

  lemma SaveShields(s: Scene, f: Found)
    requires Faithful(s) && Shielded(s) && Enabled(s, SavesWork(f))
    ensures Shielded(Next(s, SavesWork(f))) <==> !Exposes(s, SavesWork(f))
  {
    hide Faithful, Wanted, Pow10;
    var t := Next(s, SavesWork(f));
    if s.reader.glance == Some(true) && s.reader.barrier.Some? && !Saved(s.author.rows, f.workId) {
      NewRowIsWanted(s, f);
      var n := |s.author.rows|;
      assert t.author.rows[n].detail == f.detail;
    }
  }

  /** While a read waits, what it can return stops being finished exactly by such a step. */
  lemma StepShielded(s: Scene, e: Event)
    requires Faithful(s) && Shielded(s) && Enabled(s, e)
    ensures Shielded(Next(s, e)) <==> !Exposes(s, e)
  {
    hide Wanted, Pow10, Faithful, Fetch, Barrier, Saved, FirstWith;
    var t := Next(s, e);
    match e
    case SavesWork(f) => SaveShields(s, f);
    case EndsPage => SameRowsShielded(s, t);
    case Ends => SameRowsShielded(s, t);
    case Resumes => SameRowsShielded(s, t);
    case Glances => NothingBarred(s);
    case Bars => BarsShields(s);
    case Fetches(limit) =>
      FetchClears(s.author.rows, s.reader, s.reader.glance.value, s.reader.barrier.value, limit);
    case Claims =>
      if s.reader.glance == Some(true) && s.reader.barrier.Some? {
        ClaimShields(s);
      }
    case SavesDetail(i, complete) =>
      if s.reader.glance == Some(true) && s.reader.barrier.Some? {
        DetailShields(s, t, i);
      }
    case Reopens(i) =>
      if s.reader.glance == Some(true) && s.reader.barrier.Some? {
        DetailShields(s, t, i);
      }
  }

  lemma ClaimShields(s: Scene)
    requires Shielded(s) && Enabled(s, Claims)
    requires s.reader.glance == Some(true) && s.reader.barrier.Some?
    ensures Shielded(Next(s, Claims))
  {
    hide Wanted;
    var i := FirstWith(s.author.rows, false);
    assert s.author.rows[i].detail.Pending?;
    DetailShields(s, Next(s, Claims), i);
  }

  /** No barrier is held before the job is looked at. */
  lemma NothingBarred(s: Scene)
    requires Faithful(s) && Enabled(s, Glances)
    ensures Shielded(Next(s, Glances)) && !Exposes(s, Glances)
  {
    hide Stored, ReadUpTo, Wanted, Key;
  }

  lemma {:induction false} RunPrefix(events: seq<Event>, k: nat)
    requires Run(events).Some? && k <= |events|
    ensures Run(events[..k]).Some?
    decreases |events|
  {
    hide Next, Enabled;
    if k == |events| {
      assert events[..k] == events;
    } else {
      RunPrefix(events[..|events| - 1], k);
      assert events[..|events| - 1][..k] == events[..k];
    }
  }

  /** The scene before event `k`. */
  ghost function Before(events: seq<Event>, k: nat): Scene
    requires Run(events).Some? && k <= |events|
  {
    RunPrefix(events, k);
    Run(events[..k]).value
  }

  /** A run one event shorter sees the same scenes. */
  lemma BeforeFront(events: seq<Event>)
    requires Run(events).Some? && |events| > 0
    ensures Run(events[..|events| - 1]).Some?
    ensures forall k :: 0 <= k < |events| ==> Before(events, k) == Before(events[..|events| - 1], k)
  {
    hide Next, Enabled;
    var front := events[..|events| - 1];
    RunPrefix(events, |events| - 1);
    forall k | 0 <= k < |events|
      ensures Before(events, k) == Before(front, k)
    {
      assert front[..k] == events[..k];
    }
  }

  lemma BeforeLast(events: seq<Event>)
    requires Run(events).Some? && |events| > 0
    ensures var s, e := Before(events, |events| - 1), events[|events| - 1];
            Faithful(s) && Enabled(s, e) && Before(events, |events|) == Next(s, e)
  {
    hide Faithful, Next, Enabled;
    RunFaithful(events[..|events| - 1]);
    assert events[..|events|] == events;
  }

  /** Over a whole run, what a waiting read of an active job can return is always finished
      exactly when no step exposes it. */
  lemma {:induction false} AlwaysShieldedExactly(events: seq<Event>)
    requires Run(events).Some?
    ensures (forall k :: 0 <= k <= |events| ==> Shielded(Before(events, k)))
       <==> (forall k :: 0 <= k < |events| ==> !Exposes(Before(events, k), events[k]))
    decreases |events|
  {
    hide Faithful, Next, Enabled, Shielded, Exposes;
    if |events| == 0 {
      OpeningShielded();
    } else {
      hide Run, Before;
      var n := |events| - 1;
      BeforeFront(events);
      BeforeLast(events);
      AlwaysShieldedExactly(events[..n]);
      if Shielded(Before(events, n)) {
        StepShielded(Before(events, n), events[n]);
      }
    }
  }

  lemma OpeningShielded()
    ensures Shielded(OPENING)
  {
  }

  /** A page of a shielded read holds finished works only. */
  lemma ShieldedPage(s: Scene, limit: nat)
    requires Faithful(s) && Shielded(s) && Enabled(s, Fetches(limit)) && s.reader.glance.value
    ensures forall w :: w in Next(s, Fetches(limit)).reader.last ==> !w.detail.Open()
  {
    hide Faithful, Fetch, Wanted, Select, Next;
    PageIsSound(s, limit);
  }

  // -------------------------------------------------------------- a page too early

  function Unread(): Scene { OPENING.(reader := NEW_READER.(glance := Some(true), barrier := Some(None))) }

  function Arrived(id: string): Row { Row(id, 0, 0, Pending, 0) }

  function GivenEarly(id: string): Scene {
    Scene(Author([Arrived(id)], 0, 1, true), Reader(Key(0, 0), [id], false, None, None, [Arrived(id)]))
  }

  lemma LookedTooEarly()
    ensures Enabled(OPENING, Glances)
    ensures Enabled(Next(OPENING, Glances), Bars)
    ensures Next(Next(OPENING, Glances), Bars) == Unread()
  {
    assert Barrier([], true) == None;
  }

  function Saving(id: string): Scene { Scene(Author([Arrived(id)], 0, 1, true), Unread().reader) }

  lemma Arrives(id: string)
    ensures Enabled(Unread(), SavesWork(Found(id, Pending)))
    ensures Next(Unread(), SavesWork(Found(id, Pending))) == Saving(id)
  {
    hide Pow10;
    assert !Saved([], id);
  }

  lemma IsRead(id: string)
    ensures Enabled(Saving(id), Fetches(5)) && Next(Saving(id), Fetches(5)) == GivenEarly(id)
  {
    hide Key, Less;
    SelectOne(Arrived(id));
    assert WorkIds([Arrived(id)]) == [id];
  }

  lemma SelectOne(r: Row)
    ensures Select([r], "", None) == [r]
  {
    hide Key, Less;
    assert [r][..0] == [];
    assert Select([], "", None) == [];
    assert Wanted(r, "", None);
  }

  /** The job's first work is saved between the two queries of a read: the page gives the
      unfinished work, and the cursor passes it. */
  lemma UnfinishedIsGiven(id: string)
    ensures Run([Glances, Bars] + [SavesWork(Found(id, Pending)), Fetches(5)]) == Some(GivenEarly(id))
  {
    hide Run, Next, Enabled;
    LookedTooEarly();
    Arrives(id);
    IsRead(id);
    NoEvents();
    TwoMore([], OPENING, Glances, Bars);
    assert [] + [Glances, Bars] == [Glances, Bars];
    TwoMore([Glances, Bars], Unread(), SavesWork(Found(id, Pending)), Fetches(5));
  }

  lemma NoEvents()
    ensures Run([]) == Some(OPENING)
  {
  }

  lemma TwoMore(events: seq<Event>, before: Scene, e: Event, f: Event)
    requires Run(events) == Some(before) && Enabled(before, e) && Enabled(Next(before, e), f)
    ensures Run(events + [e, f]) == Some(Next(Next(before, e), f))
  {
    hide Next, Enabled;
    assert (events + [e])[..|events|] == events;
    assert (events + [e, f])[..|events| + 1] == events + [e];
  }
}
