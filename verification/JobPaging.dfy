/**
  A client reading a job's results page by page while the job runs. A read looks at the
  progress record first and fetches the rows later; anything can happen in between.
 */
module JobPaging {
  import opened JobModel
  import opened JobSafety
  import opened JobTheorems
  import opened ResultRows
  import opened Wrappers

  /** `seen` is what the pages returned so far; `glance` the record of the read under way,
      or of the last read once the client was given no further cursor. */
  datatype Reader = Reader(offset: nat, seen: seq<ItemResult>, ended: bool, glance: Option<Record>)

  datatype Scene = Scene(job: Job, reader: Reader)

  datatype Moment = Works(e: Event) | Glance | Page(limit: nat)

  ghost predicate Possible(c: Config, s: Scene, m: Moment) {
    match m
    case Works(e) => Enabled(c, s.job, e)
    case Glance => !s.reader.ended && s.reader.glance.None?
    case Page(limit) => !s.reader.ended && s.reader.glance.Some? && limit > 0
  }

  /** `get_results` once the record is read: the page and whether there is a next cursor. */
  ghost function Fetch(r: Reader, record: Record, results: map<nat, ItemResult>, limit: nat): Reader {
    var page := PageOf(results, r.offset, limit);
    var next := r.offset + |page|;
    if next < record.completed || record.Open()
    then Reader(next, r.seen + page, false, None)
    else Reader(next, r.seen + page, true, Some(record))
  }

  ghost function After(c: Config, s: Scene, m: Moment): Scene
    requires Possible(c, s, m)
  {
    match m
    case Works(e) => s.(job := Next(c, s.job, e))
    case Glance => s.(reader := s.reader.(glance := Some(s.job.record)))
    case Page(limit) => s.(reader := Fetch(s.reader, s.reader.glance.value, s.job.results, limit))
  }

  ghost function Watch(c: Config, request: seq<Item>, moments: seq<Moment>): Option<Scene> {
    if |moments| == 0 then Some(Scene(Submitted(request), Reader(0, [], false, None)))
    else
      var before := Watch(c, request, moments[..|moments| - 1]);
      var m := moments[|moments| - 1];
      if before.Some? && Possible(c, before.value, m) then Some(After(c, before.value, m)) else None
  }

  /** The pages so far are exactly the first results, in order. */
  ghost predicate SeenFirst(r: Reader, results: map<nat, ItemResult>) {
    && |r.seen| == r.offset <= |results|
    && (forall k :: 0 <= k < r.offset ==> k in results && r.seen[k] == results[k])
  }

  ghost predicate Faithful(s: Scene) {
    && Sound(s.job)
    && SeenFirst(s.reader, s.job.results)
    && (s.reader.ended ==>
          && s.reader.glance.Some? && !s.reader.glance.value.Open()
          && s.reader.offset >= s.reader.glance.value.completed)
    && (s.reader.glance.Some? && s.reader.glance.value.status.Completed? ==>
          s.job.record == s.reader.glance.value)
  }

  lemma FetchFaithful(r: Reader, record: Record, results: map<nat, ItemResult>, limit: nat)
    requires SeenFirst(r, results)
    requires forall k :: k in results <==> 0 <= k < |results|
    ensures SeenFirst(Fetch(r, record, results, limit), results)
    ensures limit > 0 && r.offset < |results| ==> Fetch(r, record, results, limit).offset > r.offset
  {
    PageIsSlice(results, r.offset, limit);
    var page := PageOf(results, r.offset, limit);
    forall k | 0 <= k < r.offset + |page|
      ensures k in results && (r.seen + page)[k] == results[k]
    {
      if k >= r.offset {
        assert page[k - r.offset] == results[r.offset + (k - r.offset)];
      }
    }
  }

  lemma MomentFaithful(c: Config, s: Scene, m: Moment)
    requires c.Accepted() && Faithful(s) && Possible(c, s, m)
    ensures Faithful(After(c, s, m))
  {
    hide RunFine, Ids, IdsOf, Successes, Next, Enabled, PageOf;
    match m
    case Works(e) =>
      StepSound(c, s.job, e);
      ResultsOnlyGrow(c, s.job, e);
      if s.job.record.status.Completed? {
        CompletedStays(c, s.job, e);
      }
    case Glance =>
    case Page(limit) =>
      FetchFaithful(s.reader, s.reader.glance.value, s.job.results, limit);
  }

  lemma StartFaithful(request: seq<Item>)
    requires DistinctIds(request)
    ensures Faithful(Scene(Submitted(request), Reader(0, [], false, None)))
  {
    hide Sound;
    SubmittedSound(request);
  }

  lemma {:induction false} WatchFaithful(c: Config, request: seq<Item>, moments: seq<Moment>)
    requires c.Accepted() && DistinctIds(request) && Watch(c, request, moments).Some?
    ensures Faithful(Watch(c, request, moments).value)
    decreases |moments|
  {
    hide Faithful, After, Possible;
    if |moments| == 0 {
      StartFaithful(request);
    } else {
      var before := moments[..|moments| - 1];
      WatchFaithful(c, request, before);
      MomentFaithful(c, Watch(c, request, before).value, moments[|moments| - 1]);
    }
  }

  /** However reading and the job interleave, the pages never skip or repeat a result; and
      a client that is given no further cursor by a completed job has read them all. */
  lemma PagingIsExact(c: Config, request: seq<Item>, moments: seq<Moment>)
    requires c.Accepted() && DistinctIds(request) && Watch(c, request, moments).Some?
    ensures var s := Watch(c, request, moments).value;
            && |s.reader.seen| <= |s.job.results|
            && (forall k :: 0 <= k < |s.reader.seen| ==>
                              k in s.job.results && s.reader.seen[k] == s.job.results[k])
            && (s.reader.ended ==> s.reader.glance.Some?)
            && (s.reader.ended && s.reader.glance.value.status.Completed? ==>
                  |s.reader.seen| == |s.job.results| == |s.job.request|)
  {
    hide Watch, RunFine, Ids, IdsOf, Successes, Sound;
    WatchFaithful(c, request, moments);
    var s := Watch(c, request, moments).value;
    if s.reader.ended && s.reader.glance.value.status.Completed? {
      CompletedMeansDone(s.job);
    }
  }

  /** Reading a completed job comes to an end: every read either is the last or moves on. */
  lemma PagingProgress(c: Config, s: Scene, limit: nat)
    requires Faithful(s) && s.job.record.status.Completed?
    requires Possible(c, s, Page(limit)) && s.reader.glance.value == s.job.record
    ensures var r := After(c, s, Page(limit)).reader;
            r.ended || s.reader.offset < r.offset < |s.job.results|
  {
    hide RunFine, Ids, IdsOf, Successes, PageOf;
    FetchFaithful(s.reader, s.job.record, s.job.results, limit);
    CompletedMeansDone(s.job);
  }

  /** One read after another, with nothing in between, until no further cursor is given. */
  ghost function Reads(c: Config, s: Scene, limits: seq<nat>): Scene
    requires s.reader.glance.None? && forall k :: 0 <= k < |limits| ==> limits[k] > 0
    decreases |limits|
  {
    if |limits| == 0 || s.reader.ended then s
    else
      var read := After(c, After(c, s, Glance), Page(limits[0]));
      if read.reader.ended then read else Reads(c, read, limits[1..])
  }

  /** A completed job is read to the end in at most as many reads as it has results left,
      or in one if none are left; and what was read is everything. */
  lemma {:induction false} PagingEnds(c: Config, s: Scene, limits: seq<nat>)
    requires c.Accepted() && Faithful(s) && s.job.record.status.Completed?
    requires s.reader.glance.None? && !s.reader.ended
    requires forall k :: 0 <= k < |limits| ==> limits[k] > 0
    requires |limits| > 0 && |limits| >= |s.job.results| - s.reader.offset
    ensures var last := Reads(c, s, limits);
            last.job == s.job && last.reader.ended && |last.reader.seen| == |s.job.results|
    decreases |limits|
  {
    hide Sound, PageOf;
    var glanced := After(c, s, Glance);
    MomentFaithful(c, s, Glance);
    PagingProgress(c, glanced, limits[0]);
    MomentFaithful(c, glanced, Page(limits[0]));
    var read := After(c, glanced, Page(limits[0]));
    if read.reader.ended {
      CompletedMeansDone(s.job);
    } else {
      PagingEnds(c, read, limits[1..]);
    }
  }
}
