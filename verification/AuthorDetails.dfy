/** What happens to the details of stored works: how they start, are claimed, end and are
    tried again. */
module AuthorDetails {
  import opened AuthorModel
  import opened AuthorPaging
  import opened Wrappers

  /** A new row is the listed work at its place on the page, in the state it was listed in,
      and nobody has tried it yet. */
  lemma {:induction false} NewRowsAreListed(rows: seq<Row>, page: nat, works: seq<Found>)
    requires DistinctWorks(rows)
    ensures var saved := SavePage(rows, page, works);
            && |rows| <= |saved|
            && forall k :: |rows| <= k < |saved| ==>
                 var r := saved[k];
                 && r.index < |works| && r.page == page && r.attempts == 0
                 && r.workId == works[r.index].workId && r.detail == works[r.index].detail
                 && forall j :: 0 <= j < r.index ==> works[j].workId != r.workId
    decreases |works|
  {
    hide DistinctWorks, Saved;
    if |works| == 0 {
    } else {
      var n := |works| - 1;
      NewRowsAreListed(rows, page, works[..n]);
      SavePageExtends(rows, page, works[..n]);
      var before := SavePage(rows, page, works[..n]);
      if !Saved(before, works[n].workId) {
        NotListedBefore(rows, page, works[..n], works[n].workId);
        assert forall j :: 0 <= j < n ==> works[j] == works[..n][j];
      }
    }
  }

  lemma NotListedBefore(rows: seq<Row>, page: nat, works: seq<Found>, id: string)
    requires !Saved(SavePage(rows, page, works), id)
    ensures forall j :: 0 <= j < |works| ==> works[j].workId != id
  {
    hide SavePage, Saved;
    SavePageStores(rows, page, works, id);
    assert forall j :: 0 <= j < |works| ==> works[j] in works;
  }

  /** A claim takes the earliest pending work, and only that work changes: it is running, and
      has been tried once more. */
  lemma ClaimsExactly(s: Scene)
    requires Enabled(s, Claims)
    ensures var before, after := s.author.rows, Next(s, Claims).author.rows;
            exists i :: 0 <= i < |before| && before[i].detail.Pending?
              && (forall k :: 0 <= k < i ==> !before[k].detail.Pending?)
              && after == before[i := Row(before[i].workId, before[i].page, before[i].index, Running,
                                          before[i].attempts + 1)]
  {
    var i := FirstWith(s.author.rows, false);
    assert s.author.rows[i].detail.Pending?;
  }

  /** A detail that was fetched is complete, or failed; nothing else changes. */
  lemma SavesExactly(s: Scene, i: nat, complete: bool)
    requires Enabled(s, SavesDetail(i, complete))
    ensures var before, after := s.author.rows, Next(s, SavesDetail(i, complete)).author.rows;
            && before[i].detail.Running?
            && after == before[i := Row(before[i].workId, before[i].page, before[i].index,
                                        if complete then Complete else Failed, before[i].attempts)]
  {
  }

  /** Preparing a run makes every interrupted detail pending, and on resume every failed one;
      nothing else changes. */
  lemma PreparesExactly(rows: seq<Row>, retryFailed: bool)
    ensures var after := Prepare(rows, retryFailed);
            && |after| == |rows|
            && forall k :: 0 <= k < |rows| ==>
                 after[k] == if rows[k].detail == Running || (retryFailed && rows[k].detail == Failed)
                             then Row(rows[k].workId, rows[k].page, rows[k].index, Pending, rows[k].attempts)
                             else rows[k]
  {
  }

  /** Preparing is a run of reopenings, one work at a time. */
  lemma {:induction false} PrepareIsReopenings(s: Scene, retryFailed: bool, n: nat) returns (events: seq<Event>)
    requires n <= |s.author.rows| && (retryFailed ==> !s.author.active)
    ensures Follows(s, events) == Some(s.(author := s.author.(
              rows := Prepare(s.author.rows[..n], retryFailed) + s.author.rows[n..])))
    decreases n
  {
    hide Follows;
    var rows := s.author.rows;
    if n == 0 {
      events := [];
      NoEvents(s);
      assert Prepare(rows[..0], retryFailed) + rows[0..] == rows;
    } else {
      var front := PrepareIsReopenings(s, retryFailed, n - 1);
      var mid := Prepare(rows[..n - 1], retryFailed) + rows[n - 1..];
      var end := Prepare(rows[..n], retryFailed) + rows[n..];
      if Reopened(rows[n - 1], retryFailed) == rows[n - 1] {
        events := front;
        assert end == mid;
      } else {
        events := front + [Reopens(n - 1)];
        assert end == mid[n - 1 := mid[n - 1].(detail := Pending)];
        OneMore(s, front, Reopens(n - 1));
      }
    }
  }

  lemma NoEvents(s: Scene)
    ensures Follows(s, []) == Some(s)
  {
  }

  lemma OneMore(s: Scene, events: seq<Event>, e: Event)
    requires Follows(s, events).Some? && Enabled(Follows(s, events).value, e)
    ensures Follows(s, events + [e]) == Some(Next(Follows(s, events).value, e))
  {
    hide Enabled, Next;
    assert (events + [e])[..|events|] == events;
  }

  /** The scene after these events, from this one on. */
  function Follows(s: Scene, events: seq<Event>): Option<Scene> {
    if |events| == 0 then Some(s)
    else
      var before := Follows(s, events[..|events| - 1]);
      var e := events[|events| - 1];
      if before.Some? && Enabled(before.value, e) then Some(Next(before.value, e)) else None
  }

  /** A job that is resumed tries its works again in order, the first of them the first that
      is not complete, failed ones included. */
  lemma ResumeRetries(s: Scene, i: nat)
    requires !s.author.active && i < |s.author.rows| && s.author.rows[i].detail != Complete
    requires forall k :: 0 <= k < i ==> s.author.rows[k].detail == Complete
    ensures var resumed := s.(author := s.author.(rows := Prepare(s.author.rows, true), active := true));
            && Enabled(resumed, Claims)
            && Next(resumed, Claims).author.rows[i].detail == Running
            && Next(resumed, Claims).author.rows[i].attempts == s.author.rows[i].attempts + 1
  {
    var rows := Prepare(s.author.rows, true);
    assert rows[i].detail == Pending;
    var first := FirstWith(rows, false);
    assert first == i;
  }

  // ---------------------------------------------------------------- working it all off

  predicate Settled(rows: seq<Row>) {
    forall k :: 0 <= k < |rows| ==> rows[k].detail == Complete || rows[k].detail == Failed
  }

  function Waiting(rows: seq<Row>): nat {
    if |rows| == 0 then 0 else Waiting(rows[..|rows| - 1]) + if rows[|rows| - 1].detail == Pending then 1 else 0
  }

  lemma {:induction false} WaitingOfUpdate(rows: seq<Row>, i: nat, r: Row)
    requires i < |rows|
    ensures Waiting(rows[i := r]) == Waiting(rows) - (if rows[i].detail == Pending then 1 else 0)
                                     + (if r.detail == Pending then 1 else 0)
    decreases |rows|
  {
    var n := |rows| - 1;
    if i == n {
      assert rows[i := r][..n] == rows[..n];
    } else {
      assert rows[i := r][..n] == rows[..n][i := r];
      WaitingOfUpdate(rows[..n], i, r);
    }
  }

  lemma {:induction false} SomeWaiting(rows: seq<Row>)
    ensures Waiting(rows) == 0 <==> forall k :: 0 <= k < |rows| ==> rows[k].detail != Pending
    decreases |rows|
  {
    if |rows| == 0 {
    } else {
      SomeWaiting(rows[..|rows| - 1]);
    }
  }

  function WorkedRow(r: Row, found: string -> bool): Row {
    if r.detail == Pending
    then r.(detail := if found(r.workId) then Complete else Failed, attempts := r.attempts + 1)
    else r
  }

  /** Every pending work was tried once and ended as it was found. */
  predicate WorkedOff(rows: seq<Row>, after: seq<Row>, found: string -> bool) {
    |after| == |rows| && forall k :: 0 <= k < |rows| ==> after[k] == WorkedRow(rows[k], found)
  }

  /** A claim and the end of its detail. */
  lemma OneRound(s: Scene, found: string -> bool) returns (i: nat)
    requires s.author.active && Waiting(s.author.rows) > 0
    ensures i < |s.author.rows| && s.author.rows[i].detail == Pending
    ensures Enabled(s, Claims)
    ensures var f := SavesDetail(i, found(s.author.rows[i].workId));
            && Enabled(Next(s, Claims), f)
            && Next(Next(s, Claims), f) == s.(author := s.author.(
                 rows := s.author.rows[i := WorkedRow(s.author.rows[i], found)]))
  {
    hide Waiting;
    SomeWaiting(s.author.rows);
    i := FirstWith(s.author.rows, false);
  }

  lemma RoundsJoin(rows: seq<Row>, i: nat, after: seq<Row>, found: string -> bool)
    requires i < |rows| && rows[i].detail == Pending
    requires WorkedOff(rows[i := WorkedRow(rows[i], found)], after, found)
    ensures WorkedOff(rows, after, found)
  {
    var mid := rows[i := WorkedRow(rows[i], found)];
    forall k | 0 <= k < |rows|
      ensures after[k] == WorkedRow(rows[k], found)
    {
      assert after[k] == WorkedRow(mid[k], found);
    }
  }

  /** One worker by itself works an active job off: whatever it finds, each pending work is
      claimed once, and then every detail is complete or failed, as it was found. */
  lemma {:induction false} WorkerSettles(s: Scene, found: string -> bool) returns (events: seq<Event>)
    requires s.author.active && forall k :: 0 <= k < |s.author.rows| ==> s.author.rows[k].detail != Running
    ensures |events| == 2 * Waiting(s.author.rows) && Follows(s, events).Some?
    ensures WorkedOff(s.author.rows, Follows(s, events).value.author.rows, found)
    ensures Settled(Follows(s, events).value.author.rows)
    decreases Waiting(s.author.rows)
  {
    hide Waiting, Enabled, Next, Follows, WorkedOff, Settled;
    var rows := s.author.rows;
    if Waiting(rows) == 0 {
      events := [];
      NothingWaits(s, found);
    } else {
      var i := OneRound(s, found);
      var e, f := Claims, SavesDetail(i, found(rows[i].workId));
      var u := Next(Next(s, e), f);
      WaitingOfUpdate(rows, i, WorkedRow(rows[i], found));
      var rest := WorkerSettles(u, found);
      TwoSteps(s, e, f);
      FollowsOn(s, [e, f], rest);
      events := [e, f] + rest;
      RoundsJoin(rows, i, Follows(s, events).value.author.rows, found);
    }
  }

  lemma NothingWaits(s: Scene, found: string -> bool)
    requires Waiting(s.author.rows) == 0
    requires forall k :: 0 <= k < |s.author.rows| ==> s.author.rows[k].detail != Running
    ensures Follows(s, []) == Some(s) && WorkedOff(s.author.rows, s.author.rows, found) && Settled(s.author.rows)
  {
    SomeWaiting(s.author.rows);
  }

  lemma TwoSteps(s: Scene, e: Event, f: Event)
    requires Enabled(s, e) && Enabled(Next(s, e), f)
    ensures Follows(s, [e, f]) == Some(Next(Next(s, e), f))
  {
    hide Enabled, Next;
    assert [e, f][..1] == [e] && [e][..0] == [];
    assert Follows(s, []) == Some(s);
    assert Follows(s, [e]) == Some(Next(s, e));
  }

  lemma {:induction false} FollowsOn(s: Scene, first: seq<Event>, second: seq<Event>)
    requires Follows(s, first).Some?
    ensures Follows(s, first + second) == Follows(Follows(s, first).value, second)
    decreases |second|
  {
    hide Enabled, Next;
    if |second| == 0 {
      assert first + second == first;
    } else {
      var n := |second| - 1;
      assert (first + second)[..|first| + n] == first + second[..n];
      FollowsOn(s, first, second[..n]);
    }
  }
}
