/** The store of an author job's works, updated in place. */
module AuthorRepository {
  import opened AuthorKeys
  import opened AuthorModel
  import opened Wrappers

  function CountOf(rows: seq<Row>, d: Detail): nat {
    if |rows| == 0 then 0
    else CountOf(rows[..|rows| - 1], d) + if rows[|rows| - 1].detail == d then 1 else 0
  }

  /** Every stored work is in exactly one of the four states. */
  lemma {:induction false} CountsAddUp(rows: seq<Row>)
    ensures CountOf(rows, Pending) + CountOf(rows, Running) + CountOf(rows, Complete) + CountOf(rows, Failed)
         == |rows|
    decreases |rows|
  {
    if |rows| == 0 {
    } else {
      CountsAddUp(rows[..|rows| - 1]);
    }
  }

  class WorkRepository {
    var works: seq<Row>

    constructor ()
      ensures works == []
    {
      works := [];
    }

    method Contains(workId: string) returns (found: bool)
      ensures found == Saved(works, workId)
    {
      var i := 0;
      while i < |works|
        invariant 0 <= i <= |works|
        invariant forall k :: 0 <= k < i ==> works[k].workId != workId
      {
        if works[i].workId == workId {
          assert works[i] in works;
          return true;
        }
        i := i + 1;
      }
      return false;
    }

    /** One page of upserts, then the number of works and of failed ones. */
    method SavePageOf(page: nat, found: seq<Found>) returns (count: nat, failed: nat)
      modifies this`works
      ensures works == SavePage(old(works), page, found)
      ensures count == |works| && failed == CountOf(works, Failed)
    {
      hide Saved;
      var i := 0;
      while i < |found|
        invariant 0 <= i <= |found|
        invariant works == SavePage(old(works), page, found[..i])
      {
        assert found[..i + 1][..i] == found[..i];
        var known := Contains(found[i].workId);
        if !known {
          works := works + [Row(found[i].workId, page, i, found[i].detail, 0)];
        }
        i := i + 1;
      }
      assert found[..i] == found;
      count := |works|;
      failed := CountState(Failed);
    }

    method CountState(d: Detail) returns (n: nat)
      ensures n == CountOf(works, d)
    {
      n := 0;
      var i := 0;
      while i < |works|
        invariant 0 <= i <= |works|
        invariant n == CountOf(works[..i], d)
      {
        assert works[..i + 1][..i] == works[..i];
        if works[i].detail == d {
          n := n + 1;
        }
        i := i + 1;
      }
      assert works[..i] == works;
    }

    method Counts() returns (saved: nat, pending: nat, completed: nat, failed: nat)
      ensures saved == |works| == pending + completed + failed
      ensures completed == CountOf(works, Complete) && failed == CountOf(works, Failed)
    {
      CountsAddUp(works);
      saved := |works|;
      var waiting := CountState(Pending);
      var running := CountState(Running);
      pending := waiting + running;
      completed := CountState(Complete);
      failed := CountState(Failed);
    }

    method PrepareDetails(retryFailed: bool)
      modifies this`works
      ensures works == Prepare(old(works), retryFailed)
    {
      var i := 0;
      while i < |works|
        invariant 0 <= i <= |works| == |old(works)|
        invariant forall k :: 0 <= k < i ==> works[k] == Reopened(old(works)[k], retryFailed)
        invariant forall k :: i <= k < |works| ==> works[k] == old(works)[k]
      {
        if works[i].detail.Running? || (retryFailed && works[i].detail.Failed?) {
          works := works[i := works[i].(detail := Pending)];
        }
        i := i + 1;
      }
    }

    method FirstUnfinished(open: bool) returns (i: nat)
      ensures i == FirstWith(works, open)
    {
      i := 0;
      assert works[0..] == works;
      while i < |works| && !(works[i].detail.Pending? || (open && works[i].detail.Running?))
        invariant 0 <= i <= |works|
        invariant FirstWith(works, open) == i + FirstWith(works[i..], open)
      {
        assert works[i..][1..] == works[i + 1..];
        i := i + 1;
      }
    }

    /** The earliest pending work is marked running, and its attempts are counted. */
    method ClaimDetail() returns (claimed: Option<nat>)
      modifies this`works
      ensures var i := FirstWith(old(works), false);
              if i < |old(works)|
              then claimed == Some(i) && works == Claim(old(works), i)
              else claimed == None && works == old(works)
    {
      var i := FirstUnfinished(false);
      if i == |works| {
        return None;
      }
      works := works[i := works[i].(detail := Running, attempts := works[i].attempts + 1)];
      return Some(i);
    }

    method SaveDetail(i: nat, complete: bool)
      requires i < |works|
      modifies this`works
      ensures works == SetDetail(old(works), i, if complete then Complete else Failed)
    {
      works := works[i := works[i].(detail := if complete then Complete else Failed)];
    }

    /** The first query: the key of the first unfinished work, if the read is to wait. */
    method FindBarrier(wait: bool) returns (before: Option<string>)
      ensures before == Barrier(works, wait)
    {
      hide FirstWith, Key;
      before := None;
      var p := FirstUnfinished(true);
      if wait && p < |works| {
        before := Some(works[p].Sequence());
      }
    }

    /** The second query, made when the rows may have changed. */
    method ResultRows(after: string, before: Option<string>, limit: nat) returns (rows: seq<Row>)
      ensures rows == Results(works, after, before, limit)
    {
      hide Less, Key;
      var all, i := [], 0;
      while i < |works|
        invariant 0 <= i <= |works|
        invariant all == Select(works[..i], after, before)
      {
        assert works[..i + 1][..i] == works[..i];
        if Wanted(works[i], after, before) {
          all := all + [works[i]];
        }
        i := i + 1;
      }
      assert works[..i] == works;
      rows := if |all| <= limit then all else all[..limit];
    }

    /** The end of the job service's `results`: the page, and the next cursor if there is
        one. */
    method ReadPage(after: string, before: Option<string>, limit: nat, active: bool)
      returns (page: seq<Row>, next: Option<string>)
      ensures var r := Fetch(works, NEW_READER.(after := after), active, before, limit);
              page == r.last && next == if r.ended then None else Some(r.after)
    {
      hide Results, WorkIds, Key;
      var rows := ResultRows(after, before, limit + 1);
      var more := |rows| > limit;
      page := if more then rows[..limit] else rows;
      next := None;
      if more || active {
        next := Some(if |page| > 0 then page[|page| - 1].Sequence() else after);
      }
    }
  }
}
