/** The promises of the batch-job engine, from the invariants of JobSafety. */
module JobTheorems {
  import opened FiniteSets
  import opened JobModel
  import opened JobSafety
  import opened Wrappers

  // --------------------------------------------------------------------- counting

  lemma {:induction false} IdCount(items: seq<Item>)
    requires DistinctIds(items)
    ensures |IdsOf(items)| == |items|
    decreases |items|
  {
    if |items| == 0 {
      assert IdsOf(items) == {};
    } else {
      var n := |items| - 1;
      IdCount(items[..n]);
      assert items == items[..n] + [items[n]];
      assert IdsOf(items) == IdsOf(items[..n]) + {items[n].id};
    }
  }

  ghost function FirstIds(results: map<nat, ItemResult>, n: nat): set<string> {
    set k | 0 <= k < n && k in results :: results[k].itemId
  }

  lemma {:induction false} FirstIdCount(results: map<nat, ItemResult>, n: nat)
    requires OncePerItem(results) && forall k :: 0 <= k < n ==> k in results
    ensures |FirstIds(results, n)| == n
    decreases n
  {
    if n == 0 {
      assert FirstIds(results, n) == {};
    } else {
      FirstIdCount(results, n - 1);
      assert FirstIds(results, n) == FirstIds(results, n - 1) + {results[n - 1].itemId};
    }
  }

  /** As many distinct items are answered as there are results. */
  lemma AnsweredCount(request: seq<Item>, results: map<nat, ItemResult>)
    requires ExactlyOnce(request, results)
    ensures |Ids(results)| == |results|
  {
    FirstIdCount(results, |results|);
    assert Ids(results) == FirstIds(results, |results|);
  }

  /** The answered and the pending items make up the request, without overlap. */
  lemma PendingCount(request: seq<Item>, results: map<nat, ItemResult>)
    requires DistinctIds(request) && ExactlyOnce(request, results)
    ensures |results| + |Pending(request, results)| == |request|
    ensures IdsOf(Pending(request, results)) == IdsOf(request) - Ids(results)
  {
    hide Ids, Pending;
    var pending := Pending(request, results);
    PendingMembers(request, results);
    PendingDistinct(request, results);
    AnsweredCount(request, results);
    IdCount(request);
    IdCount(pending);
    assert IdsOf(pending) == IdsOf(request) - Ids(results);
    SubsetSize(Ids(results), IdsOf(request));
  }

  // --------------------------------------------------------------------- theorems

  /** After any run the stored sequences are 0..n-1 and the results answer distinct items
      of the request: each item at most once, however often the process died. */
  lemma ResultsExactlyOnce(c: Config, request: seq<Item>, events: seq<Event>)
    requires c.Accepted() && DistinctIds(request) && Run(c, request, events).Some?
    ensures var j := Run(c, request, events).value;
            && (forall k :: k in j.results <==> 0 <= k < |j.results|)
            && (forall i, k :: i in j.results && k in j.results && i != k ==>
                  j.results[i].itemId != j.results[k].itemId)
            && (forall k :: k in j.results ==> exists x :: x in request && x.id == j.results[k].itemId)
  {
    hide Run, RunFine, Successes;
    RunSound(c, request, events);
    var j := Run(c, request, events).value;
    forall k | k in j.results
      ensures exists x :: x in request && x.id == j.results[k].itemId
    {
      assert j.results[k].itemId in IdsOf(request);
    }
  }

  /** An append uses a sequence number no stored result has, so nothing is overwritten and
      the primary key is never violated. */
  lemma AppendIsNew(c: Config, j: Job, i: nat)
    requires Sound(j) && Enabled(c, j, During(Append(i)))
    ensures j.active.value.stored.completed == |j.results|
    ensures j.active.value.stored.completed !in j.results
  {
    hide RunFine, Successes, IdsOf;
    AppendFine(j.request, j.results, j.active.value, i);
    HeldItem(j.request, j.results, j.active.value, i);
  }

  /** Once a result is counted, the record's three counts are those of the stored results. */
  lemma CountsAfterPersist(c: Config, j: Job, i: nat)
    requires Sound(j) && Enabled(c, j, During(Update(i)))
    ensures var after := Next(c, j, During(Update(i)));
            && after.record.completed == |after.results| == after.record.success + after.record.failed
            && after.record.success == Successes(after.results, |after.results|)
  {
    hide RunFine, SuccessKeys;
    UpdateSound(c, j, i);
    CountedExactly(j.record, j.results);
  }

  /** Resuming keeps every answered item and queues exactly the others. */
  lemma ResumeConserves(j: Job)
    requires Sound(j) && j.active.None? && !j.record.status.Completed?
    ensures var r := Resumed(j);
            && r.results == j.results
            && r.active.Some?
            && r.record.completed == |j.results| == r.record.success + r.record.failed
            && r.record.completed + |r.active.value.items| == r.record.total
            && IdsOf(r.active.value.items) == IdsOf(j.request) - Ids(j.results)
  {
    hide RunFine, Ids, IdsOf, Pending, Successes;
    PendingCount(j.request, j.results);
  }

  /** A completed job has a stored and counted result for every item of the request. */
  lemma CompletedMeansDone(j: Job)
    requires Sound(j) && j.record.status.Completed?
    ensures IdsOf(j.request) == Ids(j.results)
    ensures j.record.completed == |j.results| == j.record.total == |j.request|
  {
    hide RunFine, Ids, IdsOf, Successes;
    IdCount(j.request);
    AnsweredCount(j.request, j.results);
  }

  /** A completed job stays as it is, whatever happens next. */
  lemma CompletedStays(c: Config, j: Job, e: Event)
    requires Sound(j) && j.record.status.Completed? && Enabled(c, j, e)
    ensures Next(c, j, e) == j
  {
    hide RunFine, Ids, IdsOf, Successes;
  }

  /** No step removes or changes a stored result. */
  lemma ResultsOnlyGrow(c: Config, j: Job, e: Event)
    requires Sound(j) && Enabled(c, j, e)
    ensures |j.results| <= |Next(c, j, e).results|
    ensures forall k :: k in j.results ==> k in Next(c, j, e).results && Next(c, j, e).results[k] == j.results[k]
  {
    hide RunFine, Ids, IdsOf, Successes, Pending;
    if e.During? && e.e.Append? {
      AppendIsNew(c, j, e.e.i);
      IdsOfAppend(j.results, j.active.value.stored.completed, j.active.value.workers[e.e.i].step.result);
    }
  }
}
