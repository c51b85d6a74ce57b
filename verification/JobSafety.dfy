/**
  What every step of a batch job keeps, across any interleaving of its workers and any
  number of crashes, recoveries, stops and resumes.
 */
module JobSafety {
  import opened JobModel
  import opened Wrappers

  // ------------------------------------------------------------------- invariants

  ghost predicate Numbered(results: map<nat, ItemResult>) {
    forall k :: k in results <==> 0 <= k < |results|
  }

  predicate OncePerItem(results: map<nat, ItemResult>) {
    forall j, k :: j in results && k in results && j != k ==> results[j].itemId != results[k].itemId
  }

  function IdsOf(items: seq<Item>): set<string> { set x <- items :: x.id }

  /** The stored sequences are exactly 0..n-1, and the results answer distinct items of
      the request. */
  ghost predicate ExactlyOnce(request: seq<Item>, results: map<nat, ItemResult>) {
    && Numbered(results)
    && OncePerItem(results)
    && Ids(results) <= IdsOf(request)
  }

  /** The record counts a prefix of the results, at most one behind. */
  predicate Ledger(record: Record, results: map<nat, ItemResult>) {
    && record.completed <= |results| <= record.completed + 1
    && record.success == Successes(results, record.completed)
    && record.failed == record.completed - record.success
  }

  predicate Holds(w: Worker, x: Item) {
    (w.step.Collecting? || w.step.Collected?) && w.step.item == x
  }

  predicate Queued(a: Active, x: Item) { x.platform in a.queues && x in a.queues[x.platform] }

  predicate NoRepeats(items: seq<Item>) {
    forall i, j :: 0 <= i < j < |items| ==> items[i] != items[j]
  }

  /** Queues hold unanswered items of their own platform, each once. */
  predicate QueuesFine(request: seq<Item>, results: map<nat, ItemResult>, a: Active) {
    forall p :: p in a.queues ==>
      && NoRepeats(a.queues[p])
      && (forall x :: x in a.queues[p] ==> x in request && x.platform == p && x.id !in Ids(results))
  }

  /** A worker holds an unanswered item no queue and no other worker has. */
  predicate WorkerFine(request: seq<Item>, results: map<nat, ItemResult>, a: Active, i: nat)
    requires i < |a.workers|
  {
    var w := a.workers[i];
    && (w.step.Collecting? || w.step.Collected? ==>
          && w.step.item in request && w.step.item.id !in Ids(results)
          && !Queued(a, w.step.item)
          && (forall k :: 0 <= k < |a.workers| && k != i ==> !Holds(a.workers[k], w.step.item)))
    && (w.step.Collected? ==> w.step.result.itemId == w.step.item.id)
    && (w.step.Appended? ==>
          && a.stored.completed in results
          && results[a.stored.completed] == w.step.result
          && (forall k :: 0 <= k < |a.workers| && k != i ==> !a.workers[k].step.Appended?))
  }

  ghost predicate Manned(a: Active, p: string) {
    exists i :: 0 <= i < |a.workers| && a.workers[i].platform == p && !a.workers[i].step.Exited?
  }

  ghost predicate Somewhere(results: map<nat, ItemResult>, a: Active, x: Item) {
    || x.id in Ids(results)
    || Queued(a, x)
    || exists i :: 0 <= i < |a.workers| && Holds(a.workers[i], x)
  }

  /** Every item is answered, queued or held; a queue with items has a worker for it. */
  ghost predicate NothingLost(request: seq<Item>, results: map<nat, ItemResult>, a: Active) {
    && (forall x :: x in request ==> Somewhere(results, a, x))
    && (forall p :: p in a.queues && a.queues[p] != [] && !a.halted ==> Manned(a, p))
  }

  ghost predicate RunFine(request: seq<Item>, results: map<nat, ItemResult>, a: Active) {
    && a.stored.completed == |results| - (if Unlocked(a) then 0 else 1)
    && !a.stored.status.Completed?
    && (!a.started ==> a.items == Pending(request, results) && a.workers == [])
    && (a.started ==>
          && QueuesFine(request, results, a)
          && (forall i :: 0 <= i < |a.workers| ==> WorkerFine(request, results, a, i))
          && NothingLost(request, results, a))
  }

  /** A job is called completed only when every item is answered and counted. */
  ghost predicate Honest(j: Job) {
    j.record.status.Completed? ==>
      && j.active.None?
      && IdsOf(j.request) <= Ids(j.results)
      && j.record.completed == |j.results|
  }

  ghost predicate Sound(j: Job) {
    && DistinctIds(j.request)
    && j.record.total == |j.request|
    && ExactlyOnce(j.request, j.results)
    && Ledger(j.record, j.results)
    && Honest(j)
    && (j.active.Some? ==> j.active.value.stored == j.record && RunFine(j.request, j.results, j.active.value))
  }

  // ------------------------------------------------------------------- small facts

  lemma SameId(items: seq<Item>, x: Item, y: Item)
    requires DistinctIds(items) && x in items && y in items && x.id == y.id
    ensures x == y
  {
  }

  lemma IdsOfAppend(results: map<nat, ItemResult>, n: nat, r: ItemResult)
    requires n !in results
    ensures Ids(results[n := r]) == Ids(results) + {r.itemId}
    ensures |results[n := r]| == |results| + 1
  {
    var more := results[n := r];
    forall id | id in Ids(results) + {r.itemId}
      ensures id in Ids(more)
    {
      if id in Ids(results) {
        var k :| k in results && results[k].itemId == id;
        assert k in more && more[k].itemId == id;
      } else {
        assert n in more && more[n].itemId == id;
      }
    }
    assert more.Keys == results.Keys + {n};
  }

  lemma {:induction false} SuccessesOfAppend(results: map<nat, ItemResult>, n: nat, r: ItemResult, m: nat)
    requires m <= n
    ensures Successes(results[n := r], m) == Successes(results, m)
    decreases m
  {
    if m == 0 {
    } else {
      SuccessesOfAppend(results, n, r, m - 1);
    }
  }

  ghost function SuccessKeysBelow(results: map<nat, ItemResult>, n: nat): set<nat> {
    set k | 0 <= k < n && k in results && results[k].success
  }

  lemma {:induction false} SuccessesBelow(results: map<nat, ItemResult>, n: nat)
    ensures |SuccessKeysBelow(results, n)| == Successes(results, n)
    decreases n
  {
    if n == 0 {
      assert SuccessKeysBelow(results, n) == {};
    } else {
      var before := SuccessKeysBelow(results, n - 1);
      SuccessesBelow(results, n - 1);
      var counted := n - 1 in results && results[n - 1].success;
      assert SuccessKeysBelow(results, n) == if counted then before + {n - 1} else before;
    }
  }

  /** Counting over all rows agrees with counting row by row. */
  lemma CountedExactly(record: Record, results: map<nat, ItemResult>)
    requires Numbered(results)
    ensures Counted(record, results).success == Successes(results, |results|)
  {
    SuccessesBelow(results, |results|);
    assert SuccessKeys(results) == SuccessKeysBelow(results, |results|);
  }

  lemma {:induction false} PendingMembers(items: seq<Item>, results: map<nat, ItemResult>)
    ensures forall x :: x in Pending(items, results) <==> x in items && x.id !in Ids(results)
    decreases |items|
  {
    hide Ids;
    if |items| == 0 {
    } else {
      PendingMembers(items[..|items| - 1], results);
      assert items == items[..|items| - 1] + [items[|items| - 1]];
    }
  }

  lemma {:induction false} PendingDistinct(items: seq<Item>, results: map<nat, ItemResult>)
    requires DistinctIds(items)
    ensures DistinctIds(Pending(items, results))
    decreases |items|
  {
    hide Ids;
    if |items| == 0 {
    } else {
      var n := |items| - 1;
      PendingDistinct(items[..n], results);
      PendingMembers(items[..n], results);
      var front := Pending(items[..n], results);
      forall i | 0 <= i < |front|
        ensures front[i].id != items[n].id
      {
        assert front[i] in items[..n];
      }
    }
  }

  lemma {:induction false} OfPlatformMembers(items: seq<Item>, p: string)
    ensures forall x :: x in OfPlatform(items, p) <==> x in items && x.platform == p
    decreases |items|
  {
    if |items| == 0 {
    } else {
      OfPlatformMembers(items[..|items| - 1], p);
      assert items == items[..|items| - 1] + [items[|items| - 1]];
    }
  }

  lemma {:induction false} OfPlatformOnce(items: seq<Item>, p: string)
    requires DistinctIds(items)
    ensures NoRepeats(OfPlatform(items, p))
    decreases |items|
  {
    if |items| == 0 {
    } else {
      var n := |items| - 1;
      OfPlatformOnce(items[..n], p);
      OfPlatformMembers(items[..n], p);
      var front := OfPlatform(items[..n], p);
      forall i | 0 <= i < |front|
        ensures front[i] != items[n]
      {
        assert front[i] in items[..n];
      }
    }
  }

  lemma {:induction false} SomeWorker(workers: seq<Worker>, p: string)
    requires WorkersOn(workers, p) > 0
    ensures exists i :: 0 <= i < |workers| && workers[i].platform == p
    decreases |workers|
  {
    var n := |workers| - 1;
    if workers[n].platform != p {
      SomeWorker(workers[..n], p);
      var i :| 0 <= i < n && workers[..n][i].platform == p;
      assert workers[i].platform == p;
    }
  }

  /** Every platform with items gets at least one worker. */
  lemma EveryQueueIsManned(c: Config, queues: map<string, seq<Item>>, workers: seq<Worker>, p: string)
    requires c.Accepted() && Staffed(c, queues, workers) && p in queues && queues[p] != []
    ensures exists i :: 0 <= i < |workers| && workers[i].platform == p && !workers[i].step.Exited?
  {
    assert WorkersOn(workers, p) > 0;
    SomeWorker(workers, p);
    var i :| 0 <= i < |workers| && workers[i].platform == p;
    assert workers[i].step.Idle?;
  }

  // ----------------------------------------------------------------- worker steps

  /** The queues of the pending items hold each of them once, on its own platform. */
  lemma QueuesOfPending(request: seq<Item>, results: map<nat, ItemResult>)
    requires DistinctIds(request)
    ensures var queues := QueuesOf(Pending(request, results));
            && (forall p :: p in queues ==> NoRepeats(queues[p]))
            && (forall p, x :: p in queues && x in queues[p] ==>
                  x in request && x.platform == p && x.id !in Ids(results))
            && (forall x :: x in request && x.id !in Ids(results) ==>
                  x.platform in queues && x in queues[x.platform])
  {
    hide Ids, Pending, OfPlatform;
    var items := Pending(request, results);
    PendingMembers(request, results);
    PendingDistinct(request, results);
    forall p
      ensures NoRepeats(OfPlatform(items, p))
      ensures forall x :: x in OfPlatform(items, p) <==> x in items && x.platform == p
    {
      OfPlatformMembers(items, p);
      OfPlatformOnce(items, p);
    }
  }

  lemma BeginFine(c: Config, j: Job, a: Active, workers: seq<Worker>)
    requires c.Accepted() && DistinctIds(j.request) && RunFine(j.request, j.results, a) && !a.started
    requires Staffed(c, QueuesOf(a.items), workers)
    ensures RunFine(j.request, j.results, Begin(j, a, workers).active.value)
  {
    hide Ids, Pending, WorkersOn, WorkerCount, QueuesOf;
    var b := Begin(j, a, workers).active.value;
    QueuesOfPending(j.request, j.results);
    forall x | x in j.request
      ensures Somewhere(j.results, b, x)
    {
      if x.id !in Ids(j.results) {
        assert Queued(b, x);
      }
    }
    forall p | p in b.queues && b.queues[p] != []
      ensures Manned(b, p)
    {
      EveryQueueIsManned(c, b.queues, workers, p);
    }
  }

  /** Taking removes exactly the head of one queue. */
  lemma TakeQueues(request: seq<Item>, results: map<nat, ItemResult>, a: Active, i: nat)
    requires QueuesFine(request, results, a)
    requires AtWorker(a, i) && !Drained(a, a.workers[i].platform)
    ensures var x := a.queues[a.workers[i].platform][0];
            var b := TakeNext(a, i);
            && x in request && x.id !in Ids(results)
            && Queued(a, x)
            && QueuesFine(request, results, b)
            && (forall y :: Queued(b, y) <==> Queued(a, y) && y != x)
  {
    hide Ids;
    var p := a.workers[i].platform;
    var q := a.queues[p];
    var x := q[0];
    var b := TakeNext(a, i);
    assert x in q && x.platform == p;
    assert q == [x] + q[1..];
    assert x !in q[1..];
    forall p' | p' in b.queues
      ensures NoRepeats(b.queues[p'])
    {
      assert NoRepeats(a.queues[p']);
    }
  }

  lemma TakeWorkers(request: seq<Item>, results: map<nat, ItemResult>, a: Active, b: Active, i: nat, x: Item)
    requires i < |a.workers| == |b.workers| && b.stored == a.stored
    requires forall k :: 0 <= k < |a.workers| && k != i ==> b.workers[k] == a.workers[k]
    requires b.workers[i].step == Collecting(x) && x in request && x.id !in Ids(results) && Queued(a, x)
    requires forall y :: Queued(b, y) <==> Queued(a, y) && y != x
    requires forall k :: 0 <= k < |a.workers| ==> WorkerFine(request, results, a, k)
    ensures forall k :: 0 <= k < |a.workers| ==> WorkerFine(request, results, b, k)
  {
    hide Ids, Queued;
    forall k | 0 <= k < |a.workers|
      ensures !Holds(a.workers[k], x)
    {
      assert WorkerFine(request, results, a, k);
    }
    forall k | 0 <= k < |a.workers|
      ensures WorkerFine(request, results, b, k)
    {
      assert WorkerFine(request, results, a, k);
    }
  }

  lemma TakeFine(request: seq<Item>, results: map<nat, ItemResult>, a: Active, i: nat)
    requires RunFine(request, results, a)
    requires AtWorker(a, i) && a.workers[i].step.Idle? && !Drained(a, a.workers[i].platform)
    ensures RunFine(request, results, TakeNext(a, i))
  {
    hide Ids, Pending, QueuesFine, WorkerFine, Queued, Somewhere, Manned;
    var x := a.queues[a.workers[i].platform][0];
    var b := TakeNext(a, i);
    TakeQueues(request, results, a, i);
    TakeWorkers(request, results, a, b, i, x);
    forall y | y in request
      ensures Somewhere(results, b, y)
    {
      SomewhereMoves(results, results, a, b, y, x, i);
    }
    MannedStays(a, b, i);
    UnlockedMoves(a, b, i);
  }

  lemma UnlockedMoves(a: Active, b: Active, i: nat)
    requires i < |a.workers| == |b.workers|
    requires forall k :: 0 <= k < |a.workers| && k != i ==> b.workers[k] == a.workers[k]
    requires !a.workers[i].step.Appended? && !b.workers[i].step.Appended?
    ensures Unlocked(b) == Unlocked(a)
  {
    if k :| 0 <= k < |a.workers| && a.workers[k].step.Appended? {
      assert b.workers[k].step.Appended?;
    }
    if k :| 0 <= k < |a.workers| && b.workers[k].step.Appended? {
      assert a.workers[k].step.Appended?;
    }
  }

  /** Only item `x` and worker `i` are touched. */
  lemma SomewhereMoves(before: map<nat, ItemResult>, after: map<nat, ItemResult>, a: Active, b: Active,
                       y: Item, x: Item, i: nat)
    requires Somewhere(before, a, y)
    requires |a.workers| == |b.workers| && i < |a.workers|
    requires forall k :: 0 <= k < |a.workers| && k != i ==> b.workers[k] == a.workers[k]
    requires Ids(before) <= Ids(after)
    requires x.id in Ids(after) || Holds(b.workers[i], x)
    requires Queued(a, y) && y != x ==> Queued(b, y)
    requires Holds(a.workers[i], y) ==> y == x
    ensures Somewhere(after, b, y)
  {
    hide Ids, Queued;
    if y == x {
      if Holds(b.workers[i], x) {
        assert Somewhere(after, b, y);
      }
    } else if y.id !in Ids(before) && !Queued(a, y) {
      var k :| 0 <= k < |a.workers| && Holds(a.workers[k], y);
      assert Holds(b.workers[k], y);
    }
  }

  lemma MannedStays(a: Active, b: Active, i: nat)
    requires |a.workers| == |b.workers| && i < |a.workers|
    requires forall k :: 0 <= k < |a.workers| ==> b.workers[k].platform == a.workers[k].platform
    requires forall k :: 0 <= k < |a.workers| && k != i ==> b.workers[k] == a.workers[k]
    requires !b.workers[i].step.Exited?
    requires forall p :: p in b.queues && b.queues[p] != [] ==> p in a.queues && a.queues[p] != []
    requires b.halted == a.halted || b.halted
    requires forall p :: p in a.queues && a.queues[p] != [] && !a.halted ==> Manned(a, p)
    ensures forall p :: p in b.queues && b.queues[p] != [] && !b.halted ==> Manned(b, p)
  {
    forall p | p in b.queues && b.queues[p] != [] && !b.halted
      ensures Manned(b, p)
    {
      assert Manned(a, p);
      var k :| 0 <= k < |a.workers| && a.workers[k].platform == p && !a.workers[k].step.Exited?;
      assert b.workers[k].platform == p && !b.workers[k].step.Exited?;
    }
  }

  lemma LeaveFine(request: seq<Item>, results: map<nat, ItemResult>, a: Active, i: nat)
    requires RunFine(request, results, a)
    requires AtWorker(a, i) && a.workers[i].step.Idle? && (a.halted || Drained(a, a.workers[i].platform))
    ensures RunFine(request, results, SetStep(a, i, Exited))
  {
    hide Ids, Pending;
    var b := SetStep(a, i, Exited);
    UnlockedMoves(a, b, i);
    forall k | 0 <= k < |a.workers|
      ensures WorkerFine(request, results, b, k)
    {
      assert WorkerFine(request, results, a, k);
    }
    forall y | y in request
      ensures Somewhere(results, b, y)
    {
      if y.id !in Ids(results) && !Queued(a, y) {
        var k :| 0 <= k < |a.workers| && Holds(a.workers[k], y);
        assert Holds(b.workers[k], y);
      }
    }
    forall p | p in b.queues && b.queues[p] != [] && !b.halted
      ensures Manned(b, p)
    {
      assert Manned(a, p);
      var k :| 0 <= k < |a.workers| && a.workers[k].platform == p && !a.workers[k].step.Exited?;
      assert b.workers[k].platform == p && !b.workers[k].step.Exited?;
    }
  }

  /** The other workers hold other items. */
  lemma CollectWorkers(request: seq<Item>, results: map<nat, ItemResult>, a: Active, b: Active, i: nat, r: ItemResult)
    requires forall k :: 0 <= k < |a.workers| ==> WorkerFine(request, results, a, k)
    requires AtWorker(a, i) && a.workers[i].step.Collecting? && r.itemId == a.workers[i].step.item.id
    requires b.workers == a.workers[i := a.workers[i].(step := Collected(a.workers[i].step.item, r))]
    requires b.queues == a.queues && b.stored == a.stored
    ensures forall k :: 0 <= k < |b.workers| ==> WorkerFine(request, results, b, k)
  {
    hide Ids;
    var x := a.workers[i].step.item;
    assert WorkerFine(request, results, a, i);
    forall k | 0 <= k < |a.workers|
      ensures WorkerFine(request, results, b, k)
    {
      assert WorkerFine(request, results, a, k);
      if k != i {
        assert b.workers[k] == a.workers[k];
        assert !Holds(a.workers[k], x);
      }
    }
  }

  lemma CollectFine(request: seq<Item>, results: map<nat, ItemResult>, a: Active, i: nat, r: ItemResult)
    requires RunFine(request, results, a)
    requires AtWorker(a, i) && a.workers[i].step.Collecting? && r.itemId == a.workers[i].step.item.id
    ensures RunFine(request, results, Tally(SetStep(a, i, Collected(a.workers[i].step.item, r)), r))
  {
    hide Ids, Pending, WorkerFine;
    var x := a.workers[i].step.item;
    var b := Tally(SetStep(a, i, Collected(x, r)), r);
    UnlockedMoves(a, b, i);
    CollectWorkers(request, results, a, b, i, r);
    forall y | y in request
      ensures Somewhere(results, b, y)
    {
      SomewhereMoves(results, results, a, b, y, x, i);
    }
    MannedStays(a, b, i);
  }

  lemma AppendFine(request: seq<Item>, results: map<nat, ItemResult>, a: Active, i: nat)
    requires DistinctIds(request) && RunFine(request, results, a) && Numbered(results)
    requires AtWorker(a, i) && a.workers[i].step.Collected? && Unlocked(a)
    ensures a.stored.completed !in results
    ensures var s := a.workers[i].step;
            RunFine(request, results[a.stored.completed := s.result], SetStep(a, i, Appended(s.item, s.result)))
  {
    hide Ids, Pending;
    var s := a.workers[i].step;
    var x := s.item;
    var b := SetStep(a, i, Appended(x, s.result));
    var more := results[a.stored.completed := s.result];
    IdsOfAppend(results, a.stored.completed, s.result);
    assert WorkerFine(request, results, a, i);
    assert b.workers[i].step.Appended?;
    forall y | y in request && y.id in Ids(more)
      ensures y.id in Ids(results) || y == x
    {
      if y.id == x.id {
        SameId(request, x, y);
      }
    }
    forall k | 0 <= k < |a.workers|
      ensures WorkerFine(request, more, b, k)
    {
      assert WorkerFine(request, results, a, k);
      if k != i {
        assert b.workers[k] == a.workers[k];
        assert !Holds(a.workers[k], x);
      }
    }
    forall p, y | p in b.queues && y in b.queues[p]
      ensures y.id !in Ids(more)
    {
      assert y in a.queues[p] && y.platform == p;
    }
    forall y | y in request
      ensures Somewhere(more, b, y)
    {
      SomewhereMoves(results, more, a, b, y, x, i);
    }
    MannedStays(a, b, i);
  }

  lemma UpdateFine(request: seq<Item>, results: map<nat, ItemResult>, a: Active, i: nat)
    requires RunFine(request, results, a)
    requires AtWorker(a, i) && a.workers[i].step.Appended?
    ensures a.stored.completed + 1 == |results|
    ensures var b := SetStep(a.(stored := Tick(a.stored, a.workers[i].step.result)), i, Idle);
            Unlocked(b) && RunFine(request, results, b)
  {
    hide Ids, Pending;
    var b := SetStep(a.(stored := Tick(a.stored, a.workers[i].step.result)), i, Idle);
    assert WorkerFine(request, results, a, i);
    forall k | 0 <= k < |a.workers|
      ensures !b.workers[k].step.Appended?
      ensures WorkerFine(request, results, b, k)
    {
      assert WorkerFine(request, results, a, k);
    }
    forall y | y in request
      ensures Somewhere(results, b, y)
    {
      if y.id !in Ids(results) && !Queued(a, y) {
        var k :| 0 <= k < |a.workers| && Holds(a.workers[k], y);
        assert Holds(b.workers[k], y);
      }
    }
    MannedStays(a, b, i);
  }

  /** When every worker has returned and nothing stopped them early, nothing is left. */
  lemma AllAnswered(request: seq<Item>, results: map<nat, ItemResult>, a: Active)
    requires RunFine(request, results, a) && a.started && !a.halted
    requires forall k :: 0 <= k < |a.workers| ==> a.workers[k].step.Exited?
    ensures IdsOf(request) <= Ids(results)
    ensures a.stored.completed == |results|
  {
    hide Ids, Pending;
    forall p | p in a.queues
      ensures a.queues[p] == []
    {
      assert !Manned(a, p);
    }
    forall x | x in request
      ensures x.id in Ids(results)
    {
      assert Somewhere(results, a, x);
    }
  }

  // ------------------------------------------------------------------- job steps

  lemma DoSound(c: Config, j: Job, e: RunEvent)
    requires c.Accepted() && Sound(j) && j.active.Some? && CanDo(c, j.active.value, e)
    ensures Sound(Do(c, j, j.active.value, e))
  {
    hide RunFine, Ids, Pending, Successes, IdsOf, Staffed;
    var a := j.active.value;
    match e
    case Start(workers) => BeginFine(c, j, a, workers); NotCompleted(j.request, j.results, a);
    case Take(i) => TakeFine(j.request, j.results, a, i);
    case Leave(i) => LeaveFine(j.request, j.results, a, i);
    case Collect(i, result) => CollectFine(j.request, j.results, a, i, result);
    case Append(i) => AppendSound(c, j, i);
    case Update(i) => UpdateSound(c, j, i);
    case Finish => FinishSound(c, j);
    case Stop(reason) => NotCompleted(j.request, j.results, a);
    case Cancel => CancelFine(j.request, j.results, a);
  }

  lemma NotCompleted(request: seq<Item>, results: map<nat, ItemResult>, a: Active)
    requires RunFine(request, results, a)
    ensures !a.stored.status.Completed?
  {
  }

  lemma CancelFine(request: seq<Item>, results: map<nat, ItemResult>, a: Active)
    requires RunFine(request, results, a)
    ensures RunFine(request, results, a.(stored := a.stored.(status := Cancelled, cancelRequested := true)))
  {
    hide Ids, Pending;
    var b := a.(stored := a.stored.(status := Cancelled, cancelRequested := true));
    assert Unlocked(b) == Unlocked(a);
    if a.started {
      forall k | 0 <= k < |a.workers|
        ensures WorkerFine(request, results, b, k)
      {
        assert WorkerFine(request, results, a, k);
      }
      forall y | y in request
        ensures Somewhere(results, b, y)
      {
        assert Somewhere(results, a, y);
      }
      forall p | p in b.queues && b.queues[p] != [] && !b.halted
        ensures Manned(b, p)
      {
        assert Manned(a, p);
      }
    }
  }

  lemma AppendSound(c: Config, j: Job, i: nat)
    requires Sound(j) && j.active.Some? && CanDo(c, j.active.value, Append(i))
    ensures Sound(Do(c, j, j.active.value, Append(i)))
  {
    hide RunFine, Ids, Pending, Successes, IdsOf, Queued;
    var a := j.active.value;
    var s := a.workers[i].step;
    var n := a.stored.completed;
    HeldItem(j.request, j.results, a, i);
    AppendFine(j.request, j.results, a, i);
    IdsOfAppend(j.results, n, s.result);
    SuccessesOfAppend(j.results, n, s.result, n);
    OnceMore(j.results, n, s.result);
    assert s.item.id in IdsOf(j.request) by { Listed(j.request, s.item); }
    assert n == |j.results|;
    NotCompleted(j.request, j.results, a);
  }

  lemma Listed(items: seq<Item>, x: Item)
    requires x in items
    ensures x.id in IdsOf(items)
  {
  }

  lemma HeldItem(request: seq<Item>, results: map<nat, ItemResult>, a: Active, i: nat)
    requires RunFine(request, results, a) && AtWorker(a, i) && a.workers[i].step.Collected?
    ensures var s := a.workers[i].step;
            s.item in request && s.result.itemId == s.item.id && s.item.id !in Ids(results)
    ensures Unlocked(a) ==> a.stored.completed == |results|
  {
    assert WorkerFine(request, results, a, i);
  }

  lemma OnceMore(results: map<nat, ItemResult>, n: nat, r: ItemResult)
    requires OncePerItem(results) && r.itemId !in Ids(results)
    ensures OncePerItem(results[n := r])
  {
    var more := results[n := r];
    forall j, k | j in more && k in more && j != k
      ensures more[j].itemId != more[k].itemId
    {
      if j != n {
        assert results[j].itemId in Ids(results);
      }
      if k != n {
        assert results[k].itemId in Ids(results);
      }
    }
  }

  lemma UpdateSound(c: Config, j: Job, i: nat)
    requires Sound(j) && j.active.Some? && CanDo(c, j.active.value, Update(i))
    ensures Sound(Do(c, j, j.active.value, Update(i)))
    ensures var after := Do(c, j, j.active.value, Update(i));
            && after.results == j.results
            && after.record == Counted(after.record, after.results)
  {
    hide RunFine, Ids, Pending, IdsOf, SuccessKeys;
    var a := j.active.value;
    CountedExactly(Tick(a.stored, a.workers[i].step.result), j.results);
    UpdateFine(j.request, j.results, a, i);
    AppendedResult(j.request, j.results, a, i);
    NotCompleted(j.request, j.results, a);
  }

  lemma AppendedResult(request: seq<Item>, results: map<nat, ItemResult>, a: Active, i: nat)
    requires RunFine(request, results, a) && AtWorker(a, i) && a.workers[i].step.Appended?
    ensures a.stored.completed in results && results[a.stored.completed] == a.workers[i].step.result
  {
    assert WorkerFine(request, results, a, i);
  }

  lemma FinishSound(c: Config, j: Job)
    requires Sound(j) && j.active.Some? && CanDo(c, j.active.value, Finish)
    ensures Sound(Do(c, j, j.active.value, Finish))
  {
    hide RunFine, Ids, Pending, Successes, IdsOf;
    var a := j.active.value;
    NotCompleted(j.request, j.results, a);
    if !a.halted {
      AllAnswered(j.request, j.results, a);
    }
  }

  lemma ResumeSound(j: Job)
    requires Sound(j) && j.active.None?
    ensures Sound(Resumed(j))
  {
    hide Ids, Pending, Successes, IdsOf, SuccessKeys;
    CountedExactly(j.record, j.results);
  }

  lemma StepSound(c: Config, j: Job, e: Event)
    requires c.Accepted() && Sound(j) && Enabled(c, j, e)
    ensures Sound(Next(c, j, e))
  {
    hide Do, CanDo, RunFine, Ids, Pending, Successes, IdsOf, Resumed, SuccessKeys;
    CountedExactly(j.record, j.results);
    match e
    case During(step) => DoSound(c, j, step);
    case Crash =>
    case Recover =>
    case Resume => ResumeSound(j);
  }

  lemma SubmittedSound(request: seq<Item>)
    requires DistinctIds(request)
    ensures Sound(Submitted(request))
  {
    PendingMembers(request, map[]);
    NothingAnswered(request);
  }

  lemma {:induction false} NothingAnswered(request: seq<Item>)
    ensures Pending(request, map[]) == request
    decreases |request|
  {
    assert Ids(map[]) == {};
    if |request| == 0 {
    } else {
      NothingAnswered(request[..|request| - 1]);
    }
  }

  /** Exactly-once results, honest counts and honest completion, after every run. */
  lemma {:induction false} RunSound(c: Config, request: seq<Item>, events: seq<Event>)
    requires c.Accepted() && DistinctIds(request)
    requires Run(c, request, events).Some?
    ensures Sound(Run(c, request, events).value)
    ensures Run(c, request, events).value.request == request
    decreases |events|
  {
    hide Sound, Next, Enabled;
    if |events| == 0 {
      SubmittedSound(request);
    } else {
      var before := events[..|events| - 1];
      RunSound(c, request, before);
      StepSound(c, Run(c, request, before).value, events[|events| - 1]);
      SameRequest(c, Run(c, request, before).value, events[|events| - 1]);
    }
  }

  /** No step changes the request or a stored result. */
  lemma SameRequest(c: Config, j: Job, e: Event)
    requires Enabled(c, j, e)
    ensures Next(c, j, e).request == j.request
  {
  }
}
