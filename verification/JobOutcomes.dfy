/**
  How a batch job ends, from what happened in its run: which runs complete it, which leave
  it failed, and that every accepted request has a run that completes.
 */
module JobOutcomes {
  import opened JobModel
  import opened JobSafety
  import opened Wrappers

  // ------------------------------------------------------------ refusals in a row

  predicate Refused(e: Event) { e.During? && e.e.Collect? && e.e.result.douyin && e.e.result.argus }

  predicate Succeeded(e: Event) {
    e.During? && e.e.Collect? && e.e.result.douyin && !e.e.result.argus && e.e.result.success
  }

  predicate Cancels(e: Event) { e.During? && e.e.Cancel? }

  /** The run in progress is the one submitted: nothing has been resumed. */
  predicate OneRun(events: seq<Event>) { forall k :: 0 <= k < |events| ==> !events[k].Resume? }

  function Refusals(events: seq<Event>): nat {
    if |events| == 0 then 0
    else Refusals(events[..|events| - 1]) + if Refused(events[|events| - 1]) then 1 else 0
  }

  predicate NoSuccess(events: seq<Event>) { forall k :: 0 <= k < |events| ==> !Succeeded(events[k]) }

  /** At the end of a stretch of the run, ten answers were refusals and none a success. */
  predicate TenFrom(events: seq<Event>, from: nat)
    requires from <= |events|
  {
    NoSuccess(events[from..]) && Refusals(events[from..]) >= 10
  }

  /** Somewhere in the run ten refusals come with no success between them. */
  ghost predicate TenInARow(events: seq<Event>) {
    exists a, b :: 0 <= a <= b <= |events| && TenFrom(events[..b], a)
  }

  // ------------------------------------------------------------------- the stop flag

  /** The place after the last success. */
  function LastStart(events: seq<Event>): (a: nat)
    ensures a <= |events|
    ensures NoSuccess(events[a..])
    ensures a > 0 ==> Succeeded(events[a - 1])
  {
    if |events| == 0 then 0
    else
      var n := |events| - 1;
      if Succeeded(events[n]) then |events|
      else
        var a := LastStart(events[..n]);
        assert events[a..] == events[..n][a..] + [events[n]];
        a
  }

  lemma RefusalsNext(events: seq<Event>, from: nat)
    requires from < |events|
    ensures var n := |events| - 1;
            Refusals(events[from..]) == Refusals(events[..n][from..]) + if Refused(events[n]) then 1 else 0
  {
    var n := |events| - 1;
    assert events[from..][..n - from] == events[..n][from..];
  }

  lemma {:induction false} FewerRefusals(events: seq<Event>, a: nat, b: nat)
    requires a <= b <= |events|
    ensures Refusals(events[b..]) <= Refusals(events[a..])
    decreases |events|
  {
    if b < |events| {
      RefusalsNext(events, a);
      RefusalsNext(events, b);
      FewerRefusals(events[..|events| - 1], a, b);
    }
  }

  lemma NoSuccessFrom(events: seq<Event>, a: nat)
    requires a <= |events| && NoSuccess(events[a..])
    ensures forall k :: a <= k < |events| ==> !Succeeded(events[k])
  {
    forall k | a <= k < |events|
      ensures !Succeeded(events[k])
    {
      assert events[a..][k - a] == events[k];
    }
  }

  /** The ten come at the very end exactly when they come after the last success. */
  lemma TenAtEnd(events: seq<Event>)
    ensures (exists a :: 0 <= a <= |events| && TenFrom(events, a)) <==> Refusals(events[LastStart(events)..]) >= 10
  {
    var s := LastStart(events);
    if a :| 0 <= a <= |events| && TenFrom(events, a) {
      NoSuccessFrom(events, a);
      FewerRefusals(events, s, a);
    }
    if Refusals(events[s..]) >= 10 {
      assert TenFrom(events, s);
    }
  }

  lemma TenNext(events: seq<Event>)
    requires |events| > 0
    ensures TenInARow(events) <==>
            TenInARow(events[..|events| - 1]) || Refusals(events[LastStart(events)..]) >= 10
  {
    hide TenFrom, LastStart, Refusals;
    var n := |events| - 1;
    var front := events[..n];
    TenAtEnd(events);
    assert events[..|events|] == events;
    if TenInARow(front) {
      var a, b :| 0 <= a <= b <= |front| && TenFrom(front[..b], a);
      assert front[..b] == events[..b];
    }
    if TenInARow(events) {
      var a, b :| 0 <= a <= b <= |events| && TenFrom(events[..b], a);
      if b <= n {
        assert front[..b] == events[..b];
        assert TenFrom(front[..b], a);
      }
    }
    if a :| 0 <= a <= |events| && TenFrom(events, a) {
      assert TenFrom(events[..|events|], a);
    }
  }

  /** What the run in progress remembers of its answers. */
  ghost predicate Remembers(a: Active, events: seq<Event>) {
    && a.misses == Refusals(events[LastStart(events)..])
    && (a.halted <==> TenInARow(events))
    && (a.stored.cancelRequested <==> exists k :: 0 <= k < |events| && Cancels(events[k]))
  }

  lemma StreakNext(events: seq<Event>)
    requires |events| > 0
    ensures var n := |events| - 1;
            Refusals(events[LastStart(events)..]) ==
            if Succeeded(events[n]) then 0
            else Refusals(events[..n][LastStart(events[..n])..]) + if Refused(events[n]) then 1 else 0
  {
    if !Succeeded(events[|events| - 1]) {
      RefusalsNext(events, LastStart(events));
    }
  }

  lemma StepRemembers(c: Config, j: Job, e: Event, events: seq<Event>)
    requires Enabled(c, j, e) && !e.Resume?
    requires |events| > 0 && events[|events| - 1] == e
    requires j.active.Some? ==> Remembers(j.active.value, events[..|events| - 1])
    requires var front := events[..|events| - 1]; TenInARow(front) || Refusals(front[LastStart(front)..]) < 10
    ensures Next(c, j, e).active.Some? ==> Remembers(Next(c, j, e).active.value, events)
    ensures TenInARow(events) || Refusals(events[LastStart(events)..]) < 10
  {
    hide TenInARow, LastStart, Refusals, Next, Enabled, Succeeded, Refused, Cancels;
    var n := |events| - 1;
    StreakNext(events);
    TenNext(events);
    assert forall k :: 0 <= k < n ==> events[k] == events[..n][k];
    RunTallies(c, j, e);
  }

  /** How a step changes the run's counter, its stop flag and its cancel mark. */
  lemma RunTallies(c: Config, j: Job, e: Event)
    requires Enabled(c, j, e) && !e.Resume?
    ensures var j2 := Next(c, j, e);
            && (j2.active.Some? ==> j.active.Some?)
            && (j2.active.Some? ==>
                  var a, b := j.active.value, j2.active.value;
                  && b.misses == (if Refused(e) then a.misses + 1 else if Succeeded(e) then 0 else a.misses)
                  && (b.halted <==> a.halted || (Refused(e) && a.misses + 1 >= 10))
                  && (b.stored.cancelRequested <==> a.stored.cancelRequested || Cancels(e)))
    ensures !(Refused(e) && Succeeded(e))
  {
    hide Pending, QueuesOf, Ids, Counted, Staffed;
    match e
    case During(step) => match step {
      case Collect(i, result) => hide SetStep;
      case _ =>
    }
    case _ =>
  }

  lemma NothingYet()
    ensures !TenInARow([]) && LastStart([]) == 0 && Refusals([]) == 0
  {
    var none: seq<Event> := [];
    forall a, b | 0 <= a <= b <= 0
      ensures !TenFrom(none[..b], a)
    {
      assert none[..b][a..] == none;
    }
  }

  lemma {:induction false} RunRemembers(c: Config, request: seq<Item>, events: seq<Event>)
    requires Run(c, request, events).Some? && OneRun(events)
    ensures var j := Run(c, request, events).value;
            j.active.Some? ==> Remembers(j.active.value, events)
    ensures TenInARow(events) || Refusals(events[LastStart(events)..]) < 10
    decreases |events|
  {
    hide Next, Enabled, Remembers, TenInARow, LastStart, Refusals;
    if |events| == 0 {
      NothingYet();
      FirstRemembers(request);
      assert events == [] && events[0..] == [];
    } else {
      var n := |events| - 1;
      RunRemembers(c, request, events[..n]);
      StepRemembers(c, Run(c, request, events[..n]).value, events[n], events);
    }
  }

  lemma FirstRemembers(request: seq<Item>)
    ensures Remembers(Submitted(request).active.value, [])
  {
    NothingYet();
    hide TenInARow, LastStart, Refusals;
  }

  // ------------------------------------------------------------------------ endings

  /** A run that is never resumed and comes to its own end completes the job exactly when it
      was not cancelled and no ten refusals came in a row; with ten in a row, and not
      cancelled, it leaves the job failed. */
  lemma FinishExactly(c: Config, request: seq<Item>, events: seq<Event>)
    requires c.Accepted() && DistinctIds(request) && OneRun(events) && |events| > 0
    requires Run(c, request, events).Some? && events[|events| - 1] == During(Finish)
    ensures var front, status := events[..|events| - 1], Run(c, request, events).value.record.status;
            var cancelled := exists k :: 0 <= k < |front| && Cancels(front[k]);
            && (status.Completed? <==> !cancelled && !TenInARow(front))
            && (!cancelled && TenInARow(front) ==> status.Failed?)
            && Run(c, request, events).value.active.None?
  {
    hide TenInARow, LastStart, Refusals, RunFine, Ids, IdsOf, Successes;
    var front := events[..|events| - 1];
    RunRemembers(c, request, front);
    RunSound(c, request, front);
    var j := Run(c, request, front).value;
    NotCompleted(request, j.results, j.active.value) by { SameRequestRun(c, request, front); }
  }

  lemma {:induction false} SameRequestRun(c: Config, request: seq<Item>, events: seq<Event>)
    requires Run(c, request, events).Some?
    ensures Run(c, request, events).value.request == request
    decreases |events|
  {
    hide Next, Enabled;
    if |events| == 0 {
    } else {
      SameRequestRun(c, request, events[..|events| - 1]);
      SameRequest(c, Run(c, request, events[..|events| - 1]).value, events[|events| - 1]);
    }
  }

  /** In particular fewer than ten refusals in all never stop it. */
  lemma FewRefusalsComplete(c: Config, request: seq<Item>, events: seq<Event>)
    requires c.Accepted() && DistinctIds(request) && OneRun(events) && |events| > 0
    requires Run(c, request, events).Some? && events[|events| - 1] == During(Finish)
    requires Refusals(events) < 10 && forall k :: 0 <= k < |events| ==> !Cancels(events[k])
    ensures Run(c, request, events).value.record.status.Completed?
  {
    hide Refusals, Run, TenFrom, DistinctIds;
    var front := events[..|events| - 1];
    FinishExactly(c, request, events);
    assert events[0..] == events && front[0..] == front;
    RefusalsNext(events, 0);
    forall a, b | 0 <= a <= b <= |front|
      ensures !TenFrom(front[..b], a)
    {
      FewerThan(front, a, b);
    }
  }

  lemma {:induction false} FewerThan(events: seq<Event>, a: nat, b: nat)
    requires a <= b <= |events|
    ensures Refusals(events[..b][a..]) <= Refusals(events)
    ensures TenFrom(events[..b], a) ==> Refusals(events) >= 10
    decreases |events|
  {
    hide Refusals, NoSuccess;
    assert events[0..] == events;
    if b == |events| {
      assert events[..b] == events;
      FewerRefusals(events, 0, a);
    } else {
      var n := |events| - 1;
      assert events[..n][..b] == events[..b] && events[..n][0..] == events[..n];
      RefusalsNext(events, 0);
      FewerThan(events[..n], a, b);
    }
  }

  /** A job that was cancelled and not resumed is never completed. */
  lemma {:induction false} CancelledStaysOpen(c: Config, request: seq<Item>, events: seq<Event>)
    requires c.Accepted() && DistinctIds(request) && OneRun(events) && Run(c, request, events).Some?
    requires exists k :: 0 <= k < |events| && Cancels(events[k])
    ensures !Run(c, request, events).value.record.status.Completed?
    decreases |events|
  {
    hide Refusals, RunFine, Ids, IdsOf, Successes, TenInARow, LastStart, Next, Enabled, Pending;
    var n := |events| - 1;
    var j, e := Run(c, request, events[..n]).value, events[n];
    RunSound(c, request, events[..n]);
    RunRemembers(c, request, events[..n]);
    if exists k :: 0 <= k < n && Cancels(events[k]) {
      var k :| 0 <= k < n && Cancels(events[k]);
      assert Cancels(events[..n][k]);
      CancelledStaysOpen(c, request, events[..n]);
      NotCompletedNext(c, j, e);
    } else {
      CancelLeavesOpen(c, j, e);
    }
  }

  lemma NotCompletedNext(c: Config, j: Job, e: Event)
    requires Enabled(c, j, e) && !j.record.status.Completed? && !e.Resume? && Sound(j)
    requires j.active.Some? ==> j.active.value.stored.cancelRequested
    ensures !Next(c, j, e).record.status.Completed?
  {
    hide Ids, IdsOf, Successes, Pending, QueuesOf, Counted;
    if j.active.Some? {
      NotCompleted(j.request, j.results, j.active.value);
    }
  }

  lemma CancelLeavesOpen(c: Config, j: Job, e: Event)
    requires Enabled(c, j, e) && Cancels(e)
    ensures Next(c, j, e).record.status.Cancelled? && Next(c, j, e).record.cancelRequested
  {
    hide Pending, QueuesOf, Counted;
  }

  /** A timeout, a shutdown or an exception leaves the job failed, except that a shutdown
      leaves a job alone that had ended or was cancelled. Its counts and results stay. */
  lemma StopsExactly(c: Config, j: Job, reason: StopReason)
    requires Enabled(c, j, During(Stop(reason)))
    ensures var after, stored := Next(c, j, During(Stop(reason))), j.active.value.stored;
            && after.active.None? && after.results == j.results
            && after.record == stored.(status :=
                 if reason.Interrupted? && !stored.status.Queued? && !stored.status.Running?
                 then stored.status else Failed)
  {
  }

  /** Recovery fails exactly the jobs that were queued or running, and then every stored
      result is counted once, as a success or a failure. */
  lemma RecoversExactly(c: Config, j: Job)
    requires Sound(j) && Enabled(c, j, Recover)
    ensures var before, after := j.record, Next(c, j, Recover).record;
            if before.status.Queued? || before.status.Running?
            then && after.status.Failed?
                 && after.completed == |j.results| == after.success + after.failed
                 && after.success == |set k | k in j.results && j.results[k].success|
            else after == before
  {
    hide RunFine, Ids, IdsOf;
    assert SuccessKeys(j.results) == set k | k in j.results && j.results[k].success;
  }

  /** A run that starts is running, in its record as well as in the stored one, and its
      queues hold the items it was given. */
  lemma StartsExactly(c: Config, j: Job, workers: seq<Worker>)
    requires Enabled(c, j, During(Start(workers)))
    ensures var after := Next(c, j, During(Start(workers)));
            && after.record == j.active.value.stored.(status := Running)
            && after.active == Some(j.active.value.(
                 stored := after.record, started := true, queues := QueuesOf(j.active.value.items), workers := workers))
            && after.results == j.results
  {
    hide QueuesOf, Staffed;
  }

  /** Resuming a job that is not completed queues it again, no longer cancelled and with its
      refusals forgotten, for exactly the items without a result. */
  lemma ResumesExactly(c: Config, j: Job)
    requires Sound(j) && Enabled(c, j, Resume)
    ensures var after := Next(c, j, Resume);
            if j.record.status.Completed? then after == j
            else && after.results == j.results && after.active.Some?
                 && after.active.value.stored == after.record
                 && after.record.status.Queued? && !after.record.cancelRequested
                 && after.record.completed == |j.results| && after.record.total == j.record.total
                 && after.record.success == |set k | k in j.results && j.results[k].success|
                 && !after.active.value.started && !after.active.value.halted && after.active.value.misses == 0
                 && (forall x :: x in after.active.value.items <==> x in j.request && x.id !in Ids(j.results))
  {
    hide RunFine, Ids, IdsOf, Pending, Successes;
    PendingMembers(j.request, j.results);
    assert SuccessKeys(j.results) == set k | k in j.results && j.results[k].success;
  }

  // ----------------------------------------------------------------- queue and staff

  /** An item's place in a queue says where it was in the request. */
  predicate InOrder(queue: seq<Item>, items: seq<Item>, places: seq<nat>) {
    && |places| == |queue|
    && (forall k :: 0 <= k < |queue| ==> places[k] < |items| && items[places[k]] == queue[k])
    && (forall j, k :: 0 <= j < k < |queue| ==> places[j] < places[k])
  }

  /** A platform's queue holds its items in the order of the request. */
  lemma {:induction false} QueuesKeepOrder(items: seq<Item>, p: string) returns (places: seq<nat>)
    ensures InOrder(OfPlatform(items, p), items, places)
    ensures forall k :: 0 <= k < |items| && items[k].platform == p ==> k in places
    decreases |items|
  {
    if |items| == 0 {
      places := [];
    } else {
      var n := |items| - 1;
      places := QueuesKeepOrder(items[..n], p);
      if items[n].platform == p {
        places := places + [n];
      }
    }
  }

  /** Each queue has as many workers as it has items, up to the job's limit and the limit of
      its platform, if it has one. */
  lemma StaffExactly(c: Config, queues: map<string, seq<Item>>, workers: seq<Worker>, p: string)
    requires Staffed(c, queues, workers) && p in queues
    ensures var n := WorkersOn(workers, p);
            && n <= |queues[p]| && n <= c.itemMax && (p in c.platformMax ==> n <= c.platformMax[p])
            && (n == |queues[p]| || n == c.itemMax || (p in c.platformMax && n == c.platformMax[p]))
  {
  }

  /** A worker takes the item at the head of its platform's queue. */
  lemma TakesHead(c: Config, j: Job, i: nat)
    requires Enabled(c, j, During(Take(i)))
    ensures var a, b := j.active.value, Next(c, j, During(Take(i))).active.value;
            var p := a.workers[i].platform;
            && b.workers == a.workers[i := b.workers[i]] && b.workers[i].platform == p
            && b.workers[i].step.Collecting? && p in b.queues
            && a.queues == b.queues[p := [b.workers[i].step.item] + b.queues[p]]
  {
    var a := j.active.value;
    var p := a.workers[i].platform;
    assert Next(c, j, During(Take(i))).active == Some(TakeNext(a, i));
    assert a.queues[p] == [a.queues[p][0]] + a.queues[p][1..];
    assert a.queues == a.queues[p := a.queues[p][1..]][p := a.queues[p]];
  }
}
