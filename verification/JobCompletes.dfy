/**
  Every accepted request has a run that completes it, whatever its collectors answer short
  of a refusal by the platform.
 */
module JobCompletes {
  import opened JobModel
  import opened JobSafety
  import opened JobOutcomes
  import opened JobTheorems
  import opened FiniteSets
  import opened Wrappers

  /** What the collectors answer: whether the item was a success, and whether it was asked of
      douyin. */
  type Answers = Item -> (bool, bool)

  function AnswerOf(answers: Answers, x: Item): ItemResult {
    ItemResult(x.id, answers(x).0, answers(x).1, false)
  }

  // ---------------------------------------------------------------------- staffing

  lemma {:induction false} WorkersOnMore(workers: seq<Worker>, p: string, count: nat) returns (more: seq<Worker>)
    ensures |more| == |workers| + count && more[..|workers|] == workers
    ensures forall k :: |workers| <= k < |more| ==> more[k] == Worker(p, Idle)
    ensures forall q :: WorkersOn(more, q) == WorkersOn(workers, q) + if q == p then count else 0
    decreases count
  {
    if count == 0 {
      more := workers;
    } else {
      var some := WorkersOnMore(workers, p, count - 1);
      more := some + [Worker(p, Idle)];
      assert more[..|some|] == some;
    }
  }

  /** Workers for the queues of these platforms. */
  lemma {:induction false} Staffing(c: Config, queues: map<string, seq<Item>>, platforms: set<string>)
    returns (workers: seq<Worker>)
    requires platforms <= queues.Keys
    ensures forall k :: 0 <= k < |workers| ==> workers[k].step.Idle? && workers[k].platform in queues
    ensures forall p :: p in queues ==>
              WorkersOn(workers, p) == if p in platforms then WorkerCount(c, p, |queues[p]|) else 0
    decreases platforms
  {
    hide WorkerCount;
    if platforms == {} {
      workers := [];
    } else {
      var p :| p in platforms;
      var some := Staffing(c, queues, platforms - {p});
      workers := WorkersOnMore(some, p, WorkerCount(c, p, |queues[p]|));
      forall k | 0 <= k < |workers|
        ensures workers[k].step.Idle? && workers[k].platform in queues
      {
        if k < |some| {
          assert workers[k] == some[k];
        }
      }
    }
  }

  // -------------------------------------------------------------------- one item

  /** A run between items: everybody idle, not stopped and not cancelled. */
  predicate Quiet(j: Job) {
    && j.active.Some? && j.active.value.started && !j.active.value.halted && !j.active.value.stored.cancelRequested
    && forall i :: 0 <= i < |j.active.value.workers| ==> j.active.value.workers[i].step.Idle?
  }

  /** Everybody idle but worker `i`. */
  predicate Busy(j: Job, i: nat, step: Step) {
    && j.active.Some? && j.active.value.started && !j.active.value.halted && !j.active.value.stored.cancelRequested
    && i < |j.active.value.workers| && j.active.value.workers[i].step == step
    && forall k :: 0 <= k < |j.active.value.workers| && k != i ==> j.active.value.workers[k].step.Idle?
  }

  lemma Takes(c: Config, j: Job, i: nat) returns (x: Item)
    requires Quiet(j) && i < |j.active.value.workers| && !Drained(j.active.value, j.active.value.workers[i].platform)
    ensures Enabled(c, j, During(Take(i)))
    ensures var k := Next(c, j, During(Take(i))); Busy(k, i, Collecting(x)) && k.results == j.results
    ensures x == j.active.value.queues[j.active.value.workers[i].platform][0]
  {
    x := j.active.value.queues[j.active.value.workers[i].platform][0];
  }

  lemma Collects(c: Config, j: Job, i: nat, x: Item, r: ItemResult)
    requires Busy(j, i, Collecting(x)) && r.itemId == x.id && !r.argus
    ensures Enabled(c, j, During(Collect(i, r)))
    ensures var k := Next(c, j, During(Collect(i, r))); Busy(k, i, Collected(x, r)) && k.results == j.results
  {
  }

  lemma Appends(c: Config, j: Job, i: nat, x: Item, r: ItemResult)
    requires Busy(j, i, Collected(x, r)) && Sound(j)
    ensures Enabled(c, j, During(Append(i)))
    ensures var k := Next(c, j, During(Append(i))); Busy(k, i, Appended(x, r)) && |k.results| == |j.results| + 1
  {
    hide RunFine, Ids, IdsOf, Successes;
    AppendIsNew(c, j, i);
  }

  lemma Updates(c: Config, j: Job, i: nat, x: Item, r: ItemResult)
    requires Busy(j, i, Appended(x, r))
    ensures Enabled(c, j, During(Update(i)))
    ensures var k := Next(c, j, During(Update(i))); Quiet(k) && k.results == j.results
  {
  }

  /** Every event is a step of the run, and what is collected is what the collectors answer
      for an item of the request. */
  ghost predicate Calm(request: seq<Item>, answers: Answers, events: seq<Event>) {
    forall k :: 0 <= k < |events| ==>
      && events[k].During? && !events[k].e.Cancel? && !events[k].e.Stop?
      && (events[k].e.Collect? ==> exists x :: x in request && events[k].e.result == AnswerOf(answers, x))
  }

  lemma StepOf(c: Config, request: seq<Item>, events: seq<Event>, e: Event)
    requires Run(c, request, events).Some? && Enabled(c, Run(c, request, events).value, e)
    ensures Run(c, request, events + [e]) == Some(Next(c, Run(c, request, events).value, e))
  {
    hide Next, Enabled;
    assert (events + [e])[..|events|] == events;
  }

  lemma SomeoneFor(j: Job, p: string) returns (i: nat)
    requires Sound(j) && Quiet(j) && p in j.active.value.queues && j.active.value.queues[p] != []
    ensures i < |j.active.value.workers| && j.active.value.workers[i].platform == p
    ensures j.active.value.queues[p][0] in j.request
  {
    hide Ids, IdsOf, Successes, Pending, QueuesOf;
    assert Manned(j.active.value, p);
    i :| 0 <= i < |j.active.value.workers| && j.active.value.workers[i].platform == p;
    assert j.active.value.queues[p][0] in j.active.value.queues[p];
  }

  /** One queued item is taken, collected, stored and counted. */
  lemma OneItem(c: Config, request: seq<Item>, answers: Answers, events: seq<Event>, p: string)
    returns (more: seq<Event>)
    requires c.Accepted() && DistinctIds(request) && Run(c, request, events).Some? && Calm(request, answers, events)
    requires var j := Run(c, request, events).value;
             Quiet(j) && p in j.active.value.queues && j.active.value.queues[p] != []
    ensures Run(c, request, more).Some? && Calm(request, answers, more)
    ensures var k := Run(c, request, more).value;
            Quiet(k) && |k.results| == |Run(c, request, events).value.results| + 1
  {
    hide Run, Next, Enabled, Sound, Quiet, Busy, DistinctIds;
    var j := Run(c, request, events).value;
    RunSound(c, request, events);
    SameRequestRun(c, request, events);
    var i := SomeoneFor(j, p);
    var x := Takes(c, j, i) by { QuietOpens(j); }
    var r := AnswerOf(answers, x);
    var e1, e2, e3, e4 := During(Take(i)), During(Collect(i, r)), During(Append(i)), During(Update(i));
    StepOf(c, request, events, e1);
    Collects(c, Next(c, j, e1), i, x, r);
    StepOf(c, request, events + [e1], e2);
    var two := events + [e1] + [e2];
    RunSound(c, request, two);
    Appends(c, Run(c, request, two).value, i, x, r);
    StepOf(c, request, two, e3);
    Updates(c, Run(c, request, two + [e3]).value, i, x, r);
    StepOf(c, request, two + [e3], e4);
    more := two + [e3] + [e4];
  }

  lemma QuietOpens(j: Job)
    requires Quiet(j)
    ensures j.active.Some?
  {
  }

  // ------------------------------------------------------------------------- the whole run

  lemma ResultsBounded(j: Job)
    requires Sound(j)
    ensures |j.results| <= |j.request|
  {
    hide RunFine, Successes;
    IdCount(j.request);
    AnsweredCount(j.request, j.results);
    assert Ids(j.results) <= IdsOf(j.request);
    SubsetSize(Ids(j.results), IdsOf(j.request));
  }

  ghost predicate AllDrained(a: Active) { forall p :: p in a.queues ==> a.queues[p] == [] }

  lemma {:induction false} DrainAll(c: Config, request: seq<Item>, answers: Answers, events: seq<Event>)
    returns (more: seq<Event>)
    requires c.Accepted() && DistinctIds(request) && Run(c, request, events).Some? && Calm(request, answers, events)
    requires Quiet(Run(c, request, events).value)
    ensures Run(c, request, more).Some? && Calm(request, answers, more)
    ensures Quiet(Run(c, request, more).value) && AllDrained(Run(c, request, more).value.active.value)
    decreases |request| - |Run(c, request, events).value.results|
  {
    hide Run, Sound, DistinctIds, Calm;
    var a := Run(c, request, events).value.active.value;
    if p :| p in a.queues && a.queues[p] != [] {
      var some := OneItem(c, request, answers, events, p);
      RunSound(c, request, some);
      SameRequestRun(c, request, some);
      ResultsBounded(Run(c, request, some).value);
      more := DrainAll(c, request, answers, some);
    } else {
      more := events;
    }
  }

  /** The first `n` workers have returned and the others are idle. */
  predicate Leaving(j: Job, n: nat) {
    && j.active.Some? && j.active.value.started && !j.active.value.halted && !j.active.value.stored.cancelRequested
    && n <= |j.active.value.workers|
    && forall i :: 0 <= i < |j.active.value.workers| ==>
         if i < n then j.active.value.workers[i].step.Exited? else j.active.value.workers[i].step.Idle?
  }

  lemma Leaves(c: Config, j: Job, n: nat)
    requires Leaving(j, n) && n < |j.active.value.workers| && AllDrained(j.active.value)
    ensures Enabled(c, j, During(Leave(n)))
    ensures var k := Next(c, j, During(Leave(n)));
            Leaving(k, n + 1) && AllDrained(k.active.value) && |k.active.value.workers| == |j.active.value.workers|
  {
  }

  lemma {:induction false} LeaveAll(c: Config, request: seq<Item>, answers: Answers, events: seq<Event>, n: nat)
    returns (more: seq<Event>)
    requires Run(c, request, events).Some? && Calm(request, answers, events)
    requires var j := Run(c, request, events).value; Leaving(j, n) && AllDrained(j.active.value)
    ensures Run(c, request, more).Some? && Calm(request, answers, more)
    ensures var k := Run(c, request, more).value; k.active.Some? && Leaving(k, |k.active.value.workers|)
    decreases |Run(c, request, events).value.active.value.workers| - n
  {
    hide Run, Next, Enabled, AllDrained;
    var j := Run(c, request, events).value;
    if n == |j.active.value.workers| {
      more := events;
    } else {
      Leaves(c, j, n);
      StepOf(c, request, events, During(Leave(n)));
      more := LeaveAll(c, request, answers, events + [During(Leave(n))], n + 1);
    }
  }

  lemma Begins(c: Config, request: seq<Item>, workers: seq<Worker>)
    requires Staffed(c, QueuesOf(request), workers)
    ensures Submitted(request).active.value.items == request
    ensures Enabled(c, Submitted(request), During(Start(workers)))
    ensures Quiet(Next(c, Submitted(request), During(Start(workers))))
  {
    hide QueuesOf, WorkersOn, WorkerCount;
  }

  lemma Finishes(c: Config, j: Job)
    requires j.active.Some? && Leaving(j, |j.active.value.workers|)
    ensures Enabled(c, j, During(Finish)) && Next(c, j, During(Finish)).record.status.Completed?
  {
  }

  /** For every accepted request, and whatever its collectors answer short of a refusal,
      some run of it ends by itself and leaves the job completed. */
  lemma SomeRunCompletes(c: Config, request: seq<Item>, answers: Answers) returns (events: seq<Event>)
    requires c.Accepted() && DistinctIds(request)
    ensures Run(c, request, events).Some? && Calm(request, answers, events)
    ensures |events| > 0 && events[|events| - 1] == During(Finish)
    ensures Run(c, request, events).value.record.status.Completed?
  {
    hide Next, Enabled, QueuesOf, WorkersOn, WorkerCount, DistinctIds;
    var queues := QueuesOf(request);
    var workers := Staffing(c, queues, queues.Keys);
    Begins(c, request, workers);
    assert Run(c, request, []) == Some(Submitted(request));
    StepOf(c, request, [], During(Start(workers)));
    assert [] + [During(Start(workers))] == [During(Start(workers))];
    hide Run;
    var drained := DrainAll(c, request, answers, [During(Start(workers))]);
    var left := LeaveAll(c, request, answers, drained, 0);
    Finishes(c, Run(c, request, left).value);
    StepOf(c, request, left, During(Finish));
    events := left + [During(Finish)];
  }
}
