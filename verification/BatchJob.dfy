/**
  The batch-job manager working on one job: its queues, workers and in-memory record are
  fields updated in place, and each method is proved to take a step of the state machine.
 */
module BatchJob {
  import opened JobModel
  import opened JobRepository
  import opened Wrappers

  // --------------------------------------------------------------- building a run

  /** Items are put into the queue of their platform, in request order. */
  method BuildQueues(items: seq<Item>) returns (queues: map<string, seq<Item>>)
    ensures queues == QueuesOf(items)
  {
    queues := map[];
    var i := 0;
    while i < |items|
      invariant 0 <= i <= |items|
      invariant queues == QueuesOf(items[..i])
    {
      var p := items[i].platform;
      QueuesOfNext(items, i);
      if p !in queues {
        queues := queues[p := []];
      }
      queues := queues[p := queues[p] + [items[i]]];
      i := i + 1;
    }
    assert items[..i] == items;
  }

  lemma QueuesOfNext(items: seq<Item>, i: nat)
    requires i < |items|
    ensures var p, before := items[i].platform, QueuesOf(items[..i]);
            QueuesOf(items[..i + 1]) == before[p := (if p in before then before[p] else []) + [items[i]]]
  {
    hide OfPlatform, Platforms;
    var front, next, p := items[..i], items[..i + 1], items[i].platform;
    PlatformsNext(items, i);
    var before := QueuesOf(front);
    var after := before[p := (if p in before then before[p] else []) + [items[i]]];
    if p !in Platforms(front) {
      NoneOfPlatform(front, p);
    }
    forall q | q in Platforms(next)
      ensures q in after && QueuesOf(next)[q] == after[q]
    {
      OfPlatformNext(items, i, q);
    }
    assert QueuesOf(next).Keys == after.Keys;
    assert QueuesOf(next) == after;
  }

  lemma PlatformsNext(items: seq<Item>, i: nat)
    requires i < |items|
    ensures Platforms(items[..i + 1]) == Platforms(items[..i]) + {items[i].platform}
  {
    assert items[..i + 1] == items[..i] + [items[i]];
  }

  lemma OfPlatformNext(items: seq<Item>, i: nat, q: string)
    requires i < |items|
    ensures OfPlatform(items[..i + 1], q) ==
            if items[i].platform == q then OfPlatform(items[..i], q) + [items[i]] else OfPlatform(items[..i], q)
  {
    assert items[..i + 1][..i] == items[..i];
  }

  lemma {:induction false} NoneOfPlatform(items: seq<Item>, p: string)
    requires p !in Platforms(items)
    ensures OfPlatform(items, p) == []
    decreases |items|
  {
    if |items| == 0 {
    } else {
      assert items[|items| - 1] in items;
      NoneOfPlatform(items[..|items| - 1], p);
    }
  }

  method HireFor(workers: seq<Worker>, p: string, count: nat) returns (more: seq<Worker>)
    ensures |more| == |workers| + count
    ensures more[..|workers|] == workers
    ensures forall k :: |workers| <= k < |more| ==> more[k] == Worker(p, Idle)
    ensures forall q :: WorkersOn(more, q) == WorkersOn(workers, q) + if q == p then count else 0
  {
    more := workers;
    var i := 0;
    while i < count
      invariant 0 <= i <= count
      invariant |more| == |workers| + i
      invariant more[..|workers|] == workers
      invariant forall k :: |workers| <= k < |more| ==> more[k] == Worker(p, Idle)
      invariant forall q :: WorkersOn(more, q) == WorkersOn(workers, q) + if q == p then i else 0
    {
      ghost var before := more;
      more := more + [Worker(p, Idle)];
      assert more[..|before|] == before;
      i := i + 1;
    }
  }

  method HireWorkers(c: Config, queues: map<string, seq<Item>>) returns (workers: seq<Worker>)
    ensures Staffed(c, queues, workers)
  {
    workers := [];
    var left := queues.Keys;
    while left != {}
      invariant left <= queues.Keys
      invariant forall k :: 0 <= k < |workers| ==> workers[k].step.Idle? && workers[k].platform in queues
      invariant forall p :: p in queues ==>
        WorkersOn(workers, p) == if p in left then 0 else WorkerCount(c, p, |queues[p]|)
      decreases |left|
    {
      var p :| p in left;
      ghost var before := workers;
      workers := HireFor(workers, p, WorkerCount(c, p, |queues[p]|));
      forall k | 0 <= k < |workers|
        ensures workers[k].step.Idle? && workers[k].platform in queues
      {
        if k < |before| {
          assert workers[k] == before[k];
        }
      }
      left := left - {p};
    }
  }

  method PendingItems(items: seq<Item>, results: map<nat, ItemResult>) returns (pending: seq<Item>)
    ensures pending == Pending(items, results)
  {
    hide Ids;
    var completedIds := Ids(results);
    pending := [];
    var i := 0;
    while i < |items|
      invariant 0 <= i <= |items|
      invariant pending == Pending(items[..i], results)
    {
      assert items[..i + 1][..i] == items[..i];
      if items[i].id !in completedIds {
        pending := pending + [items[i]];
      }
      i := i + 1;
    }
    assert items[..i] == items;
  }

  // ------------------------------------------------------------------- the manager

  class BatchJobManager {
    const config: Config
    const jobId: string
    const request: seq<Item>
    const repository: MemoryJobRepository

    // the run in progress, if any
    var running: bool
    var stored: Record
    var items: seq<Item>
    var started: bool
    var queues: map<string, seq<Item>>
    var workers: seq<Worker>
    var argusFailures: nat
    var douyinUnavailable: bool

    ghost predicate Valid()
      reads this, repository
    {
      jobId in repository.jobs && jobId in repository.results
    }

    ghost function State(): Job
      requires Valid()
      reads this, repository
    {
      Job(request, repository.results[jobId], repository.jobs[jobId],
          if running
          then Some(Active(stored, items, started, queues, workers, argusFailures, douyinUnavailable))
          else None)
    }

    /** `submit`, once the request is validated. */
    constructor (config: Config, jobId: string, request: seq<Item>, repository: MemoryJobRepository)
      modifies repository
      ensures Valid() && State() == Submitted(request)
      ensures this.config == config && this.repository == repository
    {
      var record := Record(Queued, |request|, 0, 0, 0, false);
      this.config, this.jobId, this.request, this.repository := config, jobId, request, repository;
      running, stored, items, started := true, record, request, false;
      queues, workers, argusFailures, douyinUnavailable := map[], [], 0, false;
      new;
      repository.CreateJob(jobId, record, request);
    }

    /** The start of `_execute_job`. */
    method StartRun() returns (hired: seq<Worker>)
      requires Valid() && running && !started
      modifies this, repository`jobs
      ensures Valid()
      ensures CanDo(config, old(State()).active.value, Start(hired))
      ensures State() == Do(config, old(State()), old(State()).active.value, Start(hired))
    {
      stored := stored.(status := Running);
      repository.UpdateJob(jobId, stored);
      queues := BuildQueues(items);
      hired := HireWorkers(config, queues);
      workers := hired;
      started := true;
    }

    method SetWorker(i: nat, step: Step)
      requires i < |workers|
      modifies this`workers
      ensures workers == old(workers)[i := old(workers[i]).(step := step)]
    {
      workers := workers[i := workers[i].(step := step)];
    }

    /** A worker between items: it takes the next one of its queue, or returns. */
    method NextItem(i: nat) returns (e: RunEvent)
      requires Valid() && running && started && i < |workers| && workers[i].step.Idle?
      modifies this`queues, this`workers
      ensures Valid()
      ensures e == (if douyinUnavailable || Drained(old(State()).active.value, old(workers[i].platform))
                    then Leave(i) else Take(i))
      ensures CanDo(config, old(State()).active.value, e)
      ensures State() == Do(config, old(State()), old(State()).active.value, e)
    {
      if douyinUnavailable {
        SetWorker(i, Exited);
        return Leave(i);
      }
      var p := workers[i].platform;
      if p !in queues || queues[p] == [] {
        SetWorker(i, Exited);
        return Leave(i);
      }
      var item := queues[p][0];
      queues := queues[p := queues[p][1..]];
      SetWorker(i, Collecting(item));
      return Take(i);
    }

    /** The collector answered; ten platform refusals in a row stop the job early. */
    method Collected(i: nat, result: ItemResult)
      requires Valid() && running
      requires CanDo(config, State().active.value, Collect(i, result))
      modifies this`workers, this`argusFailures, this`douyinUnavailable
      ensures Valid()
      ensures State() == Do(config, old(State()), old(State()).active.value, Collect(i, result))
    {
      SetWorker(i, Step.Collected(workers[i].step.item, result));
      if result.douyin {
        if result.argus {
          argusFailures := argusFailures + 1;
          if argusFailures >= HALT_AFTER {
            douyinUnavailable := true;
          }
        } else if result.success {
          argusFailures := 0;
        }
      }
    }

    /** The first half of `persist_result`. */
    method AppendResult(i: nat)
      requires Valid() && running
      requires CanDo(config, State().active.value, Append(i))
      modifies this`workers, repository`results
      ensures Valid()
      ensures State() == Do(config, old(State()), old(State()).active.value, Append(i))
    {
      var s := workers[i].step;
      ghost var rows := repository.results[jobId];
      assert repository.Rows(jobId) == rows;
      repository.AppendResult(jobId, stored.completed, s.result);
      assert repository.Rows(jobId)[stored.completed] == s.result;
      SetWorker(i, Appended(s.item, s.result));
    }

    /** The second half of `persist_result`. */
    method CountResult(i: nat)
      requires Valid() && running
      requires CanDo(config, State().active.value, Update(i))
      modifies this`workers, this`stored, repository`jobs
      ensures Valid()
      ensures State() == Do(config, old(State()), old(State()).active.value, Update(i))
    {
      var result := workers[i].step.result;
      stored := stored.(completed := stored.completed + 1);
      if result.success {
        stored := stored.(success := stored.success + 1);
      } else {
        stored := stored.(failed := stored.failed + 1);
      }
      repository.UpdateJob(jobId, stored);
      SetWorker(i, Idle);
    }

    /** Every worker has returned. */
    method FinishRun()
      requires Valid() && running
      requires CanDo(config, State().active.value, Finish)
      modifies this`stored, this`running, repository`jobs
      ensures Valid()
      ensures State() == Do(config, old(State()), old(State()).active.value, Finish)
    {
      if !stored.cancelRequested {
        if douyinUnavailable {
          stored := stored.(status := Failed);
        } else {
          stored := stored.(status := Completed);
        }
      }
      repository.UpdateJob(jobId, stored);
      running := false;
    }

    /** A timeout, a shutdown or an unexpected exception. */
    method StopRun(reason: StopReason)
      requires Valid() && running
      modifies this`stored, this`running, repository`jobs
      ensures Valid()
      ensures State() == Do(config, old(State()), old(State()).active.value, Stop(reason))
    {
      match reason
      {
        case TimedOut => stored := stored.(status := Failed);
        case Broken => stored := stored.(status := Failed);
        case Interrupted =>
          if stored.Open() {
            stored := stored.(status := Failed);
          }
      }
      repository.UpdateJob(jobId, stored);
      running := false;
    }

    method CancelJob()
      requires Valid() && running
      requires CanDo(config, State().active.value, Cancel)
      modifies this`stored, repository`jobs
      ensures Valid()
      ensures State() == Do(config, old(State()), old(State()).active.value, Cancel)
    {
      stored := stored.(status := Cancelled, cancelRequested := true);
      repository.UpdateJob(jobId, stored);
    }

    /** `resume`: `false` when the job is running or already completed. */
    method ResumeJob() returns (resumed: bool)
      requires Valid()
      modifies this, repository`jobs
      ensures Valid()
      ensures resumed <==> !old(running) && !old(repository.jobs[jobId]).status.Completed?
      ensures State() == if old(running) then old(State()) else Resumed(old(State()))
    {
      hide SuccessKeys;
      var record := repository.jobs[jobId];
      if running || record.status.Completed? {
        return false;
      }
      var rows := repository.results[jobId];
      var pending := PendingItems(request, rows);
      var success := repository.CountSuccesses(jobId);
      assert repository.Rows(jobId) == rows;
      SuccessesWithin(rows);
      record := record.(completed := |rows|, success := success, failed := |rows| - success,
                        cancelRequested := false, status := Queued);
      repository.UpdateJob(jobId, record);
      running, stored, items, started := true, record, pending, false;
      queues, workers, argusFailures, douyinUnavailable := map[], [], 0, false;
      return true;
    }
  }
}
