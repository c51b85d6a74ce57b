/**
  One batch job as a state machine: the rows that survive a crash (the request, the
  numbered results and the progress record) and the run that may be working on them. A
  step is what happens between two suspension points; a crash can come between any two.
 */
module JobModel {
  import opened FiniteSets
  import opened Wrappers

  /** `platform` is the name of the queue the item is put in. */
  datatype Item = Item(id: string, platform: string)

  datatype ItemResult = ItemResult(itemId: string, success: bool, douyin: bool, argus: bool)

  datatype Status = Queued | Running | Completed | Failed | Cancelled

  datatype Record = Record(
    status: Status, total: nat, completed: nat, success: nat, failed: nat, cancelRequested: bool)
  {
    predicate Open() { status.Queued? || status.Running? }
  }

  datatype Config = Config(itemMax: nat, platformMax: map<string, nat>) {
    predicate Accepted() { 0 < itemMax && forall p :: p in platformMax ==> 0 < platformMax[p] }
  }

  /** A worker is between items, collecting one, holding its result, or holding a result
      that is appended but not yet counted; or it has returned. */
  datatype Step =
    | Idle
    | Collecting(item: Item)
    | Collected(item: Item, result: ItemResult)
    | Appended(item: Item, result: ItemResult)
    | Exited

  datatype Worker = Worker(platform: string, step: Step)

  /** The run's own copy of the record, its items, and once started its queues and workers. */
  datatype Active = Active(
    stored: Record, items: seq<Item>, started: bool,
    queues: map<string, seq<Item>>, workers: seq<Worker>, misses: nat, halted: bool)

  datatype Job = Job(
    request: seq<Item>, results: map<nat, ItemResult>, record: Record, active: Option<Active>)

  const HALT_AFTER: nat := 10

  predicate DistinctIds(items: seq<Item>) {
    forall i, j :: 0 <= i < j < |items| ==> items[i].id != items[j].id
  }

  function Ids(results: map<nat, ItemResult>): set<string> {
    set k | k in results :: results[k].itemId
  }

  /** The items without a stored result, in request order. */
  function Pending(items: seq<Item>, results: map<nat, ItemResult>): seq<Item> {
    if |items| == 0 then []
    else
      var n := |items| - 1;
      Pending(items[..n], results) + if items[n].id in Ids(results) then [] else [items[n]]
  }

  /** How many of the results numbered below `n` are successes. */
  function Successes(results: map<nat, ItemResult>, n: nat): (r: nat)
    ensures r <= n
  {
    if n == 0 then 0
    else Successes(results, n - 1) + if n - 1 in results && results[n - 1].success then 1 else 0
  }

  function SuccessKeys(results: map<nat, ItemResult>): set<nat> {
    set k | k in results && results[k].success
  }

  /** The record with its counts taken from the stored results. */
  function Counted(record: Record, results: map<nat, ItemResult>): Record {
    var n := |results|;
    var successes := |SuccessKeys(results)|;
    SuccessesWithin(results);
    record.(completed := n, success := successes, failed := n - successes)
  }

  lemma SuccessesWithin(results: map<nat, ItemResult>)
    ensures |SuccessKeys(results)| <= |results|
  {
    SubsetSize(SuccessKeys(results), results.Keys);
  }

  // ------------------------------------------------------------ queues and workers

  function OfPlatform(items: seq<Item>, p: string): seq<Item> {
    if |items| == 0 then []
    else OfPlatform(items[..|items| - 1], p)
         + if items[|items| - 1].platform == p then [items[|items| - 1]] else []
  }

  function Platforms(items: seq<Item>): set<string> { set x <- items :: x.platform }

  function QueuesOf(items: seq<Item>): map<string, seq<Item>> {
    map p | p in Platforms(items) :: OfPlatform(items, p)
  }

  function Min(a: nat, b: nat): nat { if a <= b then a else b }

  function WorkerCount(c: Config, p: string, size: nat): nat {
    Min(Min(c.itemMax, if p in c.platformMax then c.platformMax[p] else c.itemMax), size)
  }

  function WorkersOn(workers: seq<Worker>, p: string): nat {
    if |workers| == 0 then 0
    else WorkersOn(workers[..|workers| - 1], p)
         + if workers[|workers| - 1].platform == p then 1 else 0
  }

  /** Idle workers, as many per queue as the limits and the queue's length allow. */
  ghost predicate Staffed(c: Config, queues: map<string, seq<Item>>, workers: seq<Worker>) {
    && (forall k :: 0 <= k < |workers| ==> workers[k].step.Idle? && workers[k].platform in queues)
    && (forall p :: p in queues ==> WorkersOn(workers, p) == WorkerCount(c, p, |queues[p]|))
  }

  /** The lock is held from the append to the update. */
  predicate Unlocked(a: Active) {
    forall k :: 0 <= k < |a.workers| ==> !a.workers[k].step.Appended?
  }

  // ----------------------------------------------------------------------- events

  datatype StopReason = TimedOut | Interrupted | Broken

  /** Steps of a run in progress. */
  datatype RunEvent =
    | Start(workers: seq<Worker>)
    | Take(i: nat)
    | Leave(i: nat)
    | Collect(i: nat, result: ItemResult)
    | Append(i: nat)
    | Update(i: nat)
    | Finish
    | Stop(reason: StopReason)
    | Cancel

  datatype Event = During(e: RunEvent) | Crash | Recover | Resume

  predicate AtWorker(a: Active, i: nat) { a.started && i < |a.workers| }

  predicate Drained(a: Active, p: string) { p !in a.queues || a.queues[p] == [] }

  /** Whether the step can happen; the collector answers for the item it was given. */
  ghost predicate CanDo(c: Config, a: Active, e: RunEvent) {
    match e
    case Start(workers) => !a.started && Staffed(c, QueuesOf(a.items), workers)
    case Take(i) =>
      AtWorker(a, i) && a.workers[i].step.Idle? && !a.halted && !Drained(a, a.workers[i].platform)
    case Leave(i) =>
      AtWorker(a, i) && a.workers[i].step.Idle? && (a.halted || Drained(a, a.workers[i].platform))
    case Collect(i, result) =>
      AtWorker(a, i) && a.workers[i].step.Collecting? && result.itemId == a.workers[i].step.item.id
    case Append(i) => AtWorker(a, i) && a.workers[i].step.Collected? && Unlocked(a)
    case Update(i) => AtWorker(a, i) && a.workers[i].step.Appended?
    case Finish => a.started && forall k :: 0 <= k < |a.workers| ==> a.workers[k].step.Exited?
    case Stop(_) => true
    case Cancel => a.stored.Open() && Unlocked(a)
  }

  ghost predicate Enabled(c: Config, j: Job, e: Event) {
    match e
    case During(step) => j.active.Some? && CanDo(c, j.active.value, step)
    case Crash => true
    case Recover => j.active.None?
    case Resume => j.active.None?
  }

  // ------------------------------------------------------------------ transitions

  function Submitted(request: seq<Item>): Job {
    var record := Record(Queued, |request|, 0, 0, 0, false);
    Job(request, map[], record, Some(Fresh(record, request)))
  }

  function Fresh(record: Record, items: seq<Item>): Active {
    Active(record, items, false, map[], [], 0, false)
  }

  function SetStep(a: Active, i: nat, step: Step): Active
    requires i < |a.workers|
  {
    a.(workers := a.workers[i := a.workers[i].(step := step)])
  }

  function Begin(j: Job, a: Active, workers: seq<Worker>): Job {
    var running := a.stored.(status := Running);
    j.(record := running,
       active := Some(a.(stored := running, started := true, queues := QueuesOf(a.items), workers := workers)))
  }

  function TakeNext(a: Active, i: nat): Active
    requires i < |a.workers| && !Drained(a, a.workers[i].platform)
  {
    var p := a.workers[i].platform;
    SetStep(a.(queues := a.queues[p := a.queues[p][1..]]), i, Collecting(a.queues[p][0]))
  }

  /** Ten platform refusals in a row stop the job early. */
  function Tally(a: Active, result: ItemResult): Active {
    if !result.douyin then a
    else if result.argus then
      a.(misses := a.misses + 1, halted := a.halted || a.misses + 1 >= HALT_AFTER)
    else if result.success then a.(misses := 0)
    else a
  }

  function Tick(record: Record, result: ItemResult): Record {
    record.(completed := record.completed + 1,
            success := record.success + (if result.success then 1 else 0),
            failed := record.failed + (if result.success then 0 else 1))
  }

  function Ending(a: Active): Record {
    if a.stored.cancelRequested then a.stored
    else a.stored.(status := if a.halted then Failed else Completed)
  }

  function Stopped(a: Active, reason: StopReason): Record {
    if reason.Interrupted? && !a.stored.Open() then a.stored else a.stored.(status := Failed)
  }

  function Recovered(record: Record, results: map<nat, ItemResult>): Record {
    if record.Open() then Counted(record, results).(status := Failed) else record
  }

  function Resumed(j: Job): Job {
    if j.record.status.Completed? then j
    else
      var record := Counted(j.record, j.results).(status := Queued, cancelRequested := false);
      j.(record := record, active := Some(Fresh(record, Pending(j.request, j.results))))
  }

  ghost function Do(c: Config, j: Job, a: Active, e: RunEvent): Job
    requires CanDo(c, a, e)
  {
    match e
    case Start(workers) => Begin(j, a, workers)
    case Take(i) => j.(active := Some(TakeNext(a, i)))
    case Leave(i) => j.(active := Some(SetStep(a, i, Exited)))
    case Collect(i, result) =>
      j.(active := Some(Tally(SetStep(a, i, Collected(a.workers[i].step.item, result)), result)))
    case Append(i) =>
      var s := a.workers[i].step;
      j.(results := j.results[a.stored.completed := s.result],
         active := Some(SetStep(a, i, Appended(s.item, s.result))))
    case Update(i) =>
      var stored := Tick(a.stored, a.workers[i].step.result);
      j.(record := stored, active := Some(SetStep(a.(stored := stored), i, Idle)))
    case Finish => j.(record := Ending(a), active := None)
    case Stop(reason) => j.(record := Stopped(a, reason), active := None)
    case Cancel =>
      var stored := a.stored.(status := Cancelled, cancelRequested := true);
      j.(record := stored, active := Some(a.(stored := stored)))
  }

  ghost function Next(c: Config, j: Job, e: Event): Job
    requires Enabled(c, j, e)
  {
    match e
    case During(step) => Do(c, j, j.active.value, step)
    case Crash => j.(active := None)
    case Recover => j.(record := Recovered(j.record, j.results))
    case Resume => Resumed(j)
  }

  /** The job after the events, or `None` if one of them could not happen. */
  ghost function Run(c: Config, request: seq<Item>, events: seq<Event>): Option<Job> {
    if |events| == 0 then Some(Submitted(request))
    else
      var before := Run(c, request, events[..|events| - 1]);
      var e := events[|events| - 1];
      if before.Some? && Enabled(c, before.value, e) then Some(Next(c, before.value, e)) else None
  }
}
