/**
  Shared collection tasks: callers of one key wait for the same task, and a caller that is
  cancelled may cancel the task it leaves. Each step is one section under the cache lock.
  Closing the service is not part of this model.
 */
module SingleFlight {
  import opened FiniteSets
  import opened Wrappers

  /** The request key, and whether the caller already holds the platform's slot. */
  datatype TaskKey = TaskKey(key: string, reserved: bool)

  /** The service's `_result_tasks` and `_result_waiters`. */
  datatype Board = Board(tasks: map<TaskKey, nat>, waiters: map<TaskKey, nat>)

  function Waiters(b: Board, k: TaskKey, default: nat): nat {
    if k in b.waiters then b.waiters[k] else default
  }

  /** The caller joins the key's task, or `task` becomes it. */
  function Join(b: Board, k: TaskKey, task: nat): Board {
    Board(if k in b.tasks then b.tasks else b.tasks[k := task],
          b.waiters[k := Waiters(b, k, 0) + 1])
  }

  function Unregister(b: Board, k: TaskKey): Board {
    var remaining := Waiters(b, k, 1) - 1;
    b.(waiters := if remaining <= 0 then b.waiters - {k} else b.waiters[k := remaining])
  }

  predicate Current(b: Board, k: TaskKey, task: nat) { k in b.tasks && b.tasks[k] == task }

  /** A caller leaves with the task's result or exception. */
  function LeaveFinished(b: Board, k: TaskKey, task: nat): Board {
    var c := Unregister(b, k);
    if Current(b, k, task) then c.(tasks := b.tasks - {k}) else c
  }

  predicate Last(b: Board, k: TaskKey) { Waiters(b, k, 1) <= 1 }

  /** A caller leaves because it was cancelled itself; the flag says to cancel the task. */
  function LeaveCancelled(b: Board, k: TaskKey, task: nat, done: bool): (Board, bool) {
    var c := Unregister(b, k);
    if Last(b, k) && Current(b, k, task)
    then (c.(tasks := b.tasks - {k}), !done)
    else (c, false)
  }

  // -------------------------------------------------------------------- whole runs

  datatype Phase = Running | Done | Failed | Cancelling

  datatype Task = Task(key: TaskKey, phase: Phase)

  datatype Caller = Caller(key: TaskKey, task: nat)

  /** The board, every task ever started (by number), and the callers now registered. */
  datatype World = World(board: Board, tasks: seq<Task>, callers: map<nat, Caller>)

  const START := World(Board(map[], map[]), [], map[])

  datatype Event =
    | Joins(caller: nat, key: TaskKey)
    | Finishes(task: nat, ok: bool)
    | Returns(caller: nat)
    | Abandons(caller: nat)

  predicate Enabled(w: World, e: Event) {
    match e
    case Joins(caller, _) => caller !in w.callers
    case Finishes(task, _) => task < |w.tasks| && w.tasks[task].phase.Running?
    case Returns(caller) =>
      caller in w.callers && w.callers[caller].task < |w.tasks|
      && (w.tasks[w.callers[caller].task].phase.Done? || w.tasks[w.callers[caller].task].phase.Failed?)
    case Abandons(caller) => caller in w.callers && w.callers[caller].task < |w.tasks|
  }

  function Next(w: World, e: Event): World
    requires Enabled(w, e)
  {
    match e
    case Joins(caller, k) =>
      var n := |w.tasks|;
      var task := if k in w.board.tasks then w.board.tasks[k] else n;
      World(Join(w.board, k, n),
            if k in w.board.tasks then w.tasks else w.tasks + [Task(k, Running)],
            w.callers[caller := Caller(k, task)])
    case Finishes(task, ok) =>
      w.(tasks := w.tasks[task := w.tasks[task].(phase := if ok then Done else Failed)])
    case Returns(caller) =>
      var c := w.callers[caller];
      w.(board := LeaveFinished(w.board, c.key, c.task), callers := w.callers - {caller})
    case Abandons(caller) =>
      var c := w.callers[caller];
      var (board, cancel) :=
        LeaveCancelled(w.board, c.key, c.task, !w.tasks[c.task].phase.Running?);
      World(board,
            if cancel then w.tasks[c.task := w.tasks[c.task].(phase := Cancelling)] else w.tasks,
            w.callers - {caller})
  }

  function Run(events: seq<Event>): Option<World> {
    if |events| == 0 then Some(START)
    else
      var before := Run(events[..|events| - 1]);
      var e := events[|events| - 1];
      if before.Some? && Enabled(before.value, e) then Some(Next(before.value, e)) else None
  }

  function Registered(callers: map<nat, Caller>, k: TaskKey): set<nat> {
    set c | c in callers && callers[c].key == k
  }

  /** The count kept for a key is the number of callers registered on it. */
  ghost predicate Counted(w: World) {
    && (forall k :: k in w.board.waiters ==> w.board.waiters[k] > 0)
    && (forall k :: Waiters(w.board, k, 0) == |Registered(w.callers, k)|)
  }

  predicate TasksFine(w: World) {
    && (forall k :: k in w.board.tasks ==>
          && w.board.tasks[k] < |w.tasks|
          && w.tasks[w.board.tasks[k]].key == k
          && !w.tasks[w.board.tasks[k]].phase.Cancelling?)
    && (forall t :: 0 <= t < |w.tasks| && w.tasks[t].phase.Running? ==> Current(w.board, w.tasks[t].key, t))
  }

  /** Nobody waits for a task that a leaving caller cancelled. */
  predicate CallersFine(w: World) {
    forall c :: c in w.callers ==>
      && w.callers[c].task < |w.tasks|
      && w.tasks[w.callers[c].task].key == w.callers[c].key
      && !w.tasks[w.callers[c].task].phase.Cancelling?
  }

  ghost predicate Safe(w: World) { Counted(w) && TasksFine(w) && CallersFine(w) }

  // ----------------------------------------------------------------------- counting

  lemma RegisteredJoins(callers: map<nat, Caller>, c: nat, caller: Caller, k: TaskKey)
    requires c !in callers
    ensures |Registered(callers[c := caller], k)| == |Registered(callers, k)| + if caller.key == k then 1 else 0
  {
    var more := Registered(callers[c := caller], k);
    if caller.key == k {
      assert more == Registered(callers, k) + {c};
    } else {
      assert more == Registered(callers, k);
    }
  }

  lemma RegisteredLeaves(callers: map<nat, Caller>, c: nat, k: TaskKey)
    requires c in callers
    ensures |Registered(callers - {c}, k)| == |Registered(callers, k)| - if callers[c].key == k then 1 else 0
  {
    var fewer := Registered(callers - {c}, k);
    if callers[c].key == k {
      assert Registered(callers, k) == fewer + {c};
    } else {
      assert fewer == Registered(callers, k);
    }
  }

  lemma JoinCounted(w: World, caller: nat, k: TaskKey)
    requires Counted(w) && caller !in w.callers
    ensures Counted(Next(w, Joins(caller, k)))
  {
    hide Registered;
    var after := Next(w, Joins(caller, k));
    forall j
      ensures Waiters(after.board, j, 0) == |Registered(after.callers, j)|
    {
      RegisteredJoins(w.callers, caller, after.callers[caller], j);
    }
  }

  /** A registered caller's key is on the board, so the default of one is never used. */
  lemma RegisteredIsCounted(w: World, caller: nat)
    requires Counted(w) && caller in w.callers
    ensures w.callers[caller].key in w.board.waiters
  {
    assert caller in Registered(w.callers, w.callers[caller].key);
  }

  lemma LeaveCounted(w: World, caller: nat, after: World)
    requires Counted(w) && caller in w.callers
    requires after.callers == w.callers - {caller}
    requires after.board.waiters == Unregister(w.board, w.callers[caller].key).waiters
    ensures Counted(after)
  {
    hide Registered;
    RegisteredIsCounted(w, caller);
    forall j
      ensures Waiters(after.board, j, 0) == |Registered(after.callers, j)|
    {
      RegisteredLeaves(w.callers, caller, j);
    }
  }

  /** The last registered caller leaves nobody behind on its key. */
  lemma LastIsAlone(w: World, caller: nat)
    requires Counted(w) && caller in w.callers && Last(w.board, w.callers[caller].key)
    ensures forall c :: c in w.callers && w.callers[c].key == w.callers[caller].key ==> c == caller
  {
    var k := w.callers[caller].key;
    RegisteredIsCounted(w, caller);
    forall c | c in w.callers && w.callers[c].key == k
      ensures c == caller
    {
      if c != caller {
        assert {c, caller} <= Registered(w.callers, k);
        SubsetSize({c, caller}, Registered(w.callers, k));
      }
    }
  }

  // ------------------------------------------------------------------------- steps

  lemma JoinFine(w: World, caller: nat, k: TaskKey)
    requires TasksFine(w) && CallersFine(w) && caller !in w.callers
    ensures TasksFine(Next(w, Joins(caller, k))) && CallersFine(Next(w, Joins(caller, k)))
  {
  }

  lemma FinishFine(w: World, task: nat, ok: bool)
    requires TasksFine(w) && CallersFine(w) && Enabled(w, Finishes(task, ok))
    ensures TasksFine(Next(w, Finishes(task, ok))) && CallersFine(Next(w, Finishes(task, ok)))
  {
  }

  lemma ReturnFine(w: World, caller: nat)
    requires TasksFine(w) && CallersFine(w) && Enabled(w, Returns(caller))
    ensures TasksFine(Next(w, Returns(caller))) && CallersFine(Next(w, Returns(caller)))
  {
    var c := w.callers[caller];
    var after := Next(w, Returns(caller));
    forall t | 0 <= t < |w.tasks| && w.tasks[t].phase.Running?
      ensures Current(after.board, w.tasks[t].key, t)
    {
      assert Current(w.board, w.tasks[t].key, t);
    }
  }

  lemma AbandonFine(w: World, caller: nat)
    requires TasksFine(w) && CallersFine(w) && Enabled(w, Abandons(caller))
    requires Last(w.board, w.callers[caller].key) ==>
               forall c :: c in w.callers && w.callers[c].key == w.callers[caller].key ==> c == caller
    ensures TasksFine(Next(w, Abandons(caller))) && CallersFine(Next(w, Abandons(caller)))
  {
    hide Waiters;
    var c := w.callers[caller];
    var after := Next(w, Abandons(caller));
    forall t | 0 <= t < |after.tasks| && after.tasks[t].phase.Running?
      ensures Current(after.board, after.tasks[t].key, t)
    {
      assert w.tasks[t].phase.Running?;
      assert Current(w.board, w.tasks[t].key, t);
    }
  }

  lemma StepSafe(w: World, e: Event)
    requires Safe(w) && Enabled(w, e)
    ensures Safe(Next(w, e))
  {
    hide Registered, TasksFine, CallersFine;
    match e
    case Joins(caller, k) =>
      JoinCounted(w, caller, k);
      JoinFine(w, caller, k);
    case Finishes(task, ok) =>
      FinishFine(w, task, ok);
    case Returns(caller) =>
      LeaveCounted(w, caller, Next(w, e));
      ReturnFine(w, caller);
    case Abandons(caller) =>
      LeaveCounted(w, caller, Next(w, e));
      if Last(w.board, w.callers[caller].key) {
        LastIsAlone(w, caller);
      }
      AbandonFine(w, caller);
  }

  lemma StartSafe()
    ensures Safe(START)
  {
    forall k
      ensures Waiters(START.board, k, 0) == |Registered(START.callers, k)|
    {
      assert Registered(START.callers, k) == {};
    }
  }

  /** Counts, tasks and callers agree after every run. */
  lemma {:induction false} RunSafe(events: seq<Event>)
    requires Run(events).Some?
    ensures Safe(Run(events).value)
    decreases |events|
  {
    hide Safe, Next, Enabled;
    if |events| == 0 {
      StartSafe();
    } else {
      RunSafe(events[..|events| - 1]);
      StepSafe(Run(events[..|events| - 1]).value, events[|events| - 1]);
    }
  }

  /** One unfinished, uncancelled task per key, at most. */
  lemma OneRunningTask(w: World, s: nat, t: nat)
    requires Safe(w) && s < |w.tasks| && t < |w.tasks|
    requires w.tasks[s].phase.Running? && w.tasks[t].phase.Running? && w.tasks[s].key == w.tasks[t].key
    ensures s == t
  {
    hide Registered;
    assert Current(w.board, w.tasks[s].key, s) && Current(w.board, w.tasks[t].key, t);
  }

  lemma SomebodyElse(w: World, caller: nat)
    requires Counted(w) && caller in w.callers && Waiters(w.board, w.callers[caller].key, 1) > 1
    ensures exists d :: d in w.callers && w.callers[d].key == w.callers[caller].key && d != caller
  {
    var others := Registered(w.callers, w.callers[caller].key) - {caller};
    assert Registered(w.callers, w.callers[caller].key) <= others + {caller};
    SubsetSize(Registered(w.callers, w.callers[caller].key), others + {caller});
    assert others != {};
    var d :| d in others;
  }

  /** A leaving caller cancels its task exactly when the task still runs and no other
      caller is registered on the key; the task is then the key's current one. */
  lemma CancelsOnlyAlone(w: World, caller: nat)
    requires Safe(w) && Enabled(w, Abandons(caller))
    ensures var c := w.callers[caller];
            Next(w, Abandons(caller)).tasks[c.task].phase.Cancelling? <==>
            && w.tasks[c.task].phase.Running?
            && (forall d :: d in w.callers && w.callers[d].key == c.key ==> d == caller)
  {
    var c := w.callers[caller];
    RegisteredIsCounted(w, caller);
    if Last(w.board, c.key) {
      LastIsAlone(w, caller);
    } else {
      SomebodyElse(w, caller);
    }
  }

  // ------------------------------------------------------ a task without callers

  predicate NobodyOn(w: World, k: TaskKey) { forall c :: c in w.callers ==> w.callers[c].key != k }

  /** Some task still runs although no caller is registered on its key. */
  predicate Unclaimed(w: World) {
    exists t :: 0 <= t < |w.tasks| && w.tasks[t].phase.Running? && NobodyOn(w, w.tasks[t].key)
  }

  predicate Alone(w: World, caller: nat)
    requires caller in w.callers
  {
    forall c :: c in w.callers && w.callers[c].key == w.callers[caller].key ==> c == caller
  }

  /** The only caller on a key leaves while the key's current task, not the one it awaited,
      still runs. */
  predicate Deserts(w: World, e: Event) {
    && (e.Returns? || e.Abandons?)
    && e.caller in w.callers
    && Alone(w, e.caller)
    && var c := w.callers[e.caller];
    && c.key in w.board.tasks
    && w.board.tasks[c.key] != c.task
    && w.board.tasks[c.key] < |w.tasks|
    && w.tasks[w.board.tasks[c.key]].phase.Running?
  }

  lemma DesertedIsUnclaimed(w: World, e: Event)
    requires Safe(w) && Enabled(w, e) && Deserts(w, e)
    ensures Unclaimed(Next(w, e))
  {
    hide Registered, Counted;
    var c := w.callers[e.caller];
    var t := w.board.tasks[c.key];
    assert Next(w, e).tasks[t] == w.tasks[t];
    assert NobodyOn(Next(w, e), w.tasks[t].key);
  }

  /** A leaver that is alone with the current, running task cancels it. */
  lemma AloneCancels(w: World, caller: nat)
    requires Safe(w) && Enabled(w, Abandons(caller)) && Alone(w, caller)
    requires w.tasks[w.callers[caller].task].phase.Running?
    ensures Next(w, Abandons(caller)).tasks[w.callers[caller].task].phase.Cancelling?
  {
    hide Registered, Safe, Next;
    CancelsOnlyAlone(w, caller);
  }

  /** A key is left by its only caller. */
  lemma LastLeaves(w: World, e: Event, k: TaskKey)
    requires Enabled(w, e) && !NobodyOn(w, k) && NobodyOn(Next(w, e), k)
    ensures e.Returns? || e.Abandons?
    ensures e.caller in w.callers && w.callers[e.caller].key == k && Alone(w, e.caller)
  {
    var after := Next(w, e);
    var d :| d in w.callers && w.callers[d].key == k;
    assert d !in after.callers;
    assert forall c :: c in w.callers && c != d ==> c in after.callers && after.callers[c] == w.callers[c];
  }

  /** A task that runs after a step was there before, unless a caller just started it. */
  lemma RanBefore(w: World, e: Event, t: nat)
    requires Enabled(w, e) && t < |Next(w, e).tasks| && Next(w, e).tasks[t].phase.Running?
    requires NobodyOn(Next(w, e), Next(w, e).tasks[t].key)
    ensures t < |w.tasks| && w.tasks[t] == Next(w, e).tasks[t]
  {
    if e.Joins? {
      assert e.caller in Next(w, e).callers;
    }
  }

  lemma UnclaimedWasDeserted(w: World, e: Event)
    requires Safe(w) && Enabled(w, e) && !Unclaimed(w) && Unclaimed(Next(w, e))
    ensures Deserts(w, e)
  {
    var after := Next(w, e);
    var t :| 0 <= t < |after.tasks| && after.tasks[t].phase.Running? && NobodyOn(after, after.tasks[t].key);
    RanBefore(w, e, t);
    LastLeaves(w, e, w.tasks[t].key);
    hide Next, Counted, CallersFine, Alone, NobodyOn, Enabled;
    assert Current(w.board, w.tasks[t].key, t);
    if e.Abandons? && w.callers[e.caller].task == t {
      AloneCancels(w, e.caller);
    } else if e.Returns? && w.callers[e.caller].task == t {
      ReturnedHasEnded(w, e.caller);
    }
  }

  lemma ReturnedHasEnded(w: World, caller: nat)
    requires Enabled(w, Returns(caller))
    ensures !w.tasks[w.callers[caller].task].phase.Running?
  {
  }

  /** A step leaves the first unclaimed task exactly when it is such a desertion. */
  lemma UnclaimedExactly(w: World, e: Event)
    requires Safe(w) && Enabled(w, e) && !Unclaimed(w)
    ensures Unclaimed(Next(w, e)) <==> Deserts(w, e)
  {
    hide Safe, Next, Enabled, Deserts, Unclaimed;
    if Deserts(w, e) {
      DesertedIsUnclaimed(w, e);
    } else if Unclaimed(Next(w, e)) {
      UnclaimedWasDeserted(w, e);
    }
  }

  lemma {:induction false} RunPrefix(events: seq<Event>, k: nat)
    requires Run(events).Some? && k <= |events|
    ensures Run(events[..k]).Some?
    decreases |events|
  {
    hide Next, Enabled;
    if k == |events| {
      assert events[..k] == events;
    } else {
      RunPrefix(events[..|events| - 1], k);
      assert events[..|events| - 1][..k] == events[..k];
    }
  }

  /** The world before event `k`. */
  ghost function Before(events: seq<Event>, k: nat): World
    requires Run(events).Some? && k <= |events|
  {
    RunPrefix(events, k);
    Run(events[..k]).value
  }

  /** A run one event shorter sees the same worlds. */
  lemma BeforeFront(events: seq<Event>)
    requires Run(events).Some? && |events| > 0
    ensures Run(events[..|events| - 1]).Some?
    ensures forall k :: 0 <= k < |events| ==> Before(events, k) == Before(events[..|events| - 1], k)
  {
    hide Next, Enabled;
    var front := events[..|events| - 1];
    RunPrefix(events, |events| - 1);
    forall k | 0 <= k < |events|
      ensures Before(events, k) == Before(front, k)
    {
      assert front[..k] == events[..k];
    }
  }

  lemma BeforeLast(events: seq<Event>)
    requires Run(events).Some? && |events| > 0
    ensures var w, e := Before(events, |events| - 1), events[|events| - 1];
            Safe(w) && Enabled(w, e) && Before(events, |events|) == Next(w, e)
  {
    hide Safe, Next, Enabled;
    RunSafe(events[..|events| - 1]);
    assert events[..|events|] == events;
  }

  /** Over a whole run every running task always has a caller on its key exactly when no
      step is a desertion. */
  lemma {:induction false} AlwaysClaimedExactly(events: seq<Event>)
    requires Run(events).Some?
    ensures (forall k :: 0 <= k <= |events| ==> !Unclaimed(Before(events, k)))
       <==> (forall k :: 0 <= k < |events| ==> !Deserts(Before(events, k), events[k]))
    decreases |events|
  {
    hide Safe, Next, Enabled, Unclaimed, Deserts;
    if |events| == 0 {
      NothingUnclaimed();
    } else {
      hide Run, Before;
      var n := |events| - 1;
      var front := events[..n];
      BeforeFront(events);
      BeforeLast(events);
      AlwaysClaimedExactly(front);
      if !Unclaimed(Before(events, n)) {
        UnclaimedExactly(Before(events, n), events[n]);
      }
    }
  }

  // ------------------------------------------------------- a task nobody awaits

  predicate Awaited(callers: map<nat, Caller>, t: nat) { exists c :: c in callers && callers[c].task == t }

  /** Some task runs on although no caller waits for it. */
  predicate Unawaited(w: World) {
    exists t :: 0 <= t < |w.tasks| && w.tasks[t].phase.Running? && !Awaited(w.callers, t)
  }

  /** The only caller awaiting a running task is cancelled, while a caller of an earlier task
      is still registered on the key. */
  predicate Strays(w: World, e: Event) {
    && e.Abandons? && e.caller in w.callers
    && var c := w.callers[e.caller];
    && c.task < |w.tasks| && w.tasks[c.task].phase.Running?
    && (forall d :: d in w.callers && w.callers[d].task == c.task ==> d == e.caller)
    && (exists d :: d in w.callers && w.callers[d].key == c.key && d != e.caller)
  }

  lemma StraysUnawaited(w: World, e: Event)
    requires Safe(w) && Enabled(w, e) && Strays(w, e)
    ensures Unawaited(Next(w, e))
  {
    hide Registered, Counted;
    var t := w.callers[e.caller].task;
    CancelsOnlyAlone(w, e.caller);
    assert Next(w, e).tasks[t] == w.tasks[t];
    assert !Awaited(Next(w, e).callers, t);
  }

  /** A caller that stays keeps its task awaited. */
  lemma StaysAwaited(w: World, e: Event, t: nat, c: nat)
    requires Enabled(w, e) && c in w.callers && w.callers[c].task == t
    ensures Awaited(Next(w, e).callers, t) || ((e.Returns? || e.Abandons?) && e.caller == c)
  {
    if !((e.Returns? || e.Abandons?) && e.caller == c) {
      assert c in Next(w, e).callers && Next(w, e).callers[c] == w.callers[c];
    }
  }

  lemma UnawaitedStrayed(w: World, e: Event)
    requires Safe(w) && Enabled(w, e) && !Unawaited(w) && Unawaited(Next(w, e))
    ensures Strays(w, e)
  {
    hide Counted, TasksFine, CallersFine;
    var after := Next(w, e);
    var t :| 0 <= t < |after.tasks| && after.tasks[t].phase.Running? && !Awaited(after.callers, t);
    if e.Joins? {
      assert after.callers[e.caller].task != t;
    }
    assert t < |w.tasks| && w.tasks[t].phase.Running? && Awaited(w.callers, t);
    var c :| c in w.callers && w.callers[c].task == t;
    StaysAwaited(w, e, t, c);
    forall d | d in w.callers && w.callers[d].task == t
      ensures d == e.caller
    {
      StaysAwaited(w, e, t, d);
    }
    if e.Abandons? {
      CancelsOnlyAlone(w, e.caller);
    }
  }

  /** A step leaves the first running task that nobody awaits exactly when it is such a
      cancellation. */
  lemma UnawaitedExactly(w: World, e: Event)
    requires Safe(w) && Enabled(w, e) && !Unawaited(w)
    ensures Unawaited(Next(w, e)) <==> Strays(w, e)
  {
    hide Safe, Next, Enabled, Strays, Unawaited;
    if Strays(w, e) {
      StraysUnawaited(w, e);
    } else if Unawaited(Next(w, e)) {
      UnawaitedStrayed(w, e);
    }
  }

  /** Over a whole run every running task is always awaited exactly when no step is one. */
  lemma {:induction false} AlwaysAwaitedExactly(events: seq<Event>)
    requires Run(events).Some?
    ensures (forall k :: 0 <= k <= |events| ==> !Unawaited(Before(events, k)))
       <==> (forall k :: 0 <= k < |events| ==> !Strays(Before(events, k), events[k]))
    decreases |events|
  {
    hide Safe, Next, Enabled, Unawaited, Strays;
    if |events| == 0 {
      NothingUnclaimed();
    } else {
      hide Run, Before;
      var n := |events| - 1;
      var front := events[..n];
      BeforeFront(events);
      BeforeLast(events);
      AlwaysAwaitedExactly(front);
      if !Unawaited(Before(events, n)) {
        UnawaitedExactly(Before(events, n), events[n]);
      }
    }
  }

  lemma NothingUnclaimed()
    ensures !Unclaimed(START) && !Unawaited(START)
  {
  }

  function Flying(k: TaskKey): World {
    World(Board(map[k := 0], map[k := 2]), [Task(k, Running)], map[0 := Caller(k, 0), 1 := Caller(k, 0)])
  }

  function Landed(k: TaskKey): World {
    World(Board(map[], map[k := 1]), [Task(k, Done)], map[1 := Caller(k, 0)])
  }

  function Again(k: TaskKey): World {
    World(Board(map[k := 1], map[k := 2]), [Task(k, Done), Task(k, Running)],
          map[1 := Caller(k, 0), 2 := Caller(k, 1)])
  }

  function Orphaned(k: TaskKey): World {
    World(Board(map[k := 1], map[]), [Task(k, Done), Task(k, Running)], map[])
  }

  lemma TakeOff(k: TaskKey)
    ensures var w := Next(START, Joins(0, k));
            Enabled(START, Joins(0, k)) && Enabled(w, Joins(1, k)) && Next(w, Joins(1, k)) == Flying(k)
  {
  }

  lemma Land(k: TaskKey)
    ensures Enabled(Flying(k), Finishes(0, true))
    ensures var w := Next(Flying(k), Finishes(0, true));
            Enabled(w, Returns(0)) && Next(w, Returns(0)) == Landed(k)
  {
    var w := Next(Flying(k), Finishes(0, true));
    assert w.tasks == [Task(k, Done)];
    assert w.callers - {0} == map[1 := Caller(k, 0)];
    assert w.board.tasks - {k} == map[];
  }

  lemma Rejoin(k: TaskKey)
    ensures Enabled(Landed(k), Joins(2, k)) && Next(Landed(k), Joins(2, k)) == Again(k)
  {
  }

  lemma Desert(k: TaskKey)
    ensures Enabled(Again(k), Abandons(2)) && Strays(Again(k), Abandons(2))
    ensures var w := Next(Again(k), Abandons(2));
            Enabled(w, Returns(1)) && Next(w, Returns(1)) == Orphaned(k)
  {
    var w := Next(Again(k), Abandons(2));
    assert w.callers == map[1 := Caller(k, 0)];
    assert w.board == Board(map[k := 1], map[k := 1]);
    assert w.callers - {1} == map[];
    assert w.board.waiters - {k} == map[];
    assert Again(k).callers[1].key == k;
  }

  /** A task can outlive all its callers: the last one to join leaves while a caller of an
      earlier, finished task is still registered on the key. */
  lemma TaskWithoutCallers(k: TaskKey)
    ensures Run([Joins(0, k), Joins(1, k)] + [Finishes(0, true), Returns(0)] + [Joins(2, k)]) == Some(Again(k))
    ensures Strays(Again(k), Abandons(2))
    ensures Run([Joins(0, k), Joins(1, k)] + [Finishes(0, true), Returns(0)] + [Joins(2, k)]
                + [Abandons(2), Returns(1)]) == Some(Orphaned(k))
    ensures Unclaimed(Orphaned(k))
  {
    assert Orphaned(k).tasks[1].phase.Running?;
    hide Run, Next, Enabled;
    TakeOff(k);
    Land(k);
    Rejoin(k);
    Desert(k);
    assert Run([]) == Some(START) by { NoEvents(); }
    var e2 := [Joins(0, k), Joins(1, k)];
    var e4 := e2 + [Finishes(0, true), Returns(0)];
    var e5 := e4 + [Joins(2, k)];
    TwoMore([], START, Joins(0, k), Joins(1, k));
    assert [] + [Joins(0, k), Joins(1, k)] == e2;
    TwoMore(e2, Flying(k), Finishes(0, true), Returns(0));
    OneMore(e4, Landed(k), Joins(2, k));
    TwoMore(e5, Again(k), Abandons(2), Returns(1));
  }

  lemma NoEvents()
    ensures Run([]) == Some(START)
  {
  }

  lemma OneMore(events: seq<Event>, before: World, e: Event)
    requires Run(events) == Some(before) && Enabled(before, e)
    ensures Run(events + [e]) == Some(Next(before, e))
  {
    hide Next, Enabled;
    assert (events + [e])[..|events|] == events;
  }

  lemma TwoMore(events: seq<Event>, before: World, e: Event, f: Event)
    requires Run(events) == Some(before) && Enabled(before, e) && Enabled(Next(before, e), f)
    ensures Run(events + [e, f]) == Some(Next(Next(before, e), f))
  {
    hide Next, Enabled;
    OneMore(events, before, e);
    OneMore(events + [e], Next(before, e), f);
    assert events + [e] + [f] == events + [e, f];
  }
}
