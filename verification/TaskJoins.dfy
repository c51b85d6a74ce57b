/** Which task a caller joins. */
module TaskJoins {
  import opened SingleFlight
  import opened Wrappers

  /** A caller joins the task the key stands for, or starts a new one that runs. */
  lemma JoinsExactly(w: World, caller: nat, k: TaskKey)
    requires Safe(w) && Enabled(w, Joins(caller, k))
    ensures var after := Next(w, Joins(caller, k));
            && caller in after.callers && after.callers[caller].key == k
            && k in after.board.tasks && after.callers[caller].task == after.board.tasks[k]
            && (k in w.board.tasks ==> after.tasks == w.tasks && after.board.tasks == w.board.tasks)
            && (k !in w.board.tasks ==>
                  && after.tasks == w.tasks + [Task(k, Running)]
                  && after.board.tasks == w.board.tasks[k := |w.tasks|])
            && (forall c :: c in w.callers ==> c in after.callers && after.callers[c] == w.callers[c])
  {
    hide Counted;
  }

  /** No key stands for the task any more. */
  predicate Forgotten(w: World, t: nat) {
    t < |w.tasks| && forall k :: k in w.board.tasks ==> w.board.tasks[k] != t
  }

  lemma StepForgotten(w: World, e: Event, t: nat)
    requires Enabled(w, e) && Forgotten(w, t)
    ensures Forgotten(Next(w, e), t)
  {
    hide Waiters;
  }

  lemma ReturnForgets(w: World, caller: nat)
    requires Safe(w) && Enabled(w, Returns(caller))
    ensures Forgotten(Next(w, Returns(caller)), w.callers[caller].task)
  {
    hide Counted, Waiters;
  }

  lemma {:induction false} RunForgotten(events: seq<Event>, from: nat, t: nat)
    requires Run(events).Some? && from <= |events| && Forgotten(Before(events, from), t)
    ensures Forgotten(Before(events, |events|), t)
    decreases |events|
  {
    hide Next, Enabled, Forgotten, Run, Before;
    if from < |events| {
      BeforeFront(events);
      BeforeLast(events);
      RunForgotten(events[..|events| - 1], from, t);
      StepForgotten(Before(events, |events| - 1), events[|events| - 1], t);
    }
  }

  lemma PrefixBefore(events: seq<Event>, j: nat, k: nat)
    requires Run(events).Some? && k <= j <= |events|
    ensures Run(events[..j]).Some? && Before(events[..j], k) == Before(events, k)
  {
    hide Next, Enabled;
    RunPrefix(events, j);
    assert events[..j][..k] == events[..k];
  }

  /** Over any run: once some caller has been given a task's result, nobody joins that task
      any more. */
  lemma ReturnedIsNotJoined(events: seq<Event>, i: nat, j: nat)
    requires Run(events).Some? && i < j < |events|
    requires events[i].Returns? && events[j].Joins?
    requires events[i].caller in Before(events, i).callers
    ensures events[j].caller in Before(events, j + 1).callers
    ensures Before(events, j + 1).callers[events[j].caller].task != Before(events, i).callers[events[i].caller].task
  {
    hide Next, Enabled, Forgotten, Run, Before, Safe;
    PrefixBefore(events, i + 1, i);
    PrefixBefore(events, i + 1, i + 1);
    PrefixBefore(events, j + 1, j);
    PrefixBefore(events, j + 1, j + 1);
    PrefixBefore(events, j + 1, i + 1);
    BeforeLast(events[..i + 1]);
    BeforeLast(events[..j + 1]);
    ReturnForgets(Before(events, i), events[i].caller);
    RunForgotten(events[..j + 1], i + 1, Before(events, i).callers[events[i].caller].task);
    JoinsExactly(Before(events, j), events[j].caller, events[j].key);
    ForgottenIsNotJoined(Before(events, j + 1), events[j].key, Before(events, i).callers[events[i].caller].task);
  }

  lemma ForgottenIsNotJoined(w: World, k: TaskKey, t: nat)
    requires Forgotten(w, t) && k in w.board.tasks
    ensures w.board.tasks[k] != t
  {
  }
}
