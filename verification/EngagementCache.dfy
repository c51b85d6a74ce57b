/**
  The engagement service's `_fetch_cached`: the ordered result dictionary with its byte
  counter, and the dictionaries of shared tasks and waiter counts, updated in place.
 */
module EngagementCache {
  import opened ResultCache
  import opened SingleFlight
  import opened Wrappers

  datatype Entrance = Hit(value: string) | Awaits(task: nat)

  class EngagementService {
    const limits: Limits
    var resultCache: seq<Entry>
    var cacheSizeBytes: nat
    var resultTasks: map<TaskKey, nat>
    var resultWaiters: map<TaskKey, nat>

    ghost predicate Valid()
      reads this
    {
      && cacheSizeBytes == Total(resultCache)
      && Within(limits, resultCache)
    }

    ghost function Shared(): Board
      reads this
    {
      Board(resultTasks, resultWaiters)
    }

    constructor (limits: Limits)
      requires limits.Accepted()
      ensures Valid() && this.limits == limits
      ensures resultCache == [] && Shared() == Board(map[], map[])
    {
      this.limits := limits;
      resultCache, cacheSizeBytes := [], 0;
      resultTasks, resultWaiters := map[], map[];
    }

    // ---------------------------------------------------------------- the dictionary

    method DropStale(now: real)
      requires cacheSizeBytes == Total(resultCache)
      modifies this`resultCache, this`cacheSizeBytes
      ensures resultCache == old(resultCache)[Stale(old(resultCache), now)..]
      ensures cacheSizeBytes == Total(resultCache)
    {
      ghost var was := resultCache;
      ghost var k := 0;
      while |resultCache| > 0 && resultCache[0].expires <= now
        invariant 0 <= k <= |was| && resultCache == was[k..]
        invariant Stale(was, now) == k + Stale(resultCache, now)
        invariant cacheSizeBytes == Total(resultCache)
        decreases |resultCache|
      {
        cacheSizeBytes := cacheSizeBytes - resultCache[0].size;
        resultCache := resultCache[1..];
        k := k + 1;
      }
    }

    method Position(key: string) returns (found: Option<nat>)
      ensures found == IndexOf(resultCache, key)
    {
      hide IndexOf;
      var i := 0;
      assert resultCache[0..] == resultCache;
      while i < |resultCache|
        invariant 0 <= i <= |resultCache|
        invariant IndexOf(resultCache, key) == Shift(IndexOf(resultCache[i..], key), i)
      {
        IndexOfNext(resultCache, i, key);
        if resultCache[i].key == key {
          return Some(i);
        }
        i := i + 1;
      }
      return None;
    }

    method Find(key: string, now: real) returns (value: Option<string>)
      requires cacheSizeBytes == Total(resultCache)
      modifies this`resultCache, this`cacheSizeBytes
      ensures (resultCache, value) == Lookup(old(resultCache), key, now)
      ensures cacheSizeBytes == Total(resultCache)
    {
      hide Stale, IndexOf, Total;
      DropStale(now);
      var found := Position(key);
      if found.None? || resultCache[found.value].expires <= now {
        return None;
      }
      var e := resultCache[found.value];
      TotalOfRemove(resultCache, found.value);
      TotalOfAppend(RemoveAt(resultCache, found.value), [e]);
      OneTotal(e);
      resultCache := resultCache[..found.value] + resultCache[found.value + 1..] + [e];
      return Some(e.value);
    }

    method EvictOldest()
      requires cacheSizeBytes == Total(resultCache)
      modifies this`resultCache, this`cacheSizeBytes
      ensures resultCache == Evict(limits, old(resultCache))
      ensures Valid()
    {
      ghost var was := resultCache;
      ghost var k := 0;
      while |resultCache| > limits.maxEntries || cacheSizeBytes > limits.maxBytes
        invariant 0 <= k <= |was| && resultCache == was[k..]
        invariant Excess(limits, was) == k + Excess(limits, resultCache)
        invariant cacheSizeBytes == Total(resultCache)
        decreases |resultCache|
      {
        cacheSizeBytes := cacheSizeBytes - resultCache[0].size;
        resultCache := resultCache[1..];
        k := k + 1;
      }
    }

    method Keep(e: Entry)
      requires Valid()
      modifies this`resultCache, this`cacheSizeBytes
      ensures Valid()
      ensures resultCache == Store(limits, old(resultCache), e)
    {
      hide IndexOf, Total, Excess;
      var found := Position(e.key);
      if found.Some? {
        TotalOfRemove(resultCache, found.value);
        cacheSizeBytes := cacheSizeBytes - resultCache[found.value].size;
        resultCache := resultCache[..found.value] + resultCache[found.value + 1..];
      }
      TotalOfAppend(resultCache, [e]);
      OneTotal(e);
      resultCache := resultCache + [e];
      cacheSizeBytes := cacheSizeBytes + e.size;
      EvictOldest();
    }

    // ------------------------------------------------------------------ shared tasks

    /** A caller enters: it is served from the cache or registered on the key's task, which
        is `newTask` if there is none yet. */
    method Enter(key: string, reserved: bool, newTask: nat, now: real) returns (entrance: Entrance)
      requires Valid()
      modifies this
      ensures Valid()
      ensures resultCache == Lookup(old(resultCache), key, now).0
      ensures match Lookup(old(resultCache), key, now).1
              case Some(value) => entrance == Hit(value) && Shared() == old(Shared())
              case None =>
                && Shared() == Join(old(Shared()), TaskKey(key, reserved), newTask)
                && entrance == Awaits(resultTasks[TaskKey(key, reserved)])
    {
      hide Total;
      ghost var was := resultCache;
      var value := Find(key, now);
      LookupFits(limits, was, key, now);
      if value.Some? {
        return Hit(value.value);
      }
      var taskKey := TaskKey(key, reserved);
      if taskKey !in resultTasks {
        resultTasks := resultTasks[taskKey := newTask];
      }
      var waiting := if taskKey in resultWaiters then resultWaiters[taskKey] else 0;
      resultWaiters := resultWaiters[taskKey := waiting + 1];
      return Awaits(resultTasks[taskKey]);
    }

    method Withdraw(taskKey: TaskKey) returns (last: bool)
      modifies this`resultWaiters
      ensures Shared() == Unregister(old(Shared()), taskKey)
      ensures last == Last(old(Shared()), taskKey)
    {
      var waiting := if taskKey in resultWaiters then resultWaiters[taskKey] else 1;
      last := waiting <= 1;
      if last {
        resultWaiters := resultWaiters - {taskKey};
      } else {
        resultWaiters := resultWaiters[taskKey := waiting - 1];
      }
    }

    method ForgetTask(taskKey: TaskKey, task: nat) returns (forgotten: bool)
      modifies this`resultTasks
      ensures forgotten == Current(old(Shared()), taskKey, task)
      ensures resultTasks == if forgotten then old(resultTasks) - {taskKey} else old(resultTasks)
    {
      forgotten := taskKey in resultTasks && resultTasks[taskKey] == task;
      if forgotten {
        resultTasks := resultTasks - {taskKey};
      }
    }

    /** The caller was cancelled; `true` when it must cancel the task. */
    method LeaveOnCancel(taskKey: TaskKey, task: nat, done: bool) returns (cancelTask: bool)
      modifies this`resultWaiters, this`resultTasks
      ensures (Shared(), cancelTask) == LeaveCancelled(old(Shared()), taskKey, task, done)
    {
      cancelTask := false;
      var last := Withdraw(taskKey);
      if last {
        var forgotten := ForgetTask(taskKey, task);
        if forgotten {
          cancelTask := !done;
        }
      }
    }

    /** The task raised. */
    method LeaveOnError(taskKey: TaskKey, task: nat)
      modifies this`resultWaiters, this`resultTasks
      ensures Shared() == LeaveFinished(old(Shared()), taskKey, task)
    {
      var last := Withdraw(taskKey);
      var forgotten := ForgetTask(taskKey, task);
    }

    /** The task returned a result of `size` bytes, worth keeping for `ttl` seconds. */
    method LeaveWithResult(taskKey: TaskKey, task: nat, value: string, size: nat, ttl: real, now: real)
      requires Valid()
      modifies this
      ensures Valid()
      ensures Shared() == LeaveFinished(old(Shared()), taskKey, task)
      ensures resultCache ==
        if ttl > 0.0
        then Store(limits, old(resultCache), Entry(taskKey.key, now + ttl, size, value))
        else old(resultCache)
    {
      hide Total, Store;
      LeaveOnError(taskKey, task);
      if ttl > 0.0 {
        Keep(Entry(taskKey.key, now + ttl, size, value));
      }
    }
  }

  function Shift(r: Option<nat>, places: nat): Option<nat> {
    match r
    case None => None
    case Some(k) => Some(places + k)
  }

  lemma IndexOfNext(entries: seq<Entry>, i: nat, key: string)
    requires i < |entries|
    ensures IndexOf(entries[i..], key) ==
            if entries[i].key == key then Some(0) else Shift(IndexOf(entries[i + 1..], key), 1)
  {
    assert entries[i..][1..] == entries[i + 1..];
  }

  /** A look-up never grows the cache. */
  lemma LookupFits(limits: Limits, entries: seq<Entry>, key: string, now: real)
    requires Within(limits, entries)
    ensures Within(limits, Lookup(entries, key, now).0)
  {
    hide Stale, IndexOf, Total;
    var k := Stale(entries, now);
    var live := entries[k..];
    TotalOfAppend(entries[..k], live);
    assert entries == entries[..k] + live;
    if i: nat :| IndexOf(live, key) == Some(i) {
      TotalOfRemove(live, i);
      TotalOfAppend(RemoveAt(live, i), [live[i]]);
      OneTotal(live[i]);
    }
  }
}
