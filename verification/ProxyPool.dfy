/**
  The proxy pool itself. Each method is one critical section under the pool's condition
  and is proved to do what the state machine of PoolModel says.
 */
module ProxyPool {
  import opened PoolModel
  import opened ProxySlots
  import opened Wrappers

  /** The supplier's endpoints live three minutes. */
  const IP_TTL_MINUTES := 3

  class AsyncProxyPool {
    const config: Config
    var slots: seq<Slot>
    var fetching: bool
    var retiredUntil: map<Endpoint, real>
    var affinitySlots: map<string, Endpoint>
    var stats: Stats
    /** How many callers wait on the condition. */
    var waiting: nat
    /** The mappings that are out, and the endpoints on order. */
    ghost var held: multiset<Mapping>
    ghost var pending: nat

    ghost function State(): Pool
      reads this
    {
      Pool(slots, fetching, retiredUntil, affinitySlots, stats)
    }

    ghost function Now(): World
      reads this
    {
      World(State(), held, waiting, pending)
    }

    constructor (config: Config)
      ensures this.config == config && Now() == START
    {
      this.config := config;
      slots, fetching, retiredUntil, affinitySlots := [], false, map[], map[];
      stats := Stats(0, 0, 0, 0, 0, 0, 0, 0);
      waiting, held, pending := 0, multiset{}, 0;
    }

    /** A pool for the configuration and the supplier's address, stripped of blanks, or
        nothing where the source raises: the pool's own checks come first, then the
        provider's. */
    static method Create(config: Config, apiUrl: string) returns (r: Option<AsyncProxyPool>)
      ensures r.Some? <==> config.Accepted() && config.minutes == IP_TTL_MINUTES && apiUrl != ""
      ensures r.Some? ==> fresh(r.value) && r.value.config == config && r.value.Now() == START
    {
      if config.poolSize == 0 || config.poolSize > 200 || config.maxConcurrency == 0
         || (config.optimized && config.maxConcurrency > 20) || config.refillBatch == 0 {
        return None;
      }
      if config.minutes != IP_TTL_MINUTES || apiUrl == "" {
        return None;
      }
      var pool := new AsyncProxyPool(config);
      r := Some(pool);
    }

    // ------------------------------------------------------------------- sums

    method ActiveCount() returns (n: nat)
      ensures n == Active(slots)
    {
      n := 0;
      var i := 0;
      while i < |slots|
        invariant 0 <= i <= |slots|
        invariant n == Active(slots[..i])
      {
        assert slots[..i + 1][..i] == slots[..i];
        if !slots[i].draining {
          n := n + 1;
        }
        i := i + 1;
      }
      assert slots[..i] == slots;
    }

    method InFlightTotal() returns (n: nat)
      ensures n == Leases(slots)
    {
      n := 0;
      var i := 0;
      while i < |slots|
        invariant 0 <= i <= |slots|
        invariant n == Leases(slots[..i])
      {
        assert slots[..i + 1][..i] == slots[..i];
        n := n + slots[i].inFlight;
        i := i + 1;
      }
      assert slots[..i] == slots;
    }

    method FindSlot(proxies: Mapping) returns (found: Option<nat>)
      ensures found == Find(slots, proxies)
    {
      hide Find;
      var i := 0;
      while i < |slots|
        invariant 0 <= i <= |slots|
        invariant forall k :: 0 <= k < i ==> slots[k].proxies != proxies
      {
        if slots[i].proxies == proxies {
          assert slots[i] in slots;
          return Some(i);
        }
        i := i + 1;
      }
      return None;
    }

    // --------------------------------------------------------------- selection

    method MarkExpired(now: real)
      modifies this`slots, this`stats
      ensures slots == Mark(old(slots), now)
      ensures stats == old(stats).(expired := old(stats.expired) + Expiring(old(slots), now))
    {
      hide Active, Leases;
      ghost var was := slots;
      var count, i := 0, 0;
      while i < |slots|
        invariant 0 <= i <= |slots| == |was|
        invariant forall k :: 0 <= k < i ==> slots[k] == Marked(was[k], now)
        invariant forall k :: i <= k < |was| ==> slots[k] == was[k]
        invariant count == Active(was) - Active(slots)
        invariant stats == old(stats)
      {
        if now >= slots[i].expireAt && !slots[i].draining {
          LeasesOfUpdate(slots, i, slots[i].(draining := true));
          slots := slots[i := slots[i].(draining := true)];
          count := count + 1;
        }
        i := i + 1;
      }
      assert slots == Mark(was, now);
      stats := stats.(expired := stats.expired + count);
    }

    method RemoveGone()
      modifies this`slots
      ensures slots == Sweep(old(slots))
    {
      var kept, i := [], 0;
      while i < |slots|
        invariant 0 <= i <= |slots|
        invariant slots == old(slots)
        invariant kept == Sweep(slots[..i])
      {
        assert slots[..i + 1][..i] == slots[..i];
        if !(slots[i].draining && slots[i].inFlight == 0) {
          kept := kept + [slots[i]];
        }
        i := i + 1;
      }
      assert slots[..i] == slots;
      slots := kept;
    }

    method MarkExpiredAndCleanup(now: real)
      modifies this`slots, this`stats, this`retiredUntil
      ensures State() == Cleanup(old(State()), now)
    {
      hide Sweep, Mark, Expiring;
      MarkExpired(now);
      RemoveGone();
      retiredUntil := map e | e in retiredUntil && retiredUntil[e] > now :: retiredUntil[e];
    }

    method MostAvailable(req: Requirements, purpose: Purpose, now: real) returns (best: Option<nat>)
      ensures best == Best(config, req, purpose, slots, now)
    {
      hide Fits, Before, Best;
      best := None;
      var i := 0;
      BestOfNone(config, req, purpose, now);
      while i < |slots|
        invariant 0 <= i <= |slots|
        invariant best == Best(config, req, purpose, slots[..i], now)
      {
        BestOfNext(config, req, purpose, slots, i, now);
        if Fits(config, req, purpose, slots[i], now)
           && (best.None? || Before(slots[i], slots[best.value]))
        {
          best := Some(i);
        }
        i := i + 1;
      }
      assert slots[..i] == slots;
    }

    method PinnedSlot(req: Requirements, e: Endpoint, now: real) returns (found: Option<nat>)
      ensures found == Pinned(config, req, slots, e, now)
    {
      hide Fits, Pinned;
      var i := 0;
      while i < |slots|
        invariant 0 <= i <= |slots|
        invariant forall k :: 0 <= k < i && slots[k].endpoint == e ==> !Fits(config, req, Lend, slots[k], now)
      {
        if slots[i].endpoint == e && Fits(config, req, Lend, slots[i], now) {
          assert slots[i] in slots;
          return Some(i);
        }
        i := i + 1;
      }
      return None;
    }

    method SelectAvailableSlot(req: Requirements, affinity: string, now: real) returns (choice: Option<nat>)
      modifies this`slots, this`stats, this`retiredUntil, this`affinitySlots
      ensures (State(), choice) == Select(config, old(State()), req, affinity, now)
      ensures fetching == old(fetching)
      ensures choice.Some? ==> choice.value < |slots|
    {
      hide Fits, Best, Pinned, Cleanup;
      MarkExpiredAndCleanup(now);
      if affinity != "" && affinity in affinitySlots {
        choice := PinnedSlot(req, affinitySlots[affinity], now);
        if choice.Some? {
          affinitySlots := affinitySlots[affinity := slots[choice.value].endpoint];
          return;
        }
      }
      choice := MostAvailable(req, Lend, now);
      if choice.Some? && affinity != "" {
        affinitySlots := affinitySlots[affinity := slots[choice.value].endpoint];
      }
    }

    method ReplaceIneligibleIdleSlot(req: Requirements, now: real)
      modifies this`slots, this`stats, this`retiredUntil
      ensures State() == ReplaceIdle(config, old(State()), req, now)
    {
      hide Fits, Best, Cleanup;
      var idle := MostAvailable(req, Replace, now);
      if idle.Some? {
        var s := slots[idle.value];
        slots := slots[idle.value := s.(draining := true)];
        retiredUntil := retiredUntil[s.endpoint := Retirement(config, s, now)];
        stats := stats.(replaced := stats.replaced + 1);
        MarkExpiredAndCleanup(now);
      }
    }

    // --------------------------------------------------------------- borrowing

    method AssignLease(i: nat, req: Requirements) returns (proxies: Mapping)
      requires i < |slots|
      modifies this`slots, this`stats
      ensures State() == Grant(config, old(State()), i, req)
      ensures proxies == old(slots[i].proxies)
    {
      var s := slots[i];
      s := s.(inFlight := s.inFlight + 1);
      if config.optimized {
        s := s.(exclusive := req.exclusive);
      }
      slots := slots[i := s];
      stats := stats.(leases := stats.leases + 1);
      var total := InFlightTotal();
      if total > stats.peak {
        stats := stats.(peak := total);
      }
      return s.proxies;
    }

    method ReplaceOrRefillOrWait(req: Requirements, now: real) returns (outcome: Outcome)
      modifies this`slots, this`stats, this`retiredUntil, this`fetching
      ensures (State(), outcome) == Wait(config, old(State()), req, now)
      ensures !outcome.Granted?
    {
      hide ReplaceIdle, Active;
      var active := ActiveCount();
      if config.optimized && !fetching && active >= config.poolSize {
        ReplaceIneligibleIdleSlot(req, now);
        active := ActiveCount();
      }
      if !fetching && active < config.poolSize {
        fetching := true;
        var count := config.poolSize - active;
        if config.optimized && config.refillBatch < count {
          count := config.refillBatch;
        }
        return Refill(count);
      }
      return Parked;
    }

    /** One pass of `get_requests_proxies` up to the lease, the supplier or the wait. */
    method GetRequestsProxies(req: Requirements, affinity: string, now: real, later: real)
      returns (outcome: Outcome)
      modifies this
      ensures outcome == Borrow(config, old(State()), req, affinity, now, later).1
      ensures Now() == Next(config, old(Now()), Borrowed(req, affinity, now, later))
    {
      hide Select, Grant, Wait, Next;
      BorrowedNext(config, Now(), req, affinity, now, later);
      var choice := SelectAvailableSlot(req, affinity, now);
      if choice.Some? {
        var proxies := AssignLease(choice.value, req);
        held := held + multiset{proxies};
        return Granted(proxies);
      }
      outcome := ReplaceOrRefillOrWait(req, later);
      match outcome
      case Refill(count) => pending := count;
      case Parked => waiting := waiting + 1;
      case Granted(_) => assert false;
    }

    /** A caller is cancelled while it waits. */
    method LeaveWait()
      requires waiting > 0
      modifies this`waiting
      ensures Now() == Next(config, old(Now()), Abandoned)
    {
      waiting := waiting - 1;
    }

    // --------------------------------------------------------------- refilling

    method AppendOne(existing: set<Endpoint>, e: Endpoint, expireAt: real, now: real) returns (added: bool)
      requires existing == Endpoints(slots)
      modifies this`slots, this`stats
      ensures State() == Add(config, old(State()), e, expireAt, now)
      ensures Endpoints(slots) == if added then existing + {e} else existing
    {
      KnownIsListed(slots, e);
      if e in existing || (config.optimized && e in retiredUntil && retiredUntil[e] > now) {
        return false;
      }
      EndpointsOfAppend(slots, FreshSlot(e, expireAt));
      slots := slots + [FreshSlot(e, expireAt)];
      stats := stats.(added := stats.added + 1);
      return true;
    }

    method AppendFetched(endpoints: seq<Endpoint>, started: real, jitter: nat -> real, now: real)
      modifies this`slots, this`stats
      ensures State() == Merge(config, old(State()), endpoints, started, jitter, now)
    {
      hide Deadline, Merge, Add, Known;
      ghost var was := State();
      MergeOfNone(config, was, endpoints[..0], started, jitter, now);
      var existing := Endpoints(slots);
      var i := 0;
      while i < |endpoints|
        invariant 0 <= i <= |endpoints|
        invariant State() == Merge(config, was, endpoints[..i], started, jitter, now)
        invariant existing == Endpoints(slots)
      {
        MergeOfNext(config, was, endpoints, i, started, jitter, now);
        var added := AppendOne(existing, endpoints[i], Deadline(config, started, jitter(i), now), now);
        if added {
          existing := existing + {endpoints[i]};
        }
        i := i + 1;
      }
      assert endpoints[..i] == endpoints;
    }

    /** The supplier's answer arrives; `true` when the refiller gives up. */
    method FetchArrived(endpoints: seq<Endpoint>, req: Requirements, affinity: string,
                        started: real, jitter: nat -> real, now: real) returns (givesUp: bool)
      modifies this`slots, this`stats, this`retiredUntil, this`affinitySlots, this`pending
      ensures givesUp == Deliver(config, old(State()), endpoints, req, affinity, started, jitter, now).1
      ensures Now() == Next(config, old(Now()), Delivered(endpoints, req, affinity, started, jitter, now))
    {
      hide Merge, Select;
      pending := 0;
      var before := stats.added;
      AppendFetched(endpoints, started, jitter, now);
      if stats.added == before || config.optimized {
        var choice := SelectAvailableSlot(req, affinity, now);
        return choice.None?;
      }
      return false;
    }

    /** The end of the refill, whatever became of it: the waiting callers are woken. */
    method FetchFinished()
      modifies this`fetching, this`waiting, this`pending
      ensures Now() == Next(config, old(Now()), FetchEnded)
    {
      fetching, pending := false, 0;
      waiting := 0;
    }

    // --------------------------------------------------------------- returning

    method SettleSuccess(proxies: Mapping, now: real) returns (found: bool)
      modifies this`slots, this`stats, this`retiredUntil
      ensures State() == Succeed(config, old(State()), proxies, now)
      ensures found == Find(old(slots), proxies).Some?
    {
      hide Find, Cleanup;
      var i := FindSlot(proxies);
      if i.None? {
        return false;
      }
      var s := Released(slots[i.value]);
      if config.optimized && s.cooldownUntil <= now && s.transportErrors > 0 {
        s := s.(transportErrors := s.transportErrors - 1);
      }
      slots := slots[i.value := s];
      stats := stats.(successes := stats.successes + 1);
      MarkExpiredAndCleanup(now);
      return true;
    }

    /** A return that finds its slot wakes the waiting callers. */
    method OnSuccessFor(proxies: Mapping, now: real)
      modifies this`slots, this`stats, this`retiredUntil, this`waiting, this`held
      ensures Now() == Next(config, old(Now()), Succeeded(proxies, now))
    {
      hide Find, Succeed, Next;
      ghost var was := Now();
      SucceededNext(config, was, proxies, now);
      var found := SettleSuccess(proxies, now);
      held := held - multiset{proxies};
      if found {
        waiting := 0;
      }
      assert State() == Succeed(config, was.pool, proxies, now);
      assert waiting == if Find(was.pool.slots, proxies).Some? then 0 else was.parked;
    }

    method DiscardSlot(i: nat, now: real)
      requires i < |slots|
      modifies this`slots, this`stats, this`retiredUntil
      ensures State() == Discard(config, old(State()), i, now)
    {
      var s := slots[i];
      if !s.draining {
        slots := slots[i := s.(draining := true)];
        stats := stats.(discarded := stats.discarded + 1);
        if config.optimized {
          retiredUntil := retiredUntil[s.endpoint := Retirement(config, s, now)];
        }
      }
    }

    method SettleFailure(proxies: Mapping, cause: Cause, now: real) returns (found: bool)
      modifies this`slots, this`stats, this`retiredUntil
      ensures State() == Fail(config, old(State()), proxies, cause, now)
      ensures found == Find(old(slots), proxies).Some?
    {
      hide Find, Cleanup, Discard;
      var i := FindSlot(proxies);
      if i.None? {
        return false;
      }
      var s := Released(slots[i.value]);
      if config.optimized && !cause.Plain? {
        match cause
        case Task =>
        case Platform(name) =>
          s := s.(platformCooldowns := s.platformCooldowns[name := now + 30.0]);
        case Transport =>
          s := s.(transportErrors := s.transportErrors + 1, cooldownUntil := now + 15.0);
      }
      slots := slots[i.value := s];
      stats := stats.(failures := stats.failures + 1);
      if !(config.optimized && !cause.Plain? && s.transportErrors < 3) {
        DiscardSlot(i.value, now);
      }
      MarkExpiredAndCleanup(now);
      return true;
    }

    method OnFailureFor(proxies: Mapping, cause: Cause, now: real)
      modifies this`slots, this`stats, this`retiredUntil, this`waiting, this`held
      ensures Now() == Next(config, old(Now()), Failed(proxies, cause, now))
    {
      hide Find, Fail, Next;
      ghost var was := Now();
      FailedNext(config, was, proxies, cause, now);
      var found := SettleFailure(proxies, cause, now);
      held := held - multiset{proxies};
      if found {
        waiting := 0;
      }
      assert State() == Fail(config, was.pool, proxies, cause, now);
      assert waiting == if Find(was.pool.slots, proxies).Some? then 0 else was.parked;
    }
  }

  lemma BorrowedNext(c: Config, w: World, req: Requirements, affinity: string, now: real, later: real)
    ensures var (p, outcome) := Borrow(c, w.pool, req, affinity, now, later);
            Next(c, w, Borrowed(req, affinity, now, later)) ==
            match outcome
            case Granted(proxies) => World(p, w.held + multiset{proxies}, w.parked, w.pending)
            case Refill(count) => World(p, w.held, w.parked, count)
            case Parked => World(p, w.held, w.parked + 1, w.pending)
  {
    hide Borrow;
  }

  lemma SucceededNext(c: Config, w: World, proxies: Mapping, now: real)
    ensures Next(c, w, Succeeded(proxies, now))
         == World(Succeed(c, w.pool, proxies, now), w.held - multiset{proxies},
                  if Find(w.pool.slots, proxies).Some? then 0 else w.parked, w.pending)
  {
  }

  lemma FailedNext(c: Config, w: World, proxies: Mapping, cause: Cause, now: real)
    ensures Next(c, w, Failed(proxies, cause, now))
         == World(Fail(c, w.pool, proxies, cause, now), w.held - multiset{proxies},
                  if Find(w.pool.slots, proxies).Some? then 0 else w.parked, w.pending)
  {
  }

  lemma BestOfNone(c: Config, req: Requirements, purpose: Purpose, now: real)
    ensures Best(c, req, purpose, [], now) == None
  {
  }

  lemma BestOfNext(c: Config, req: Requirements, purpose: Purpose, slots: seq<Slot>, i: nat, now: real)
    requires i < |slots|
    ensures var best := Best(c, req, purpose, slots[..i], now);
            Best(c, req, purpose, slots[..i + 1], now) ==
            if Fits(c, req, purpose, slots[i], now) && (best.None? || Before(slots[i], slots[best.value]))
            then Some(i) else best
  {
    hide Fits, Before;
    assert slots[..i + 1][..i] == slots[..i];
  }

  lemma MergeOfNone(c: Config, p: Pool, endpoints: seq<Endpoint>, started: real, jitter: nat -> real, now: real)
    requires |endpoints| == 0
    ensures Merge(c, p, endpoints, started, jitter, now) == p
  {
  }

  lemma MergeOfNext(c: Config, p: Pool, endpoints: seq<Endpoint>, i: nat, started: real, jitter: nat -> real, now: real)
    requires i < |endpoints|
    ensures Merge(c, p, endpoints[..i + 1], started, jitter, now) ==
            Add(c, Merge(c, p, endpoints[..i], started, jitter, now),
                endpoints[i], Deadline(c, started, jitter(i), now), now)
  {
    hide Add, Deadline;
    assert endpoints[..i + 1][..i] == endpoints[..i];
  }

  function Endpoints(slots: seq<Slot>): set<Endpoint> { set s <- slots :: s.endpoint }

  lemma KnownIsListed(slots: seq<Slot>, e: Endpoint)
    ensures Known(slots, e) <==> e in Endpoints(slots)
  {
  }

  lemma EndpointsOfAppend(slots: seq<Slot>, s: Slot)
    ensures Endpoints(slots + [s]) == Endpoints(slots) + {s.endpoint}
  {
    forall t | t in slots
      ensures t.endpoint in Endpoints(slots + [s])
    {
      assert t in slots + [s];
    }
    assert s in slots + [s];
  }
}
