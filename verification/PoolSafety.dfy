/**
  What every critical section of the pool keeps, and so what holds after any run: the
  per-slot limits, distinct endpoints, agreement between the slots and the mappings that
  are out, and the conservation of leases and of bought endpoints.
 */
module PoolSafety {
  import opened PoolModel
  import opened ProxySlots
  import opened Wrappers

  predicate SlotFine(c: Config, s: Slot) {
    && s.proxies == MappingOf(s.endpoint)
    && s.inFlight <= c.maxConcurrency
    && (s.exclusive ==> c.optimized && s.inFlight == 1)
  }

  /** The slots are within their limits and the counters conserve leases and endpoints. */
  ghost predicate Fine(c: Config, p: Pool) {
    && (forall k :: 0 <= k < |p.slots| ==> SlotFine(c, p.slots[k]))
    && Distinct(p.slots)
    && p.stats.leases == p.stats.successes + p.stats.failures + Leases(p.slots)
    && p.stats.added == Active(p.slots) + p.stats.discarded + p.stats.expired + p.stats.replaced
    && Leases(p.slots) <= p.stats.peak
  }

  /** Every slot is charged for exactly the copies of its mapping that are out. */
  ghost predicate Agrees(slots: seq<Slot>, held: multiset<Mapping>) {
    && (forall k :: 0 <= k < |slots| ==> held[slots[k].proxies] == slots[k].inFlight)
    && (forall m :: m in held ==> Find(slots, m).Some?)
    && |held| == Leases(slots)
  }

  ghost predicate Good(c: Config, p: Pool, held: multiset<Mapping>) {
    Fine(c, p) && Agrees(p.slots, held)
  }

  /** No draining slot is kept once its last lease is back. */
  ghost predicate Tidy(p: Pool) { forall k :: 0 <= k < |p.slots| ==> !p.slots[k].Gone() }

  ghost predicate Safe(c: Config, w: World) {
    && Good(c, w.pool, w.held)
    && Tidy(w.pool)
    && (w.pending > 0 ==> w.pool.fetching)
  }

  // -------------------------------------------------------------------- clean-up

  lemma MarkAgrees(slots: seq<Slot>, held: multiset<Mapping>, now: real)
    requires Agrees(slots, held)
    ensures Agrees(Mark(slots, now), held)
  {
    hide Find, Leases, Active, Mark;
    LeasesOfMark(slots, now);
    var marked := Mark(slots, now);
    forall m | m in held
      ensures Find(marked, m).Some?
    {
      var k := Find(slots, m).value;
      assert marked[k].proxies == slots[k].proxies;
      assert marked[k] in marked;
    }
    forall k | 0 <= k < |marked|
      ensures held[marked[k].proxies] == marked[k].inFlight
    {
      assert held[slots[k].proxies] == slots[k].inFlight;
    }
  }

  lemma MarkFine(c: Config, slots: seq<Slot>, now: real)
    requires Distinct(slots)
    requires forall k :: 0 <= k < |slots| ==> SlotFine(c, slots[k])
    ensures Distinct(Mark(slots, now))
    ensures forall k :: 0 <= k < |slots| ==> SlotFine(c, Mark(slots, now)[k])
  {
    hide Mark, MappingOf;
    var marked := Mark(slots, now);
    forall k | 0 <= k < |slots|
      ensures SlotFine(c, marked[k]) && marked[k].endpoint == slots[k].endpoint
    {
      assert SlotFine(c, slots[k]);
    }
  }

  lemma SweepAgrees(slots: seq<Slot>, held: multiset<Mapping>)
    requires Agrees(slots, held)
    ensures Agrees(Sweep(slots), held)
  {
    hide Find, Leases, Sweep;
    SweepKeeps(slots);
    LeasesOfSweep(slots);
    var kept := Sweep(slots);
    forall k | 0 <= k < |kept|
      ensures held[kept[k].proxies] == kept[k].inFlight
    {
      assert kept[k] in slots;
    }
    forall m | m in held
      ensures Find(kept, m).Some?
    {
      var s := slots[Find(slots, m).value];
      assert held[s.proxies] > 0;
      assert s in kept;
    }
  }

  lemma CleanupGood(c: Config, p: Pool, held: multiset<Mapping>, now: real)
    requires Good(c, p, held)
    ensures Good(c, Cleanup(p, now), held)
    ensures Tidy(Cleanup(p, now))
    ensures Cleanup(p, now).fetching == p.fetching
    ensures Active(Cleanup(p, now).slots) <= Active(p.slots)
  {
    hide Find, Leases, Active, Mark, Sweep, MappingOf, Agrees;
    var marked := Mark(p.slots, now);
    var kept := Sweep(marked);
    MarkAgrees(p.slots, held, now);
    MarkFine(c, p.slots, now);
    SweepAgrees(marked, held);
    DistinctSweep(marked);
    LeasesOfMark(p.slots, now);
    LeasesOfSweep(marked);
    SweepKeeps(marked);
    forall k | 0 <= k < |kept|
      ensures SlotFine(c, kept[k]) && !kept[k].Gone()
    {
      assert kept[k] in marked;
    }
  }

  // ------------------------------------------------------------- one slot changes

  lemma Charged(slots: seq<Slot>, held: multiset<Mapping>, i: nat)
    requires Agrees(slots, held) && i < |slots|
    ensures held[slots[i].proxies] == slots[i].inFlight
  {
  }

  /** One slot gets new contents under the same endpoint, and `held` follows. */
  lemma UpdateAgrees(c: Config, slots: seq<Slot>, held: multiset<Mapping>, i: nat, s: Slot, after: multiset<Mapping>)
    requires forall k :: 0 <= k < |slots| ==> SlotFine(c, slots[k])
    requires Distinct(slots) && Agrees(slots, held)
    requires i < |slots| && s.endpoint == slots[i].endpoint && s.proxies == slots[i].proxies
    requires after == held[s.proxies := s.inFlight]
    ensures Agrees(slots[i := s], after)
    ensures Distinct(slots[i := s])
  {
    hide Find, Leases, Active, MappingOf;
    var changed := slots[i := s];
    LeasesOfUpdate(slots, i, s);
    forall k | 0 <= k < |slots|
      ensures after[changed[k].proxies] == changed[k].inFlight
    {
      if k != i && slots[k].proxies == s.proxies {
        MappingIdentifiesEndpoint(slots[k].endpoint, slots[i].endpoint);
      }
    }
    forall m | m in after
      ensures Find(changed, m).Some?
    {
      if m == s.proxies {
        assert changed[i] in changed;
      } else {
        assert m in held;
        assert changed[Find(slots, m).value] in changed;
      }
    }
  }

  lemma GrantGood(c: Config, p: Pool, held: multiset<Mapping>, i: nat, req: Requirements, now: real)
    requires Good(c, p, held) && Tidy(p)
    requires i < |p.slots| && Fits(c, req, Lend, p.slots[i], now)
    ensures Good(c, Grant(c, p, i, req), held + multiset{p.slots[i].proxies})
    ensures Tidy(Grant(c, p, i, req))
    ensures Grant(c, p, i, req).fetching == p.fetching
    ensures Active(Grant(c, p, i, req).slots) == Active(p.slots)
  {
    hide Find, Leases, Active, MappingOf, Agrees;
    var s := Lent(c, p.slots[i], req);
    assert SlotFine(c, p.slots[i]);
    assert SlotFine(c, s);
    LeasesOfUpdate(p.slots, i, s);
    Charged(p.slots, held, i);
    UpdateAgrees(c, p.slots, held, i, s, held + multiset{p.slots[i].proxies});
  }

  lemma ReplaceGood(c: Config, p: Pool, held: multiset<Mapping>, req: Requirements, now: real)
    requires Good(c, p, held) && Tidy(p)
    ensures Good(c, ReplaceIdle(c, p, req, now), held)
    ensures Tidy(ReplaceIdle(c, p, req, now))
    ensures ReplaceIdle(c, p, req, now).fetching == p.fetching
    ensures Active(ReplaceIdle(c, p, req, now).slots) <= Active(p.slots)
  {
    hide Find, Leases, Active, MappingOf, Agrees, Best;
    match Best(c, req, Replace, p.slots, now)
    case None =>
    case Some(i) =>
      var s := p.slots[i];
      var t := s.(draining := true);
      var q := p.(slots := p.slots[i := t],
                  retired := p.retired[s.endpoint := Retirement(c, s, now)],
                  stats := p.stats.(replaced := p.stats.replaced + 1));
      assert SlotFine(c, s);
      LeasesOfUpdate(p.slots, i, t);
      Charged(p.slots, held, i);
      UpdateAgrees(c, p.slots, held, i, t, held);
      CleanupGood(c, q, held, now);
  }

  // --------------------------------------------------------------------- merging

  lemma AppendAgrees(c: Config, slots: seq<Slot>, held: multiset<Mapping>, s: Slot)
    requires forall k :: 0 <= k < |slots| ==> SlotFine(c, slots[k])
    requires SlotFine(c, s) && s.inFlight == 0 && !Known(slots, s.endpoint)
    requires Agrees(slots, held)
    ensures Agrees(slots + [s], held)
  {
    hide Find, Leases, MappingOf, Known;
    var longer := slots + [s];
    assert Leases([s]) == s.inFlight by { OneLease(s); }
    LeasesOfAppend(slots, [s]);
    forall m | m in held
      ensures Find(longer, m).Some? && m != s.proxies
    {
      var k := Find(slots, m).value;
      assert SlotFine(c, slots[k]);
      assert longer[k] in longer;
      if m == s.proxies {
        MappingIdentifiesEndpoint(slots[k].endpoint, s.endpoint);
        NotKnown(slots, s.endpoint, k);
      }
    }
    assert held[s.proxies] == 0;
    forall k | 0 <= k < |longer|
      ensures held[longer[k].proxies] == longer[k].inFlight
    {
      if k < |slots| {
        assert longer[k] == slots[k];
      }
    }
  }

  lemma OneLease(s: Slot)
    ensures Leases([s]) == s.inFlight
    ensures Active([s]) == if s.draining then 0 else 1
  {
    assert [s][..0] == [];
  }

  lemma NotKnown(slots: seq<Slot>, e: Endpoint, k: nat)
    requires !Known(slots, e) && k < |slots|
    ensures slots[k].endpoint != e
  {
    assert slots[k] in slots;
  }

  lemma AddGood(c: Config, p: Pool, held: multiset<Mapping>, e: Endpoint, expireAt: real, now: real)
    requires Good(c, p, held) && Tidy(p)
    ensures Good(c, Add(c, p, e, expireAt, now), held)
    ensures Tidy(Add(c, p, e, expireAt, now))
    ensures Active(Add(c, p, e, expireAt, now).slots) <= Active(p.slots) + 1
  {
    hide Find, Leases, Active, MappingOf, Agrees, Known;
    if !Known(p.slots, e) && !Barred(c, p, e, now) {
      var s := FreshSlot(e, expireAt);
      LeasesOfAppend(p.slots, [s]);
      OneLease(s);
      AppendAgrees(c, p.slots, held, s);
      forall k | 0 <= k < |p.slots|
        ensures p.slots[k].endpoint != e
      {
        NotKnown(p.slots, e, k);
      }
    }
  }

  lemma {:induction false} MergeGood(c: Config, p: Pool, held: multiset<Mapping>, endpoints: seq<Endpoint>,
                                     started: real, jitter: nat -> real, now: real)
    requires Good(c, p, held) && Tidy(p)
    ensures Good(c, Merge(c, p, endpoints, started, jitter, now), held)
    ensures Tidy(Merge(c, p, endpoints, started, jitter, now))
    ensures Active(Merge(c, p, endpoints, started, jitter, now).slots) <= Active(p.slots) + |endpoints|
    decreases |endpoints|
  {
    hide Good, Tidy, Add;
    if |endpoints| == 0 {
    } else {
      var n := |endpoints| - 1;
      MergeGood(c, p, held, endpoints[..n], started, jitter, now);
      AddGood(c, Merge(c, p, endpoints[..n], started, jitter, now), held, endpoints[n],
              Deadline(c, started, jitter(n), now), now);
    }
  }

  // ------------------------------------------------------------------- returning

  /** A mapping that is out always belongs to a slot, and that slot is charged for it. */
  lemma HeldIsFound(p: Pool, held: multiset<Mapping>, proxies: Mapping)
    requires Agrees(p.slots, held)
    requires proxies in held
    ensures Find(p.slots, proxies).Some?
    ensures p.slots[Find(p.slots, proxies).value].inFlight == held[proxies] > 0
  {
  }

  /** A slot that keeps its endpoint gives one lease back. */
  lemma ReturnGood(c: Config, p: Pool, held: multiset<Mapping>, i: nat, t: Slot, q: Pool)
    requires Good(c, p, held)
    requires i < |p.slots| && p.slots[i].inFlight > 0
    requires t.endpoint == p.slots[i].endpoint && t.proxies == p.slots[i].proxies
    requires t.inFlight == p.slots[i].inFlight - 1 && !t.exclusive
    requires t.draining == p.slots[i].draining
    requires q.slots == p.slots[i := t]
    requires q.stats == p.stats.(successes := p.stats.successes + 1)
          || q.stats == p.stats.(failures := p.stats.failures + 1)
    ensures Good(c, q, held - multiset{t.proxies})
    ensures Active(q.slots) == Active(p.slots)
  {
    hide Find, Leases, Active, MappingOf, Agrees;
    assert SlotFine(c, p.slots[i]);
    LeasesOfUpdate(p.slots, i, t);
    Charged(p.slots, held, i);
    UpdateAgrees(c, p.slots, held, i, t, held - multiset{t.proxies});
  }

  lemma SucceedGood(c: Config, p: Pool, held: multiset<Mapping>, proxies: Mapping, now: real)
    requires Good(c, p, held) && proxies in held
    ensures Good(c, Succeed(c, p, proxies, now), held - multiset{proxies})
    ensures Tidy(Succeed(c, p, proxies, now))
    ensures Active(Succeed(c, p, proxies, now).slots) <= Active(p.slots)
  {
    hide Find, Leases, Active, MappingOf, Agrees, Cleanup;
    HeldIsFound(p, held, proxies);
    var i := Find(p.slots, proxies).value;
    assert SlotFine(c, p.slots[i]);
    var t := Rested(c, Released(p.slots[i]), now);
    var q := p.(slots := p.slots[i := t], stats := p.stats.(successes := p.stats.successes + 1));
    ReturnGood(c, p, held, i, t, q);
    CleanupGood(c, q, held - multiset{proxies}, now);
  }

  lemma DiscardGood(c: Config, p: Pool, held: multiset<Mapping>, i: nat, now: real)
    requires Good(c, p, held) && i < |p.slots|
    ensures Good(c, Discard(c, p, i, now), held)
    ensures Active(Discard(c, p, i, now).slots) <= Active(p.slots)
  {
    hide Find, Leases, Active, MappingOf, Agrees;
    var s := p.slots[i];
    assert SlotFine(c, s);
    if !s.draining {
      LeasesOfUpdate(p.slots, i, s.(draining := true));
      Charged(p.slots, held, i);
      UpdateAgrees(c, p.slots, held, i, s.(draining := true), held);
    }
  }

  lemma FailGood(c: Config, p: Pool, held: multiset<Mapping>, proxies: Mapping, cause: Cause, now: real)
    requires Good(c, p, held) && proxies in held
    ensures Good(c, Fail(c, p, proxies, cause, now), held - multiset{proxies})
    ensures Tidy(Fail(c, p, proxies, cause, now))
    ensures Active(Fail(c, p, proxies, cause, now).slots) <= Active(p.slots)
  {
    hide Find, Leases, Active, MappingOf, Agrees, Cleanup, Discard;
    HeldIsFound(p, held, proxies);
    var i := Find(p.slots, proxies).value;
    var left := held - multiset{proxies};
    assert SlotFine(c, p.slots[i]);
    var t := if c.optimized then Cooled(Released(p.slots[i]), cause, now) else Released(p.slots[i]);
    var q := p.(slots := p.slots[i := t], stats := p.stats.(failures := p.stats.failures + 1));
    ReturnGood(c, p, held, i, t, q);
    DiscardGood(c, q, left, i, now);
    CleanupGood(c, if Tolerated(c, t, cause) then q else Discard(c, q, i, now), left, now);
  }

  // ------------------------------------------------------------ sections and runs

  lemma FetchingIsFree(c: Config, p: Pool, held: multiset<Mapping>, fetching: bool)
    requires Good(c, p, held) && Tidy(p)
    ensures Good(c, p.(fetching := fetching), held) && Tidy(p.(fetching := fetching))
  {
  }

  /** Where a borrower that found no slot leaves the pool. */
  lemma WaitGood(c: Config, p: Pool, held: multiset<Mapping>, req: Requirements, now: real)
    requires Good(c, p, held) && Tidy(p)
    ensures Good(c, Wait(c, p, req, now).0, held)
    ensures Tidy(Wait(c, p, req, now).0)
    ensures Active(Wait(c, p, req, now).0.slots) <= Active(p.slots)
    ensures var (q, outcome) := Wait(c, p, req, now);
            && !outcome.Granted?
            && (outcome.Refill? ==>
                  !p.fetching && q.fetching && 0 <= outcome.count <= c.poolSize - Active(q.slots))
            && (outcome.Parked? ==> q.fetching == p.fetching)
  {
    hide Good, Tidy, Active, ReplaceIdle;
    ReplaceGood(c, p, held, req, now);
    FetchingIsFree(c, p, held, true);
    FetchingIsFree(c, ReplaceIdle(c, p, req, now), held, true);
  }

  lemma PinGood(c: Config, p: Pool, held: multiset<Mapping>, affinity: string, choice: Option<nat>)
    requires Good(c, p, held) && Tidy(p)
    requires choice.Some? ==> choice.value < |p.slots|
    ensures Good(c, Pin(p, affinity, choice), held) && Tidy(Pin(p, affinity, choice))
    ensures Pin(p, affinity, choice).slots == p.slots
    ensures Pin(p, affinity, choice).fetching == p.fetching
  {
  }

  lemma BorrowGood(c: Config, p: Pool, held: multiset<Mapping>, req: Requirements, affinity: string,
                   now: real, later: real)
    requires Good(c, p, held)
    ensures var (q, outcome) := Borrow(c, p, req, affinity, now, later);
            && Tidy(q)
            && Active(q.slots) <= Active(p.slots)
            && (match outcome
                case Granted(proxies) => Good(c, q, held + multiset{proxies}) && q.fetching == p.fetching
                case Refill(count) =>
                  Good(c, q, held) && !p.fetching && q.fetching && 0 <= count <= c.poolSize - Active(q.slots)
                case Parked => Good(c, q, held) && q.fetching == p.fetching)
  {
    hide Good, Tidy, Active, Cleanup, Grant, Wait, Choose;
    var (q, choice) := Select(c, p, req, affinity, now);
    CleanupGood(c, p, held, now);
    PinGood(c, Cleanup(p, now), held, affinity, choice);
    if choice.Some? {
      GrantGood(c, q, held, choice.value, req, now);
    } else {
      WaitGood(c, q, held, req, later);
    }
  }

  lemma DeliverGood(c: Config, p: Pool, held: multiset<Mapping>, endpoints: seq<Endpoint>, req: Requirements,
                    affinity: string, started: real, jitter: nat -> real, now: real)
    requires Good(c, p, held) && Tidy(p)
    ensures Good(c, Deliver(c, p, endpoints, req, affinity, started, jitter, now).0, held)
    ensures Tidy(Deliver(c, p, endpoints, req, affinity, started, jitter, now).0)
    ensures Active(Deliver(c, p, endpoints, req, affinity, started, jitter, now).0.slots)
         <= Active(p.slots) + |endpoints|
  {
    hide Good, Tidy, Active, Cleanup, Merge, Choose;
    var q := Merge(c, p, endpoints, started, jitter, now);
    MergeGood(c, p, held, endpoints, started, jitter, now);
    CleanupGood(c, q, held, now);
    PinGood(c, Cleanup(q, now), held, affinity, Choose(c, Cleanup(q, now), req, affinity, now));
  }

  lemma {:induction false} MergeKeepsFetching(c: Config, p: Pool, endpoints: seq<Endpoint>,
                                              started: real, jitter: nat -> real, now: real)
    ensures Merge(c, p, endpoints, started, jitter, now).fetching == p.fetching
    decreases |endpoints|
  {
    if |endpoints| == 0 {
    } else {
      MergeKeepsFetching(c, p, endpoints[..|endpoints| - 1], started, jitter, now);
    }
  }

  lemma StepSafe(c: Config, w: World, e: Event)
    requires Safe(c, w) && Enabled(w, e)
    ensures Safe(c, Next(c, w, e))
  {
    hide Good, Tidy, Borrow, Deliver, Succeed, Fail, Active;
    match e
    case Borrowed(req, affinity, now, later) =>
      BorrowGood(c, w.pool, w.held, req, affinity, now, later);
    case Delivered(endpoints, req, affinity, started, jitter, now) =>
      DeliverGood(c, w.pool, w.held, endpoints, req, affinity, started, jitter, now);
    case FetchEnded =>
      FetchingIsFree(c, w.pool, w.held, false);
    case Succeeded(proxies, now) =>
      SucceedGood(c, w.pool, w.held, proxies, now);
      ReturnKeepsFetching(c, w.pool, proxies, Plain, now);
    case Failed(proxies, cause, now) =>
      FailGood(c, w.pool, w.held, proxies, cause, now);
      ReturnKeepsFetching(c, w.pool, proxies, cause, now);
    case Abandoned =>
  }

  lemma ReturnKeepsFetching(c: Config, p: Pool, proxies: Mapping, cause: Cause, now: real)
    ensures Succeed(c, p, proxies, now).fetching == p.fetching
    ensures Fail(c, p, proxies, cause, now).fetching == p.fetching
  {
  }

  /** Per-slot limits, distinct endpoints, agreement with the mappings that are out, and
      both conservation laws hold after every run. */
  lemma {:induction false} RunSafe(c: Config, events: seq<Event>)
    requires Possible(c, events)
    ensures Safe(c, Run(c, events))
    decreases |events|
  {
    hide Safe, Next, Enabled;
    if |events| == 0 {
      StartSafe(c);
    } else {
      RunSafe(c, events[..|events| - 1]);
      StepSafe(c, Run(c, events[..|events| - 1]), events[|events| - 1]);
    }
  }

  /** A run one event shorter sees the same worlds, and its end is safe. */
  lemma BeforeLast(c: Config, events: seq<Event>)
    requires Possible(c, events) && |events| > 0
    ensures var n := |events| - 1;
            var front := events[..n];
            && (forall k :: 0 <= k <= n ==> WorldAt(c, events, k) == WorldAt(c, front, k))
            && Safe(c, WorldAt(c, front, n)) && Enabled(WorldAt(c, front, n), events[n])
            && WorldAt(c, events, n + 1) == Next(c, WorldAt(c, front, n), events[n])
  {
    hide Safe, Next, Enabled;
    var n := |events| - 1;
    var front := events[..n];
    RunSafe(c, front);
    assert front[..n] == front && events[..n + 1] == events;
    forall k | 0 <= k <= n
      ensures WorldAt(c, events, k) == WorldAt(c, front, k)
    {
      assert front[..k] == events[..k];
    }
  }

  lemma StartSafe(c: Config)
    ensures Safe(c, START)
  {
  }
}
