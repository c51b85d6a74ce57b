/**
  Progress of the proxy pool: the capacity bound, who wakes the parked callers, and when
  a parked caller is left with nobody to wake it.
 */
module PoolProgress {
  import opened PoolModel
  import opened PoolSafety
  import opened ProxySlots
  import opened Wrappers

  // -------------------------------------------------------------------- capacity

  /** Active slots and endpoints still to be delivered fit the pool. */
  ghost predicate Bounded(c: Config, w: World) { Active(w.pool.slots) + w.pending <= c.poolSize }

  lemma StepBounded(c: Config, w: World, e: Event)
    requires Safe(c, w) && Bounded(c, w) && Enabled(w, e)
    requires e.Delivered? ==> |e.endpoints| <= w.pending
    ensures Bounded(c, Next(c, w, e))
  {
    hide Good, Tidy, Borrow, Deliver, Succeed, Fail, Active;
    match e
    case Borrowed(req, affinity, now, later) =>
      BorrowGood(c, w.pool, w.held, req, affinity, now, later);
    case Delivered(endpoints, req, affinity, started, jitter, now) =>
      DeliverGood(c, w.pool, w.held, endpoints, req, affinity, started, jitter, now);
    case FetchEnded =>
    case Succeeded(proxies, now) =>
      SucceedGood(c, w.pool, w.held, proxies, now);
    case Failed(proxies, cause, now) =>
      FailGood(c, w.pool, w.held, proxies, cause, now);
    case Abandoned =>
  }

  /** If the supplier never returns more than was asked for, the pool is never overfull. */
  lemma {:induction false} RunBounded(c: Config, events: seq<Event>)
    requires Possible(c, events) && Frugal(c, events)
    ensures Bounded(c, Run(c, events))
    decreases |events|
  {
    hide Safe, Next, Enabled, Bounded;
    if |events| == 0 {
      StartBounded(c);
    } else {
      var before := events[..|events| - 1];
      RunSafe(c, before);
      RunBounded(c, before);
      StepBounded(c, Run(c, before), events[|events| - 1]);
    }
  }

  lemma StartBounded(c: Config)
    ensures Bounded(c, START)
  {
  }

  // --------------------------------------------------------------------- wake-ups

  /** The end of every fetch and the return of every lease wake all parked callers. */
  lemma ReturnsWakeEveryone(c: Config, w: World, e: Event)
    requires Safe(c, w) && Enabled(w, e)
    requires e.FetchEnded? || e.Succeeded? || e.Failed?
    ensures Next(c, w, e).parked == 0
  {
    hide Succeed, Fail;
    if e.Succeeded? || e.Failed? {
      HeldIsFound(w.pool, w.held, e.proxies);
    }
  }

  /** A slot with a lease out is in the list after any step that leaves the lease out. */
  lemma LeasedSlotStays(c: Config, w: World, e: Event, k: nat)
    requires Safe(c, w) && Enabled(w, e)
    requires k < |w.pool.slots| && w.pool.slots[k].proxies in Next(c, w, e).held
    ensures Known(Next(c, w, e).pool.slots, w.pool.slots[k].endpoint)
  {
    hide Find, Next, MappingOf;
    StepSafe(c, w, e);
    var after := Next(c, w, e);
    var s := w.pool.slots[k];
    assert SlotFine(c, s);
    HeldIsFound(after.pool, after.held, s.proxies);
    var t := after.pool.slots[Find(after.pool.slots, s.proxies).value];
    assert SlotFine(c, t);
    MappingIdentifiesEndpoint(s.endpoint, t.endpoint);
    assert t in after.pool.slots;
  }

  // -------------------------------------------------------------------- stranding

  /** The caller parks although nobody refills the pool and no lease can come back. */
  ghost predicate Strands(c: Config, p: Pool, req: Requirements, affinity: string, now: real, later: real) {
    var (q, outcome) := Borrow(c, p, req, affinity, now, later);
    outcome.Parked? && !q.fetching && Leases(q.slots) == 0
  }

  predicate Idle(slots: seq<Slot>) {
    forall k :: 0 <= k < |slots| ==> !slots[k].draining && slots[k].inFlight == 0
  }

  predicate Unexpired(slots: seq<Slot>, now: real) {
    forall k :: 0 <= k < |slots| ==> now < slots[k].expireAt
  }

  predicate AllEligible(c: Config, req: Requirements, slots: seq<Slot>, now: real) {
    forall s :: s in slots ==> Eligible(c, req, s, now)
  }

  predicate NoneEligible(c: Config, req: Requirements, slots: seq<Slot>, now: real) {
    forall s :: s in slots ==> !Eligible(c, req, s, now)
  }

  /** An optimised pool that nobody refills, with no lease out and nothing for this
      borrower. */
  predicate Useless(c: Config, p: Pool, held: multiset<Mapping>, req: Requirements, now: real) {
    && c.optimized && !p.fetching && held == multiset{}
    && NoneEligible(c, req, Cleanup(p, now).slots, now)
  }

  /** With no lease out, what a clean-up leaves is idle and still valid. */
  lemma IdleAfterCleanup(c: Config, p: Pool, now: real)
    requires Good(c, p, multiset{})
    ensures Idle(Cleanup(p, now).slots)
    ensures Unexpired(Cleanup(p, now).slots, now)
    ensures Active(Cleanup(p, now).slots) == |Cleanup(p, now).slots|
  {
    hide Find, Leases, Active, Mark, Sweep;
    var slots := Cleanup(p, now).slots;
    SweepKeeps(Mark(p.slots, now));
    forall k | 0 <= k < |slots|
      ensures !slots[k].draining && slots[k].inFlight == 0 && now < slots[k].expireAt
    {
      assert slots[k] in Mark(p.slots, now);
      var j :| 0 <= j < |p.slots| && Marked(p.slots[j], now) == slots[k];
      assert multiset{}[p.slots[j].proxies] == p.slots[j].inFlight;
    }
    AllActive(slots);
  }

  /** Replacing takes exactly one slot if the others are still valid, none if every slot
      would serve, and at least one otherwise. */
  lemma ReplaceCount(c: Config, p: Pool, req: Requirements, now: real)
    requires Idle(p.slots)
    ensures var q := ReplaceIdle(c, p, req, now);
            && q.fetching == p.fetching
            && (AllEligible(c, req, p.slots, now) ==> q == p)
            && (!AllEligible(c, req, p.slots, now) ==> Active(q.slots) < |p.slots|)
            && (!AllEligible(c, req, p.slots, now) && Unexpired(p.slots, now) ==>
                  Active(q.slots) == |p.slots| - 1)
  {
    hide Leases, Active, Mark, Sweep, Best, Eligible;
    AllActive(p.slots);
    if i: nat :| Best(c, req, Replace, p.slots, now) == Some(i) {
      assert p.slots[i] in p.slots;
      var changed := p.slots[i := p.slots[i].(draining := true)];
      LeasesOfUpdate(p.slots, i, changed[i]);
      LeasesOfMark(changed, now);
      LeasesOfSweep(Mark(changed, now));
      if Unexpired(p.slots, now) {
        assert Mark(changed, now) == changed;
      }
    }
  }

  lemma WaitWhenIdle(c: Config, p: Pool, req: Requirements, now: real)
    requires Idle(p.slots)
    ensures var (q, outcome) := Wait(c, p, req, now);
            outcome.Parked? && !q.fetching <==>
            && !p.fetching
            && |p.slots| >= c.poolSize
            && (c.optimized ==> Active(ReplaceIdle(c, p, req, now).slots) >= c.poolSize)
  {
    hide Active, ReplaceIdle;
    AllActive(p.slots);
    ReplaceCount(c, p, req, now);
  }

  lemma StrandsByCount(c: Config, p: Pool, held: multiset<Mapping>, req: Requirements, affinity: string,
                    now: real, later: real)
    requires c.Accepted() && Good(c, p, held)
    ensures var s := Cleanup(p, now);
            Strands(c, p, req, affinity, now, later) <==>
            && Useless(c, p, held, req, now)
            && |s.slots| >= c.poolSize
            && Active(ReplaceIdle(c, s, req, later).slots) >= c.poolSize
  {
    hide Good, Tidy, Leases, Active, Cleanup, ReplaceIdle, Choose, Grant, Wait, Eligible;
    var s := Cleanup(p, now);
    CleanupGood(c, p, held, now);
    BorrowGood(c, p, held, req, affinity, now, later);
    var (q, outcome) := Borrow(c, p, req, affinity, now, later);
    if outcome.Parked? {
      LeasesAreHeld(c, q, held);
    }
    if held == multiset{} {
      IdleAfterCleanup(c, p, now);
      WaitWhenIdle(c, s, req, later);
      NobodyFits(c, req, s.slots, now);
    }
  }

  lemma LeasesAreHeld(c: Config, p: Pool, held: multiset<Mapping>)
    requires Good(c, p, held)
    ensures Leases(p.slots) == |held|
  {
  }

  /** In an idle list a slot fits exactly when it is eligible; in plain mode that is all. */
  lemma NobodyFits(c: Config, req: Requirements, slots: seq<Slot>, now: real)
    requires c.Accepted() && Idle(slots)
    ensures (forall s :: s in slots ==> !Fits(c, req, Lend, s, now)) <==> NoneEligible(c, req, slots, now)
    ensures !c.optimized && NoneEligible(c, req, slots, now) ==> |slots| < c.poolSize
  {
    forall s | s in slots
      ensures Fits(c, req, Lend, s, now) <==> Eligible(c, req, s, now)
    {
      var k :| 0 <= k < |slots| && slots[k] == s;
    }
    if |slots| > 0 {
      assert slots[0] in slots;
    }
  }

  /** How many slots of an idle list have not run out. */
  function Lasting(slots: seq<Slot>, now: real): nat { Active(Mark(slots, now)) }

  /** None of the slots that do not serve has run out. */
  predicate UnfitLast(c: Config, req: Requirements, slots: seq<Slot>, now: real) {
    forall s :: s in slots && !Eligible(c, req, s, now) ==> now < s.expireAt
  }

  /** Replacing gives up the slot with the earliest deadline among those that do not serve,
      and the clean-up removes what has run out. */
  lemma ReplaceLeaves(c: Config, p: Pool, req: Requirements, now: real)
    requires Idle(p.slots) && !AllEligible(c, req, p.slots, now)
    ensures Active(ReplaceIdle(c, p, req, now).slots)
         == Lasting(p.slots, now) - (if UnfitLast(c, req, p.slots, now) then 1 else 0)
    ensures Lasting(p.slots, now) <= |p.slots|
  {
    hide Leases, Active, Mark, Sweep, Eligible;
    var s :| s in p.slots && !Eligible(c, req, s, now);
    var k :| 0 <= k < |p.slots| && p.slots[k] == s;
    assert Fits(c, req, Replace, s, now);
    var i := Best(c, req, Replace, p.slots, now).value;
    var marked := Mark(p.slots, now);
    var gone := p.slots[i].(draining := true);
    assert p.slots[i] in p.slots;
    assert Mark(p.slots[i := gone], now) == marked[i := gone];
    AllActive(p.slots);
    LeasesOfMark(p.slots, now);
    LeasesOfUpdate(marked, i, gone);
    LeasesOfSweep(marked[i := gone]);
    forall t | t in p.slots && !Eligible(c, req, t, now)
      ensures p.slots[i].expireAt <= t.expireAt
    {
      var j :| 0 <= j < |p.slots| && p.slots[j] == t;
      assert Fits(c, req, Replace, t, now);
    }
  }

  /** What stranding comes down to, for any two readings of the clock and any pool: nobody
      refills, no lease is out, nothing serves at the search, and what the replacement
      leaves is still a full pool. */
  lemma StrandsWhen(c: Config, p: Pool, held: multiset<Mapping>, req: Requirements, affinity: string,
                    now: real, later: real)
    requires c.Accepted() && Good(c, p, held)
    ensures var slots := Cleanup(p, now).slots;
            Strands(c, p, req, affinity, now, later) <==>
            && Useless(c, p, held, req, now)
            && c.poolSize <= (if AllEligible(c, req, slots, later) then |slots|
                              else Lasting(slots, later) - (if UnfitLast(c, req, slots, later) then 1 else 0))
  {
    hide Good, Strands, Cleanup, ReplaceIdle, Eligible, Active, Lasting, UnfitLast;
    var s := Cleanup(p, now);
    StrandsByCount(c, p, held, req, affinity, now, later);
    if held == multiset{} {
      IdleAfterCleanup(c, p, now);
      ReplaceCount(c, s, req, later);
      if !AllEligible(c, req, s.slots, later) {
        ReplaceLeaves(c, s, req, later);
      }
    }
  }

  /** With one reading of the clock a caller is stranded exactly when an overfull pool
      with no lease out has nothing for it: replacing one slot leaves the pool full. */
  lemma StrandsOneReading(c: Config, p: Pool, held: multiset<Mapping>, req: Requirements, affinity: string,
                          now: real)
    requires c.Accepted() && Good(c, p, held)
    ensures Strands(c, p, req, affinity, now, now) <==>
            Useless(c, p, held, req, now) && |Cleanup(p, now).slots| > c.poolSize
  {
    hide Good, Strands, Cleanup, ReplaceIdle, Eligible, Active;
    var s := Cleanup(p, now);
    StrandsByCount(c, p, held, req, affinity, now, now);
    if held == multiset{} {
      IdleAfterCleanup(c, p, now);
      ReplaceCount(c, s, req, now);
      if |s.slots| > 0 {
        assert s.slots[0] in s.slots;
      }
    }
  }

  /** In a pool that is not overfull, a caller is stranded exactly when every slot starts
      to qualify between the two readings: unfit when searched, fit when to be replaced. */
  lemma StrandsBetweenReadings(c: Config, p: Pool, held: multiset<Mapping>, req: Requirements,
                               affinity: string, now: real, later: real)
    requires c.Accepted() && Good(c, p, held) && Active(p.slots) <= c.poolSize
    ensures Strands(c, p, req, affinity, now, later) <==>
            && Useless(c, p, held, req, now)
            && AllEligible(c, req, Cleanup(p, now).slots, later)
            && |Cleanup(p, now).slots| == c.poolSize
  {
    hide Good, Strands, Cleanup, ReplaceIdle, Eligible, Active;
    var s := Cleanup(p, now);
    CleanupGood(c, p, held, now);
    StrandsByCount(c, p, held, req, affinity, now, later);
    if held == multiset{} {
      IdleAfterCleanup(c, p, now);
      ReplaceCount(c, s, req, later);
    }
  }

  // ------------------------------------------------------------------- no strander

  /** A parked caller implies a refill in progress or a lease that will come back. */
  ghost predicate Live(w: World) { w.parked > 0 ==> w.pool.fetching || |w.held| > 0 }

  ghost predicate StrandsBy(c: Config, w: World, e: Event) {
    e.Borrowed? && Strands(c, w.pool, e.req, e.affinity, e.now, e.later)
  }

  lemma BorrowLive(c: Config, w: World, e: Event)
    requires Safe(c, w) && Live(w) && e.Borrowed?
    ensures Live(Next(c, w, e)) <==> !StrandsBy(c, w, e)
  {
    hide Good, Tidy, Borrow, Leases;
    BorrowGood(c, w.pool, w.held, e.req, e.affinity, e.now, e.later);
    var (q, outcome) := Borrow(c, w.pool, e.req, e.affinity, e.now, e.later);
    if outcome.Parked? {
      LeasesAreHeld(c, q, w.held);
    }
  }

  /** A step leaves a parked caller with nobody to wake it exactly when it is a borrowing
      pass that strands its own caller. */
  lemma StepLive(c: Config, w: World, e: Event)
    requires Safe(c, w) && Live(w) && Enabled(w, e)
    ensures Live(Next(c, w, e)) <==> !StrandsBy(c, w, e)
  {
    hide Good, Tidy, Borrow, Succeed, Fail, Cleanup, Merge, Strands;
    match e
    case Borrowed(_, _, _, _) => BorrowLive(c, w, e);
    case Delivered(endpoints, _, _, started, jitter, now) =>
      MergeKeepsFetching(c, w.pool, endpoints, started, jitter, now);
      CleanupKeepsFetching(Merge(c, w.pool, endpoints, started, jitter, now), now);
    case FetchEnded => ReturnsWakeEveryone(c, w, e);
    case Succeeded(_, _) => ReturnsWakeEveryone(c, w, e);
    case Failed(_, _, _) => ReturnsWakeEveryone(c, w, e);
    case Abandoned =>
  }

  lemma CleanupKeepsFetching(p: Pool, now: real)
    ensures Cleanup(p, now).fetching == p.fetching
  {
  }

  ghost predicate AlwaysLive(c: Config, events: seq<Event>) {
    forall k :: 0 <= k <= |events| ==> Live(WorldAt(c, events, k))
  }

  /** For any supplier and any two readings: no caller is ever left with nobody to wake it
      exactly when no borrowing pass strands its caller. */
  lemma {:induction false} LiveExactly(c: Config, events: seq<Event>)
    requires Possible(c, events)
    ensures AlwaysLive(c, events) <==>
            forall k :: 0 <= k < |events| ==> !StrandsBy(c, WorldAt(c, events, k), events[k])
    decreases |events|
  {
    hide Safe, Next, Enabled, Live, StrandsBy;
    if |events| == 0 {
      assert events[..0] == events;
      StartLive();
    } else {
      hide Run, WorldAt;
      var n := |events| - 1;
      var front := events[..n];
      BeforeLast(c, events);
      LiveExactly(c, front);
      if Live(WorldAt(c, front, n)) {
        StepLive(c, WorldAt(c, front, n), events[n]);
      }
    }
  }

  /** With one reading of the clock: exactly when no pass finds an overfull useless pool. */
  lemma LiveWithOneReading(c: Config, events: seq<Event>)
    requires c.Accepted() && Possible(c, events) && OneReading(events)
    ensures AlwaysLive(c, events) <==>
            forall k :: 0 <= k < |events| && events[k].Borrowed? ==>
              var w, e := WorldAt(c, events, k), events[k];
              !(Useless(c, w.pool, w.held, e.req, e.now) && |Cleanup(w.pool, e.now).slots| > c.poolSize)
  {
    hide Run, Possible, Safe, Live, Strands, Useless, Cleanup;
    LiveExactly(c, events);
    forall k | 0 <= k < |events| && events[k].Borrowed?
      ensures var w, e := WorldAt(c, events, k), events[k];
              StrandsBy(c, w, e) <==>
              Useless(c, w.pool, w.held, e.req, e.now) && |Cleanup(w.pool, e.now).slots| > c.poolSize
    {
      var w, e := WorldAt(c, events, k), events[k];
      PrefixSafe(c, events, k);
      StrandsOneReading(c, w.pool, w.held, e.req, e.affinity, e.now);
    }
  }

  /** With a frugal supplier: exactly when no pass finds a full useless pool whose every
      slot comes to qualify between the two readings. */
  lemma LiveWithFrugalSupplier(c: Config, events: seq<Event>)
    requires c.Accepted() && Possible(c, events) && Frugal(c, events)
    ensures AlwaysLive(c, events) <==>
            forall k :: 0 <= k < |events| && events[k].Borrowed? ==>
              var w, e := WorldAt(c, events, k), events[k];
              !(&& Useless(c, w.pool, w.held, e.req, e.now)
                && AllEligible(c, e.req, Cleanup(w.pool, e.now).slots, e.later)
                && |Cleanup(w.pool, e.now).slots| == c.poolSize)
  {
    hide Run, Possible, Frugal, Safe, Live, Strands, Useless, Cleanup, Active, AllEligible;
    LiveExactly(c, events);
    forall k | 0 <= k < |events| && events[k].Borrowed?
      ensures var w, e := WorldAt(c, events, k), events[k];
              StrandsBy(c, w, e) <==>
              && Useless(c, w.pool, w.held, e.req, e.now)
              && AllEligible(c, e.req, Cleanup(w.pool, e.now).slots, e.later)
              && |Cleanup(w.pool, e.now).slots| == c.poolSize
    {
      var w, e := WorldAt(c, events, k), events[k];
      PrefixSafe(c, events, k);
      PrefixBounded(c, events, k);
      StrandsBetweenReadings(c, w.pool, w.held, e.req, e.affinity, e.now, e.later);
    }
  }

  lemma PrefixSafe(c: Config, events: seq<Event>, k: nat)
    requires Possible(c, events) && k <= |events|
    ensures Good(c, WorldAt(c, events, k).pool, WorldAt(c, events, k).held)
  {
    hide Run, Possible, Good;
    PossiblePrefix(c, events, k);
    RunSafe(c, events[..k]);
  }

  lemma PrefixBounded(c: Config, events: seq<Event>, k: nat)
    requires Possible(c, events) && Frugal(c, events) && k <= |events|
    ensures Active(WorldAt(c, events, k).pool.slots) <= c.poolSize
  {
    hide Run, Possible, Frugal, Active;
    PossiblePrefix(c, events, k);
    FrugalPrefix(c, events, k);
    RunBounded(c, events[..k]);
  }

  /** In particular no borrower is ever stranded in plain mode, whatever the supplier and
      the clock, nor in optimised mode if the supplier is frugal and each pass sees one
      time. */
  lemma NoStrandedBorrower(c: Config, events: seq<Event>)
    requires c.Accepted() && Possible(c, events)
    requires c.optimized ==> Frugal(c, events) && OneReading(events)
    ensures AlwaysLive(c, events)
  {
    hide Run, Possible, Frugal, Safe, Live, Strands, Cleanup, Active, Good, ReplaceIdle, NoneEligible;
    LiveExactly(c, events);
    forall k | 0 <= k < |events| && events[k].Borrowed?
      ensures !StrandsBy(c, WorldAt(c, events, k), events[k])
    {
      var w, e := WorldAt(c, events, k), events[k];
      PrefixSafe(c, events, k);
      StrandsByCount(c, w.pool, w.held, e.req, e.affinity, e.now, e.later);
      if c.optimized && w.held == multiset{} {
        PrefixBounded(c, events, k);
        StrandsOneReading(c, w.pool, w.held, e.req, e.affinity, e.now);
        IdleAfterCleanup(c, w.pool, e.now);
        CleanupGood(c, w.pool, w.held, e.now);
      }
    }
  }

  lemma StartLive()
    ensures Live(START)
  {
  }
}
