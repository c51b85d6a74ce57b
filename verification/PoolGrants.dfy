/**
  What a borrower gets, seen from outside the pool: when it is given a lease and which one,
  what it asks of the supplier otherwise, and that an exclusive lease is alone.
 */
module PoolGrants {
  import opened PoolModel
  import opened PoolRefill
  import opened PoolPenalties
  import opened PoolSafety
  import opened ProxySlots
  import opened Wrappers

  /** A slot this borrower can be given: it lends, has not run out and has room; in
      optimised mode it also lives long enough, is held by nobody exclusively, is free if
      the borrower wants it exclusively, and rests neither for all nor for the platform. */
  predicate Free(c: Config, s: Slot, req: Requirements, now: real) {
    && !s.draining && now < s.expireAt && s.inFlight < c.maxConcurrency
    && (c.optimized ==>
          && now + req.minRemaining <= s.expireAt
          && !s.exclusive
          && (req.exclusive ==> s.inFlight == 0)
          && s.cooldownUntil <= now
          && (req.platform in s.platformCooldowns ==> s.platformCooldowns[req.platform] <= now))
  }

  lemma FitsIsFree(c: Config, s: Slot, req: Requirements, now: real)
    requires 0.0 <= now < s.expireAt
    ensures Fits(c, req, Lend, s, now) <==> Free(c, s, req, now)
  {
  }

  lemma CleanupFrees(c: Config, p: Pool, req: Requirements, now: real, s: Slot)
    requires 0.0 <= now
    ensures s in Cleanup(p, now).slots && Fits(c, req, Lend, s, now) <==> s in p.slots && Free(c, s, req, now)
  {
    hide Sweep, Mark, Eligible;
    SweepKeeps(Mark(p.slots, now));
    if s in Cleanup(p, now).slots && Fits(c, req, Lend, s, now) {
      var t := CleanupComesFrom(p, now, s);
      FitsIsFree(c, s, req, now);
    }
    if s in p.slots && Free(c, s, req, now) {
      var k :| 0 <= k < |p.slots| && p.slots[k] == s;
      assert Mark(p.slots, now)[k] == s;
      FitsIsFree(c, s, req, now);
    }
  }

  predicate SomeFree(c: Config, p: Pool, req: Requirements, now: real) {
    exists s :: s in p.slots && Free(c, s, req, now)
  }

  /** A borrower is given a lease exactly when some slot is free for it, and the lease is of
      such a slot. */
  lemma GrantsExactly(c: Config, p: Pool, req: Requirements, affinity: string, now: real, later: real)
    requires 0.0 <= now
    ensures var outcome := Borrow(c, p, req, affinity, now, later).1;
            && (outcome.Granted? <==> SomeFree(c, p, req, now))
            && (outcome.Granted? ==>
                  exists s :: s in p.slots && Free(c, s, req, now) && outcome.proxies == s.proxies)
  {
    hide Cleanup, Choose, Wait, Grant, Fits, Free;
    var (q, choice) := Select(c, p, req, affinity, now);
    forall s
      ensures s in q.slots && Fits(c, req, Lend, s, now) <==> s in p.slots && Free(c, s, req, now)
    {
      CleanupFrees(c, p, req, now, s);
    }
    if choice.Some? {
      assert q.slots[choice.value] in q.slots;
    } else {
      WaitGrantsNothing(c, q, req, later);
    }
  }

  /** The slot's mapping is its endpoint's. */
  predicate Proper(slots: seq<Slot>) { forall s :: s in slots ==> s.proxies == MappingOf(s.endpoint) }

  /** A borrower with an affinity is given the endpoint it is pinned to, whenever that
      endpoint's slot is free for it; and it is pinned to what it is given. */
  lemma PinsHold(c: Config, p: Pool, req: Requirements, affinity: string, now: real, later: real)
    requires 0.0 <= now && Proper(p.slots) && affinity != ""
    ensures var (q, outcome) := Borrow(c, p, req, affinity, now, later);
            && (affinity in p.pins
                && (exists s :: s in p.slots && s.endpoint == p.pins[affinity] && Free(c, s, req, now)) ==>
                  outcome == Granted(MappingOf(p.pins[affinity])))
            && (outcome.Granted? ==> affinity in q.pins && outcome.proxies == MappingOf(q.pins[affinity]))
  {
    hide Cleanup, Wait, Fits, Free, MappingOf, Best, Pinned;
    var (q, choice) := Select(c, p, req, affinity, now);
    forall s
      ensures s in q.slots && Fits(c, req, Lend, s, now) <==> s in p.slots && Free(c, s, req, now)
    {
      CleanupFrees(c, p, req, now, s);
    }
    CleanupPins(p, now);
    if choice.Some? {
      assert q.slots[choice.value] in q.slots;
    } else {
      WaitGrantsNothing(c, q, req, later);
    }
  }

  lemma CleanupPins(p: Pool, now: real)
    ensures Cleanup(p, now).pins == p.pins
  {
  }

  /** Fewer leases, or as many and an earlier end. */
  predicate Better(s: Slot, t: Slot) {
    s.inFlight < t.inFlight || (s.inFlight == t.inFlight && s.expireAt < t.expireAt)
  }

  /** A borrower that is not pinned is given a free slot that no other free slot is better
      than. */
  lemma LeastLoadedIsGiven(c: Config, p: Pool, req: Requirements, now: real, later: real)
    requires 0.0 <= now && SomeFree(c, p, req, now)
    ensures exists s :: s in p.slots && Free(c, s, req, now)
              && Borrow(c, p, req, "", now, later).1 == Granted(s.proxies)
              && forall t :: t in p.slots && Free(c, t, req, now) ==> !Better(t, s)
  {
    hide Cleanup, Wait, Fits, Free, Grant;
    var (q, choice) := Select(c, p, req, "", now);
    forall s
      ensures s in q.slots && Fits(c, req, Lend, s, now) <==> s in p.slots && Free(c, s, req, now)
    {
      CleanupFrees(c, p, req, now, s);
    }
    var s := q.slots[choice.value];
    assert s in q.slots;
    forall t | t in p.slots && Free(c, t, req, now)
      ensures !Better(t, s)
    {
      var k :| 0 <= k < |q.slots| && q.slots[k] == t;
      assert !Before(t, s);
    }
  }

  /** A borrower that is given nothing starts a refill exactly when none runs and the pool,
      after its replacement, is not full; it asks for what is missing, in optimised mode a
      batch at most, and afterwards a refill runs. */
  lemma RefillsExactly(c: Config, p: Pool, req: Requirements, affinity: string, now: real, later: real)
    ensures var (q, outcome) := Borrow(c, p, req, affinity, now, later);
            && (outcome.Refill? ==>
                  && !p.fetching && q.fetching && Active(q.slots) < c.poolSize
                  && outcome.count <= c.poolSize - Active(q.slots)
                  && (c.optimized ==> outcome.count <= c.refillBatch)
                  && (outcome.count == c.poolSize - Active(q.slots)
                      || (c.optimized && outcome.count == c.refillBatch)))
            && (outcome.Parked? ==> q.fetching == p.fetching && (p.fetching || Active(q.slots) >= c.poolSize))
  {
    hide Choose, Grant, Active, Mark, Sweep, Best;
  }

  /** The refiller gives up on an answer exactly when no slot is then free for it, and the
      answer added nothing or the pool is optimised; if one is free, that search pins the
      refiller's affinity to a free slot's endpoint. */
  lemma GivesUpExactly(c: Config, p: Pool, endpoints: seq<Endpoint>, req: Requirements, affinity: string,
                       started: real, jitter: nat -> real, now: real)
    requires 0.0 <= now
    ensures var m := Merge(c, p, endpoints, started, jitter, now);
            var searches := c.optimized || m.stats.added == p.stats.added;
            var (after, givesUp) := Deliver(c, p, endpoints, req, affinity, started, jitter, now);
            && (givesUp <==> searches && !SomeFree(c, m, req, now))
            && (searches && affinity != "" && SomeFree(c, m, req, now) ==>
                  affinity in after.pins
                  && exists s :: s in m.slots && Free(c, s, req, now) && after.pins[affinity] == s.endpoint)
  {
    hide Merge, Cleanup, Choose, Fits, Free;
    var m := Merge(c, p, endpoints, started, jitter, now);
    forall s
      ensures s in Cleanup(m, now).slots && Fits(c, req, Lend, s, now) <==> s in m.slots && Free(c, s, req, now)
    {
      CleanupFrees(c, m, req, now, s);
    }
    var (r, choice) := Select(c, m, req, affinity, now);
    if choice.Some? {
      assert r.slots[choice.value] in r.slots;
    }
  }

  /** Who waits, and how many endpoints are on order: a pass that parks adds one waiting
      caller, a cancellation takes one away, and every return and the end of a refill wake
      them all; what a pass orders is on order until the answer or the end of the refill. */
  lemma WaitingExactly(c: Config, w: World, e: Event)
    requires Safe(c, w) && Enabled(w, e)
    ensures var after := Next(c, w, e);
            var outcome := if e.Borrowed? then Borrow(c, w.pool, e.req, e.affinity, e.now, e.later).1 else Refill(0);
            && after.parked == (match e
                                case Borrowed(_, _, _, _) => if outcome.Parked? then w.parked + 1 else w.parked
                                case Delivered(_, _, _, _, _, _) => w.parked
                                case Abandoned => w.parked - 1
                                case _ => 0)
            && after.pending == (match e
                                 case Borrowed(_, _, _, _) => if outcome.Refill? then outcome.count else w.pending
                                 case Delivered(_, _, _, _, _, _) => 0
                                 case FetchEnded => 0
                                 case _ => w.pending)
  {
    hide Borrow, Deliver, Succeed, Fail, Find;
    if e.Succeeded? || e.Failed? {
      HeldIsFound(w.pool, w.held, e.proxies);
    }
  }

  /** An idle slot that lends and would not serve this borrower. */
  predicate Idles(c: Config, s: Slot, req: Requirements, now: real) {
    !s.draining && s.inFlight == 0 && !Eligible(c, req, s, now)
  }

  /** Only an optimised pool gives a slot up for a borrower, and it does so exactly when no
      slot was free, no refill runs, the pool is full, and some idle slot would not serve:
      then one such slot goes, none ending earlier, and its endpoint is barred. */
  lemma ReplacesExactly(c: Config, p: Pool, req: Requirements, affinity: string, now: real, later: real)
    ensures var q := Cleanup(p, now);
            var (after, outcome) := Borrow(c, p, req, affinity, now, later);
            if c.optimized && !outcome.Granted? && !p.fetching && Active(q.slots) >= c.poolSize
               && exists s :: s in q.slots && Idles(c, s, req, later)
            then && after.stats.replaced == p.stats.replaced + 1
                 && exists s :: s in q.slots && Idles(c, s, req, later)
                      && (forall t :: t in q.slots && Idles(c, t, req, later) ==> s.expireAt <= t.expireAt)
                      && s.endpoint in after.retired
                      && after.retired[s.endpoint]
                         == if s.expireAt + c.refreshBefore as real >= later + 30.0
                            then s.expireAt + c.refreshBefore as real else later + 30.0
            else after.stats.replaced == p.stats.replaced && (!outcome.Granted? ==> after.slots == q.slots)
  {
    hide Choose, Active, Mark, Sweep, Eligible;
    var q := Cleanup(p, now);
    var (after, outcome) := Borrow(c, p, req, affinity, now, later);
    var best := Best(c, req, Replace, q.slots, later);
    forall t | t in q.slots
      ensures Fits(c, req, Replace, t, later) <==> Idles(c, t, req, later)
    {
    }
    if best.Some? {
      var s := q.slots[best.value];
      assert s in q.slots;
      forall t | t in q.slots && Idles(c, t, req, later)
        ensures s.expireAt <= t.expireAt
      {
        var k :| 0 <= k < |q.slots| && q.slots[k] == t;
        assert !Before(t, s);
      }
    }
  }

  /** An endpoint that the supplier names and the pool neither has nor bars can be lent at
      once, to any borrower whose budget ends within the supplier's lifetime, counted from
      the request and less the slot's jitter. */
  lemma BoughtIsLent(c: Config, w: World, e: Event, ep: Endpoint, k: nat, req: Requirements, at: real)
    requires Safe(c, w) && Enabled(w, e) && e.Delivered? && FirstCopy(e.endpoints, k, ep)
    requires !Known(w.pool.slots, ep) && !Barred(c, w.pool, ep, e.now)
    requires 0 < c.maxConcurrency && 0.0 <= e.started <= e.now <= at && 0.0 <= e.jitter(k)
    requires 0.0 <= req.minRemaining
    requires at + req.minRemaining + e.jitter(k) < e.started + (c.minutes * 60 - c.refreshBefore) as real
    ensures SomeFree(c, Next(c, w, e).pool, req, at)
  {
    hide Find, Next, Merge, MappingOf, Safe;
    var deadline := Deadline(c, e.started, e.jitter(k), e.now);
    MergeCopies(c, w.pool, e.endpoints, e.started, e.jitter, e.now, ep, k);
    DeliveredStays(c, w, e, FreshSlot(ep, deadline));
    assert Free(c, FreshSlot(ep, deadline), req, at);
  }

  // ------------------------------------------------------------------ exclusive leases

  /** The slot under this mapping, if there is one, is held exclusively. */
  predicate Locked(slots: seq<Slot>, m: Mapping) { forall s :: s in slots && s.proxies == m ==> s.exclusive }

  predicate GivesBack(e: Event, m: Mapping) { (e.Succeeded? || e.Failed?) && e.proxies == m }

  /** The mapping the step grants, if it grants one. */
  ghost predicate GrantsNow(c: Config, w: World, e: Event, m: Mapping) {
    e.Borrowed? && Borrow(c, w.pool, e.req, e.affinity, e.now, e.later).1 == Granted(m)
  }

  lemma CleanupLocked(p: Pool, m: Mapping, now: real)
    requires Locked(p.slots, m)
    ensures Locked(Cleanup(p, now).slots, m)
  {
    hide Cleanup;
    forall t | t in Cleanup(p, now).slots && t.proxies == m
      ensures t.exclusive
    {
      var s := CleanupComesFrom(p, now, t);
    }
  }

  lemma UpdateLocked(slots: seq<Slot>, i: nat, t: Slot, m: Mapping)
    requires Locked(slots, m) && i < |slots| && t.proxies == slots[i].proxies
    requires t.proxies == m && slots[i].exclusive ==> t.exclusive
    ensures Locked(slots[i := t], m)
  {
    assert slots[i] in slots;
    forall s | s in slots[i := t] && s.proxies == m
      ensures s.exclusive
    {
      if s != t {
        assert s in slots;
      }
    }
  }

  lemma WaitLocked(c: Config, p: Pool, m: Mapping, req: Requirements, now: real)
    requires Locked(p.slots, m)
    ensures Locked(Wait(c, p, req, now).0.slots, m)
  {
    hide Cleanup, Best, Active;
    if i: nat :| Best(c, req, Replace, p.slots, now) == Some(i) {
      var s := p.slots[i];
      UpdateLocked(p.slots, i, s.(draining := true), m);
      CleanupLocked(p.(slots := p.slots[i := s.(draining := true)],
                       retired := p.retired[s.endpoint := Retirement(c, s, now)],
                       stats := p.stats.(replaced := p.stats.replaced + 1)), m, now);
    }
  }

  lemma BorrowLocked(c: Config, p: Pool, m: Mapping, req: Requirements, affinity: string, now: real, later: real)
    requires c.optimized && Locked(p.slots, m)
    ensures Locked(Borrow(c, p, req, affinity, now, later).0.slots, m)
    ensures Borrow(c, p, req, affinity, now, later).1 != Granted(m)
  {
    hide Cleanup, Choose, Wait, Leases;
    CleanupLocked(p, m, now);
    var (q, choice) := Select(c, p, req, affinity, now);
    if choice.Some? {
      assert q.slots[choice.value] in q.slots;
      UpdateLocked(q.slots, choice.value, Lent(c, q.slots[choice.value], req), m);
    } else {
      WaitLocked(c, q, m, req, later);
      WaitGrantsNothing(c, q, req, later);
    }
  }

  lemma SucceedLocked(c: Config, p: Pool, m: Mapping, back: Mapping, now: real)
    requires Locked(p.slots, m) && back != m
    ensures Locked(Succeed(c, p, back, now).slots, m)
  {
    hide Find, Cleanup;
    if i: nat :| Find(p.slots, back) == Some(i) {
      var s := Rested(c, Released(p.slots[i]), now);
      UpdateLocked(p.slots, i, s, m);
      CleanupLocked(p.(slots := p.slots[i := s], stats := p.stats.(successes := p.stats.successes + 1)), m, now);
    }
  }

  lemma FailLocked(c: Config, p: Pool, m: Mapping, back: Mapping, cause: Cause, now: real)
    requires Locked(p.slots, m) && back != m
    ensures Locked(Fail(c, p, back, cause, now).slots, m)
  {
    hide Find, Cleanup;
    if i: nat :| Find(p.slots, back) == Some(i) {
      var s := if c.optimized then Cooled(Released(p.slots[i]), cause, now) else Released(p.slots[i]);
      var q := p.(slots := p.slots[i := s], stats := p.stats.(failures := p.stats.failures + 1));
      UpdateLocked(p.slots, i, s, m);
      if !Tolerated(c, s, cause) && !s.draining {
        UpdateLocked(q.slots, i, s.(draining := true), m);
      }
      CleanupLocked(if Tolerated(c, s, cause) then q else Discard(c, q, i, now), m, now);
    }
  }

  lemma DeliverLocked(c: Config, w: World, e: Event, m: Mapping)
    requires Safe(c, w) && e.Delivered? && m in w.held && Locked(w.pool.slots, m)
    ensures Locked(Next(c, w, e).pool.slots, m)
  {
    hide Find, Safe, Next, MappingOf;
    HeldIsFound(w.pool, w.held, m) by { Opens(c, w); }
    forall t | t in Next(c, w, e).pool.slots && t.proxies == m
      ensures t.exclusive
    {
      var s := DeliveredSlot(c, w, e, t);
    }
  }

  lemma Opens(c: Config, w: World)
    requires Safe(c, w)
    ensures Good(c, w.pool, w.held) && Agrees(w.pool.slots, w.held)
  {
  }

  /** A mapping held exclusively stays so, and is granted to nobody, until it comes back. */
  lemma StepLocked(c: Config, w: World, e: Event, m: Mapping)
    requires c.optimized && Safe(c, w) && Enabled(w, e) && !GivesBack(e, m)
    requires m in w.held && Locked(w.pool.slots, m)
    ensures var after := Next(c, w, e);
            after.held[m] == w.held[m] && Locked(after.pool.slots, m) && !GrantsNow(c, w, e, m)
  {
    hide Safe, Borrow, Deliver, Succeed, Fail, Locked, Find;
    match e
    case Borrowed(req, affinity, now, later) => BorrowLocked(c, w.pool, m, req, affinity, now, later);
    case Delivered(_, _, _, _, _, _) => DeliverLocked(c, w, e, m);
    case FetchEnded =>
    case Succeeded(back, now) => SucceedLocked(c, w.pool, m, back, now);
    case Failed(back, cause, now) => FailLocked(c, w.pool, m, back, cause, now);
    case Abandoned =>
  }

  /** An exclusive grant is of a mapping nobody holds, and locks it. */
  lemma GrantLocks(c: Config, w: World, e: Event, m: Mapping)
    requires c.optimized && Safe(c, w) && GrantsNow(c, w, e, m) && e.req.exclusive
    ensures w.held[m] == 0 && Next(c, w, e).held[m] == 1
    ensures Locked(Next(c, w, e).pool.slots, m)
  {
    hide Cleanup, Choose, Wait, Find, Leases, Tidy, MappingOf;
    CleanupGood(c, w.pool, w.held, e.now);
    var (q, choice) := Select(c, w.pool, e.req, e.affinity, e.now);
    if choice.None? {
      WaitGrantsNothing(c, q, e.req, e.later);
    }
    var i := choice.value;
    var after := Next(c, w, e).pool.slots;
    assert q.slots == Cleanup(w.pool, e.now).slots;
    assert SlotFine(c, q.slots[i]) && q.slots[i].inFlight == 0;
    assert w.held[m] == 0 by { HeldOfSlot(c, Cleanup(w.pool, e.now), w.held, i); }
    forall t | t in after && t.proxies == m
      ensures t.exclusive
    {
      var k :| 0 <= k < |after| && after[k] == t;
      if k != i {
        OtherMapping(c, q.slots, i, k);
      }
    }
  }

  lemma HeldOfSlot(c: Config, p: Pool, held: multiset<Mapping>, i: nat)
    requires Good(c, p, held) && i < |p.slots|
    ensures held[p.slots[i].proxies] == p.slots[i].inFlight
  {
    hide Find, Leases, MappingOf;
  }

  lemma {:induction false} RunLocked(c: Config, events: seq<Event>, from: nat, m: Mapping)
    requires c.optimized && Possible(c, events) && from <= |events|
    requires WorldAt(c, events, from).held[m] == 1 && Locked(WorldAt(c, events, from).pool.slots, m)
    requires forall k :: from <= k < |events| ==> !GivesBack(events[k], m)
    ensures WorldAt(c, events, |events|).held[m] == 1 && Locked(WorldAt(c, events, |events|).pool.slots, m)
    decreases |events|
  {
    hide Safe, Next, Enabled, Locked, GivesBack, Run, WorldAt, GrantsNow;
    if from < |events| {
      var n := |events| - 1;
      BeforeLast(c, events);
      PossiblePrefix(c, events, n);
      RunLocked(c, events[..n], from, m);
      StepLocked(c, WorldAt(c, events[..n], n), events[n], m);
    }
  }

  lemma PrefixWorlds(c: Config, events: seq<Event>, j: nat, k: nat)
    requires k <= j <= |events|
    ensures WorldAt(c, events[..j], k) == WorldAt(c, events, k)
  {
    assert events[..j][..k] == events[..k];
  }

  /** Over any run of an optimised pool: an exclusive grant is of a mapping nobody holds;
      it is out once, and granted to nobody else, until it has been returned. */
  lemma ExclusiveIsAlone(c: Config, events: seq<Event>, i: nat, m: Mapping)
    requires c.optimized && Possible(c, events) && i < |events|
    requires GrantsNow(c, WorldAt(c, events, i), events[i], m) && events[i].req.exclusive
    ensures WorldAt(c, events, i).held[m] == 0 && WorldAt(c, events, i + 1).held[m] == 1
    ensures forall j :: i < j < |events| && (forall k :: i < k < j ==> !GivesBack(events[k], m)) ==>
              WorldAt(c, events, j).held[m] == 1 && !GrantsNow(c, WorldAt(c, events, j), events[j], m)
  {
    hide Run, Possible, Safe, Next, Enabled, Locked, GivesBack, GrantsNow;
    PossiblePrefix(c, events, i);
    PossiblePrefix(c, events, i + 1);
    RunSafe(c, events[..i]);
    LastEvent(c, events, i);
    GrantLocks(c, WorldAt(c, events, i), events[i], m);
    forall j | i < j < |events| && (forall k :: i < k < j ==> !GivesBack(events[k], m))
      ensures WorldAt(c, events, j).held[m] == 1 && !GrantsNow(c, WorldAt(c, events, j), events[j], m)
    {
      PossiblePrefix(c, events, j);
      PrefixWorlds(c, events, j, i + 1);
      PrefixWorlds(c, events, j, j);
      RunLocked(c, events[..j], i + 1, m);
      RunSafe(c, events[..j]);
      LockedIsHeld(c, WorldAt(c, events, j), events[j], m);
    }
  }

  lemma LockedIsHeld(c: Config, w: World, e: Event, m: Mapping)
    requires c.optimized && Locked(w.pool.slots, m)
    ensures !GrantsNow(c, w, e, m)
  {
    hide Borrow, Locked;
    if e.Borrowed? {
      BorrowLocked(c, w.pool, m, e.req, e.affinity, e.now, e.later);
    }
  }
}
