/**
  Penalties that cannot be lost: a rest that ends within the life of its slot is served
  whatever the supplier delivers, because the slot can leave the pool early only by being
  given up or replaced, and both bar the endpoint for longer.
 */
module PoolServed {
  import opened PoolModel
  import opened PoolPenalties
  import opened PoolSafety
  import opened ProxySlots
  import opened Wrappers

  /** The slot lends, outlives the rest, and rests. */
  predicate Serves(s: Slot, rest: Rest, until: real) {
    !s.draining && until <= s.expireAt && SlotRests(s, rest, until)
  }

  predicate Serving(slots: seq<Slot>, ep: Endpoint, rest: Rest, until: real) {
    && Known(slots, ep)
    && forall s :: s in slots && s.endpoint == ep ==> Serves(s, rest, until)
  }

  /** The endpoint rests in the pool or is out of it until then. */
  predicate Kept(p: Pool, ep: Endpoint, rest: Rest, until: real) {
    Serving(p.slots, ep, rest, until) || OutUntil(p, ep, until)
  }

  /** Every reading of the clock in the step is from that stretch of time. */
  predicate ReadsWithin(e: Event, since: real, until: real) {
    && ReadsBefore(e, until)
    && match e
       case Borrowed(_, _, now, later) => now >= since && later >= since
       case Failed(_, _, now) => now >= since
       case _ => true
  }

  lemma CleanupServes(p: Pool, ep: Endpoint, rest: Rest, until: real, now: real)
    requires Serving(p.slots, ep, rest, until) && now < until
    ensures Serving(Cleanup(p, now).slots, ep, rest, until)
  {
    hide Sweep, Mark, SlotRests;
    SweepKeeps(Mark(p.slots, now));
    var s :| s in p.slots && s.endpoint == ep;
    var k :| 0 <= k < |p.slots| && p.slots[k] == s;
    assert Mark(p.slots, now)[k] == Marked(s, now) == s;
    assert s in Cleanup(p, now).slots;
    forall t | t in Cleanup(p, now).slots && t.endpoint == ep
      ensures Serves(t, rest, until)
    {
      var u := CleanupComesFrom(p, now, t);
    }
  }

  /** One slot changes and still rests, if it is the endpoint's. */
  lemma UpdateServes(slots: seq<Slot>, i: nat, t: Slot, ep: Endpoint, rest: Rest, until: real)
    requires Serving(slots, ep, rest, until) && i < |slots| && t.endpoint == slots[i].endpoint
    requires t.endpoint == ep && Serves(slots[i], rest, until) ==> Serves(t, rest, until)
    ensures Serving(slots[i := t], ep, rest, until)
  {
    hide Serves;
    var after := slots[i := t];
    var s :| s in slots && s.endpoint == ep;
    var k :| 0 <= k < |slots| && slots[k] == s;
    assert after[k] in after && after[k].endpoint == ep;
    assert slots[i] in slots;
  }

  /** A slot that lends is given up. */
  lemma RetiredIsOut(p: Pool, i: nat, when: real, until: real)
    requires Distinct(p.slots) && i < |p.slots| && when >= until
    ensures OutUntil(p.(slots := p.slots[i := p.slots[i].(draining := true)],
                        retired := p.retired[p.slots[i].endpoint := when]),
                     p.slots[i].endpoint, until)
  {
    OneSlotOut(p.slots, i);
  }

  lemma OutBesides(p: Pool, q: Pool, ep: Endpoint, until: real)
    requires OutUntil(p, ep, until) && q.slots == p.slots && q.retired == p.retired
    ensures OutUntil(q, ep, until)
  {
  }

  lemma WaitKeeps(c: Config, p: Pool, held: multiset<Mapping>, ep: Endpoint, rest: Rest, since: real,
                  until: real, req: Requirements, now: real)
    requires Good(c, p, held) && Serving(p.slots, ep, rest, until)
    requires since <= now < until <= since + 30.0
    ensures Kept(Wait(c, p, req, now).0, ep, rest, until)
  {
    hide Cleanup, Best, Active, Serving, OutUntil, Agrees, Leases;
    if i: nat :| Best(c, req, Replace, p.slots, now) == Some(i) {
      var s := p.slots[i];
      var q := p.(slots := p.slots[i := s.(draining := true)],
                  retired := p.retired[s.endpoint := Retirement(c, s, now)],
                  stats := p.stats.(replaced := p.stats.replaced + 1));
      if s.endpoint == ep {
        RetiredIsOut(p, i, Retirement(c, s, now), until);
        OutBesides(p.(slots := q.slots, retired := q.retired), q, ep, until);
        CleanupOut(q, ep, until, now);
        FetchingOut(Cleanup(q, now), ep, until);
      } else {
        UpdateServes(p.slots, i, s.(draining := true), ep, rest, until);
        CleanupServes(q, ep, rest, until, now);
      }
    }
  }

  lemma BorrowKeeps(c: Config, p: Pool, held: multiset<Mapping>, ep: Endpoint, rest: Rest, since: real,
                    until: real, req: Requirements, affinity: string, now: real, later: real)
    requires Good(c, p, held) && Serving(p.slots, ep, rest, until)
    requires since <= now < until <= since + 30.0 && since <= later < until
    ensures Kept(Borrow(c, p, req, affinity, now, later).0, ep, rest, until)
  {
    hide Cleanup, Choose, Wait, Leases, Serving, OutUntil, Good;
    CleanupServes(p, ep, rest, until, now);
    CleanupGood(c, p, held, now);
    var (q, choice) := Select(c, p, req, affinity, now);
    if choice.Some? {
      UpdateServes(q.slots, choice.value, Lent(c, q.slots[choice.value], req), ep, rest, until);
    } else {
      PinGood(c, Cleanup(p, now), held, affinity, choice);
      WaitKeeps(c, q, held, ep, rest, since, until, req, later);
    }
  }

  lemma PinGood(c: Config, p: Pool, held: multiset<Mapping>, affinity: string, choice: Option<nat>)
    requires Good(c, p, held) && choice.None?
    ensures Good(c, Pin(p, affinity, choice), held)
  {
  }

  /** An endpoint the pool knows gets no second slot. */
  lemma {:induction false} MergeServes(c: Config, p: Pool, ep: Endpoint, rest: Rest, until: real,
                                       endpoints: seq<Endpoint>, started: real, jitter: nat -> real, now: real)
    requires Serving(p.slots, ep, rest, until)
    ensures Serving(Merge(c, p, endpoints, started, jitter, now).slots, ep, rest, until)
    decreases |endpoints|
  {
    hide MappingOf, Deadline, Serves;
    if |endpoints| == 0 {
    } else {
      MergeServes(c, p, ep, rest, until, endpoints[..|endpoints| - 1], started, jitter, now);
      var q := Merge(c, p, endpoints[..|endpoints| - 1], started, jitter, now);
      var s :| s in q.slots && s.endpoint == ep;
      assert s in Merge(c, p, endpoints, started, jitter, now).slots;
    }
  }

  lemma SucceedServes(c: Config, p: Pool, ep: Endpoint, rest: Rest, until: real, back: Mapping, now: real)
    requires Serving(p.slots, ep, rest, until) && now < until
    ensures Serving(Succeed(c, p, back, now).slots, ep, rest, until)
  {
    hide Find, Cleanup, Serving;
    if i: nat :| Find(p.slots, back) == Some(i) {
      var s := Rested(c, Released(p.slots[i]), now);
      UpdateServes(p.slots, i, s, ep, rest, until);
      CleanupServes(p.(slots := p.slots[i := s], stats := p.stats.(successes := p.stats.successes + 1)),
                    ep, rest, until, now);
    }
  }

  lemma FailKeeps(c: Config, p: Pool, held: multiset<Mapping>, ep: Endpoint, rest: Rest, since: real,
                  back: Mapping, cause: Cause, now: real)
    requires c.optimized && Good(c, p, held)
    requires Serving(p.slots, ep, rest, since + Duration(rest)) && since <= now < since + Duration(rest)
    ensures Kept(Fail(c, p, back, cause, now), ep, rest, since + Duration(rest))
  {
    hide Find, Cleanup, Serving, OutUntil, Agrees;
    var until := since + Duration(rest);
    if i: nat :| Find(p.slots, back) == Some(i) {
      var s := Cooled(Released(p.slots[i]), cause, now);
      var q := p.(slots := p.slots[i := s], stats := p.stats.(failures := p.stats.failures + 1));
      UpdateServes(p.slots, i, s, ep, rest, until);
      if Tolerated(c, s, cause) || s.draining {
        CleanupServes(q, ep, rest, until, now);
      } else if s.endpoint == ep {
        RetiredIsOut(q, i, Retirement(c, s, now), until);
        OutBesides(q.(slots := q.slots[i := s.(draining := true)],
                      retired := q.retired[s.endpoint := Retirement(c, s, now)]),
                   Discard(c, q, i, now), ep, until);
        CleanupOut(Discard(c, q, i, now), ep, until, now);
      } else {
        UpdateServes(q.slots, i, s.(draining := true), ep, rest, until);
        CleanupServes(Discard(c, q, i, now), ep, rest, until, now);
      }
    }
  }

  /** No step before the deadline lets the endpoint loose, whatever the supplier delivers. */
  lemma StepKeeps(c: Config, w: World, e: Event, ep: Endpoint, rest: Rest, since: real)
    requires c.optimized && Safe(c, w) && Enabled(w, e)
    requires ReadsWithin(e, since, since + Duration(rest))
    requires Kept(w.pool, ep, rest, since + Duration(rest))
    ensures Kept(Next(c, w, e).pool, ep, rest, since + Duration(rest))
  {
    hide Borrow, Merge, Choose, Cleanup, Succeed, Fail, Find, Serving, OutUntil, Good;
    var until := since + Duration(rest);
    if OutUntil(w.pool, ep, until) {
      StepOut(c, w, e, ep, until);
    } else {
      match e
      case Borrowed(req, affinity, now, later) =>
        BorrowKeeps(c, w.pool, w.held, ep, rest, since, until, req, affinity, now, later);
      case Delivered(endpoints, req, affinity, started, jitter, now) =>
        MergeServes(c, w.pool, ep, rest, until, endpoints, started, jitter, now);
        CleanupServes(Merge(c, w.pool, endpoints, started, jitter, now), ep, rest, until, now);
      case FetchEnded =>
      case Succeeded(back, now) => SucceedServes(c, w.pool, ep, rest, until, back, now);
      case Failed(back, cause, now) => FailKeeps(c, w.pool, w.held, ep, rest, since, back, cause, now);
      case Abandoned =>
    }
  }

  lemma {:induction false} RunKeeps(c: Config, events: seq<Event>, from: nat, ep: Endpoint, rest: Rest, since: real)
    requires c.optimized && Possible(c, events) && from <= |events|
    requires Kept(WorldAt(c, events, from).pool, ep, rest, since + Duration(rest))
    requires forall k :: from <= k < |events| ==> ReadsWithin(events[k], since, since + Duration(rest))
    ensures Kept(WorldAt(c, events, |events|).pool, ep, rest, since + Duration(rest))
    decreases |events|
  {
    hide Safe, Next, Enabled, Kept, ReadsWithin, Run, WorldAt;
    if from < |events| {
      var n := |events| - 1;
      BeforeLast(c, events);
      PossiblePrefix(c, events, n);
      RunKeeps(c, events[..n], from, ep, rest, since);
      StepKeeps(c, WorldAt(c, events[..n], n), events[n], ep, rest, since);
    }
  }

  /** A classified failure of a lease whose slot outlives the penalty. */
  lemma FailureKeeps(c: Config, p: Pool, held: multiset<Mapping>, ep: Endpoint, cause: Cause, now: real)
    requires c.optimized && Good(c, p, held) && MappingOf(ep) in held && Penalty(cause).Some?
    requires forall s :: s in p.slots && s.endpoint == ep ==>
               !s.draining && now + Penalty(cause).value.1 <= s.expireAt
    ensures var (rest, time) := Penalty(cause).value;
            Kept(Fail(c, p, MappingOf(ep), cause, now), ep, rest, now + time)
  {
    hide Find, Cleanup, MappingOf, Agrees, Serving, OutUntil;
    var (rest, time) := Penalty(cause).value;
    HeldIsFound(p, held, MappingOf(ep));
    var i := Find(p.slots, MappingOf(ep)).value;
    assert SlotFine(c, p.slots[i]) && p.slots[i] in p.slots;
    MappingIdentifiesEndpoint(p.slots[i].endpoint, ep);
    var s := Cooled(Released(p.slots[i]), cause, now);
    var q := p.(slots := p.slots[i := s], stats := p.stats.(failures := p.stats.failures + 1));
    if Tolerated(c, s, cause) {
      OneServes(p.slots, i, s, rest, now + time);
      CleanupServes(q, ep, rest, now + time, now);
    } else {
      GivenUpIsOut(c, p, held, MappingOf(ep), cause, now);
      OutLonger(Fail(c, p, MappingOf(ep), cause, now), ep, now + time, now + 30.0);
    }
  }

  lemma OneServes(slots: seq<Slot>, i: nat, t: Slot, rest: Rest, until: real)
    requires Distinct(slots) && i < |slots| && t.endpoint == slots[i].endpoint && Serves(t, rest, until)
    ensures Serving(slots[i := t], t.endpoint, rest, until)
  {
    hide Serves;
    assert slots[i := t][i] == t;
  }

  lemma OutLonger(p: Pool, ep: Endpoint, until: real, later: real)
    requires OutUntil(p, ep, later) && until <= later
    ensures OutUntil(p, ep, until)
  {
  }

  lemma KeptRests(c: Config, p: Pool, ep: Endpoint, rest: Rest, until: real)
    requires Kept(p, ep, rest, until)
    requires forall k :: 0 <= k < |p.slots| ==> SlotFine(c, p.slots[k])
    ensures Rests(p.slots, MappingOf(ep), rest, until)
  {
    hide MappingOf;
    forall s | s in p.slots && s.proxies == MappingOf(ep)
      ensures SlotRests(s, rest, until)
    {
      var k :| 0 <= k < |p.slots| && p.slots[k] == s;
      assert SlotFine(c, s);
      MappingIdentifiesEndpoint(s.endpoint, ep);
    }
  }

  /** When a lease fails whose slot still lends and has more life left than the penalty, no
      borrower the endpoint is kept from is given it before the deadline, whatever anyone
      does and whatever the supplier delivers meanwhile. */
  lemma PenaltyIsCertain(c: Config, events: seq<Event>, from: nat, ep: Endpoint, e: Event)
    requires c.optimized && Possible(c, events) && from < |events|
    requires events[from].Failed? && events[from].proxies == MappingOf(ep) && Penalty(events[from].cause).Some?
    requires var f := events[from];
             && (forall s :: s in WorldAt(c, events, from).pool.slots && s.endpoint == ep ==>
                   !s.draining && f.now + Penalty(f.cause).value.1 <= s.expireAt)
             && (forall k :: from < k < |events| ==>
                   ReadsWithin(events[k], f.now, f.now + Penalty(f.cause).value.1))
    requires e.Borrowed?
    requires var (rest, time) := Penalty(events[from].cause).value;
             Covers(rest, e.req.platform) && e.now < events[from].now + time
    ensures Borrow(c, Run(c, events).pool, e.req, e.affinity, e.now, e.later).1 != Granted(MappingOf(ep))
  {
    hide Run, Possible, Agrees, Tidy, Borrow, Fail, Rests, Kept, MappingOf, ReadsWithin;
    var f := events[from];
    var (rest, time) := Penalty(f.cause).value;
    var w := WorldAt(c, events, from);
    PossiblePrefix(c, events, from);
    PossiblePrefix(c, events, from + 1);
    RunSafe(c, events[..from]);
    RunSafe(c, events);
    LastEvent(c, events, from);
    FailureKeeps(c, w.pool, w.held, ep, f.cause, f.now);
    RunKeeps(c, events, from + 1, ep, rest, f.now);
    assert events[..|events|] == events;
    KeptRests(c, Run(c, events).pool, ep, rest, f.now + time);
    RestingIsNotLent(c, Run(c, events).pool, MappingOf(ep), rest, f.now + time, e.req, e.affinity, e.now, e.later);
  }
}
