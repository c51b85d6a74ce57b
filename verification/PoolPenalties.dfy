/** What a failed lease costs its endpoint, over whole runs. */
module PoolPenalties {
  import opened PoolModel
  import opened PoolRefill
  import opened PoolSafety
  import opened ProxySlots
  import opened Wrappers

  /** Whom an endpoint is kept from. */
  datatype Rest = Everyone | Those(platform: string)

  predicate SlotRests(s: Slot, rest: Rest, until: real) {
    || s.draining
    || match rest
       case Everyone => s.cooldownUntil >= until
       case Those(platform) => s.CoolingOff(platform) >= until
  }

  /** The slot under this mapping, if there is one, is kept from them. */
  predicate Rests(slots: seq<Slot>, proxies: Mapping, rest: Rest, until: real) {
    forall s :: s in slots && s.proxies == proxies ==> SlotRests(s, rest, until)
  }

  predicate Covers(rest: Rest, platform: string) { rest.Everyone? || rest.platform == platform }

  lemma CleanupComesFrom(p: Pool, now: real, t: Slot) returns (s: Slot)
    requires t in Cleanup(p, now).slots
    ensures s in p.slots && t == Marked(s, now)
  {
    hide Sweep, Mark;
    SweepKeeps(Mark(p.slots, now));
    var k :| 0 <= k < |p.slots| && Mark(p.slots, now)[k] == t;
    s := p.slots[k];
  }

  lemma CleanupRests(p: Pool, proxies: Mapping, rest: Rest, until: real, now: real)
    requires Rests(p.slots, proxies, rest, until)
    ensures Rests(Cleanup(p, now).slots, proxies, rest, until)
  {
    hide Cleanup;
    forall t | t in Cleanup(p, now).slots && t.proxies == proxies
      ensures SlotRests(t, rest, until)
    {
      var s := CleanupComesFrom(p, now, t);
    }
  }

  /** While an endpoint rests, nobody it is kept from is given it. */
  lemma RestingIsNotLent(c: Config, p: Pool, proxies: Mapping, rest: Rest, until: real, req: Requirements,
                         affinity: string, now: real, later: real)
    requires c.optimized && now < until && Covers(rest, req.platform)
    requires Rests(p.slots, proxies, rest, until)
    ensures Borrow(c, p, req, affinity, now, later).1 != Granted(proxies)
  {
    hide Cleanup, Choose, Wait, Grant;
    CleanupRests(p, proxies, rest, until, now);
    var (q, choice) := Select(c, p, req, affinity, now);
    if choice.Some? {
      assert q.slots[choice.value] in q.slots;
    } else {
      WaitGrantsNothing(c, q, req, later);
    }
  }

  lemma WaitGrantsNothing(c: Config, p: Pool, req: Requirements, now: real)
    ensures !Wait(c, p, req, now).1.Granted?
  {
  }

  // -------------------------------------------------------------- slots that change

  /** Other slots have other mappings. */
  lemma OtherMapping(c: Config, slots: seq<Slot>, i: nat, k: nat)
    requires forall j :: 0 <= j < |slots| ==> SlotFine(c, slots[j])
    requires Distinct(slots) && i < |slots| && k < |slots| && k != i
    ensures slots[k].proxies != slots[i].proxies
  {
    hide MappingOf;
    assert SlotFine(c, slots[i]) && SlotFine(c, slots[k]);
    if slots[k].proxies == slots[i].proxies {
      MappingIdentifiesEndpoint(slots[i].endpoint, slots[k].endpoint);
    }
  }

  lemma UpdateRests(slots: seq<Slot>, i: nat, t: Slot, proxies: Mapping, rest: Rest, until: real)
    requires Rests(slots, proxies, rest, until) && i < |slots|
    requires t.proxies == slots[i].proxies
    requires SlotRests(slots[i], rest, until) ==> SlotRests(t, rest, until)
    ensures Rests(slots[i := t], proxies, rest, until)
  {
    hide SlotRests;
    assert slots[i] in slots;
    forall s | s in slots[i := t] && s.proxies == proxies
      ensures SlotRests(s, rest, until)
    {
      if s != t {
        assert s in slots;
      }
    }
  }

  /** How long a failure keeps the endpoint away, and from whom. */
  function Penalty(cause: Cause): Option<(Rest, real)> {
    match cause
    case Transport => Some((Everyone, 15.0))
    case Platform(name) => Some((Those(name), 30.0))
    case _ => None
  }

  function Duration(rest: Rest): real { if rest.Everyone? then 15.0 else 30.0 }

  /** A transport failure keeps the endpoint from everyone for 15 seconds, a platform
      failure from that platform's borrowers for 30. */
  lemma FailureRests(c: Config, p: Pool, held: multiset<Mapping>, proxies: Mapping, cause: Cause, now: real)
    requires c.optimized && Good(c, p, held) && proxies in held && Penalty(cause).Some?
    ensures var (rest, time) := Penalty(cause).value;
            Rests(Fail(c, p, proxies, cause, now).slots, proxies, rest, now + time)
  {
    hide Find, Cleanup, Agrees, MappingOf;
    var (rest, time) := Penalty(cause).value;
    HeldIsFound(p, held, proxies);
    var i := Find(p.slots, proxies).value;
    assert SlotFine(c, p.slots[i]);
    var s := Cooled(Released(p.slots[i]), cause, now);
    var q := p.(slots := p.slots[i := s], stats := p.stats.(failures := p.stats.failures + 1));
    var r := if Tolerated(c, s, cause) then q else Discard(c, q, i, now);
    forall t | t in r.slots && t.proxies == proxies
      ensures SlotRests(t, rest, now + time)
    {
      var k :| 0 <= k < |r.slots| && r.slots[k] == t;
      if k != i {
        OtherMapping(c, p.slots, i, k);
      }
    }
    CleanupRests(r, proxies, rest, now + time, now);
  }

  // ------------------------------------------------------------- steps of the pool

  lemma ReturnRests(c: Config, p: Pool, proxies: Mapping, rest: Rest, since: real,
                    back: Mapping, cause: Cause, now: real)
    requires Rests(p.slots, proxies, rest, since + Duration(rest)) && now >= since
    ensures Rests(Fail(c, p, back, cause, now).slots, proxies, rest, since + Duration(rest))
  {
    hide Find, Cleanup;
    var until := since + Duration(rest);
    if i: nat :| Find(p.slots, back) == Some(i) {
      var s := if c.optimized then Cooled(Released(p.slots[i]), cause, now) else Released(p.slots[i]);
      var q := p.(slots := p.slots[i := s], stats := p.stats.(failures := p.stats.failures + 1));
      UpdateRests(p.slots, i, s, proxies, rest, until);
      if !Tolerated(c, s, cause) && !s.draining {
        UpdateRests(q.slots, i, s.(draining := true), proxies, rest, until);
      }
      CleanupRests(if Tolerated(c, s, cause) then q else Discard(c, q, i, now), proxies, rest, until, now);
    }
  }

  lemma SucceedRests(c: Config, p: Pool, proxies: Mapping, rest: Rest, until: real, back: Mapping, now: real)
    requires Rests(p.slots, proxies, rest, until)
    ensures Rests(Succeed(c, p, back, now).slots, proxies, rest, until)
  {
    hide Find, Cleanup;
    if i: nat :| Find(p.slots, back) == Some(i) {
      var s := Rested(c, Released(p.slots[i]), now);
      UpdateRests(p.slots, i, s, proxies, rest, until);
      CleanupRests(p.(slots := p.slots[i := s], stats := p.stats.(successes := p.stats.successes + 1)),
                   proxies, rest, until, now);
    }
  }

  lemma WaitRests(c: Config, p: Pool, proxies: Mapping, rest: Rest, until: real, req: Requirements, now: real)
    requires Rests(p.slots, proxies, rest, until)
    ensures Rests(Wait(c, p, req, now).0.slots, proxies, rest, until)
  {
    hide Cleanup, Best, Active;
    if i: nat :| Best(c, req, Replace, p.slots, now) == Some(i) {
      var s := p.slots[i];
      UpdateRests(p.slots, i, s.(draining := true), proxies, rest, until);
      CleanupRests(p.(slots := p.slots[i := s.(draining := true)],
                      retired := p.retired[s.endpoint := Retirement(c, s, now)],
                      stats := p.stats.(replaced := p.stats.replaced + 1)),
                   proxies, rest, until, now);
    }
  }

  lemma BorrowRests(c: Config, p: Pool, proxies: Mapping, rest: Rest, until: real, req: Requirements,
                    affinity: string, now: real, later: real)
    requires Rests(p.slots, proxies, rest, until)
    ensures Rests(Borrow(c, p, req, affinity, now, later).0.slots, proxies, rest, until)
  {
    hide Cleanup, Choose, Wait, Leases;
    CleanupRests(p, proxies, rest, until, now);
    var (q, choice) := Select(c, p, req, affinity, now);
    if choice.Some? {
      UpdateRests(q.slots, choice.value, Lent(c, q.slots[choice.value], req), proxies, rest, until);
    } else {
      WaitRests(c, q, proxies, rest, until, req, later);
    }
  }

  /** What a merge leaves in the pool: old slots, and fresh ones of endpoints unknown before. */
  lemma {:induction false} MergeComesFrom(c: Config, p: Pool, endpoints: seq<Endpoint>, started: real,
                                          jitter: nat -> real, now: real)
    ensures forall s :: s in Merge(c, p, endpoints, started, jitter, now).slots ==>
              s in p.slots || (s == FreshSlot(s.endpoint, s.expireAt) && !Known(p.slots, s.endpoint))
    ensures forall s :: s in p.slots ==> s in Merge(c, p, endpoints, started, jitter, now).slots
    decreases |endpoints|
  {
    hide MappingOf, Deadline;
    if |endpoints| == 0 {
    } else {
      MergeComesFrom(c, p, endpoints[..|endpoints| - 1], started, jitter, now);
    }
  }

  /** Before the step no slot hands out this mapping, and after it one does. */
  ghost predicate Rebought(c: Config, w: World, e: Event, proxies: Mapping) {
    e.Delivered? && Find(w.pool.slots, proxies).None? && Find(Next(c, w, e).pool.slots, proxies).Some?
  }

  lemma KnownIsFound(c: Config, p: Pool, e: Endpoint)
    requires forall k :: 0 <= k < |p.slots| ==> SlotFine(c, p.slots[k])
    requires !Known(p.slots, e)
    ensures Find(p.slots, MappingOf(e)).None?
  {
    hide Find, MappingOf;
    forall s | s in p.slots
      ensures s.proxies != MappingOf(e)
    {
      var k :| 0 <= k < |p.slots| && p.slots[k] == s;
      assert SlotFine(c, p.slots[k]);
      if s.proxies == MappingOf(e) {
        MappingIdentifiesEndpoint(s.endpoint, e);
      }
    }
  }

  /** A delivered slot under a mapping is one that was there, or a fresh one under a mapping
      that was not. */
  lemma DeliveredSlot(c: Config, w: World, e: Event, t: Slot) returns (s: Slot)
    requires Safe(c, w) && e.Delivered? && t in Next(c, w, e).pool.slots
    ensures t == s || t == s.(draining := true)
    ensures || s in w.pool.slots
            || (s == FreshSlot(s.endpoint, s.expireAt) && Find(w.pool.slots, s.proxies).None?)
  {
    hide Find, Cleanup, MappingOf, Choose, Merge;
    var m := Merge(c, w.pool, e.endpoints, e.started, e.jitter, e.now);
    MergeComesFrom(c, w.pool, e.endpoints, e.started, e.jitter, e.now);
    if t in m.slots {
      s := t;
    } else {
      s := CleanupComesFrom(m, e.now, t);
    }
    if s !in w.pool.slots {
      KnownIsFound(c, w.pool, s.endpoint);
    }
  }

  lemma DeliverRests(c: Config, w: World, e: Event, proxies: Mapping, rest: Rest, until: real)
    requires Safe(c, w) && Enabled(w, e) && e.Delivered?
    requires Rests(w.pool.slots, proxies, rest, until) && until > 0.0
    ensures Rests(Next(c, w, e).pool.slots, proxies, rest, until) <==> !Rebought(c, w, e, proxies)
  {
    hide Find, Safe, Next, MappingOf;
    var slots := Next(c, w, e).pool.slots;
    if Rebought(c, w, e, proxies) {
      var t := slots[Find(slots, proxies).value];
      var s := DeliveredSlot(c, w, e, t);
      StepSafe(c, w, e);
      FreshIsActive(c, Next(c, w, e), t, s);
      assert !SlotRests(t, rest, until);
    } else {
      forall t | t in slots && t.proxies == proxies
        ensures SlotRests(t, rest, until)
      {
        var s := DeliveredSlot(c, w, e, t);
      }
    }
  }

  /** A slot without leases that is kept is not draining. */
  lemma FreshIsActive(c: Config, w: World, t: Slot, s: Slot)
    requires Safe(c, w) && t in w.pool.slots
    requires s.inFlight == 0 && (t == s || t == s.(draining := true))
    ensures !t.draining
  {
    hide Good;
    var k :| 0 <= k < |w.pool.slots| && w.pool.slots[k] == t;
    assert !w.pool.slots[k].Gone();
  }

  predicate FirstCopy(endpoints: seq<Endpoint>, k: nat, ep: Endpoint) {
    k < |endpoints| && endpoints[k] == ep && ep !in endpoints[..k]
  }

  /** The answer names an endpoint that has left the pool, was not given up lately, and is
      not so late that the new slot has run out already. */
  ghost predicate Rebuys(c: Config, p: Pool, e: Event, ep: Endpoint) {
    && e.Delivered?
    && !Known(p.slots, ep)
    && !Barred(c, p, ep, e.now)
    && exists k: nat :: FirstCopy(e.endpoints, k, ep) && e.now < Deadline(c, e.started, e.jitter(k), e.now)
  }

  /** The first copy of a new endpoint in an answer becomes its one slot. */
  lemma {:induction false} MergeCopies(c: Config, p: Pool, endpoints: seq<Endpoint>, started: real,
                                       jitter: nat -> real, now: real, ep: Endpoint, k: nat)
    requires FirstCopy(endpoints, k, ep) && !Known(p.slots, ep) && !Barred(c, p, ep, now)
    ensures FreshSlot(ep, Deadline(c, started, jitter(k), now)) in Merge(c, p, endpoints, started, jitter, now).slots
    ensures forall s :: s in Merge(c, p, endpoints, started, jitter, now).slots && s.endpoint == ep ==>
              s == FreshSlot(ep, Deadline(c, started, jitter(k), now))
    decreases |endpoints|
  {
    hide MappingOf, Deadline;
    var n := |endpoints| - 1;
    var front := endpoints[..n];
    MergeKnows(c, p, front, started, jitter, now, ep);
    if k < n {
      assert front[..k] == endpoints[..k];
      MergeCopies(c, p, front, started, jitter, now, ep, k);
    }
  }

  lemma CopyOf(endpoints: seq<Endpoint>, ep: Endpoint) returns (k: nat)
    requires ep in endpoints
    ensures FirstCopy(endpoints, k, ep)
  {
    k := 0;
    while endpoints[k] != ep
      invariant 0 <= k < |endpoints| && ep !in endpoints[..k] && ep in endpoints
      decreases |endpoints| - k
    {
      assert endpoints == endpoints[..k] + [endpoints[k]] + endpoints[k + 1..];
      k := k + 1;
    }
  }

  lemma FoundIsKnown(c: Config, p: Pool, ep: Endpoint)
    requires forall k :: 0 <= k < |p.slots| ==> SlotFine(c, p.slots[k])
    ensures Find(p.slots, MappingOf(ep)).Some? <==> Known(p.slots, ep)
  {
    hide Find, MappingOf;
    if Known(p.slots, ep) {
      var s :| s in p.slots && s.endpoint == ep;
      var k :| 0 <= k < |p.slots| && p.slots[k] == s;
      assert SlotFine(c, p.slots[k]);
    } else {
      KnownIsFound(c, p, ep);
    }
  }

  /** What a delivery leaves of a merged slot without leases. */
  lemma DeliveredStays(c: Config, w: World, e: Event, s: Slot)
    requires e.Delivered?
    requires s in Merge(c, w.pool, e.endpoints, e.started, e.jitter, e.now).slots
    requires !s.draining && e.now < s.expireAt
    ensures s in Next(c, w, e).pool.slots
  {
    hide Find, Merge, Choose, Mark, Sweep;
    var m := Merge(c, w.pool, e.endpoints, e.started, e.jitter, e.now);
    SweepKeeps(Mark(m.slots, e.now));
    var k :| 0 <= k < |m.slots| && m.slots[k] == s;
    assert Mark(m.slots, e.now)[k] == Marked(s, e.now) == s;
  }

  lemma DeliveredFrom(c: Config, w: World, e: Event, t: Slot) returns (s: Slot)
    requires e.Delivered? && t in Next(c, w, e).pool.slots
    ensures s in Merge(c, w.pool, e.endpoints, e.started, e.jitter, e.now).slots
    ensures t == Marked(s, e.now) || (!c.optimized && t == s)
  {
    hide Find, Cleanup, Choose, Merge;
    var m := Merge(c, w.pool, e.endpoints, e.started, e.jitter, e.now);
    if c.optimized || m.stats.added == w.pool.stats.added {
      s := CleanupComesFrom(m, e.now, t);
    } else {
      s := t;
    }
  }

  lemma PlainDeadline(c: Config, started: real, jitter: real, now: real)
    ensures !c.optimized ==> now < Deadline(c, started, jitter, now)
  {
  }

  /** An endpoint that was away is in the pool after a step exactly when the step is a
      delivery that buys it. */
  lemma ReboughtExactly(c: Config, w: World, e: Event, ep: Endpoint)
    requires Safe(c, w) && Enabled(w, e)
    ensures Rebought(c, w, e, MappingOf(ep)) <==> Rebuys(c, w.pool, e, ep)
  {
    hide Find, Next, Deadline, Merge, MappingOf, Tidy;
    if e.Delivered? {
      var after := Next(c, w, e);
      StepSafe(c, w, e);
      FoundIsKnown(c, w.pool, ep);
      FoundIsKnown(c, after.pool, ep);
      MergeKnows(c, w.pool, e.endpoints, e.started, e.jitter, e.now, ep);
      if !Known(w.pool.slots, ep) && ep in e.endpoints && !Barred(c, w.pool, ep, e.now) {
        var k := CopyOf(e.endpoints, ep);
        var deadline := Deadline(c, e.started, e.jitter(k), e.now);
        MergeCopies(c, w.pool, e.endpoints, e.started, e.jitter, e.now, ep, k);
        if e.now < deadline {
          DeliveredStays(c, w, e, FreshSlot(ep, deadline));
        } else if Known(after.pool.slots, ep) {
          LateIsGone(c, w, e, ep, k);
        }
        forall j: nat | FirstCopy(e.endpoints, j, ep)
          ensures j == k
        {
          OneFirst(e.endpoints, j, k, ep);
        }
      } else if t :| t in after.pool.slots && t.endpoint == ep {
        var s := DeliveredFrom(c, w, e, t);
        assert Known(Merge(c, w.pool, e.endpoints, e.started, e.jitter, e.now).slots, ep);
      }
    }
  }

  lemma OneFirst(endpoints: seq<Endpoint>, j: nat, k: nat, ep: Endpoint)
    requires FirstCopy(endpoints, j, ep) && FirstCopy(endpoints, k, ep)
    ensures j == k
  {
  }

  /** A new slot that has run out already does not survive its delivery. */
  lemma LateIsGone(c: Config, w: World, e: Event, ep: Endpoint, k: nat)
    requires Safe(c, w) && Enabled(w, e) && e.Delivered? && FirstCopy(e.endpoints, k, ep)
    requires !Known(w.pool.slots, ep) && !Barred(c, w.pool, ep, e.now)
    requires Deadline(c, e.started, e.jitter(k), e.now) <= e.now
    ensures !Known(Next(c, w, e).pool.slots, ep)
  {
    hide Find, Next, Deadline, Merge, MappingOf, Good;
    PlainDeadline(c, e.started, e.jitter(k), e.now);
    StepSafe(c, w, e);
    MergeCopies(c, w.pool, e.endpoints, e.started, e.jitter, e.now, ep, k);
    if t :| t in Next(c, w, e).pool.slots && t.endpoint == ep {
      var s := DeliveredFrom(c, w, e, t);
    }
  }

  /** A rest lasts until its deadline, and is lost before exactly when a delivery buys the
      endpoint again after it left the pool. */
  lemma StepRests(c: Config, w: World, e: Event, ep: Endpoint, rest: Rest, since: real)
    requires Safe(c, w) && Enabled(w, e) && 0.0 <= since
    requires e.Failed? ==> e.now >= since
    requires Rests(w.pool.slots, MappingOf(ep), rest, since + Duration(rest))
    ensures Rests(Next(c, w, e).pool.slots, MappingOf(ep), rest, since + Duration(rest)) <==>
            !Rebuys(c, w.pool, e, ep)
  {
    hide Safe, Borrow, Deliver, Succeed, Fail, Rests, Find, MappingOf, Rebuys;
    var until, m := since + Duration(rest), MappingOf(ep);
    ReboughtExactly(c, w, e, ep);
    match e
    case Borrowed(req, affinity, now, later) =>
      BorrowRests(c, w.pool, m, rest, until, req, affinity, now, later);
    case Delivered(_, _, _, _, _, _) => DeliverRests(c, w, e, m, rest, until);
    case FetchEnded =>
    case Succeeded(back, now) => SucceedRests(c, w.pool, m, rest, until, back, now);
    case Failed(back, cause, now) =>
      ReturnRests(c, w.pool, m, rest, since, back, cause, now);
    case Abandoned =>
  }

  /** Over any run: once imposed, the rest holds throughout exactly when no later delivery
      buys the endpoint again. */
  lemma {:induction false} RunRests(c: Config, events: seq<Event>, from: nat, ep: Endpoint, rest: Rest, since: real)
    requires Possible(c, events) && from <= |events| && 0.0 <= since
    requires Rests(WorldAt(c, events, from).pool.slots, MappingOf(ep), rest, since + Duration(rest))
    requires forall k :: from <= k < |events| && events[k].Failed? ==> events[k].now >= since
    ensures (forall k :: from <= k <= |events| ==>
               Rests(WorldAt(c, events, k).pool.slots, MappingOf(ep), rest, since + Duration(rest)))
       <==> (forall k :: from <= k < |events| ==> !Rebuys(c, WorldAt(c, events, k).pool, events[k], ep))
    decreases |events|
  {
    hide Safe, Next, Enabled, Rests, Rebuys, Run, WorldAt, MappingOf;
    if from < |events| {
      var n := |events| - 1;
      var front := events[..n];
      BeforeLast(c, events);
      PossiblePrefix(c, events, n);
      RunRests(c, front, from, ep, rest, since);
      if Rests(WorldAt(c, front, n).pool.slots, MappingOf(ep), rest, since + Duration(rest)) {
        StepRests(c, WorldAt(c, front, n), events[n], ep, rest, since);
      }
    }
  }

  /** So no borrower it is kept from is given the endpoint before the deadline, unless it
      is bought again. */
  lemma PenaltyIsServed(c: Config, events: seq<Event>, from: nat, ep: Endpoint, e: Event)
    requires c.optimized && Possible(c, events) && from < |events|
    requires events[from].Failed? && events[from].proxies == MappingOf(ep)
    requires Penalty(events[from].cause).Some? && 0.0 <= events[from].now
    requires forall k :: from < k < |events| && events[k].Failed? ==> events[k].now >= events[from].now
    requires forall k :: from < k < |events| ==> !Rebuys(c, WorldAt(c, events, k).pool, events[k], ep)
    requires e.Borrowed?
    requires var (rest, time) := Penalty(events[from].cause).value;
             Covers(rest, e.req.platform) && e.now < events[from].now + time
    ensures Borrow(c, Run(c, events).pool, e.req, e.affinity, e.now, e.later).1 != Granted(MappingOf(ep))
  {
    hide Run, Possible, Good, Tidy, Borrow, Fail, Rests, Rebuys, MappingOf;
    var f := events[from];
    var (rest, time) := Penalty(f.cause).value;
    var w := WorldAt(c, events, from);
    PossiblePrefix(c, events, from);
    PossiblePrefix(c, events, from + 1);
    RunSafe(c, events[..from]);
    LastEvent(c, events, from);
    FailureRests(c, w.pool, w.held, f.proxies, f.cause, f.now);
    RunRests(c, events, from + 1, ep, rest, f.now);
    assert events[..|events|] == events;
    assert Rests(WorldAt(c, events, |events|).pool.slots, MappingOf(ep), rest, f.now + time);
    RestingIsNotLent(c, Run(c, events).pool, MappingOf(ep), rest, f.now + time, e.req, e.affinity, e.now, e.later);
  }

  lemma LastEvent(c: Config, events: seq<Event>, k: nat)
    requires k < |events| && Possible(c, events[..k + 1])
    ensures Run(c, events[..k + 1]) == Next(c, Run(c, events[..k]), events[k])
    ensures Enabled(Run(c, events[..k]), events[k])
  {
    hide Next, Enabled;
    assert events[..k + 1][..k] == events[..k];
  }

  // ------------------------------------------------------------------ endpoints given up

  /** The endpoint was given up until then, and no slot of it takes further leases. */
  predicate OutUntil(p: Pool, e: Endpoint, until: real) {
    && e in p.retired && p.retired[e] >= until
    && (forall s :: s in p.slots && s.endpoint == e ==> s.draining)
  }

  lemma CleanupOut(p: Pool, e: Endpoint, until: real, now: real)
    requires OutUntil(p, e, until) && now < until
    ensures OutUntil(Cleanup(p, now), e, until)
  {
    hide Sweep, Mark;
    forall t | t in Cleanup(p, now).slots && t.endpoint == e
      ensures t.draining
    {
      var s := CleanupComesFrom(p, now, t);
    }
  }

  /** Whether a slot that lends is given up when a lease on it fails. */
  predicate GivesUp(c: Config, s: Slot, cause: Cause) {
    || !c.optimized
    || cause.Plain?
    || s.transportErrors + (if cause.Transport? then 1 else 0) >= 3
  }

  /** A failed lease gives its endpoint up exactly for an unclassified failure, in plain
      mode, or at the third transport failure, and only once; in optimised mode the
      endpoint is then out for at least 30 seconds. */
  lemma GivenUpIsOut(c: Config, p: Pool, held: multiset<Mapping>, proxies: Mapping, cause: Cause, now: real)
    requires Good(c, p, held) && proxies in held
    ensures Find(p.slots, proxies).Some?
    ensures var s, q := p.slots[Find(p.slots, proxies).value], Fail(c, p, proxies, cause, now);
            var given := !s.draining && GivesUp(c, s, cause);
            && q.stats.discarded == p.stats.discarded + (if given then 1 else 0)
            && (given && c.optimized ==> OutUntil(q, s.endpoint, now + 30.0))
  {
    hide Cleanup, Agrees, MappingOf, Find;
    HeldIsFound(p, held, proxies);
    var i := Find(p.slots, proxies).value;
    var s := if c.optimized then Cooled(Released(p.slots[i]), cause, now) else Released(p.slots[i]);
    var q := p.(slots := p.slots[i := s], stats := p.stats.(failures := p.stats.failures + 1));
    CleanupKeepsDiscarded(q, now);
    CleanupKeepsDiscarded(Discard(c, q, i, now), now);
    if !s.draining && !Tolerated(c, s, cause) && c.optimized {
      OneSlotOut(q.slots, i);
      CleanupOut(Discard(c, q, i, now), s.endpoint, now + 30.0, now);
    }
  }

  lemma CleanupKeepsDiscarded(p: Pool, now: real)
    ensures Cleanup(p, now).stats.discarded == p.stats.discarded
  {
  }

  lemma OneSlotOut(slots: seq<Slot>, i: nat)
    requires Distinct(slots) && i < |slots|
    ensures forall s :: s in slots[i := slots[i].(draining := true)] && s.endpoint == slots[i].endpoint ==> s.draining
  {
  }

  /** One slot changes without taking leases again. */
  lemma UpdateOut(p: Pool, q: Pool, i: nat, e: Endpoint, until: real)
    requires OutUntil(p, e, until) && i < |p.slots| && |q.slots| == |p.slots|
    requires q.retired == p.retired
    requires q.slots[i].endpoint == p.slots[i].endpoint && (p.slots[i].draining ==> q.slots[i].draining)
    requires forall k :: 0 <= k < |p.slots| && k != i ==> q.slots[k] == p.slots[k]
    ensures OutUntil(q, e, until)
  {
    assert p.slots[i] in p.slots;
    forall s | s in q.slots && s.endpoint == e
      ensures s.draining
    {
      var k :| 0 <= k < |q.slots| && q.slots[k] == s;
      assert p.slots[k] in p.slots;
    }
  }

  /** Another endpoint is retired. */
  lemma RetireOut(p: Pool, i: nat, e: Endpoint, until: real, when: real)
    requires OutUntil(p, e, until) && i < |p.slots| && !p.slots[i].draining
    ensures OutUntil(p.(retired := p.retired[p.slots[i].endpoint := when]), e, until)
  {
    assert p.slots[i] in p.slots;
  }

  lemma SucceedOut(c: Config, p: Pool, e: Endpoint, until: real, back: Mapping, now: real)
    requires OutUntil(p, e, until) && now < until
    ensures OutUntil(Succeed(c, p, back, now), e, until)
  {
    hide Find, Cleanup, OutUntil;
    if i: nat :| Find(p.slots, back) == Some(i) {
      var q := p.(slots := p.slots[i := Rested(c, Released(p.slots[i]), now)],
                  stats := p.stats.(successes := p.stats.successes + 1));
      UpdateOut(p, q, i, e, until);
      CleanupOut(q, e, until, now);
    }
  }

  lemma DiscardOut(c: Config, p: Pool, i: nat, e: Endpoint, until: real, now: real)
    requires OutUntil(p, e, until) && i < |p.slots|
    ensures OutUntil(Discard(c, p, i, now), e, until)
  {
    hide OutUntil;
    var s := p.slots[i];
    if !s.draining {
      RetireOut(p, i, e, until, Retirement(c, s, now));
      var q := if c.optimized then p.(retired := p.retired[s.endpoint := Retirement(c, s, now)]) else p;
      UpdateOut(q, Discard(c, p, i, now), i, e, until);
    }
  }

  lemma FailOut(c: Config, p: Pool, e: Endpoint, until: real, back: Mapping, cause: Cause, now: real)
    requires OutUntil(p, e, until) && now < until
    ensures OutUntil(Fail(c, p, back, cause, now), e, until)
  {
    hide Find, Cleanup, OutUntil, Discard;
    if i: nat :| Find(p.slots, back) == Some(i) {
      var s := if c.optimized then Cooled(Released(p.slots[i]), cause, now) else Released(p.slots[i]);
      var q := p.(slots := p.slots[i := s], stats := p.stats.(failures := p.stats.failures + 1));
      UpdateOut(p, q, i, e, until);
      DiscardOut(c, q, i, e, until, now);
      CleanupOut(if Tolerated(c, s, cause) then q else Discard(c, q, i, now), e, until, now);
    }
  }

  lemma WaitOut(c: Config, p: Pool, e: Endpoint, until: real, req: Requirements, now: real)
    requires OutUntil(p, e, until) && now < until
    ensures OutUntil(Wait(c, p, req, now).0, e, until)
  {
    hide Cleanup, OutUntil, Best, Active;
    FetchingOut(p, e, until);
    if i: nat :| Best(c, req, Replace, p.slots, now) == Some(i) {
      var s := p.slots[i];
      var r := p.(retired := p.retired[s.endpoint := Retirement(c, s, now)]);
      var q := r.(slots := p.slots[i := s.(draining := true)],
                  stats := p.stats.(replaced := p.stats.replaced + 1));
      RetireOut(p, i, e, until, Retirement(c, s, now));
      UpdateOut(r, q, i, e, until);
      CleanupOut(q, e, until, now);
      FetchingOut(Cleanup(q, now), e, until);
    }
  }

  lemma FetchingOut(p: Pool, e: Endpoint, until: real)
    requires OutUntil(p, e, until)
    ensures OutUntil(p.(fetching := true), e, until) && OutUntil(p.(fetching := false), e, until)
  {
  }

  lemma BorrowOut(c: Config, p: Pool, e: Endpoint, until: real, req: Requirements, affinity: string,
                  now: real, later: real)
    requires OutUntil(p, e, until) && now < until && later < until
    ensures OutUntil(Borrow(c, p, req, affinity, now, later).0, e, until)
  {
    hide Cleanup, Choose, Wait, OutUntil, Leases;
    CleanupOut(p, e, until, now);
    var (q, choice) := Select(c, p, req, affinity, now);
    PinOut(Cleanup(p, now), e, until, affinity, choice);
    if choice.Some? {
      UpdateOut(q, Grant(c, q, choice.value, req), choice.value, e, until);
    } else {
      WaitOut(c, q, e, until, req, later);
    }
  }

  lemma PinOut(p: Pool, e: Endpoint, until: real, affinity: string, choice: Option<nat>)
    requires OutUntil(p, e, until) && (choice.Some? ==> choice.value < |p.slots|)
    ensures OutUntil(Pin(p, affinity, choice), e, until)
  {
  }

  lemma {:induction false} MergeOut(c: Config, p: Pool, e: Endpoint, until: real, endpoints: seq<Endpoint>,
                                    started: real, jitter: nat -> real, now: real)
    requires c.optimized && OutUntil(p, e, until) && now < until
    ensures OutUntil(Merge(c, p, endpoints, started, jitter, now), e, until)
    decreases |endpoints|
  {
    hide MappingOf, Deadline;
    if |endpoints| == 0 {
    } else {
      MergeOut(c, p, e, until, endpoints[..|endpoints| - 1], started, jitter, now);
    }
  }

  /** Every reading of the clock in the step is before that time. */
  predicate ReadsBefore(e: Event, until: real) {
    match e
    case Borrowed(_, _, now, later) => now < until && later < until
    case Delivered(_, _, _, _, _, now) => now < until
    case Succeeded(_, now) => now < until
    case Failed(_, _, now) => now < until
    case _ => true
  }

  lemma StepOut(c: Config, w: World, ev: Event, e: Endpoint, until: real)
    requires c.optimized && Enabled(w, ev) && OutUntil(w.pool, e, until) && ReadsBefore(ev, until)
    ensures OutUntil(Next(c, w, ev).pool, e, until)
  {
    hide Borrow, Merge, Cleanup, Choose, Succeed, Fail, OutUntil;
    match ev
    case Borrowed(req, affinity, now, later) => BorrowOut(c, w.pool, e, until, req, affinity, now, later);
    case Delivered(endpoints, req, affinity, started, jitter, now) =>
      var m := Merge(c, w.pool, endpoints, started, jitter, now);
      MergeOut(c, w.pool, e, until, endpoints, started, jitter, now);
      CleanupOut(m, e, until, now);
      PinOut(Cleanup(m, now), e, until, affinity, Choose(c, Cleanup(m, now), req, affinity, now));
    case FetchEnded => FetchingOut(w.pool, e, until);
    case Succeeded(back, now) => SucceedOut(c, w.pool, e, until, back, now);
    case Failed(back, cause, now) => FailOut(c, w.pool, e, until, back, cause, now);
    case Abandoned =>
  }

  /** Over any run: an endpoint given up is not bought back, and takes no lease, before its
      deadline. */
  lemma {:induction false} RunOut(c: Config, events: seq<Event>, from: nat, e: Endpoint, until: real)
    requires c.optimized && Possible(c, events) && from <= |events|
    requires OutUntil(WorldAt(c, events, from).pool, e, until)
    requires forall k :: from <= k < |events| ==> ReadsBefore(events[k], until)
    ensures OutUntil(Run(c, events).pool, e, until)
    decreases |events|
  {
    hide Next, Enabled, OutUntil, ReadsBefore;
    if |events| == from {
      assert events[..from] == events;
    } else {
      var n := |events| - 1;
      assert events[..n][..from] == events[..from];
      RunOut(c, events[..n], from, e, until);
      StepOut(c, Run(c, events[..n]), events[n], e, until);
    }
  }
}
