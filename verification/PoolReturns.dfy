/** What a lease that comes back does to its slot, field by field. */
module PoolReturns {
  import opened PoolModel
  import opened PoolPenalties
  import opened PoolSafety
  import opened ProxySlots
  import opened Wrappers

  /** The pool has this slot under the mapping, and no other. */
  predicate Holds(slots: seq<Slot>, m: Mapping, s: Slot) {
    s in slots && s.proxies == m && forall t :: t in slots && t.proxies == m ==> t == s
  }

  predicate Gone(slots: seq<Slot>, m: Mapping) { forall t :: t in slots ==> t.proxies != m }

  /** The slot `t` ends up in: kept unless it is idle and does not lend. */
  predicate Settles(slots: seq<Slot>, m: Mapping, t: Slot) {
    if t.draining && t.inFlight == 0 then Gone(slots, m) else Holds(slots, m, t)
  }

  lemma CleanupSettles(c: Config, p: Pool, i: nat, now: real)
    requires i < |p.slots| && Distinct(p.slots)
    requires forall k :: 0 <= k < |p.slots| ==> p.slots[k].proxies == MappingOf(p.slots[k].endpoint)
    ensures Settles(Cleanup(p, now).slots, p.slots[i].proxies, Marked(p.slots[i], now))
  {
    hide Sweep, Mark, MappingOf;
    var m := p.slots[i].proxies;
    SweepKeeps(Mark(p.slots, now));
    assert Mark(p.slots, now)[i] == Marked(p.slots[i], now);
    forall t | t in Cleanup(p, now).slots && t.proxies == m
      ensures t == Marked(p.slots[i], now)
    {
      var s := CleanupComesFrom(p, now, t);
      var k :| 0 <= k < |p.slots| && p.slots[k] == s;
      if k != i {
        MappingIdentifiesEndpoint(p.slots[i].endpoint, p.slots[k].endpoint);
      }
    }
  }

  lemma UpdateSettles(c: Config, p: Pool, held: multiset<Mapping>, i: nat, t: Slot, q: Pool, now: real)
    requires Good(c, p, held) && i < |p.slots|
    requires t.endpoint == p.slots[i].endpoint && t.proxies == p.slots[i].proxies
    requires q.slots == p.slots[i := t]
    ensures Settles(Cleanup(q, now).slots, t.proxies, Marked(t, now))
  {
    hide Cleanup, MappingOf, Agrees, Leases, Active;
    forall k | 0 <= k < |p.slots|
      ensures q.slots[k].proxies == MappingOf(q.slots[k].endpoint)
    {
      assert SlotFine(c, p.slots[k]);
    }
    CleanupSettles(c, q, i, now);
  }

  /** A success takes one lease off the slot and frees it from its exclusive holder; in
      optimised mode it also forgives one transport failure, unless the slot still rests.
      Nothing else about the slot changes, except that it may have run out. */
  lemma SuccessSettles(c: Config, p: Pool, held: multiset<Mapping>, m: Mapping, now: real)
    requires Good(c, p, held) && m in held
    ensures Find(p.slots, m).Some?
    ensures var s := p.slots[Find(p.slots, m).value];
            && s.inFlight > 0
            && Settles(Succeed(c, p, m, now).slots, m,
                 s.(inFlight := s.inFlight - 1,
                    exclusive := s.exclusive && s.inFlight > 1,
                    draining := s.draining || s.expireAt <= now,
                    transportErrors := if c.optimized && s.cooldownUntil <= now && s.transportErrors > 0
                                       then s.transportErrors - 1 else s.transportErrors))
    ensures Succeed(c, p, m, now).stats.successes == p.stats.successes + 1
  {
    hide Find, Cleanup, Settles, Good;
    HeldIsFound(p, held, m) by { Opens(c, p, held); }
    var i := Find(p.slots, m).value;
    Charged(c, p, held, i);
    var t := Rested(c, Released(p.slots[i]), now);
    var q := p.(slots := p.slots[i := t], stats := p.stats.(successes := p.stats.successes + 1));
    UpdateSettles(c, p, held, i, t, q, now);
    CleanupKeepsReturns(q, now);
  }

  /** A failure takes one lease off the slot. In optimised mode a transport failure counts
      against it and rests it for 15 seconds, a platform failure rests it for 30 on that
      platform. It lends no more if it is given up or has run out. */
  lemma FailureSettles(c: Config, p: Pool, held: multiset<Mapping>, m: Mapping, cause: Cause, now: real)
    requires Good(c, p, held) && m in held
    ensures Find(p.slots, m).Some?
    ensures var s := p.slots[Find(p.slots, m).value];
            var broke := c.optimized && cause.Transport?;
            && s.inFlight > 0
            && Settles(Fail(c, p, m, cause, now).slots, m,
                 s.(inFlight := s.inFlight - 1,
                    exclusive := s.exclusive && s.inFlight > 1,
                    draining := s.draining || s.expireAt <= now || GivesUp(c, s, cause),
                    transportErrors := if broke then s.transportErrors + 1 else s.transportErrors,
                    cooldownUntil := if broke then now + 15.0 else s.cooldownUntil,
                    platformCooldowns := if c.optimized && cause.Platform?
                                         then s.platformCooldowns[cause.name := now + 30.0]
                                         else s.platformCooldowns))
    ensures Fail(c, p, m, cause, now).stats.failures == p.stats.failures + 1
  {
    hide Find, Cleanup, Settles, Good;
    HeldIsFound(p, held, m) by { Opens(c, p, held); }
    var i := Find(p.slots, m).value;
    Charged(c, p, held, i);
    var s := if c.optimized then Cooled(Released(p.slots[i]), cause, now) else Released(p.slots[i]);
    var q := p.(slots := p.slots[i := s], stats := p.stats.(failures := p.stats.failures + 1));
    var r := if Tolerated(c, s, cause) then q else Discard(c, q, i, now);
    assert r.slots == p.slots[i := r.slots[i]];
    UpdateSettles(c, p, held, i, r.slots[i], r, now);
    CleanupKeepsReturns(r, now);
  }

  /** Endpoints given up are barred until half a minute has passed and the supplier's own
      lifetime has run out, and others as long as before; bars that have passed are lifted. */
  lemma FailureBars(c: Config, p: Pool, held: multiset<Mapping>, m: Mapping, cause: Cause, now: real)
    requires Good(c, p, held) && m in held
    ensures Find(p.slots, m).Some?
    ensures var s := p.slots[Find(p.slots, m).value];
            var retired := Fail(c, p, m, cause, now).retired;
            var given := c.optimized && !s.draining && GivesUp(c, s, cause);
            var spent := s.expireAt + c.refreshBefore as real;
            && (given ==> s.endpoint in retired
                          && retired[s.endpoint] == if spent >= now + 30.0 then spent else now + 30.0)
            && (forall e :: !(given && e == s.endpoint) ==>
                  && (e in retired <==> e in p.retired && now < p.retired[e])
                  && (e in retired ==> retired[e] == p.retired[e]))
  {
    hide Find, Mark, Sweep, Active, Good;
    HeldIsFound(p, held, m) by { Opens(c, p, held); }
  }

  lemma Opens(c: Config, p: Pool, held: multiset<Mapping>)
    requires Good(c, p, held)
    ensures Agrees(p.slots, held)
  {
  }

  lemma Charged(c: Config, p: Pool, held: multiset<Mapping>, i: nat)
    requires Good(c, p, held) && i < |p.slots| && p.slots[i].proxies in held
    ensures p.slots[i].inFlight > 0
  {
    hide Find, Leases, MappingOf;
  }

  lemma CleanupKeepsReturns(p: Pool, now: real)
    ensures Cleanup(p, now).stats.successes == p.stats.successes
    ensures Cleanup(p, now).stats.failures == p.stats.failures
  {
  }
}
