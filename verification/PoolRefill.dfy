/** What a supplier answer adds to the pool. */
module PoolRefill {
  import opened PoolModel
  import opened ProxySlots

  /** Nothing already in the pool moves; what is added is fresh, and counted. */
  lemma {:induction false} MergeExtends(c: Config, p: Pool, endpoints: seq<Endpoint>, started: real,
                                        jitter: nat -> real, now: real)
    requires forall k: nat :: 0.0 <= jitter(k)
    ensures var q := Merge(c, p, endpoints, started, jitter, now);
            && |p.slots| <= |q.slots| && q.slots[..|p.slots|] == p.slots
            && |q.slots| - |p.slots| == q.stats.added - p.stats.added <= |endpoints|
            && q.retired == p.retired
            && (forall k :: |p.slots| <= k < |q.slots| ==>
                  && q.slots[k] == FreshSlot(q.slots[k].endpoint, q.slots[k].expireAt)
                  && (c.optimized ==>
                        q.slots[k].expireAt <= started + (c.minutes * 60 - c.refreshBefore) as real))
    decreases |endpoints|
  {
    hide MappingOf;
    if |endpoints| == 0 {
    } else {
      MergeExtends(c, p, endpoints[..|endpoints| - 1], started, jitter, now);
    }
  }

  /** Afterwards the pool knows an endpoint exactly when it knew it before or the supplier
      named it and it was not given up lately. */
  lemma {:induction false} MergeKnows(c: Config, p: Pool, endpoints: seq<Endpoint>, started: real,
                                      jitter: nat -> real, now: real, e: Endpoint)
    ensures Known(Merge(c, p, endpoints, started, jitter, now).slots, e)
       <==> Known(p.slots, e) || (e in endpoints && !Barred(c, p, e, now))
    ensures Merge(c, p, endpoints, started, jitter, now).retired == p.retired
    decreases |endpoints|
  {
    hide MappingOf, Known;
    if |endpoints| == 0 {
    } else {
      var n := |endpoints| - 1;
      MergeKnows(c, p, endpoints[..n], started, jitter, now, e);
      assert endpoints == endpoints[..n] + [endpoints[n]];
      var q := Merge(c, p, endpoints[..n], started, jitter, now);
      KnownAppend(q.slots, FreshSlot(endpoints[n], Deadline(c, started, jitter(n), now)), e);
    }
  }

  lemma KnownAppend(slots: seq<Slot>, s: Slot, e: Endpoint)
    ensures Known(slots + [s], e) <==> Known(slots, e) || e == s.endpoint
  {
    if Known(slots, e) {
      var t :| t in slots && t.endpoint == e;
      assert t in slots + [s];
    }
    assert s in slots + [s];
  }
}
