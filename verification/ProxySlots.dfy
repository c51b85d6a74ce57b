/**
  The slot list of the proxy pool: endpoints, per-slot counters, who may be given out,
  expiry and removal, as functions on values.
 */
module ProxySlots {
  import opened Numerals
  import opened Wrappers

  datatype Endpoint = Endpoint(host: string, port: nat)

  /** The mapping handed to an HTTP client. */
  datatype Mapping = Mapping(http: string, https: string)

  function ProxyUrl(e: Endpoint): string { "http://" + e.host + ":" + Decimal(e.port) }

  function MappingOf(e: Endpoint): Mapping { Mapping(ProxyUrl(e), ProxyUrl(e)) }

  /** What the borrower asks of a slot. */
  datatype Requirements = Requirements(platform: string, minRemaining: real, exclusive: bool)

  datatype Config = Config(
    poolSize: nat, maxConcurrency: nat, optimized: bool, refillBatch: nat,
    minutes: int, refreshBefore: int)
  {
    /** What the pool's constructor checks. */
    predicate Accepted() {
      && 0 < poolSize <= 200
      && 0 < maxConcurrency
      && (optimized ==> maxConcurrency <= 20)
      && 0 < refillBatch
    }
  }

  /** The budgets a caller can ask for; the rest are refused before they reach the pool. */
  predicate Askable(c: Config, req: Requirements) {
    0.0 <= req.minRemaining < (c.minutes * 60 - c.refreshBefore - 5) as real
  }

  datatype Slot = Slot(
    endpoint: Endpoint, proxies: Mapping, expireAt: real, inFlight: nat, draining: bool,
    exclusive: bool, cooldownUntil: real, platformCooldowns: map<string, real>,
    transportErrors: nat)
  {
    predicate Gone() { draining && inFlight == 0 }

    function CoolingOff(platform: string): real {
      if platform in platformCooldowns then platformCooldowns[platform] else 0.0
    }
  }

  function FreshSlot(e: Endpoint, expireAt: real): Slot {
    Slot(e, MappingOf(e), expireAt, 0, false, false, 0.0, map[], 0)
  }

  // ---------------------------------------------------------------- eligibility

  predicate Eligible(c: Config, req: Requirements, s: Slot, now: real) {
    c.optimized ==>
      && s.expireAt - now >= req.minRemaining
      && !s.exclusive
      && (req.exclusive ==> s.inFlight == 0)
      && s.cooldownUntil <= now
      && s.CoolingOff(req.platform) <= now
  }

  /** The two searches over the list: a slot to lend, or an idle slot to give up. */
  datatype Purpose = Lend | Replace

  predicate Fits(c: Config, req: Requirements, purpose: Purpose, s: Slot, now: real) {
    && !s.draining
    && match purpose
       case Lend => s.inFlight < c.maxConcurrency && Eligible(c, req, s, now)
       case Replace => s.inFlight == 0 && !Eligible(c, req, s, now)
  }

  /** Least loaded first, then earliest deadline. */
  predicate Before(s: Slot, t: Slot) {
    s.inFlight < t.inFlight || (s.inFlight == t.inFlight && s.expireAt < t.expireAt)
  }

  /** The first among the best of the slots that fit. */
  function Best(c: Config, req: Requirements, purpose: Purpose, slots: seq<Slot>, now: real): (r: Option<nat>)
    ensures r.None? <==> forall s :: s in slots ==> !Fits(c, req, purpose, s, now)
    ensures r.Some? ==>
              && r.value < |slots|
              && Fits(c, req, purpose, slots[r.value], now)
              && (forall k :: 0 <= k < |slots| && Fits(c, req, purpose, slots[k], now) ==>
                                !Before(slots[k], slots[r.value]))
              && (forall k :: 0 <= k < r.value && Fits(c, req, purpose, slots[k], now) ==>
                                Before(slots[r.value], slots[k]))
  {
    if |slots| == 0 then None
    else
      var n := |slots| - 1;
      var earlier := Best(c, req, purpose, slots[..n], now);
      assert slots == slots[..n] + [slots[n]];
      if Fits(c, req, purpose, slots[n], now)
         && (earlier.None? || Before(slots[n], slots[earlier.value]))
      then Some(n)
      else earlier
  }

  /** The first slot with this endpoint that fits. */
  function Pinned(c: Config, req: Requirements, slots: seq<Slot>, e: Endpoint, now: real): (r: Option<nat>)
    ensures r.None? <==> forall s :: s in slots && s.endpoint == e ==> !Fits(c, req, Lend, s, now)
    ensures r.Some? ==>
              && r.value < |slots|
              && slots[r.value].endpoint == e
              && Fits(c, req, Lend, slots[r.value], now)
              && (forall k :: 0 <= k < r.value && slots[k].endpoint == e ==>
                                !Fits(c, req, Lend, slots[k], now))
  {
    if |slots| == 0 then None
    else
      var n := |slots| - 1;
      var earlier := Pinned(c, req, slots[..n], e, now);
      assert slots == slots[..n] + [slots[n]];
      if earlier.Some? then earlier
      else if slots[n].endpoint == e && Fits(c, req, Lend, slots[n], now) then Some(n)
      else None
  }

  /** The first slot handed out under this mapping. */
  function Find(slots: seq<Slot>, proxies: Mapping): (r: Option<nat>)
    ensures r.None? <==> forall s :: s in slots ==> s.proxies != proxies
    ensures r.Some? ==>
              && r.value < |slots|
              && slots[r.value].proxies == proxies
              && (forall k :: 0 <= k < r.value ==> slots[k].proxies != proxies)
  {
    if |slots| == 0 then None
    else
      var n := |slots| - 1;
      var earlier := Find(slots[..n], proxies);
      assert slots == slots[..n] + [slots[n]];
      if earlier.Some? then earlier
      else if slots[n].proxies == proxies then Some(n)
      else None
  }

  // ------------------------------------------------------- expiry and removal

  function Marked(s: Slot, now: real): Slot {
    if now >= s.expireAt then s.(draining := true) else s
  }

  function Mark(slots: seq<Slot>, now: real): (r: seq<Slot>)
    ensures |r| == |slots|
    ensures forall k :: 0 <= k < |slots| ==> r[k] == Marked(slots[k], now)
  {
    if |slots| == 0 then []
    else Mark(slots[..|slots| - 1], now) + [Marked(slots[|slots| - 1], now)]
  }

  /** The list without the draining slots nobody is using. */
  function Sweep(slots: seq<Slot>): (r: seq<Slot>)
    ensures |r| <= |slots|
  {
    if |slots| == 0 then []
    else
      var n := |slots| - 1;
      Sweep(slots[..n]) + if slots[n].Gone() then [] else [slots[n]]
  }

  // ------------------------------------------------------------------- counting

  function Leases(slots: seq<Slot>): nat {
    if |slots| == 0 then 0
    else Leases(slots[..|slots| - 1]) + slots[|slots| - 1].inFlight
  }

  function Active(slots: seq<Slot>): (n: nat)
    ensures n <= |slots|
  {
    if |slots| == 0 then 0
    else Active(slots[..|slots| - 1]) + if slots[|slots| - 1].draining then 0 else 1
  }

  predicate Distinct(slots: seq<Slot>) {
    forall i, j :: 0 <= i < j < |slots| ==> slots[i].endpoint != slots[j].endpoint
  }

  // ------------------------------------------------------------------- mappings

  lemma ColonAt(a: string, x: string)
    requires ':' !in x
    ensures (a + ":" + x)[|a|] == ':'
    ensures forall i :: |a| < i < |a + ":" + x| ==> (a + ":" + x)[i] != ':'
  {
  }

  /** Text splits in only one way at its last colon. */
  lemma LastColon(a: string, b: string, x: string, y: string)
    requires a + ":" + x == b + ":" + y
    requires ':' !in x && ':' !in y
    ensures a == b && x == y
  {
    var u, v := a + ":" + x, b + ":" + y;
    ColonAt(a, x);
    ColonAt(b, y);
    assert u[|a|] == ':' && u[|b|] == ':';
    assert |a| == |b|;
    assert a == u[..|a|] && b == v[..|b|];
    assert x == u[|a| + 1..] && y == v[|b| + 1..];
  }

  /** A mapping names one endpoint, whatever the host text holds. */
  lemma MappingIdentifiesEndpoint(a: Endpoint, b: Endpoint)
    requires MappingOf(a) == MappingOf(b)
    ensures a == b
  {
    assert ProxyUrl(a) == ("http://" + a.host) + ":" + Decimal(a.port);
    assert ProxyUrl(b) == ("http://" + b.host) + ":" + Decimal(b.port);
    LastColon("http://" + a.host, "http://" + b.host, Decimal(a.port), Decimal(b.port));
    assert a.host == ("http://" + a.host)[7..] && b.host == ("http://" + b.host)[7..];
    DecimalIsInjective(a.port, b.port);
  }

  // -------------------------------------------------------- laws of the counts

  lemma {:induction false} SweepKeeps(slots: seq<Slot>)
    ensures forall s :: s in Sweep(slots) <==> s in slots && !s.Gone()
    decreases |slots|
  {
    if |slots| == 0 {
    } else {
      var n := |slots| - 1;
      SweepKeeps(slots[..n]);
      assert slots == slots[..n] + [slots[n]];
    }
  }

  lemma {:induction false} LeasesOfUpdate(slots: seq<Slot>, i: nat, s: Slot)
    requires i < |slots|
    ensures Leases(slots[i := s]) == Leases(slots) - slots[i].inFlight + s.inFlight
    ensures Active(slots[i := s]) ==
            Active(slots) - (if slots[i].draining then 0 else 1) + (if s.draining then 0 else 1)
    decreases |slots|
  {
    var n := |slots| - 1;
    if i == n {
      assert slots[i := s][..n] == slots[..n];
    } else {
      assert slots[i := s][..n] == slots[..n][i := s];
      LeasesOfUpdate(slots[..n], i, s);
    }
  }

  lemma {:induction false} LeasesOfMark(slots: seq<Slot>, now: real)
    ensures Leases(Mark(slots, now)) == Leases(slots)
    ensures Active(Mark(slots, now)) <= Active(slots)
    decreases |slots|
  {
    if |slots| == 0 {
    } else {
      var n := |slots| - 1;
      LeasesOfMark(slots[..n], now);
      assert Mark(slots, now)[..n] == Mark(slots[..n], now);
    }
  }

  lemma LeasesOfOne(slots: seq<Slot>, s: Slot)
    ensures Leases(slots + [s]) == Leases(slots) + s.inFlight
    ensures Active(slots + [s]) == Active(slots) + if s.draining then 0 else 1
  {
    assert (slots + [s])[..|slots|] == slots;
  }

  lemma {:induction false} LeasesOfSweep(slots: seq<Slot>)
    ensures Leases(Sweep(slots)) == Leases(slots)
    ensures Active(Sweep(slots)) == Active(slots)
    decreases |slots|
  {
    if |slots| == 0 {
    } else {
      hide Leases, Active;
      var n := |slots| - 1;
      LeasesOfSweep(slots[..n]);
      var kept := Sweep(slots[..n]);
      if slots[n].Gone() {
        assert Sweep(slots) == kept;
      } else {
        assert Sweep(slots) == kept + [slots[n]];
        LeasesOfOne(kept, slots[n]);
      }
      assert slots == slots[..n] + [slots[n]];
      LeasesOfOne(slots[..n], slots[n]);
    }
  }

  lemma {:induction false} LeasesOfAppend(slots: seq<Slot>, more: seq<Slot>)
    ensures Leases(slots + more) == Leases(slots) + Leases(more)
    ensures Active(slots + more) == Active(slots) + Active(more)
    decreases |more|
  {
    if |more| == 0 {
      assert slots + more == slots;
    } else {
      var n := |more| - 1;
      assert (slots + more)[..|slots| + n] == slots + more[..n];
      LeasesOfAppend(slots, more[..n]);
    }
  }

  lemma {:induction false} AllActive(slots: seq<Slot>)
    requires forall s :: s in slots ==> !s.draining
    ensures Active(slots) == |slots|
    decreases |slots|
  {
    if |slots| == 0 {
    } else {
      AllActive(slots[..|slots| - 1]);
    }
  }

  lemma {:induction false} DistinctSweep(slots: seq<Slot>)
    requires Distinct(slots)
    ensures Distinct(Sweep(slots))
    decreases |slots|
  {
    if |slots| == 0 {
    } else {
      var n := |slots| - 1;
      DistinctSweep(slots[..n]);
      var kept := Sweep(slots[..n]);
      SweepKeeps(slots[..n]);
      forall i | 0 <= i < |kept|
        ensures kept[i].endpoint != slots[n].endpoint
      {
        assert kept[i] in slots[..n];
      }
    }
  }
}
