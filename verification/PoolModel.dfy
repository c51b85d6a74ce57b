/**
  The proxy pool as a state machine. Every function here is one critical section: the
  source holds the condition from its start to its end and does not suspend inside.
  Clock readings are arbitrary arguments.
 */
module PoolModel {
  import opened ProxySlots
  import opened Wrappers

  datatype Stats = Stats(
    leases: nat, successes: nat, failures: nat, peak: nat,
    added: nat, discarded: nat, expired: nat, replaced: nat)

  datatype Pool = Pool(
    slots: seq<Slot>, fetching: bool, retired: map<Endpoint, real>,
    pins: map<string, Endpoint>, stats: Stats)

  const EMPTY := Pool([], false, map[], map[], Stats(0, 0, 0, 0, 0, 0, 0, 0))

  /** Why a lease came back as failed; `Plain` is any exception but a `ProxyFailure`. */
  datatype Cause = Plain | Transport | Platform(name: string) | Task

  /** How one pass of the borrowing loop ends. */
  datatype Outcome = Granted(proxies: Mapping) | Refill(count: nat) | Parked

  function MaxReal(x: real, y: real): real { if x >= y then x else y }

  function MinReal(x: real, y: real): real { if x <= y then x else y }

  // ------------------------------------------------------------------ borrowing

  function Cleanup(p: Pool, now: real): Pool {
    var marked := Mark(p.slots, now);
    p.(slots := Sweep(marked),
       retired := map e | e in p.retired && p.retired[e] > now :: p.retired[e],
       stats := p.stats.(expired := p.stats.expired + Expiring(p.slots, now)))
  }

  /** How many active slots have run out. */
  function Expiring(slots: seq<Slot>, now: real): nat {
    LeasesOfMark(slots, now);
    Active(slots) - Active(Mark(slots, now))
  }

  function Choose(c: Config, p: Pool, req: Requirements, affinity: string, now: real): (r: Option<nat>)
    ensures r.None? <==> forall s :: s in p.slots ==> !Fits(c, req, Lend, s, now)
    ensures r.Some? ==> r.value < |p.slots| && Fits(c, req, Lend, p.slots[r.value], now)
  {
    var pinned :=
      if affinity != "" && affinity in p.pins
      then Pinned(c, req, p.slots, p.pins[affinity], now)
      else None;
    if pinned.Some? then pinned else Best(c, req, Lend, p.slots, now)
  }

  function Pin(p: Pool, affinity: string, choice: Option<nat>): Pool
    requires choice.Some? ==> choice.value < |p.slots|
  {
    if affinity != "" && choice.Some?
    then p.(pins := p.pins[affinity := p.slots[choice.value].endpoint])
    else p
  }

  function Select(c: Config, p: Pool, req: Requirements, affinity: string, now: real): (r: (Pool, Option<nat>))
    ensures r.0.slots == Cleanup(p, now).slots
    ensures r.1.None? <==> forall s :: s in r.0.slots ==> !Fits(c, req, Lend, s, now)
    ensures r.1.Some? ==> r.1.value < |r.0.slots| && Fits(c, req, Lend, r.0.slots[r.1.value], now)
  {
    var q := Cleanup(p, now);
    var choice := Choose(c, q, req, affinity, now);
    (Pin(q, affinity, choice), choice)
  }

  function Retirement(c: Config, s: Slot, now: real): real {
    MaxReal(s.expireAt + c.refreshBefore as real, now + 30.0)
  }

  /** Drop one idle slot that cannot serve this borrower. */
  function ReplaceIdle(c: Config, p: Pool, req: Requirements, now: real): Pool {
    match Best(c, req, Replace, p.slots, now)
    case None => p
    case Some(i) =>
      var s := p.slots[i];
      Cleanup(
        p.(slots := p.slots[i := s.(draining := true)],
           retired := p.retired[s.endpoint := Retirement(c, s, now)],
           stats := p.stats.(replaced := p.stats.replaced + 1)),
        now)
  }

  function Lent(c: Config, s: Slot, req: Requirements): Slot {
    s.(inFlight := s.inFlight + 1,
       exclusive := if c.optimized then req.exclusive else s.exclusive)
  }

  function Grant(c: Config, p: Pool, i: nat, req: Requirements): Pool
    requires i < |p.slots|
  {
    var slots := p.slots[i := Lent(c, p.slots[i], req)];
    p.(slots := slots,
       stats := p.stats.(leases := p.stats.leases + 1,
                         peak := if Leases(slots) > p.stats.peak then Leases(slots) else p.stats.peak))
  }

  /** What a borrower without a slot does: replace an unusable idle slot if the pool is
      full, then refill it or wait. */
  function Wait(c: Config, p: Pool, req: Requirements, now: real): (Pool, Outcome) {
    var q :=
      if c.optimized && !p.fetching && Active(p.slots) >= c.poolSize
      then ReplaceIdle(c, p, req, now)
      else p;
    var active := Active(q.slots);
    if !q.fetching && active < c.poolSize then
      var missing := c.poolSize - active;
      (q.(fetching := true),
       Refill(if c.optimized && c.refillBatch < missing then c.refillBatch else missing))
    else
      (q, Parked)
  }

  /** One pass of the borrowing loop; the slot search reads the clock at `now`, the
      replacement of an idle slot at `later`. */
  function Borrow(c: Config, p: Pool, req: Requirements, affinity: string, now: real, later: real)
    : (Pool, Outcome)
  {
    var (q, choice) := Select(c, p, req, affinity, now);
    if choice.Some? then
      (Grant(c, q, choice.value, req), Granted(q.slots[choice.value].proxies))
    else
      Wait(c, q, req, later)
  }

  // ------------------------------------------------------------------ refilling

  function Deadline(c: Config, started: real, jitter: real, now: real): real {
    var life := (c.minutes * 60 - c.refreshBefore) as real;
    var plain := now + MaxReal(1.0, life);
    if c.optimized then MinReal(plain, started + life) - jitter else plain
  }

  predicate Known(slots: seq<Slot>, e: Endpoint) { exists s :: s in slots && s.endpoint == e }

  /** Endpoints given up lately are not bought back. */
  predicate Barred(c: Config, p: Pool, e: Endpoint, now: real) {
    c.optimized && e in p.retired && p.retired[e] > now
  }

  function Add(c: Config, p: Pool, e: Endpoint, expireAt: real, now: real): Pool {
    if Known(p.slots, e) || Barred(c, p, e, now) then p
    else p.(slots := p.slots + [FreshSlot(e, expireAt)],
            stats := p.stats.(added := p.stats.added + 1))
  }

  function Merge(c: Config, p: Pool, endpoints: seq<Endpoint>, started: real, jitter: nat -> real, now: real)
    : (r: Pool)
    ensures r.stats.added >= p.stats.added
  {
    if |endpoints| == 0 then p
    else
      var n := |endpoints| - 1;
      Add(c, Merge(c, p, endpoints[..n], started, jitter, now),
          endpoints[n], Deadline(c, started, jitter(n), now), now)
  }

  /** The supplier's answer is merged; the flag says that the refiller gives up. */
  function Deliver(c: Config, p: Pool, endpoints: seq<Endpoint>, req: Requirements, affinity: string,
                   started: real, jitter: nat -> real, now: real): (Pool, bool)
  {
    var q := Merge(c, p, endpoints, started, jitter, now);
    if q.stats.added == p.stats.added || c.optimized then
      var (r, choice) := Select(c, q, req, affinity, now);
      (r, choice.None?)
    else
      (q, false)
  }

  function EndFetch(p: Pool): Pool { p.(fetching := false) }

  // ------------------------------------------------------------------ returning

  function Released(s: Slot): Slot {
    var n := if s.inFlight > 0 then s.inFlight - 1 else 0;
    s.(inFlight := n, exclusive := n != 0 && s.exclusive)
  }

  function Rested(c: Config, s: Slot, now: real): Slot {
    if c.optimized && s.cooldownUntil <= now && s.transportErrors > 0
    then s.(transportErrors := s.transportErrors - 1)
    else s
  }

  function Succeed(c: Config, p: Pool, proxies: Mapping, now: real): Pool {
    match Find(p.slots, proxies)
    case None => p
    case Some(i) =>
      Cleanup(
        p.(slots := p.slots[i := Rested(c, Released(p.slots[i]), now)],
           stats := p.stats.(successes := p.stats.successes + 1)),
        now)
  }

  function Cooled(s: Slot, cause: Cause, now: real): Slot {
    match cause
    case Plain => s
    case Task => s
    case Platform(name) => s.(platformCooldowns := s.platformCooldowns[name := now + 30.0])
    case Transport => s.(transportErrors := s.transportErrors + 1, cooldownUntil := now + 15.0)
  }

  /** A classified failure only cools the slot down until it has failed three times. */
  predicate Tolerated(c: Config, s: Slot, cause: Cause) {
    c.optimized && cause != Plain && s.transportErrors < 3
  }

  /** Slot `i` takes no further lease. */
  function Discard(c: Config, p: Pool, i: nat, now: real): Pool
    requires i < |p.slots|
  {
    var s := p.slots[i];
    if s.draining then p
    else
      p.(slots := p.slots[i := s.(draining := true)],
         retired := if c.optimized then p.retired[s.endpoint := Retirement(c, s, now)] else p.retired,
         stats := p.stats.(discarded := p.stats.discarded + 1))
  }

  function Fail(c: Config, p: Pool, proxies: Mapping, cause: Cause, now: real): Pool {
    match Find(p.slots, proxies)
    case None => p
    case Some(i) =>
      var s := if c.optimized then Cooled(Released(p.slots[i]), cause, now) else Released(p.slots[i]);
      var q := p.(slots := p.slots[i := s], stats := p.stats.(failures := p.stats.failures + 1));
      Cleanup(if Tolerated(c, s, cause) then q else Discard(c, q, i, now), now)
  }

  // ----------------------------------------------------------------- whole runs

  /** The pool with what its borrowers are doing: mappings out, callers waiting on the
      condition, and endpoints asked of the supplier but not yet delivered. */
  datatype World = World(pool: Pool, held: multiset<Mapping>, parked: nat, pending: nat)

  const START := World(EMPTY, multiset{}, 0, 0)

  datatype Event =
    | Borrowed(req: Requirements, affinity: string, now: real, later: real)
    | Delivered(endpoints: seq<Endpoint>, req: Requirements, affinity: string,
                started: real, jitter: nat -> real, now: real)
    | FetchEnded
    | Succeeded(proxies: Mapping, now: real)
    | Failed(proxies: Mapping, cause: Cause, now: real)
    | Abandoned

  /** What can happen: only the refiller delivers and ends a fetch, only a mapping that is
      out comes back, only a parked caller is cancelled while parked. */
  ghost predicate Enabled(w: World, e: Event) {
    match e
    case Borrowed(_, _, _, _) => true
    case Delivered(_, _, _, _, _, _) => w.pool.fetching && w.pending > 0
    case FetchEnded => w.pool.fetching
    case Succeeded(proxies, _) => proxies in w.held
    case Failed(proxies, _, _) => proxies in w.held
    case Abandoned => w.parked > 0
  }

  /** A return that finds its slot, and the end of a fetch, wake every parked caller. */
  ghost function Next(c: Config, w: World, e: Event): World {
    match e
    case Borrowed(req, affinity, now, later) =>
      var (p, outcome) := Borrow(c, w.pool, req, affinity, now, later);
      (match outcome
       case Granted(proxies) => w.(pool := p, held := w.held + multiset{proxies})
       case Refill(count) => w.(pool := p, pending := count)
       case Parked => w.(pool := p, parked := w.parked + 1))
    case Delivered(endpoints, req, affinity, started, jitter, now) =>
      w.(pool := Deliver(c, w.pool, endpoints, req, affinity, started, jitter, now).0, pending := 0)
    case FetchEnded =>
      w.(pool := EndFetch(w.pool), parked := 0, pending := 0)
    case Succeeded(proxies, now) =>
      w.(pool := Succeed(c, w.pool, proxies, now), held := w.held - multiset{proxies},
         parked := if Find(w.pool.slots, proxies).Some? then 0 else w.parked)
    case Failed(proxies, cause, now) =>
      w.(pool := Fail(c, w.pool, proxies, cause, now), held := w.held - multiset{proxies},
         parked := if Find(w.pool.slots, proxies).Some? then 0 else w.parked)
    case Abandoned =>
      w.(parked := w.parked - if w.parked > 0 then 1 else 0)
  }

  ghost function Run(c: Config, events: seq<Event>): World {
    if |events| == 0 then START
    else Next(c, Run(c, events[..|events| - 1]), events[|events| - 1])
  }

  /** The world before event `k`. */
  ghost function WorldAt(c: Config, events: seq<Event>, k: nat): World
    requires k <= |events|
  {
    Run(c, events[..k])
  }

  ghost predicate Possible(c: Config, events: seq<Event>) {
    |events| > 0 ==>
      && Possible(c, events[..|events| - 1])
      && Enabled(Run(c, events[..|events| - 1]), events[|events| - 1])
  }

  /** The supplier answers with no more endpoints than it was asked for. */
  ghost predicate Frugal(c: Config, events: seq<Event>) {
    |events| > 0 ==>
      && Frugal(c, events[..|events| - 1])
      && (events[|events| - 1].Delivered? ==>
            |events[|events| - 1].endpoints| <= Run(c, events[..|events| - 1]).pending)
  }

  /** A borrowing pass reads the clock once. */
  predicate OneReading(events: seq<Event>) {
    forall k :: 0 <= k < |events| && events[k].Borrowed? ==> events[k].now == events[k].later
  }

  lemma {:induction false} PossiblePrefix(c: Config, events: seq<Event>, from: nat)
    requires Possible(c, events) && from <= |events|
    ensures Possible(c, events[..from])
    decreases |events|
  {
    hide Run, Enabled;
    if from == |events| {
      assert events[..from] == events;
    } else {
      PossiblePrefix(c, events[..|events| - 1], from);
      assert events[..|events| - 1][..from] == events[..from];
    }
  }

  lemma {:induction false} FrugalPrefix(c: Config, events: seq<Event>, from: nat)
    requires Frugal(c, events) && from <= |events|
    ensures Frugal(c, events[..from])
    decreases |events|
  {
    hide Run;
    if from == |events| {
      assert events[..from] == events;
    } else {
      FrugalPrefix(c, events[..|events| - 1], from);
      assert events[..|events| - 1][..from] == events[..from];
    }
  }
}
