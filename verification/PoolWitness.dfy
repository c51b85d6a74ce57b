/**
  Short runs of an optimised pool with a single slot: two after which a caller is parked,
  nobody refills the pool and no lease is out, and one in which a resting endpoint is lent.
 */
module PoolWitness {
  import opened PoolModel
  import opened PoolPenalties
  import opened PoolProgress
  import opened PoolSafety
  import opened ProxySlots
  import opened Wrappers

  const TINY := Config(1, 1, true, 1, 3, 10)
  const FIRST := Endpoint("a", 1)
  const SECOND := Endpoint("b", 2)
  const EASY := Requirements("", 0.0, false)
  const LONG := Requirements("", 160.0, false)

  function Stock(slots: seq<Slot>, stats: Stats): Pool { Pool(slots, false, map[], map[], stats) }

  /** The first borrower finds nothing and asks the supplier for one endpoint. */
  lemma FirstBorrow()
    ensures Next(TINY, START, Borrowed(EASY, "", 0.0, 0.0))
         == World(EMPTY.(fetching := true), multiset{}, 0, 1)
  {
    BorrowFromEmpty(TINY, EMPTY, EASY, 0.0);
  }

  lemma BorrowFromEmpty(c: Config, p: Pool, req: Requirements, now: real)
    requires p.slots == [] && p.retired == map[] && !p.fetching
    requires c.poolSize == 1 && 0 < c.refillBatch
    ensures Borrow(c, p, req, "", now, now) == (p.(fetching := true), Refill(1))
  {
    hide Choose, Cleanup, ReplaceIdle;
    CleanupKeeps(p, now);
  }

  lemma CleanupKeeps(p: Pool, now: real)
    requires forall s :: s in p.slots ==> now < s.expireAt && !s.draining
    requires p.retired == map[]
    ensures Cleanup(p, now) == p
  {
    MarkKeeps(p.slots, now);
    SweepKeepsAll(p.slots);
  }

  lemma {:induction false} MarkKeeps(slots: seq<Slot>, now: real)
    requires forall s :: s in slots ==> now < s.expireAt
    ensures Mark(slots, now) == slots
  {
  }

  lemma {:induction false} SweepKeepsAll(slots: seq<Slot>)
    requires forall s :: s in slots ==> !s.draining
    ensures Sweep(slots) == slots
    decreases |slots|
  {
    if |slots| == 0 {
    } else {
      SweepKeepsAll(slots[..|slots| - 1]);
    }
  }

  lemma DeadlineOf(now: real)
    requires now == 0.0
    ensures Deadline(TINY, 0.0, 0.0, now) == 170.0
  {
  }

  // ------------------------------------------------------------- overfilled pool

  function Overfilled(): Pool {
    Stock([FreshSlot(FIRST, 170.0), FreshSlot(SECOND, 170.0)], EMPTY.stats.(added := 2))
  }

  lemma Overfills(jitter: nat -> real)
    requires jitter(0) == jitter(1) == 0.0
    ensures Merge(TINY, EMPTY.(fetching := true), [FIRST, SECOND], 0.0, jitter, 0.0)
         == Overfilled().(fetching := true)
  {
    hide ProxyUrl;
    var p := EMPTY.(fetching := true);
    DeadlineOf(0.0);
    assert [FIRST, SECOND][..1] == [FIRST] && [FIRST][..0] == [];
    assert Merge(TINY, p, [], 0.0, jitter, 0.0) == p;
    var q := Add(TINY, p, FIRST, 170.0, 0.0);
    assert Merge(TINY, p, [FIRST], 0.0, jitter, 0.0) == q;
    assert q.slots == [FreshSlot(FIRST, 170.0)];
    assert !Known(q.slots, SECOND);
  }

  lemma OverfillDelivered(jitter: nat -> real)
    requires jitter(0) == jitter(1) == 0.0
    ensures Deliver(TINY, EMPTY.(fetching := true), [FIRST, SECOND], EASY, "", 0.0, jitter, 0.0).0
         == Overfilled().(fetching := true)
  {
    hide Merge, Choose, Cleanup, Overfilled;
    Overfills(jitter);
    OverfilledStock();
    CleanupKeeps(Overfilled().(fetching := true), 0.0);
  }

  lemma OverfilledStock()
    ensures Overfilled().retired == map[] && |Overfilled().slots| == 2
    ensures forall s :: s in Overfilled().slots ==> s.expireAt == 170.0 && !s.draining && s.inFlight == 0
    ensures !Overfilled().fetching
  {
  }

  /** A caller that asks for more life than either endpoint has left. */
  lemma OverfilledBorrow()
    requires Good(TINY, Overfilled(), multiset{})
    ensures Strands(TINY, Overfilled(), LONG, "", 20.0, 20.0)
  {
    hide Overfilled, Cleanup, Strands, Good;
    OverfilledStock();
    CleanupKeeps(Overfilled(), 20.0);
    StrandsOneReading(TINY, Overfilled(), multiset{}, LONG, "", 20.0);
  }

  /** The supplier answers one request with two endpoints. The caller's budget is one that
      the pool accepts. */
  lemma OverfillStrands(jitter: nat -> real)
    requires jitter(0) == jitter(1) == 0.0
    ensures var events := [Borrowed(EASY, "", 0.0, 0.0),
                           Delivered([FIRST, SECOND], EASY, "", 0.0, jitter, 0.0),
                           FetchEnded,
                           Borrowed(LONG, "", 20.0, 20.0)];
            Possible(TINY, events) && OneReading(events) && Askable(TINY, LONG) && !Live(Run(TINY, events))
  {
    hide Good, Tidy, Borrow, Deliver, Overfilled, Run, Possible, Frugal, Leases;
    var e0, e1 := Borrowed(EASY, "", 0.0, 0.0), Delivered([FIRST, SECOND], EASY, "", 0.0, jitter, 0.0);
    var e2, e3 := FetchEnded, Borrowed(LONG, "", 20.0, 20.0);
    FirstBorrow();
    OverfillDelivered(jitter);
    OverfilledStock();
    NoEvents(TINY);
    OneMore(TINY, [], e0);
    OneMore(TINY, [e0], e1);
    OneMore(TINY, [e0, e1], e2);
    OneMore(TINY, [e0, e1, e2], e3);
    assert [] + [e0] == [e0] && [e0] + [e1] == [e0, e1];
    assert [e0, e1] + [e2] == [e0, e1, e2] && [e0, e1, e2] + [e3] == [e0, e1, e2, e3];
    var w := Run(TINY, [e0, e1, e2]);
    assert w == World(Overfilled(), multiset{}, 0, 0);
    RunSafe(TINY, [e0, e1, e2]);
    OverfilledBorrow();
    BorrowGood(TINY, Overfilled(), multiset{}, LONG, "", 20.0, 20.0);
  }

  lemma OneMore(c: Config, events: seq<Event>, e: Event)
    ensures Run(c, events + [e]) == Next(c, Run(c, events), e)
    ensures Possible(c, events + [e]) <==> Possible(c, events) && Enabled(Run(c, events), e)
    ensures Frugal(c, events + [e]) <==>
            Frugal(c, events) && (e.Delivered? ==> |e.endpoints| <= Run(c, events).pending)
  {
    hide Next, Enabled;
    assert (events + [e])[..|events|] == events;
  }

  lemma NoEvents(c: Config)
    ensures Run(c, []) == START && Possible(c, []) && Frugal(c, [])
  {
  }

  // ------------------------------------------------------- between two readings

  /** A pool of one slot and nothing else. */
  function Single(s: Slot, stats: Stats): Pool { Stock([s], stats) }

  const FRESH := FreshSlot(FIRST, 170.0)

  const LENT_ONCE := EMPTY.stats.(added := 1, leases := 1, peak := 1)

  /** The pool after its one lease came back with a transport failure. */
  function Cooling(at: real): Pool {
    Single(FRESH.(cooldownUntil := at + 15.0, transportErrors := 1), LENT_ONCE.(failures := 1))
  }

  lemma CoolingGood()
    ensures Good(TINY, Cooling(1.0), multiset{})
    ensures Active(Cooling(1.0).slots) == 1
  {
    hide ProxyUrl, Find, Leases, Active;
    var s := Cooling(1.0).slots[0];
    assert Cooling(1.0).slots == [s];
    OneLease(s);
  }

  lemma CoolingSlot()
    ensures Cooling(1.0).retired == map[] && !Cooling(1.0).fetching && |Cooling(1.0).slots| == 1
    ensures forall s :: s in Cooling(1.0).slots ==>
              && !s.draining && s.expireAt == 170.0
              && Eligible(TINY, EASY, s, 16.0) && !Eligible(TINY, EASY, s, 15.0)
  {
    hide ProxyUrl;
  }

  /** An empty pool gets the one endpoint asked for. */
  lemma FirstDelivered(stats: Stats, started: real, jitter: nat -> real, now: real)
    requires jitter(0) == 0.0 && started <= now < started + 170.0
    ensures Deliver(TINY, Stock([], stats).(fetching := true), [FIRST], EASY, "", started, jitter, now).0
         == Single(FreshSlot(FIRST, started + 170.0), stats.(added := stats.added + 1)).(fetching := true)
  {
    hide ProxyUrl, Choose, Cleanup;
    var p := Stock([], stats).(fetching := true);
    assert Deadline(TINY, started, 0.0, now) == started + 170.0;
    assert [FIRST][..0] == [];
    assert Merge(TINY, p, [], started, jitter, now) == p;
    assert Merge(TINY, p, [FIRST], started, jitter, now).slots == [FreshSlot(FIRST, started + 170.0)];
    CleanupKeeps(Single(FreshSlot(FIRST, started + 170.0), stats.(added := stats.added + 1)).(fetching := true), now);
  }

  /** A fresh slot is lent to the next caller. */
  lemma FirstLent(stats: Stats, expireAt: real, now: real)
    requires 0.0 <= now < expireAt && stats.peak <= 1
    ensures Borrow(TINY, Single(FreshSlot(FIRST, expireAt), stats), EASY, "", now, now)
         == (Single(FreshSlot(FIRST, expireAt).(inFlight := 1), stats.(leases := stats.leases + 1, peak := 1)),
             Granted(MappingOf(FIRST)))
  {
    hide ProxyUrl, Cleanup, Leases, Best;
    var s := FreshSlot(FIRST, expireAt);
    var p := Single(s, stats);
    CleanupKeeps(p, now);
    assert s in p.slots && Fits(TINY, EASY, Purpose.Lend, s, now);
    OneLease(s.(inFlight := 1));
    assert p.slots[0 := Lent(TINY, s, EASY)] == [s.(inFlight := 1)];
  }

  lemma FirstFailed(at: real)
    requires at < 170.0
    ensures Fail(TINY, LentOut(), MappingOf(FIRST), Transport, at) == Cooling(at)
  {
    hide ProxyUrl, Cleanup, Find;
    var p := LentOut();
    assert p.slots[0] in p.slots;
    assert Find(p.slots, MappingOf(FIRST)) == Some(0);
    var s := Cooled(Released(p.slots[0]), Transport, at);
    assert p.slots[0 := s] == Cooling(at).slots;
    CleanupKeeps(Cooling(at), at);
  }

  lemma CoolingStrandsOnce()
    ensures Strands(TINY, Cooling(1.0), EASY, "", 15.0, 16.0)
    ensures !Strands(TINY, Cooling(1.0), EASY, "", 15.0, 15.0)
  {
    hide Cooling, Strands, Good, Active, Cleanup, Eligible;
    CoolingGood();
    CoolingSlot();
    CleanupKeeps(Cooling(1.0), 15.0);
    StrandsBetweenReadings(TINY, Cooling(1.0), multiset{}, EASY, "", 15.0, 16.0);
    StrandsOneReading(TINY, Cooling(1.0), multiset{}, EASY, "", 15.0);
  }

  /** The first five events: the one endpoint is bought, lent and brought back failed. */
  function Failing(jitter: nat -> real, at: real): seq<Event> {
    [Borrowed(EASY, "", 0.0, 0.0), Delivered([FIRST], EASY, "", 0.0, jitter, 0.0), FetchEnded,
     Borrowed(EASY, "", 0.5, 0.5), Event.Failed(MappingOf(FIRST), Transport, at)]
  }

  /** The pool once the endpoint has arrived, and while it is lent. */
  function Stocked(): Pool { Single(FRESH, EMPTY.stats.(added := 1)) }

  function LentOut(): Pool { Single(FRESH.(inFlight := 1), LENT_ONCE) }

  lemma LentReached(jitter: nat -> real)
    requires jitter(0) == 0.0
    ensures var events := [Borrowed(EASY, "", 0.0, 0.0), Delivered([FIRST], EASY, "", 0.0, jitter, 0.0), FetchEnded,
                           Borrowed(EASY, "", 0.5, 0.5)];
            && Possible(TINY, events) && Frugal(TINY, events)
            && Run(TINY, events) == World(LentOut(), multiset{MappingOf(FIRST)}, 0, 0)
  {
    hide Borrow, Deliver, Stocked, LentOut, Single, Run, Possible, Frugal, MappingOf;
    var e0, e1, e2 := Borrowed(EASY, "", 0.0, 0.0), Delivered([FIRST], EASY, "", 0.0, jitter, 0.0), FetchEnded;
    var e3 := Borrowed(EASY, "", 0.5, 0.5);
    NoEvents(TINY);
    FirstBorrow();
    StockedIs();
    FirstDelivered(EMPTY.stats, 0.0, jitter, 0.0);
    FirstLent(EMPTY.stats.(added := 1), 170.0, 0.5);
    OneMore(TINY, [], e0);
    OneMore(TINY, [e0], e1);
    OneMore(TINY, [e0, e1], e2);
    OneMore(TINY, [e0, e1, e2], e3);
    assert [] + [e0] == [e0] && [e0] + [e1] == [e0, e1] && [e0, e1] + [e2] == [e0, e1, e2];
    assert [e0, e1, e2] + [e3] == [e0, e1, e2, e3];
  }

  lemma StockedIs()
    ensures EMPTY == Stock([], EMPTY.stats)
    ensures Stocked() == Single(FreshSlot(FIRST, 170.0), EMPTY.stats.(added := 1))
    ensures Stocked().(fetching := true).(fetching := false) == Stocked()
    ensures LentOut() == Single(FreshSlot(FIRST, 170.0).(inFlight := 1),
                                EMPTY.stats.(added := 1).(leases := 1, peak := 1))
  {
  }

  lemma CoolingReached(jitter: nat -> real, at: real)
    requires jitter(0) == 0.0 && at < 170.0
    ensures Possible(TINY, Failing(jitter, at)) && Frugal(TINY, Failing(jitter, at))
    ensures Run(TINY, Failing(jitter, at)) == World(Cooling(at), multiset{}, 0, 0)
  {
    hide Fail, Cooling, LentOut, Run, Possible, Frugal, MappingOf;
    var events := Failing(jitter, at);
    LentReached(jitter);
    FirstFailed(at);
    OneMore(TINY, events[..4], events[4]);
    assert events[..4] == [events[0], events[1], events[2], events[3]] && events[..4] + [events[4]] == events;
    assert multiset{MappingOf(FIRST)} - multiset{MappingOf(FIRST)} == multiset{};
    Found(MappingOf(FIRST));
  }

  lemma Found(m: Mapping)
    requires m == MappingOf(FIRST)
    ensures Find(LentOut().slots, m).Some?
  {
    hide ProxyUrl, Find;
    assert LentOut().slots[0] in LentOut().slots;
  }

  lemma SingleIs(s: Slot, stats: Stats)
    ensures Single(s, stats).(fetching := true).(fetching := false) == Single(s, stats)
  {
  }

  /** A run of a frugal supplier: the one slot is still cooling down when the last caller
      searches and ready when that caller looks for a slot to replace. */
  lemma CoolingStrands(jitter: nat -> real)
    requires jitter(0) == 0.0
    ensures var events := Failing(jitter, 1.0) + [Borrowed(EASY, "", 15.0, 16.0)];
            Possible(TINY, events) && Frugal(TINY, events) && !Live(Run(TINY, events))
  {
    hide Run, Possible, Frugal, Strands, Cooling, Failing, Next, Safe;
    var front, e := Failing(jitter, 1.0), Borrowed(EASY, "", 15.0, 16.0);
    CoolingReached(jitter, 1.0);
    CoolingStrandsOnce();
    RunSafe(TINY, front);
    StepLive(TINY, Run(TINY, front), e);
    OneMore(TINY, front, e);
  }

  // ------------------------------------------------------------ a penalty forgotten

  /** The pool after its resting slot has run out. */
  function Expired(): Pool { Stock([], LENT_ONCE.(failures := 1, expired := 1)) }

  lemma SlotRemoved()
    ensures Cleanup(Cooling(166.0), 171.0) == Expired()
  {
    hide ProxyUrl, Leases, Active;
    var s := Cooling(166.0).slots[0];
    assert Cooling(166.0).slots == [s];
    assert [s][..0] == [] && [Marked(s, 171.0)][..0] == [];
    assert Mark([s], 171.0) == [Marked(s, 171.0)];
    OneLease(s);
    OneLease(Marked(s, 171.0));
  }

  /** Whoever comes next removes the slot and asks for another endpoint. */
  lemma SlotExpires()
    ensures Borrow(TINY, Cooling(166.0), EASY, "", 171.0, 171.0) == (Expired().(fetching := true), Refill(1))
  {
    hide Choose, ReplaceIdle, Cleanup, Cooling;
    SlotRemoved();
    assert Active([]) == 0;
  }

  /** A transport failure at second 166 is to keep the endpoint from everyone until second
      181. Its slot runs out at 170, is removed without being given up, and the supplier
      names the endpoint again: at second 173 it is lent. */
  lemma PenaltyForgotten(jitter: nat -> real)
    requires jitter(0) == 0.0
    ensures var events := Failing(jitter, 166.0)
              + [Borrowed(EASY, "", 171.0, 171.0)]
              + [Delivered([FIRST], EASY, "", 171.0, jitter, 172.0)] + [FetchEnded];
            && Possible(TINY, events) && Frugal(TINY, events) && OneReading(events)
            && Rebuys(TINY, WorldAt(TINY, events, 6).pool, events[6], FIRST)
            && Borrow(TINY, Run(TINY, events).pool, EASY, "", 173.0, 173.0).1 == Granted(MappingOf(FIRST))
  {
    hide Run, Possible, Frugal, Cooling, Expired, Single, Borrow, Deliver, MappingOf, Rebuys;
    var e5, e6, e7 := Borrowed(EASY, "", 171.0, 171.0), Delivered([FIRST], EASY, "", 171.0, jitter, 172.0), FetchEnded;
    var front := Failing(jitter, 166.0);
    var stats := Expired().stats;
    CoolingReached(jitter, 166.0);
    SlotExpires();
    ExpiredIs();
    FirstDelivered(stats, 171.0, jitter, 172.0);
    FirstLent(stats.(added := 2), 341.0, 173.0);
    OneMore(TINY, front, e5);
    OneMore(TINY, front + [e5], e6);
    OneMore(TINY, front + [e5] + [e6], e7);
    SingleIs(FreshSlot(FIRST, 341.0), stats.(added := 2));
    var events := front + [e5] + [e6] + [e7];
    assert events[..6] == front + [e5];
    BuysAgain(jitter);
  }

  lemma ExpiredIs()
    ensures Expired() == Stock([], Expired().stats) && Expired().stats.added == 1 && Expired().stats.peak == 1
    ensures !Expired().fetching
  {
  }

  lemma BuysAgain(jitter: nat -> real)
    requires jitter(0) == 0.0
    ensures Rebuys(TINY, Expired().(fetching := true), Delivered([FIRST], EASY, "", 171.0, jitter, 172.0), FIRST)
  {
    assert FirstCopy([FIRST], 0, FIRST);
    assert Deadline(TINY, 171.0, 0.0, 172.0) == 341.0;
  }
}
