/**
  The lease scopes and the pool as one machine: every borrowing pass and every return is a
  step of some open scope, so what the slots are charged for is what open scopes hold.
  Acquiring is separate from the steps around it, because the caller may wait there.
 */
module LeaseSystem {
  import opened LeaseScope
  import opened PoolModel
  import opened PoolSafety
  import opened ProxySlots
  import opened Wrappers

  datatype Open = Open(client: Client, scope: Scope)

  datatype System = System(world: World, open: map<nat, Open>)

  const IDLE := System(START, map[])

  /** What a scope does without the pool. */
  datatype Work = SendsDirect(sent: Sent) | SendsLeased(sent: Sent) | Starts | Records(blocked: bool) | Invalidates

  datatype Step =
    | Opens(id: nat, client: Client, req: Requirements)
    | Asks(id: nat, affinity: string, now: real, later: real)
    | GoesWithout(id: nat, answer: Answer)
    | Upgrades(id: nat, seconds: real, exclusive: bool, remaining: Option<real>, now: real)
    | Works(id: nat, work: Work)
    | Closes(id: nat, cancelled: bool, now: real)
    | Refills(e: Event)

  /** A lease is asked for by a scope that has none and whose client uses the pool; the
      supplier's answer, the end of a refill and a cancelled wait are the pool's own. */
  ghost predicate CanStep(y: System, t: Step) {
    match t
    case Opens(id, _, _) => id !in y.open
    case Asks(id, _, _, _) =>
      id in y.open && !y.open[id].scope.acquired && y.open[id].client.provider && !y.open[id].client.mode.Direct?
    case GoesWithout(id, answer) => id in y.open && !y.open[id].scope.acquired && !answer.Lent?
    case Upgrades(id, _, _, _, _) => id in y.open
    case Works(id, work) => id in y.open && (work.SendsLeased? ==> y.open[id].scope.acquired)
    case Closes(id, _, _) => id in y.open
    case Refills(e) => (e.Delivered? || e.FetchEnded? || e.Abandoned?) && Enabled(y.world, e)
  }

  function Worked(o: Open, work: Work): Scope {
    match work
    case SendsDirect(sent) => SendDirect(o.scope, sent)
    case SendsLeased(sent) => SendLeased(o.client, o.scope, sent)
    case Starts => o.scope.(started := true)
    case Records(blocked) => Record(o.client, o.scope, blocked)
    case Invalidates => o.scope.(failed := true)
  }

  function ReturnEvent(back: (Mapping, Verdict), now: real): Event {
    match back.1
    case Success => Succeeded(back.0, now)
    case Failure(cause) => Event.Failed(back.0, cause, now)
  }

  /** The pool after the scope has gone from `s` to `t`: what it gave back is returned. */
  ghost function Returned(c: Config, w: World, s: Scope, t: Scope, now: real): World {
    if |t.given| > |s.given| then Next(c, w, ReturnEvent(t.given[|t.given| - 1], now)) else w
  }

  ghost function After(c: Config, y: System, t: Step): System
    requires CanStep(y, t)
  {
    match t
    case Opens(id, client, req) => y.(open := y.open[id := Open(client, Opened(req))])
    case Asks(id, affinity, now, later) =>
      var o := y.open[id];
      var outcome := Borrow(c, y.world.pool, o.scope.req, affinity, now, later).1;
      System(Next(c, y.world, Borrowed(o.scope.req, affinity, now, later)),
             if outcome.Granted?
             then y.open[id := o.(scope := Acquire(o.client, o.scope, Answer.Lent(outcome.proxies)))]
             else y.open)
    case GoesWithout(id, answer) =>
      y.(open := y.open[id := y.open[id].(scope := Acquire(y.open[id].client, y.open[id].scope, answer))])
    case Upgrades(id, seconds, exclusive, remaining, now) =>
      var o := y.open[id];
      var scope := Ensure(o.client, o.scope, seconds, exclusive, remaining);
      System(Returned(c, y.world, o.scope, scope, now), y.open[id := o.(scope := scope)])
    case Works(id, work) => y.(open := y.open[id := y.open[id].(scope := Worked(y.open[id], work))])
    case Closes(id, cancelled, now) =>
      var o := y.open[id];
      System(Returned(c, y.world, o.scope, Close(o.client, o.scope, cancelled), now), y.open - {id})
    case Refills(e) => y.(world := Next(c, y.world, e))
  }

  ghost function Run(c: Config, steps: seq<Step>): Option<System> {
    if |steps| == 0 then Some(IDLE)
    else
      var before := Run(c, steps[..|steps| - 1]);
      var t := steps[|steps| - 1];
      if before.Some? && CanStep(before.value, t) then Some(After(c, before.value, t)) else None
  }

  // ---------------------------------------------------------------------- who holds what

  predicate Holds(o: Open, m: Mapping) { Held(o.scope) == [m] }

  function Holders(open: map<nat, Open>, m: Mapping): set<nat> { set id | id in open && Holds(open[id], m) }

  /** Every lease that is out is held by an open scope. */
  ghost predicate Matched(y: System) { forall m :: y.world.held[m] == |Holders(y.open, m)| }

  ghost predicate Sound(c: Config, y: System) {
    && Safe(c, y.world)
    && (forall id :: id in y.open ==> Accounted(y.open[id].client, y.open[id].scope))
    && Matched(y)
  }

  function Count(b: bool): nat { if b then 1 else 0 }

  lemma OneMore(rest: set<nat>, id: nat, b: bool)
    requires id !in rest
    ensures |rest + if b then {id} else {}| == |rest| + Count(b)
  {
  }

  /** The holders of a mapping, the scope `id` apart. */
  lemma HoldersApart(open: map<nat, Open>, id: nat, m: Mapping)
    ensures |Holders(open, m)| == |Holders(open - {id}, m)| + Count(id in open && Holds(open[id], m))
  {
    hide Holds;
    var rest := Holders(open - {id}, m);
    OneMore(rest, id, id in open && Holds(open[id], m));
    assert Holders(open, m) == rest + if id in open && Holds(open[id], m) then {id} else {};
  }

  lemma HoldersUpdate(open: map<nat, Open>, id: nat, o: Open, m: Mapping)
    ensures |Holders(open[id := o], m)|
         == |Holders(open, m)| - Count(id in open && Holds(open[id], m)) + Count(Holds(o, m))
  {
    hide Holds, Holders;
    HoldersApart(open, id, m);
    HoldersApart(open[id := o], id, m);
    assert open[id := o] - {id} == open - {id};
  }

  /** Only a scope's own lease goes back, and it is out until then. */
  lemma HeldIsOut(y: System, id: nat, m: Mapping)
    requires Matched(y) && id in y.open && Holds(y.open[id], m)
    ensures m in y.world.held
  {
    assert id in Holders(y.open, m);
  }

  lemma ReturnHeld(c: Config, w: World, m: Mapping, back: (Mapping, Verdict), now: real)
    requires Safe(c, w) && back.0 in w.held
    ensures var after := Next(c, w, ReturnEvent(back, now));
            Safe(c, after) && after.held[m] == w.held[m] - Count(m == back.0)
  {
    hide Safe, Succeed, Fail, Find;
    StepSafe(c, w, ReturnEvent(back, now));
  }

  /** A scope either keeps its lease and gives nothing back, or gives back exactly that. */
  ghost predicate GivesBack(s: Scope, t: Scope) {
    if |t.given| > |s.given|
    then Held(s) == [t.given[|t.given| - 1].0]
    else Held(t) == Held(s)
  }

  lemma ReturnedSound(c: Config, y: System, id: nat, t: Scope, m: Mapping, now: real)
    requires Safe(c, y.world) && Matched(y) && id in y.open && GivesBack(y.open[id].scope, t)
    ensures var s := y.open[id].scope;
            var after := Returned(c, y.world, s, t, now);
            && Safe(c, after)
            && after.held[m] == y.world.held[m] - Count(|t.given| > |s.given| && Holds(y.open[id], m))
  {
    hide Safe, Next, Matched, Held;
    var s := y.open[id].scope;
    if |t.given| > |s.given| {
      HeldIsOut(y, id, t.given[|t.given| - 1].0);
      ReturnHeld(c, y.world, m, t.given[|t.given| - 1], now);
    }
  }

  lemma EnsureGivesBack(cl: Client, s: Scope, seconds: real, exclusive: bool, remaining: Option<real>)
    ensures var t := Ensure(cl, s, seconds, exclusive, remaining);
            GivesBack(s, t) && (|t.given| > |s.given| ==> Held(t) == [])
  {
  }

  lemma CloseGivesBack(cl: Client, s: Scope, cancelled: bool)
    requires Accounted(cl, s)
    ensures var t := Close(cl, s, cancelled);
            GivesBack(s, t) && (|t.given| == |s.given| ==> Held(s) == [])
            && |t.given| >= |s.given|
  {
    hide Mappings;
  }

  // ----------------------------------------------------------------------------- steps

  lemma AsksSound(c: Config, y: System, t: Step)
    requires Sound(c, y) && CanStep(y, t) && t.Asks?
    ensures Sound(c, After(c, y, t))
  {
    hide Safe, Borrow, Accounted, Acquire, Held;
    var o := y.open[t.id];
    var e := Borrowed(o.scope.req, t.affinity, t.now, t.later);
    var outcome := Borrow(c, y.world.pool, o.scope.req, t.affinity, t.now, t.later).1;
    StepSafe(c, y.world, e);
    if outcome.Granted? {
      var scope := Acquire(o.client, o.scope, Answer.Lent(outcome.proxies));
      AcquireAccounted(o.client, o.scope, Answer.Lent(outcome.proxies));
      Acquires(o.client, o.scope, outcome.proxies);
      forall m
        ensures After(c, y, t).world.held[m] == |Holders(After(c, y, t).open, m)|
      {
        HoldersUpdate(y.open, t.id, o.(scope := scope), m);
      }
    }
  }

  lemma Acquires(cl: Client, s: Scope, m: Mapping)
    requires !s.acquired && cl.provider && !cl.mode.Direct?
    ensures Held(s) == [] && Held(Acquire(cl, s, Answer.Lent(m))) == [m]
  {
  }

  /** A step of one scope that leaves the pool and the lease alone. */
  lemma AloneSound(c: Config, y: System, id: nat, scope: Scope)
    requires Sound(c, y)
    requires id in y.open && Accounted(y.open[id].client, scope) && Held(scope) == Held(y.open[id].scope)
    ensures Sound(c, y.(open := y.open[id := y.open[id].(scope := scope)]))
  {
    hide Safe, Accounted, Held;
    forall m
      ensures y.world.held[m] == |Holders(y.open[id := y.open[id].(scope := scope)], m)|
    {
      HoldersUpdate(y.open, id, y.open[id].(scope := scope), m);
    }
  }

  lemma WithoutHolds(cl: Client, s: Scope, answer: Answer)
    requires !s.acquired && !answer.Lent?
    ensures Held(Acquire(cl, s, answer)) == Held(s)
  {
  }

  lemma WorkedSame(o: Open, work: Work)
    requires Accounted(o.client, o.scope) && (work.SendsLeased? ==> o.scope.acquired)
    ensures Accounted(o.client, Worked(o, work)) && Held(Worked(o, work)) == Held(o.scope)
  {
    hide Mappings, Rejected, Held;
    Unheld(o.scope, Worked(o, work));
  }

  lemma UpgradeSound(c: Config, y: System, t: Step)
    requires Sound(c, y) && CanStep(y, t) && t.Upgrades?
    ensures Sound(c, After(c, y, t))
  {
    hide Safe, Accounted, Ensure, Held, Returned, Holders;
    var o := y.open[t.id];
    var scope := Ensure(o.client, o.scope, t.seconds, t.exclusive, t.remaining);
    EnsureAccounted(o.client, o.scope, t.seconds, t.exclusive, t.remaining);
    EnsureGivesBack(o.client, o.scope, t.seconds, t.exclusive, t.remaining);
    forall m
      ensures Safe(c, After(c, y, t).world)
      ensures After(c, y, t).world.held[m] == |Holders(After(c, y, t).open, m)|
    {
      ReturnedSound(c, y, t.id, scope, m, t.now);
      HoldersUpdate(y.open, t.id, o.(scope := scope), m);
    }
    ReturnedSound(c, y, t.id, scope, Mapping("", ""), t.now);
  }

  lemma CloseSound(c: Config, y: System, t: Step)
    requires Sound(c, y) && CanStep(y, t) && t.Closes?
    ensures Sound(c, After(c, y, t))
  {
    hide Safe, Accounted, Close, Held, Returned, Holders;
    var o := y.open[t.id];
    var scope := Close(o.client, o.scope, t.cancelled);
    CloseGivesBack(o.client, o.scope, t.cancelled);
    forall m
      ensures After(c, y, t).world.held[m] == |Holders(After(c, y, t).open, m)|
    {
      ReturnedSound(c, y, t.id, scope, m, t.now);
      HoldersApart(y.open, t.id, m);
    }
    ReturnedSound(c, y, t.id, scope, Mapping("", ""), t.now);
  }

  lemma OpenSound(c: Config, y: System, t: Step)
    requires Sound(c, y) && CanStep(y, t) && t.Opens?
    ensures Sound(c, After(c, y, t))
  {
    hide Safe, Accounted;
    OpenedAccounted(t.client, t.req);
    forall m
      ensures y.world.held[m] == |Holders(After(c, y, t).open, m)|
    {
      HoldersUpdate(y.open, t.id, Open(t.client, Opened(t.req)), m);
    }
  }

  lemma StepSound(c: Config, y: System, t: Step)
    requires Sound(c, y) && CanStep(y, t)
    ensures Sound(c, After(c, y, t))
  {
    hide Safe, Accounted, Matched, Borrow, Deliver, Held, Acquire, Worked, Ensure, Close, Returned;
    match t
    case Opens(_, _, _) => OpenSound(c, y, t);
    case Asks(_, _, _, _) => AsksSound(c, y, t);
    case GoesWithout(id, answer) =>
      AcquireAccounted(y.open[id].client, y.open[id].scope, answer);
      WithoutHolds(y.open[id].client, y.open[id].scope, answer);
      AloneSound(c, y, id, Acquire(y.open[id].client, y.open[id].scope, answer));
    case Upgrades(_, _, _, _, _) => UpgradeSound(c, y, t);
    case Works(id, work) =>
      WorkedSame(y.open[id], work);
      AloneSound(c, y, id, Worked(y.open[id], work));
    case Closes(_, _, _) => CloseSound(c, y, t);
    case Refills(e) => RefillSound(c, y, e);
  }

  lemma RefillHeld(c: Config, w: World, e: Event)
    requires e.Delivered? || e.FetchEnded? || e.Abandoned?
    ensures Next(c, w, e).held == w.held
  {
    hide Deliver;
  }

  lemma RefillSound(c: Config, y: System, e: Event)
    requires Sound(c, y) && CanStep(y, Refills(e))
    ensures Sound(c, y.(world := Next(c, y.world, e)))
  {
    hide Safe, Accounted, Next, Holders;
    StepSafe(c, y.world, e);
    RefillHeld(c, y.world, e);
  }

  lemma IdleSound(c: Config)
    ensures Sound(c, IDLE)
  {
    StartSafe(c);
    forall m
      ensures IDLE.world.held[m] == |Holders(IDLE.open, m)|
    {
      assert Holders(IDLE.open, m) == {};
    }
  }

  lemma {:induction false} RunSound(c: Config, steps: seq<Step>)
    requires Run(c, steps).Some?
    ensures Sound(c, Run(c, steps).value)
    decreases |steps|
  {
    hide Sound, After, CanStep;
    if |steps| == 0 {
      IdleSound(c);
    } else {
      RunSound(c, steps[..|steps| - 1]);
      StepSound(c, Run(c, steps[..|steps| - 1]).value, steps[|steps| - 1]);
    }
  }

  // ------------------------------------------------------------------- the pool's own run

  function ReturnOf(s: Scope, t: Scope, now: real): seq<Event> {
    if |t.given| > |s.given| then [ReturnEvent(t.given[|t.given| - 1], now)] else []
  }

  /** What the step is to the pool. */
  function EventsOf(y: System, t: Step): seq<Event> {
    match t
    case Asks(id, affinity, now, later) =>
      if id in y.open then [Borrowed(y.open[id].scope.req, affinity, now, later)] else []
    case Upgrades(id, seconds, exclusive, remaining, now) =>
      if id in y.open
      then ReturnOf(y.open[id].scope, Ensure(y.open[id].client, y.open[id].scope, seconds, exclusive, remaining), now)
      else []
    case Closes(id, cancelled, now) =>
      if id in y.open
      then ReturnOf(y.open[id].scope, Close(y.open[id].client, y.open[id].scope, cancelled), now)
      else []
    case Refills(e) => [e]
    case _ => []
  }

  lemma EventsAreEnabled(c: Config, y: System, t: Step)
    requires Sound(c, y) && CanStep(y, t)
    ensures var events := EventsOf(y, t);
            && (events == [] ==> After(c, y, t).world == y.world)
            && (events != [] ==>
                  && events == [events[0]] && Enabled(y.world, events[0])
                  && After(c, y, t).world == Next(c, y.world, events[0]))
  {
    hide Safe, Accounted, Matched, Next, Ensure, Close, Held, Acquire;
    match t
    case Upgrades(id, seconds, exclusive, remaining, _) =>
      var o := y.open[id];
      EnsureGivesBack(o.client, o.scope, seconds, exclusive, remaining);
      BackIsOut(y, id, Ensure(o.client, o.scope, seconds, exclusive, remaining));
    case Closes(id, cancelled, _) =>
      var o := y.open[id];
      CloseGivesBack(o.client, o.scope, cancelled);
      BackIsOut(y, id, Close(o.client, o.scope, cancelled));
    case _ =>
  }

  lemma BackIsOut(y: System, id: nat, t: Scope)
    requires Matched(y) && id in y.open && GivesBack(y.open[id].scope, t)
    ensures |t.given| > |y.open[id].scope.given| ==> t.given[|t.given| - 1].0 in y.world.held
  {
    hide Matched, Held;
    if |t.given| > |y.open[id].scope.given| {
      HeldIsOut(y, id, t.given[|t.given| - 1].0);
    }
  }

  /** Every run of scopes and pool together is a possible run of the pool, so everything
      proved of those holds here. */
  lemma {:induction false} RunIsPoolRun(c: Config, steps: seq<Step>) returns (events: seq<Event>)
    requires Run(c, steps).Some?
    ensures Possible(c, events) && PoolModel.Run(c, events) == Run(c, steps).value.world
    decreases |steps|
  {
    hide Sound, After, CanStep, Next, Enabled, EventsOf;
    if |steps| == 0 {
      events := [];
    } else {
      var front, t := steps[..|steps| - 1], steps[|steps| - 1];
      var y := Run(c, front).value;
      var before := RunIsPoolRun(c, front);
      RunSound(c, front);
      EventsAreEnabled(c, y, t);
      events := before + EventsOf(y, t);
      if EventsOf(y, t) == [] {
        assert events == before;
      } else {
        assert events[..|events| - 1] == before;
      }
    }
  }

  // -------------------------------------------------------------------------- theorems

  /** How many leases an endpoint's slot is charged for; none if it has no slot. */
  function Charge(p: Pool, proxies: Mapping): nat {
    var found := Find(p.slots, proxies);
    if found.Some? then p.slots[found.value].inFlight else 0
  }

  lemma ChargeIsHeld(c: Config, w: World, proxies: Mapping)
    requires Safe(c, w)
    ensures Charge(w.pool, proxies) == w.held[proxies]
  {
    hide Find;
  }

  /** However scopes and the pool interleave, every slot is charged exactly for the open
      scopes that hold its endpoint. */
  lemma ChargesAreHolders(c: Config, steps: seq<Step>)
    requires Run(c, steps).Some?
    ensures var y := Run(c, steps).value;
            forall m :: Charge(y.world.pool, m) == |Holders(y.open, m)|
  {
    hide Run, Safe, Charge, Holders, Accounted;
    RunSound(c, steps);
    var y := Run(c, steps).value;
    forall m
      ensures Charge(y.world.pool, m) == |Holders(y.open, m)|
    {
      ChargeIsHeld(c, y.world, m);
    }
  }

  /** So a stretch of a run after which the same scopes are open as before, whatever was
      opened and closed in it, leaves every endpoint charged for as many leases; and with
      no scope open no lease is out. */
  lemma ScopesRestoreThePool(c: Config, steps: seq<Step>, from: nat)
    requires from <= |steps| && Run(c, steps).Some? && Run(c, steps[..from]).Some?
    requires Run(c, steps).value.open == Run(c, steps[..from]).value.open
    ensures var after, before := Run(c, steps).value, Run(c, steps[..from]).value;
            && (forall m :: Charge(after.world.pool, m) == Charge(before.world.pool, m))
            && (after.open == map[] ==> Leases(after.world.pool.slots) == 0)
  {
    hide Run, Charge, Holders;
    ChargesAreHolders(c, steps);
    ChargesAreHolders(c, steps[..from]);
    var after := Run(c, steps).value;
    if after.open == map[] {
      RunSound(c, steps);
      NothingHeld(c, after);
    }
  }

  lemma NothingHeld(c: Config, y: System)
    requires Sound(c, y) && y.open == map[]
    ensures Leases(y.world.pool.slots) == 0
  {
    forall m
      ensures y.world.held[m] == 0
    {
      assert Holders(y.open, m) == {};
    }
    assert y.world.held == multiset{};
  }
}
