/** Over any run of the pool the mappings that are out are those granted and not yet
    returned. */
module LeaseBalance {
  import opened PoolModel
  import opened ProxySlots

  ghost function GrantOf(c: Config, w: World, e: Event): multiset<Mapping> {
    if e.Borrowed? && Borrow(c, w.pool, e.req, e.affinity, e.now, e.later).1.Granted?
    then multiset{Borrow(c, w.pool, e.req, e.affinity, e.now, e.later).1.proxies}
    else multiset{}
  }

  function ReturnOf(e: Event): multiset<Mapping> {
    if e.Succeeded? || e.Failed? then multiset{e.proxies} else multiset{}
  }

  /** The mappings granted by the events from position `from` on. */
  ghost function Grants(c: Config, events: seq<Event>, from: nat): multiset<Mapping> {
    if |events| <= from then multiset{}
    else
      var n := |events| - 1;
      Grants(c, events[..n], from) + GrantOf(c, Run(c, events[..n]), events[n])
  }

  function Returns(events: seq<Event>, from: nat): multiset<Mapping> {
    if |events| <= from then multiset{}
    else Returns(events[..|events| - 1], from) + ReturnOf(events[|events| - 1])
  }

  lemma StepBalance(c: Config, w: World, e: Event)
    requires Enabled(w, e)
    ensures Next(c, w, e).held + ReturnOf(e) == w.held + GrantOf(c, w, e)
  {
    hide Borrow, Deliver, Succeed, Fail, Find;
    if e.Succeeded? || e.Failed? {
      assert w.held == (w.held - multiset{e.proxies}) + multiset{e.proxies};
    }
  }

  /** What is out at the end is what was out, plus the grants, minus the returns. */
  lemma {:induction false} HeldIsBalance(c: Config, events: seq<Event>, from: nat)
    requires Possible(c, events) && from <= |events|
    ensures Run(c, events).held + Returns(events, from) == Run(c, events[..from]).held + Grants(c, events, from)
    decreases |events|
  {
    hide Next, Enabled, ReturnOf, GrantOf;
    if |events| == from {
      assert events[..from] == events;
    } else {
      var n := |events| - 1;
      HeldIsBalance(c, events[..n], from);
      assert events[..n][..from] == events[..from];
      StepBalance(c, Run(c, events[..n]), events[n]);
      Chain(Run(c, events[..from]).held, Run(c, events[..n]).held, Run(c, events).held,
            Grants(c, events[..n], from), Returns(events[..n], from),
            GrantOf(c, Run(c, events[..n]), events[n]), ReturnOf(events[n]));
    }
  }

  lemma Chain<T>(x: multiset<T>, y: multiset<T>, z: multiset<T>,
                 plus: multiset<T>, minus: multiset<T>, more: multiset<T>, less: multiset<T>)
    requires y + minus == x + plus
    requires z + less == y + more
    ensures z + (minus + less) == x + (plus + more)
  {
    assert z + (minus + less) == (z + less) + minus;
    assert (y + more) + minus == (y + minus) + more;
  }
}
