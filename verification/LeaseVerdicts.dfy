/**
  What a lease scope reports, from what happened in it: which answers of the upstream and
  which steps make its lease fail, on what grounds, and through which mapping it sends.
 */
module LeaseVerdicts {
  import opened LeaseScope
  import opened PoolModel
  import opened ProxySlots
  import opened Wrappers

  predicate Bad(sent: Sent) {
    || sent.Broke?
    || (sent.Reply? && (sent.status in {403, 407, 412, 418, 429, 432, 471} || sent.status >= 500))
  }

  /** An optimised scope's lease that ends too soon for the next step, or is shared when it
      should not be. */
  predicate Outlived(cl: Client, s: Scope, seconds: real, exclusive: bool, remaining: Option<real>) {
    && cl.optimized && s.acquired && s.proxies.Some? && remaining.Some?
    && (remaining.value < seconds || (exclusive && !s.req.exclusive))
  }

  /** The lease a scope without one ends up with: `None` when it cannot go on. */
  function NewLease(cl: Client, answer: Answer): Option<Option<Mapping>> {
    match cl.mode
    case Direct => Some(None)
    case Required => if cl.provider && answer.Lent? then Some(Some(answer.proxies)) else None
    case Prefer =>
      if cl.provider && answer.Raised? then None
      else Some(if cl.provider && answer.Lent? then Some(answer.proxies) else None)
  }

  /** Whether the request goes out past the scope's lease. */
  predicate GoesDirect(cl: Client, direct: bool) { direct && !cl.mode.Required? }

  /** The lease a request is to go through. */
  function LeaseFor(cl: Client, s: Scope, remaining: Option<real>, answer: Answer): Option<Option<Mapping>> {
    if s.acquired && !Outlived(cl, s, cl.timeout + 5.0, false, remaining) then Some(s.proxies)
    else NewLease(cl, answer)
  }

  /** The step makes the scope's lease count as failed. */
  predicate Spoils(cl: Client, s: Scope, a: Action) {
    match a
    case Request(direct, remaining, answer, sent) =>
      if GoesDirect(cl, direct) then Bad(sent)
      else if s.started && Outlived(cl, s, cl.timeout + 5.0, false, remaining) then true
      else
        var lease := LeaseFor(cl, s, remaining, answer);
        lease.Some? && ((cl.mode.Required? && lease.value.None?) || Bad(sent))
    case EnsureLifetime(seconds, exclusive, remaining) => s.started && Outlived(cl, s, seconds, exclusive, remaining)
    case BrowserMapping(_) => false
    case BrowserStarted => false
    case RecordFailure(_) => true
    case Invalidate => true
  }

  lemma SettlesBad(s: Scope, sent: Sent)
    ensures Settle(s, sent).failed <==> s.failed || Bad(sent)
  {
  }

  lemma SpoilsExactly(cl: Client, s: Scope, a: Action)
    ensures Act(cl, s, a).failed <==> s.failed || Spoils(cl, s, a)
  {
    hide Settle, Bad;
    match a
    case Request(direct, remaining, answer, sent) =>
      SettlesBad(s.(started := true), sent);
      var u := Acquire(cl, Ensure(cl, s, cl.timeout + 5.0, false, remaining), answer);
      SettlesBad(u.(started := true, used := u.used + [u.proxies]), sent);
    case _ =>
  }

  /** The k-th step of the body spoils the lease. */
  predicate SpoiledAt(cl: Client, req: Requirements, actions: seq<Action>, k: nat) {
    k < |actions| && Spoils(cl, Body(cl, req, actions[..k]), actions[k])
  }

  lemma SpoiledPrefix(cl: Client, req: Requirements, actions: seq<Action>, n: nat, k: nat)
    requires k < n <= |actions|
    ensures SpoiledAt(cl, req, actions[..n], k) == SpoiledAt(cl, req, actions, k)
  {
    hide Spoils, Body;
    assert actions[..n][..k] == actions[..k];
  }

  /** A scope counts its lease as failed exactly when some step spoiled it. */
  lemma {:induction false} FailedExactly(cl: Client, req: Requirements, actions: seq<Action>)
    ensures Body(cl, req, actions).failed <==> exists k: nat :: SpoiledAt(cl, req, actions, k)
    decreases |actions|
  {
    hide Act, Spoils;
    if |actions| == 0 {
    } else {
      var n := |actions| - 1;
      FailedExactly(cl, req, actions[..n]);
      SpoilsExactly(cl, Body(cl, req, actions[..n]), actions[n]);
      assert SpoiledAt(cl, req, actions, n) == Spoils(cl, Body(cl, req, actions[..n]), actions[n]);
      forall k: nat | k < n
        ensures SpoiledAt(cl, req, actions[..n], k) == SpoiledAt(cl, req, actions, k)
      {
        SpoiledPrefix(cl, req, actions, n, k);
      }
      assert forall k: nat :: SpoiledAt(cl, req, actions, k) ==> k < n || k == n;
    }
  }

  /** The lease a scope holds at its end is reported as failed exactly when some step spoiled
      it or, in optimised mode, the scope was cancelled. */
  lemma ReportedExactly(cl: Client, req: Requirements, actions: seq<Action>, cancelled: bool)
    requires Held(Body(cl, req, actions)) != []
    ensures var given := Close(cl, Body(cl, req, actions), cancelled).given;
            && |given| > 0
            && (given[|given| - 1].1.Failure? <==>
                  (cancelled && cl.optimized) || exists k: nat :: SpoiledAt(cl, req, actions, k))
  {
    hide Body, Close, SpoiledAt;
    FinalVerdict(cl, req, actions, cancelled);
    FailedExactly(cl, req, actions);
  }

  // ------------------------------------------------------------------------ grounds

  function GroundsOf(sent: Sent): Kind {
    if sent.Broke? || (sent.Reply? && sent.status == 407) then TransportKind else PlatformKind
  }

  /** The grounds a scope gives for its failed lease: a broken connection or a 407 blames the
      transport and any other bad answer the platform, whatever was blamed before; a lease
      outlived, or a collection that failed, blames the task or the platform. */
  lemma BlamesExactly(cl: Client, s: Scope, a: Action)
    ensures var kind := Act(cl, s, a).kind;
            match a
            case Request(direct, remaining, answer, sent) =>
              if !GoesDirect(cl, direct) && s.started && Outlived(cl, s, cl.timeout + 5.0, false, remaining)
              then kind == Some(TaskKind)
              else
                var sends := GoesDirect(cl, direct)
                  || (LeaseFor(cl, s, remaining, answer).Some?
                      && !(cl.mode.Required? && LeaseFor(cl, s, remaining, answer).value.None?));
                kind == if sends && Bad(sent) then Some(GroundsOf(sent)) else s.kind
            case EnsureLifetime(seconds, exclusive, remaining) =>
              kind == if s.started && Outlived(cl, s, seconds, exclusive, remaining) then Some(TaskKind) else s.kind
            case RecordFailure(blocked) =>
              kind == if cl.optimized && !s.failed then Some(if blocked then PlatformKind else TaskKind) else s.kind
            case _ => kind == s.kind
  {
    match a
    case Request(direct, remaining, answer, sent) =>
    case _ =>
  }

  /** What the pool is told: in optimised mode the grounds, the platform by the name the
      scope asked for, and without optimisation or grounds just a failure. */
  lemma CausesExactly(cl: Client, s: Scope, cancelled: bool)
    requires s.acquired && s.proxies.Some? && cl.provider
    ensures var given := Close(cl, s, cancelled).given;
            && |given| == |s.given| + 1 && given[|s.given|].0 == s.proxies.value
            && given[|s.given|].1 ==
               if !s.failed then (if cancelled && cl.optimized then Failure(Task) else Success)
               else if !cl.optimized || s.kind == None then Failure(Plain)
               else if s.kind == Some(TransportKind) then Failure(Transport)
               else if s.kind == Some(PlatformKind) then Failure(Platform(s.req.platform))
               else Failure(Task)
  {
  }

  // ----------------------------------------------------------------------- mappings

  /** What a request went through: nothing is sent past a lease that cannot be had. */
  lemma SendsThrough(cl: Client, s: Scope, direct: bool, remaining: Option<real>, answer: Answer, sent: Sent)
    ensures var t := Act(cl, s, Request(direct, remaining, answer, sent));
            var lease := LeaseFor(cl, s, remaining, answer);
            var outlived := Outlived(cl, s, cl.timeout + 5.0, false, remaining);
            t.used == s.used +
              (if GoesDirect(cl, direct) || (s.started && outlived) || lease.None?
                  || (cl.mode.Required? && lease.value.None?)
               then [] else [lease.value])
  {
    hide Settle;
    SettleSends(s.(started := true), sent);
    var u := Acquire(cl, Ensure(cl, s, cl.timeout + 5.0, false, remaining), answer);
    SettleSends(u.(started := true, used := u.used + [u.proxies]), sent);
  }

  /** A scope has started, so that its lease can no longer be exchanged, exactly once a
      browser has or a request was sent. */
  lemma StartsExactly(cl: Client, s: Scope, a: Action)
    ensures Act(cl, s, a).started <==>
            || s.started
            || a.BrowserStarted?
            || (a.Request?
                && (GoesDirect(cl, a.direct)
                    || (LeaseFor(cl, s, a.remaining, a.answer).Some?
                        && !(cl.mode.Required? && LeaseFor(cl, s, a.remaining, a.answer).value.None?))))
  {
    hide Settle;
    if a.Request? {
      SettleSends(s.(started := true), a.sent);
      var u := Acquire(cl, Ensure(cl, s, cl.timeout + 5.0, false, a.remaining), a.answer);
      SettleSends(u.(started := true, used := u.used + [u.proxies]), a.sent);
    }
  }

  /** A lease too short for a request is given back as a success before anything has gone
      through it, and the next one is asked to last. */
  lemma ShortLeaseGoesBack(cl: Client, s: Scope, direct: bool, remaining: Option<real>, answer: Answer, sent: Sent)
    requires !GoesDirect(cl, direct) && !s.started && Outlived(cl, s, cl.timeout + 5.0, false, remaining)
    ensures var t := Act(cl, s, Request(direct, remaining, answer, sent));
            && t.given == s.given + [(s.proxies.value, Success)]
            && t.req.minRemaining >= cl.timeout + 5.0 && t.req.minRemaining >= s.req.minRemaining
            && (t.acquired <==> NewLease(cl, answer).Some?)
            && (t.acquired ==> t.proxies == NewLease(cl, answer).value)
  {
  }

  /** Otherwise a request keeps the lease it finds, and gives nothing back. */
  lemma GoodLeaseStays(cl: Client, s: Scope, direct: bool, remaining: Option<real>, answer: Answer, sent: Sent)
    requires s.acquired && (GoesDirect(cl, direct) || !Outlived(cl, s, cl.timeout + 5.0, false, remaining))
    ensures var t := Act(cl, s, Request(direct, remaining, answer, sent));
            t.acquired && t.proxies == s.proxies && t.given == s.given && t.taken == s.taken
  {
  }

  /** An upgrade asks for the longer and the more exclusive of what was asked; it gives an
      unused lease back exactly when that lease is outlived. */
  lemma UpgradesExactly(cl: Client, s: Scope, seconds: real, exclusive: bool, remaining: Option<real>)
    ensures var t := Act(cl, s, EnsureLifetime(seconds, exclusive, remaining));
            && (cl.optimized ==>
                  && t.req == s.req.(minRemaining := if seconds >= s.req.minRemaining then seconds
                                                     else s.req.minRemaining,
                                     exclusive := exclusive || s.req.exclusive))
            && (!cl.optimized ==> t == s)
            && (if Outlived(cl, s, seconds, exclusive, remaining) && !s.started
                then !t.acquired && t.proxies.None? && t.given == s.given + [(s.proxies.value, Success)]
                else t.acquired == s.acquired && t.proxies == s.proxies && t.given == s.given)
            && EnsureRaises(cl, s, seconds, exclusive, remaining)
               == (Outlived(cl, s, seconds, exclusive, remaining) && s.started)
  {
  }

  predicate KeepsMode(cl: Client, s: Scope) {
    && (cl.mode.Required? ==> forall k :: 0 <= k < |s.used| ==> s.used[k].Some?)
    && (cl.mode.Direct? ==> s.taken == [] && s.proxies.None? && forall k :: 0 <= k < |s.used| ==> s.used[k].None?)
  }

  /** Over a whole scope: a client that must use a proxy never sends without one, and one
      that must not never takes a lease. */
  lemma {:induction false} ModesAreKept(cl: Client, req: Requirements, actions: seq<Action>)
    ensures KeepsMode(cl, Body(cl, req, actions))
    decreases |actions|
  {
    hide Act;
    if |actions| == 0 {
    } else {
      ModesAreKept(cl, req, actions[..|actions| - 1]);
      StepKeepsMode(cl, Body(cl, req, actions[..|actions| - 1]), actions[|actions| - 1]);
    }
  }

  lemma EnsureKeepsMode(cl: Client, s: Scope, seconds: real, exclusive: bool, remaining: Option<real>)
    requires KeepsMode(cl, s)
    ensures KeepsMode(cl, Ensure(cl, s, seconds, exclusive, remaining))
  {
  }

  lemma AcquireKeepsMode(cl: Client, s: Scope, answer: Answer)
    requires KeepsMode(cl, s)
    ensures KeepsMode(cl, Acquire(cl, s, answer))
  {
  }

  lemma SendKeepsMode(cl: Client, s: Scope, sent: Sent)
    requires KeepsMode(cl, s)
    ensures KeepsMode(cl, SendDirect(s, sent)) && KeepsMode(cl, SendLeased(cl, s, sent))
  {
    hide Settle;
    SettleSends(s.(started := true), sent);
    SettleSends(s.(started := true, used := s.used + [s.proxies]), sent);
  }

  lemma RequestKeepsMode(cl: Client, s: Scope, direct: bool, remaining: Option<real>, answer: Answer, sent: Sent)
    requires KeepsMode(cl, s)
    ensures KeepsMode(cl, RequestOnce(cl, s, direct, remaining, answer, sent))
  {
    hide KeepsMode, Ensure, EnsureRaises, Acquire, SendDirect, SendLeased;
    var t := Ensure(cl, s, cl.timeout + 5.0, false, remaining);
    EnsureKeepsMode(cl, s, cl.timeout + 5.0, false, remaining);
    AcquireKeepsMode(cl, t, answer);
    SendKeepsMode(cl, s, sent);
    SendKeepsMode(cl, Acquire(cl, t, answer), sent);
  }

  lemma StepKeepsMode(cl: Client, s: Scope, a: Action)
    requires KeepsMode(cl, s)
    ensures KeepsMode(cl, Act(cl, s, a))
  {
    hide RequestOnce, Ensure, Acquire;
    match a
    case Request(direct, remaining, answer, sent) => RequestKeepsMode(cl, s, direct, remaining, answer, sent);
    case EnsureLifetime(seconds, exclusive, remaining) => EnsureKeepsMode(cl, s, seconds, exclusive, remaining);
    case BrowserMapping(answer) => AcquireKeepsMode(cl, s, answer);
    case _ =>
  }

  lemma SettleSends(s: Scope, sent: Sent)
    ensures var t := Settle(s, sent);
            t.used == s.used && t.proxies == s.proxies && t.taken == s.taken && t.started == s.started
  {
  }
}
