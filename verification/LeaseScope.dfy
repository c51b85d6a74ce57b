/**
  One `lease_scope` of the HTTP client: a lazily acquired proxy lease that is kept for a
  whole collection, may be handed back early while still unused, and is handed back at
  the end. The supplier's answers, the remaining lifetimes and the upstream replies are
  arbitrary.
 */
module LeaseScope {
  import opened PoolModel
  import opened ProxySlots
  import opened Wrappers

  datatype Mode = Direct | Prefer | Required

  datatype Client = Client(mode: Mode, provider: bool, optimized: bool, timeout: real)

  datatype Verdict = Success | Failure(cause: Cause)

  datatype Kind = TransportKind | PlatformKind | TaskKind

  /** What the pool does when asked for a mapping; `Raised` covers cancellation too. */
  datatype Answer = Lent(proxies: Mapping) | Nothing | Raised

  /** How the upstream request ends. */
  datatype Sent = Reply(status: int) | Broke | Cut

  /** The scope's fields, and what it has taken from the pool, given back and used. */
  datatype Scope = Scope(
    proxies: Option<Mapping>, acquired: bool, failed: bool, kind: Option<Kind>,
    req: Requirements, started: bool,
    taken: seq<Mapping>, given: seq<(Mapping, Verdict)>, used: seq<Option<Mapping>>)

  function Opened(req: Requirements): Scope {
    Scope(None, false, false, None, req, false, [], [], [])
  }

  datatype Action =
    | Request(direct: bool, remaining: Option<real>, answer: Answer, sent: Sent)
    | EnsureLifetime(seconds: real, exclusive: bool, remaining: Option<real>)
    | BrowserMapping(answer: Answer)
    | BrowserStarted
    | RecordFailure(blocked: bool)
    | Invalidate

  // --------------------------------------------------------------------- acquiring

  /** The mapping the client ends up with, or `None` when acquiring raises. */
  function Obtained(cl: Client, answer: Answer): Option<Option<Mapping>> {
    if cl.mode.Direct? then Some(None)
    else if !cl.provider then (if cl.mode.Required? then None else Some(None))
    else match answer
      case Lent(proxies) => Some(Some(proxies))
      case Nothing => if cl.mode.Required? then None else Some(None)
      case Raised => None
  }

  function Acquire(cl: Client, s: Scope, answer: Answer): Scope {
    if s.acquired then s
    else match Obtained(cl, answer)
      case None => s
      case Some(proxies) =>
        s.(proxies := proxies, acquired := true,
           taken := s.taken + (if proxies.Some? then [proxies.value] else []))
  }

  // ------------------------------------------------------------------ early upgrade

  function Stricter(req: Requirements, seconds: real, exclusive: bool): Requirements {
    req.(minRemaining := MaxReal(seconds, req.minRemaining), exclusive := exclusive || req.exclusive)
  }

  /** Whether the held lease is too short, or not exclusive enough, for the next step. */
  predicate Insufficient(s: Scope, seconds: real, exclusive: bool, remaining: Option<real>) {
    && s.acquired && s.proxies.Some? && remaining.Some?
    && (remaining.value < seconds || (exclusive && !s.req.exclusive))
  }

  function Ensure(cl: Client, s: Scope, seconds: real, exclusive: bool, remaining: Option<real>): Scope {
    if !cl.optimized then s
    else
      var t := s.(req := Stricter(s.req, seconds, exclusive));
      if !Insufficient(s, seconds, exclusive, remaining) then t
      else if s.started then t.(failed := true, kind := Some(TaskKind))
      else t.(acquired := false, proxies := None, given := s.given + [(s.proxies.value, Success)])
  }

  predicate EnsureRaises(cl: Client, s: Scope, seconds: real, exclusive: bool, remaining: Option<real>) {
    cl.optimized && Insufficient(s, seconds, exclusive, remaining) && s.started
  }

  // ---------------------------------------------------------------------- requests

  predicate Rejected(status: int) {
    status in {403, 407, 412, 418, 429, 432, 471} || status >= 500
  }

  function Settle(s: Scope, sent: Sent): Scope {
    match sent
    case Cut => s
    case Broke => s.(failed := true, kind := Some(TransportKind))
    case Reply(status) =>
      if Rejected(status)
      then s.(failed := true, kind := Some(if status == 407 then TransportKind else PlatformKind))
      else s
  }

  function SendDirect(s: Scope, sent: Sent): Scope { Settle(s.(started := true), sent) }

  function SendLeased(cl: Client, s: Scope, sent: Sent): Scope {
    if cl.mode.Required? && s.proxies.None? then s.(failed := true)
    else Settle(s.(started := true, used := s.used + [s.proxies]), sent)
  }

  function RequestOnce(cl: Client, s: Scope, direct: bool, remaining: Option<real>, answer: Answer, sent: Sent): Scope {
    if direct && !cl.mode.Required? then SendDirect(s, sent)
    else
      var t := Ensure(cl, s, cl.timeout + 5.0, false, remaining);
      if EnsureRaises(cl, s, cl.timeout + 5.0, false, remaining) then t
      else
        var u := Acquire(cl, t, answer);
        if !u.acquired then u else SendLeased(cl, u, sent)
  }

  // --------------------------------------------------------------------- verdicts

  function Record(cl: Client, s: Scope, blocked: bool): Scope {
    if !cl.optimized then s.(failed := true)
    else if s.failed then s
    else s.(failed := true, kind := Some(if blocked then PlatformKind else TaskKind))
  }

  function CauseOf(cl: Client, s: Scope): Cause {
    if !cl.optimized || s.kind.None? then Plain
    else match s.kind.value
      case TransportKind => Transport
      case PlatformKind => Platform(s.req.platform)
      case TaskKind => Task
  }

  /** The end of the scope, by return or exception (`cancelled` for a cancellation). */
  function Close(cl: Client, s: Scope, cancelled: bool): Scope {
    var t :=
      if cancelled && cl.optimized && !s.failed
      then s.(failed := true, kind := Some(TaskKind))
      else s;
    if t.acquired && t.proxies.Some? && cl.provider
    then t.(given := t.given + [(t.proxies.value, if t.failed then Failure(CauseOf(cl, t)) else Success)])
    else t
  }

  function Act(cl: Client, s: Scope, a: Action): Scope {
    match a
    case Request(direct, remaining, answer, sent) => RequestOnce(cl, s, direct, remaining, answer, sent)
    case EnsureLifetime(seconds, exclusive, remaining) => Ensure(cl, s, seconds, exclusive, remaining)
    case BrowserMapping(answer) => Acquire(cl, s, answer)
    case BrowserStarted => s.(started := true)
    case RecordFailure(blocked) => Record(cl, s, blocked)
    case Invalidate => s.(failed := true)
  }

  function Body(cl: Client, req: Requirements, actions: seq<Action>): Scope {
    if |actions| == 0 then Opened(req)
    else Act(cl, Body(cl, req, actions[..|actions| - 1]), actions[|actions| - 1])
  }

  // ------------------------------------------------------------------- the theorem

  function Mappings(given: seq<(Mapping, Verdict)>): (r: seq<Mapping>)
    ensures |r| == |given|
    ensures forall k :: 0 <= k < |given| ==> r[k] == given[k].0
  {
    seq(|given|, k requires 0 <= k < |given| => given[k].0)
  }

  /** What is out on behalf of the scope. */
  function Held(s: Scope): seq<Mapping> {
    if s.acquired && s.proxies.Some? then [s.proxies.value] else []
  }

  /** Everything taken was given back, in order, except the one lease still held; and a
      lease that requests have used is the one every request used. */
  ghost predicate Accounted(cl: Client, s: Scope) {
    && s.taken == Mappings(s.given) + Held(s)
    && (!cl.provider ==> s.taken == [])
    && (forall k :: 0 <= k < |s.given| ==> s.given[k].1 == Success)
    && (s.used != [] ==> s.started && s.acquired)
    && (forall k :: 0 <= k < |s.used| ==> s.used[k] == s.proxies)
  }

  lemma AcquireAccounted(cl: Client, s: Scope, answer: Answer)
    requires Accounted(cl, s)
    ensures Accounted(cl, Acquire(cl, s, answer))
    ensures s.acquired ==> Acquire(cl, s, answer) == s
  {
    hide Mappings;
  }

  lemma EnsureAccounted(cl: Client, s: Scope, seconds: real, exclusive: bool, remaining: Option<real>)
    requires Accounted(cl, s)
    ensures Accounted(cl, Ensure(cl, s, seconds, exclusive, remaining))
  {
    hide Mappings;
    var t := Ensure(cl, s, seconds, exclusive, remaining);
    if |t.given| > |s.given| {
      assert Mappings(t.given) == Mappings(s.given) + [s.proxies.value];
    }
  }

  lemma ActAccounted(cl: Client, s: Scope, a: Action)
    requires Accounted(cl, s)
    ensures Accounted(cl, Act(cl, s, a))
  {
    hide Mappings, Ensure, Acquire, Held;
    match a
    case Request(direct, remaining, answer, sent) =>
      var t := Ensure(cl, s, cl.timeout + 5.0, false, remaining);
      EnsureAccounted(cl, s, cl.timeout + 5.0, false, remaining);
      AcquireAccounted(cl, t, answer);
      SendAccounted(cl, s, sent);
      SendAccounted(cl, Acquire(cl, t, answer), sent);
    case EnsureLifetime(seconds, exclusive, remaining) =>
      EnsureAccounted(cl, s, seconds, exclusive, remaining);
    case BrowserMapping(answer) =>
      AcquireAccounted(cl, s, answer);
    case BrowserStarted => Unheld(s, s.(started := true));
    case RecordFailure(blocked) => Unheld(s, Record(cl, s, blocked));
    case Invalidate => Unheld(s, s.(failed := true));
  }

  lemma Unheld(s: Scope, t: Scope)
    requires s.proxies == t.proxies && s.acquired == t.acquired
    ensures Held(s) == Held(t)
  {
  }

  lemma SendAccounted(cl: Client, s: Scope, sent: Sent)
    requires Accounted(cl, s)
    ensures Accounted(cl, SendDirect(s, sent))
    ensures s.acquired ==> Accounted(cl, SendLeased(cl, s, sent))
  {
    hide Mappings, Held, Rejected;
    Unheld(s, SendDirect(s, sent));
    Unheld(s, SendLeased(cl, s, sent));
  }

  /** At every point of the body. */
  lemma {:induction false} BodyAccounted(cl: Client, req: Requirements, actions: seq<Action>)
    ensures Accounted(cl, Body(cl, req, actions))
    decreases |actions|
  {
    hide Accounted, Act;
    if |actions| == 0 {
      OpenedAccounted(cl, req);
    } else {
      BodyAccounted(cl, req, actions[..|actions| - 1]);
      ActAccounted(cl, Body(cl, req, actions[..|actions| - 1]), actions[|actions| - 1]);
    }
  }

  lemma OpenedAccounted(cl: Client, req: Requirements)
    ensures Accounted(cl, Opened(req))
  {
  }

  /** Whatever happens in the scope, and however it ends, every mapping it took from the
      pool goes back exactly once, in the order taken; only the last can be reported as a
      failure, and all its requests went through the same mapping. */
  lemma ScopeReturnsEverything(cl: Client, req: Requirements, actions: seq<Action>, cancelled: bool)
    ensures var end := Close(cl, Body(cl, req, actions), cancelled);
            && Mappings(end.given) == end.taken
            && (forall k :: 0 <= k < |end.given| - 1 ==> end.given[k].1 == Success)
            && (forall j, k :: 0 <= j < |end.used| && 0 <= k < |end.used| ==> end.used[j] == end.used[k])
            && (forall k :: 0 <= k < |end.used| && end.used[k].Some? ==>
                              |end.given| > 0 && end.given[|end.given| - 1].0 == end.used[k].value)
  {
    hide Mappings, Body;
    BodyAccounted(cl, req, actions);
    var s := Body(cl, req, actions);
    var end := Close(cl, s, cancelled);
    if |end.given| > |s.given| {
      assert Mappings(end.given) == Mappings(s.given) + [s.proxies.value];
    }
  }

  /** How the lease a scope ends with is reported: as a failure exactly when the scope
      recorded one or, in optimised mode, was cancelled. */
  lemma FinalVerdict(cl: Client, req: Requirements, actions: seq<Action>, cancelled: bool)
    requires Held(Body(cl, req, actions)) != []
    ensures var s, end := Body(cl, req, actions), Close(cl, Body(cl, req, actions), cancelled);
            && |end.given| == |s.given| + 1
            && (end.given[|s.given|].1.Failure? <==> s.failed || (cancelled && cl.optimized))
            && (cancelled && cl.optimized && !s.failed ==> end.given[|s.given|].1 == Failure(Task))
            && (!cl.optimized && s.failed ==> end.given[|s.given|].1 == Failure(Plain))
  {
    hide Body;
    BodyAccounted(cl, req, actions);
  }

  // -------------------------------------------------------------- the mutable state

  /** The record behind the scope, updated step by step. */
  class ProxyLeaseState {
    const client: Client
    var proxies: Option<Mapping>
    var acquired: bool
    var failed: bool
    var failureKind: Option<Kind>
    var requirements: Requirements
    var requestsStarted: bool
    ghost var taken: seq<Mapping>
    ghost var given: seq<(Mapping, Verdict)>
    ghost var used: seq<Option<Mapping>>

    ghost function State(): Scope
      reads this
    {
      Scope(proxies, acquired, failed, failureKind, requirements, requestsStarted, taken, given, used)
    }

    constructor (client: Client, requirements: Requirements)
      ensures this.client == client && State() == Opened(requirements)
    {
      this.client := client;
      this.requirements := requirements;
      proxies, acquired, failed, failureKind, requestsStarted := None, false, false, None, false;
      taken, given, used := [], [], [];
    }

    method AcquireProxy(answer: Answer) returns (raised: bool)
      requires !acquired
      modifies this
      ensures State() == Acquire(client, old(State()), answer)
      ensures raised == !acquired
    {
      var obtained: Option<Mapping> := None;
      if !client.mode.Direct? {
        if !client.provider {
          if client.mode.Required? {
            return true;
          }
        } else {
          match answer
          case Raised => return true;
          case Nothing =>
            if client.mode.Required? {
              return true;
            }
          case Lent(mapping) =>
            obtained := Some(mapping);
            taken := taken + [mapping];
        }
      }
      proxies, acquired := obtained, true;
      return false;
    }

    method EnsureProxyLifetime(seconds: real, exclusive: bool, remaining: Option<real>) returns (raised: bool)
      modifies this
      ensures State() == Ensure(client, old(State()), seconds, exclusive, remaining)
      ensures raised == EnsureRaises(client, old(State()), seconds, exclusive, remaining)
    {
      if !client.optimized {
        return false;
      }
      var left := if proxies.Some? then remaining else None;
      var needsUpgrade := exclusive && !requirements.exclusive;
      requirements := requirements.(
        minRemaining := MaxReal(seconds, requirements.minRemaining),
        exclusive := exclusive || requirements.exclusive);
      if !acquired {
        return false;
      }
      if left.None? || (left.value >= seconds && !needsUpgrade) {
        return false;
      }
      if requestsStarted {
        failed, failureKind := true, Some(TaskKind);
        return true;
      }
      given := given + [(proxies.value, Success)];
      acquired, proxies := false, None;
      return false;
    }

    method Classify(sent: Sent)
      modifies this`failed, this`failureKind
      ensures State() == Settle(old(State()), sent)
    {
      match sent
      case Cut =>
      case Broke =>
        failed, failureKind := true, Some(TransportKind);
      case Reply(status) =>
        if Rejected(status) {
          failed := true;
          failureKind := Some(if status == 407 then TransportKind else PlatformKind);
        }
    }

    method SendThroughLease(sent: Sent)
      modifies this
      ensures State() == SendLeased(client, old(State()), sent)
    {
      hide Settle;
      if client.mode.Required? && proxies.None? {
        failed := true;
        return;
      }
      requestsStarted := true;
      used := used + [proxies];
      Classify(sent);
    }

    /** The lease branch of `_request_unthrottled`. */
    method SendRequest(direct: bool, remaining: Option<real>, answer: Answer, sent: Sent)
      modifies this
      ensures State() == RequestOnce(client, old(State()), direct, remaining, answer, sent)
    {
      hide Settle, Ensure, Acquire, EnsureRaises, SendLeased;
      if direct && !client.mode.Required? {
        requestsStarted := true;
        Classify(sent);
        return;
      }
      var raised := EnsureProxyLifetime(client.timeout + 5.0, false, remaining);
      if raised {
        return;
      }
      if !acquired {
        raised := AcquireProxy(answer);
        if raised {
          return;
        }
      } else {
        AlreadyAcquired(client, State(), answer);
      }
      SendThroughLease(sent);
    }

    method ActiveProxyMapping(answer: Answer) returns (mapping: Option<Mapping>, raised: bool)
      modifies this
      ensures State() == Acquire(client, old(State()), answer)
      ensures !raised ==> acquired && mapping == proxies
    {
      raised := false;
      if !acquired {
        raised := AcquireProxy(answer);
      }
      mapping := proxies;
    }

    method RecordCollectionFailure(blocked: bool)
      modifies this`failed, this`failureKind
      ensures State() == Record(client, old(State()), blocked)
    {
      if !client.optimized {
        failed := true;
        return;
      }
      if failed {
        return;
      }
      failed := true;
      failureKind := Some(if blocked then PlatformKind else TaskKind);
    }

    /** The `except` and `finally` of the scope. */
    method Leave(cancelled: bool) returns (returned: Option<(Mapping, Verdict)>)
      modifies this
      ensures State() == Close(client, old(State()), cancelled)
      ensures given == old(given) + if returned.Some? then [returned.value] else []
    {
      if cancelled && client.optimized && !failed {
        failed, failureKind := true, Some(TaskKind);
      }
      returned := None;
      if acquired && proxies.Some? && client.provider {
        var verdict := if failed then Failure(CauseOfFailure()) else Success;
        returned := Some((proxies.value, verdict));
        given := given + [(proxies.value, verdict)];
      }
    }

    function CauseOfFailure(): (cause: Cause)
      reads this
      ensures cause == CauseOf(client, State())
    {
      if client.optimized && failureKind.Some? then
        match failureKind.value
        case TransportKind => Transport
        case PlatformKind => Platform(requirements.platform)
        case TaskKind => Task
      else
        Plain
    }
  }

  lemma AlreadyAcquired(cl: Client, s: Scope, answer: Answer)
    requires s.acquired
    ensures Acquire(cl, s, answer) == s
  {
  }
}
