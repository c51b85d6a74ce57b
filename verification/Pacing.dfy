/**
  The one browser session that reads for an account: reads are serialised, spaced out, and
  stopped for good by a bad answer until somebody logs in again. `now` is the clock at the
  step, which never runs backwards.
 */
module Pacing {
  import opened Wrappers

  datatype Status =
    Starting | Ready | AwaitingScan | ReauthorizationRequired | RiskLimited | TransportStopped

  /** What a caller holding the lock is doing: waiting until a time, preparing the read
      after the last check of the session, or reading. */
  datatype Phase = Free | Waiting(until: real) | Checked | Reading

  /** What the browser's network layer saw of the read under way. */
  datatype Network = Network(status: int, verification: bool, redirectCode: bool)

  const NOTHING_SEEN := Network(0, false, false)

  datatype Session = Session(
    status: Status, count: nat, errors: nat, lastEnd: real, loginMode: bool,
    phase: Phase, network: Network, interval: real)

  const STOP_HTTP: set<int> := {401, 403, 412, 418, 429, 432, 461, 471}
  const STOP_CODES: set<int> := {-104, -103, -13002, 461, 471}

  /** An answer as `inspect` sees it. */
  datatype Reply = Reply(
    http: int, code: int, commentPage: bool, userMe: bool, guest: bool, gatePath: bool)

  /** A refusal that concerns one note, not the account. */
  predicate NoteDenied(reply: Reply, seen: Network) {
    reply.http == 461 && reply.code == 300031 && reply.commentPage && !seen.verification
  }

  function Inspect(reply: Reply, seen: Network): Option<Status> {
    if reply.code in {-100, -101} || (reply.userMe && reply.guest) then Some(ReauthorizationRequired)
    else if NoteDenied(reply, seen) then None
    else if reply.http in STOP_HTTP || reply.code in STOP_CODES || reply.gatePath then Some(RiskLimited)
    else None
  }

  // ----------------------------------------------------------------------- steps

  /** The pause before the read that would be number `count`. */
  function Gap(count: nat): real {
    15.0 + if count > 0 && count % 10 == 0 then 90.0 else 0.0
  }

  function Delay(s: Session, jitter: real): real {
    s.interval + jitter + if s.count > 0 && s.count % 10 == 0 then 90.0 else 0.0
  }

  /** The lock is free: the caller takes it and learns until when to wait. */
  function Enter(s: Session, jitter: real): Session {
    if s.status.Ready? then s.(phase := Waiting(s.lastEnd + Delay(s, jitter))) else s
  }

  /** The wait is over: the session is checked for the last time. */
  function Check(s: Session): Session { s.(phase := if s.status.Ready? then Checked else Free) }

  /** Cookies and signature are ready, and the read goes out. */
  function Send(s: Session): Session {
    s.(phase := Reading, count := s.count + 1, network := NOTHING_SEEN)
  }

  function Observe(s: Session, seen: Network, gate: bool, commentPage: bool): Session {
    var t := s.(network := seen);
    var redirected := if 300 <= seen.status < 400 && gate then t.(status := RiskLimited) else t;
    if seen.status in STOP_HTTP && !(seen.status == 461 && commentPage && !seen.verification)
    then redirected.(status := RiskLimited)
    else redirected
  }

  function Ended(s: Session, now: real): Session { s.(phase := Free, lastEnd := now) }

  function Judged(s: Session, reply: Reply): Session {
    var verdict := Inspect(reply, s.network);
    s.(errors := 0, status := if verdict.Some? then verdict.value else s.status)
  }

  function Answered(s: Session, reply: Reply, now: real): Session { Ended(Judged(s, reply), now) }

  function Broke(s: Session, now: real): Session {
    var t := if s.network.status == 461 then s.(status := RiskLimited) else s;
    Ended(
      if !t.status.Ready? then t
      else if 300 <= t.network.status < 400 then t.(errors := 0)
      else t.(errors := t.errors + 1,
              status := if t.errors + 1 >= 3 then TransportStopped else t.status),
      now)
  }

  // ------------------------------------------------------------------------ runs

  /** A read can be answered, break, break after its answer was judged, or be cancelled; a
      caller can also give up before the read goes out. */
  datatype Event =
    | Enters(jitter: real)
    | Checks
    | Sends
    | Yields
    | Observes(seen: Network, gate: bool, commentPage: bool)
    | Answers(reply: Reply)
    | AnswersAndBreaks(reply: Reply)
    | Breaks
    | Aborts
    | LoginStarts
    | LoginSucceeds
    | LoginFails(status: Status)

  /** The session, the start times of all reads sent, and the clock. */
  datatype World = World(session: Session, starts: seq<real>, clock: real)

  function Opening(interval: real): World {
    World(Session(Starting, 0, 0, 0.0, false, Free, NOTHING_SEEN, if interval >= 15.0 then interval else 15.0),
          [], 0.0)
  }

  predicate Enabled(w: World, e: Event, now: real) {
    var phase := w.session.phase;
    && now >= w.clock
    && match e
       case Enters(jitter) => phase.Free? && 0.0 <= jitter <= 10.0
       case Checks => phase.Waiting? && now >= phase.until
       case Sends => phase.Checked?
       case Yields => phase.Waiting? || phase.Checked?
       case Observes(_, _, _) => phase.Reading?
       case Answers(_) => phase.Reading?
       case AnswersAndBreaks(_) => phase.Reading?
       case Breaks => phase.Reading?
       case Aborts => phase.Reading?
       case LoginStarts => true
       case LoginSucceeds => w.session.loginMode
       case LoginFails(status) =>
         w.session.loginMode && (status.ReauthorizationRequired? || status.TransportStopped?)
  }

  function After(s: Session, e: Event, now: real): Session {
    match e
    case Enters(jitter) => Enter(s, jitter)
    case Checks => Check(s)
    case Sends => Send(s)
    case Yields => s.(phase := Free)
    case Observes(seen, gate, commentPage) => Observe(s, seen, gate, commentPage)
    case Answers(reply) => Answered(s, reply, now)
    case AnswersAndBreaks(reply) => Broke(Judged(s, reply), now)
    case Breaks => Broke(s, now)
    case Aborts => Ended(s, now)
    case LoginStarts => s.(loginMode := true, status := AwaitingScan)
    case LoginSucceeds => s.(loginMode := false, status := Status.Ready, lastEnd := now)
    case LoginFails(status) => s.(loginMode := false, status := status)
  }

  function Next(w: World, e: Event, now: real): World {
    World(After(w.session, e, now), if e.Sends? then w.starts + [now] else w.starts, now)
  }

  datatype Timed = Timed(event: Event, now: real)

  function RunFrom(w: World, events: seq<Timed>): Option<World> {
    if |events| == 0 then Some(w)
    else
      var before := RunFrom(w, events[..|events| - 1]);
      var e := events[|events| - 1];
      if before.Some? && Enabled(before.value, e.event, e.now)
      then Some(Next(before.value, e.event, e.now))
      else None
  }

  function Run(interval: real, events: seq<Timed>): Option<World> { RunFrom(Opening(interval), events) }

  // --------------------------------------------------------------------- spacing

  predicate Spaced(starts: seq<real>) {
    forall k :: 0 < k < |starts| ==> starts[k] - starts[k - 1] >= Gap(k)
  }

  predicate Paced(w: World) {
    var s := w.session;
    && s.interval >= 15.0
    && s.count == |w.starts|
    && Spaced(w.starts)
    && (|w.starts| > 0 ==> w.starts[|w.starts| - 1] <= w.clock)
    && (|w.starts| > 0 && !s.phase.Reading? ==> w.starts[|w.starts| - 1] <= s.lastEnd)
    && (|w.starts| > 0 && s.phase.Waiting? ==>
          s.phase.until >= w.starts[|w.starts| - 1] + Gap(s.count))
    && (|w.starts| > 0 && s.phase.Checked? ==>
          w.clock >= w.starts[|w.starts| - 1] + Gap(s.count))
  }

  lemma StepPaced(w: World, e: Event, now: real)
    requires Paced(w) && Enabled(w, e, now)
    ensures Paced(Next(w, e, now))
  {
    var t := Next(w, e, now);
    if |t.starts| > |w.starts| {
      forall k | 0 < k < |t.starts|
        ensures t.starts[k] - t.starts[k - 1] >= Gap(k)
      {
        if k < |w.starts| {
          assert t.starts[k] == w.starts[k] && t.starts[k - 1] == w.starts[k - 1];
        }
      }
    }
  }

  lemma {:induction false} RunPaced(interval: real, events: seq<Timed>)
    requires Run(interval, events).Some?
    ensures Paced(Run(interval, events).value)
    decreases |events|
  {
    hide Paced, Next, Enabled;
    if |events| == 0 {
      OpeningPaced(interval);
    } else {
      var e := events[|events| - 1];
      RunPaced(interval, events[..|events| - 1]);
      StepPaced(Run(interval, events[..|events| - 1]).value, e.event, e.now);
    }
  }

  lemma OpeningPaced(interval: real)
    ensures Paced(Opening(interval))
  {
  }

  lemma {:induction false} SpanOfSpaced(starts: seq<real>)
    requires Spaced(starts) && |starts| > 0
    ensures var n := |starts|;
            starts[n - 1] - starts[0] >= 15.0 * (n - 1) as real + 90.0 * ((n - 1) / 10) as real
    decreases |starts|
  {
    var n := |starts|;
    if n > 1 {
      SpanOfSpaced(starts[..n - 1]);
      assert starts[n - 1] - starts[n - 2] >= Gap(n - 1);
      var tens := (n - 2) / 10;
      if (n - 1) % 10 == 0 {
        assert (n - 1) / 10 == tens + 1;
      } else {
        assert (n - 1) / 10 == tens;
      }
    }
  }

  /** However many callers there are, n reads take at least 15 seconds each after the
      first, and 90 more for every ten before the last. */
  lemma PacingBound(interval: real, events: seq<Timed>)
    requires Run(interval, events).Some?
    requires |Run(interval, events).value.starts| > 0
    ensures var starts := Run(interval, events).value.starts;
            var n := |starts|;
            starts[n - 1] - starts[0] >= 15.0 * (n - 1) as real + 90.0 * ((n - 1) / 10) as real
  {
    hide Run;
    RunPaced(interval, events);
    SpanOfSpaced(Run(interval, events).value.starts);
  }

  // -------------------------------------------------------------------- stopping

  /** Only a successful login makes the session ready, and until then a read goes out only
      if it had passed its last check. */
  lemma OnlyLoginReadies(w: World, e: Event, now: real)
    requires Enabled(w, e, now) && !w.session.status.Ready? && !e.LoginSucceeds?
    ensures !Next(w, e, now).session.status.Ready?
    ensures w.session.phase.Checked? || Next(w, e, now).starts == w.starts
    ensures Next(w, e, now).session.phase.Checked? ==> w.session.phase.Checked? && Next(w, e, now).starts == w.starts
  {
  }

  predicate NoLogin(events: seq<Timed>) {
    forall k :: 0 <= k < |events| ==> !events[k].event.LoginSucceeds?
  }

  /** While the session is not ready at most one more read goes out, and only one that had
      already passed its last check. */
  lemma {:induction false} StoppedSends(w: World, events: seq<Timed>)
    requires !w.session.status.Ready? && RunFrom(w, events).Some? && NoLogin(events)
    ensures var end := RunFrom(w, events).value;
            && !end.session.status.Ready?
            && (end.starts == w.starts || (w.session.phase.Checked? && |end.starts| == |w.starts| + 1))
            && (end.session.phase.Checked? ==> w.session.phase.Checked? && end.starts == w.starts)
    decreases |events|
  {
    hide Next, Enabled;
    if |events| == 0 {
    } else {
      var n := |events| - 1;
      StoppedSends(w, events[..n]);
      OnlyLoginReadies(RunFrom(w, events[..n]).value, events[n].event, events[n].now);
      OneReadAtMost(RunFrom(w, events[..n]).value, events[n].event, events[n].now);
    }
  }

  lemma OneReadAtMost(w: World, e: Event, now: real)
    ensures Next(w, e, now).starts == w.starts || |Next(w, e, now).starts| == |w.starts| + 1
  {
  }

  ghost predicate StaysStopped(w: World) {
    forall events: seq<Timed> :: NoLogin(events) && RunFrom(w, events).Some? ==>
      RunFrom(w, events).value.starts == w.starts
  }

  /** A session that is not ready sends nothing before a login succeeds exactly when no
      read stands between its last check and its sending. */
  lemma StopIsFinalExactly(w: World)
    requires !w.session.status.Ready?
    ensures StaysStopped(w) <==> !w.session.phase.Checked?
  {
    hide Next, Enabled;
    forall events: seq<Timed> | !w.session.phase.Checked? && NoLogin(events) && RunFrom(w, events).Some?
      ensures RunFrom(w, events).value.starts == w.starts
    {
      StoppedSends(w, events);
    }
    if w.session.phase.Checked? {
      var events := [Timed(Sends, w.clock)];
      assert events[..0] == [];
      assert RunFrom(w, []) == Some(w);
      CheckedSends(w);
      assert NoLogin(events) && RunFrom(w, events).value.starts != w.starts;
    }
  }

  lemma CheckedSends(w: World)
    requires w.session.phase.Checked?
    ensures Enabled(w, Sends, w.clock) && |Next(w, Sends, w.clock).starts| == |w.starts| + 1
  {
  }

  /** A stop that a read itself records, on the network or by its answer, is final: no read
      goes out before a login succeeds. */
  lemma RecordedStopIsFinal(w: World, e: Event, now: real)
    requires Enabled(w, e, now)
    requires e.Observes? || e.Answers? || e.AnswersAndBreaks? || e.Breaks?
    requires !Next(w, e, now).session.status.Ready?
    ensures StaysStopped(Next(w, e, now))
  {
    hide StaysStopped;
    StopIsFinalExactly(Next(w, e, now));
  }

  /** A login that starts after the last check does not hold the read back. */
  lemma LoginDoesNotHoldBack(w: World, now: real)
    requires w.session.status.Ready? && w.session.phase.Checked? && now >= w.clock
    ensures var t := RunFrom(w, [Timed(LoginStarts, now), Timed(Sends, now)]);
            t.Some? && t.value.session.status.AwaitingScan? && t.value.starts == w.starts + [now]
  {
    var e, f := Timed(LoginStarts, now), Timed(Sends, now);
    assert [e, f][..1] == [e] && [e][..0] == [];
    assert RunFrom(w, []) == Some(w);
    assert RunFrom(w, [e]) == Some(Next(w, LoginStarts, now));
  }

  // ------------------------------------------------------------------- the owner

  /** The session owner, whose fields are updated as a read goes through its steps. */
  class XiaohongshuSessionOwner {
    const interval: real
    var status: Status
    var count: nat
    var errors: nat
    var lastEnd: real
    var loginMode: bool
    var network: Network
    ghost var phase: Phase

    ghost function State(): Session
      reads this
    {
      Session(status, count, errors, lastEnd, loginMode, phase, network, interval)
    }

    constructor (interval: real)
      ensures State() == Opening(interval).session
    {
      this.interval := if interval >= 15.0 then interval else 15.0;
      status, count, errors, lastEnd := Starting, 0, 0, 0.0;
      loginMode, network, phase := false, NOTHING_SEEN, Free;
    }

    /** With the lock held: how long to sleep, or `None` if the session is stopped. */
    method Prepare(jitter: real, now: real) returns (wait: Option<real>)
      modifies this`phase
      ensures State() == Enter(old(State()), jitter)
      ensures wait.Some? <==> status.Ready?
      ensures wait.Some? ==> wait.value >= 0.0 && now + wait.value >= phase.until
    {
      if !status.Ready? {
        return None;
      }
      var delay := interval + jitter;
      if count > 0 && count % 10 == 0 {
        delay := delay + 90.0;
      }
      phase := Waiting(lastEnd + delay);
      var left := lastEnd + delay - now;
      wait := Some(if left > 0.0 then left else 0.0);
    }

    /** After the sleep. */
    method CheckAgain() returns (ready: bool)
      modifies this`phase
      ensures State() == Check(old(State()))
      ensures ready == status.Ready?
    {
      ready := status.Ready?;
      phase := if ready then Checked else Free;
    }

    method SendRead()
      modifies this`phase, this`count, this`network
      ensures State() == Send(old(State()))
    {
      network := NOTHING_SEEN;
      count := count + 1;
      phase := Reading;
    }

    /** The `finally` alone, when the caller is cancelled. */
    method FinishAborted(now: real)
      modifies this`lastEnd, this`phase
      ensures State() == Ended(old(State()), now)
    {
      lastEnd, phase := now, Free;
    }

    method ObserveNetwork(seen: Network, gate: bool, commentPage: bool)
      modifies this`status, this`network
      ensures State() == Observe(old(State()), seen, gate, commentPage)
    {
      network := seen;
      if 300 <= seen.status < 400 && gate {
        status := RiskLimited;
      }
      if seen.status in STOP_HTTP {
        if seen.status == 461 && commentPage && !seen.verification {
          return;
        }
        status := RiskLimited;
      }
    }

    method InspectReply(reply: Reply)
      modifies this`status
      ensures status == match Inspect(reply, network) { case Some(stop) => stop case None => old(status) }
    {
      if reply.code in {-100, -101} || (reply.userMe && reply.guest) {
        status := ReauthorizationRequired;
      } else if reply.http == 461 && reply.code == 300031 && reply.commentPage && !network.verification {
        return;
      } else if reply.http in STOP_HTTP || reply.code in STOP_CODES || reply.gatePath {
        status := RiskLimited;
      }
    }

    method FinishAnswered(reply: Reply, now: real)
      modifies this
      ensures State() == Answered(old(State()), reply, now)
    {
      errors := 0;
      InspectReply(reply);
      lastEnd, phase := now, Free;
    }

    method FinishBroken(now: real)
      modifies this
      ensures State() == Broke(old(State()), now)
    {
      if network.status == 461 {
        status := RiskLimited;
      }
      if status.Ready? {
        if 300 <= network.status < 400 {
          errors := 0;
        } else {
          errors := errors + 1;
          if errors >= 3 {
            status := TransportStopped;
          }
        }
      }
      lastEnd, phase := now, Free;
    }
  }
}
