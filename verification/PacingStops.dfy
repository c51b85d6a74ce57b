/**
  What ends an account session, in the numbers the platform answers with: which answers,
  which responses on the network and which failures stop it, and that nothing else does.
 */
module PacingStops {
  import opened Pacing
  import opened Wrappers

  /** Not logged in any more. */
  predicate LoggedOut(reply: Reply) { reply.code == -100 || reply.code == -101 || (reply.userMe && reply.guest) }

  /** One note is refused: the account may go on. */
  predicate OneNote(reply: Reply, verification: bool) {
    reply.http == 461 && reply.code == 300031 && reply.commentPage && !verification
  }

  /** Nothing in the status, the business code or the address speaks of a risk. */
  predicate Harmless(reply: Reply) {
    && reply.http !in {401, 403, 412, 418, 429, 432, 461, 471}
    && reply.code !in {-104, -103, -13002, 461, 471}
    && !reply.gatePath
  }

  /** An answer leaves a ready session ready exactly when the account is still logged in and
      the answer is harmless or refuses one note; otherwise it stops the session, and no
      read goes out before a login succeeds. */
  lemma AnswersExactly(w: World, reply: Reply, now: real)
    requires w.session.status.Ready? && Enabled(w, Answers(reply), now)
    ensures var after := Next(w, Answers(reply), now);
            && (after.session.status.Ready? <==>
                  !LoggedOut(reply) && (OneNote(reply, w.session.network.verification) || Harmless(reply)))
            && (!after.session.status.Ready? ==>
                  && StaysStopped(after)
                  && after.session.status == if LoggedOut(reply) then ReauthorizationRequired else RiskLimited)
            && after.session.errors == 0 && after.session.lastEnd == now && after.session.phase.Free?
            && after.starts == w.starts
  {
    hide StaysStopped;
    var after := Next(w, Answers(reply), now);
    if !after.session.status.Ready? {
      RecordedStopIsFinal(w, Answers(reply), now);
    }
  }

  /** A response seen on the network leaves a ready session ready exactly when it is no
      redirect to the gate and its status is none of the refusals, a 461 about one note
      apart; otherwise it stops the session until a login. */
  lemma ObservesExactly(w: World, seen: Network, gate: bool, commentPage: bool, now: real)
    requires w.session.status.Ready? && Enabled(w, Observes(seen, gate, commentPage), now)
    ensures var after := Next(w, Observes(seen, gate, commentPage), now);
            && (after.session.status.Ready? <==>
                  && !(300 <= seen.status < 400 && gate)
                  && (seen.status in {401, 403, 412, 418, 429, 432, 461, 471} ==>
                        seen.status == 461 && commentPage && !seen.verification))
            && (!after.session.status.Ready? ==> StaysStopped(after) && after.session.status.RiskLimited?)
            && after.session.network == seen && after.session.phase.Reading? && after.starts == w.starts
  {
    hide StaysStopped;
    var after := Next(w, Observes(seen, gate, commentPage), now);
    if !after.session.status.Ready? {
      RecordedStopIsFinal(w, Observes(seen, gate, commentPage), now);
    }
  }

  /** A read that breaks leaves a ready session ready exactly when the network saw no 461,
      and either saw a redirect or fewer than three reads in a row have broken. */
  lemma BreaksExactly(w: World, now: real)
    requires w.session.status.Ready? && Enabled(w, Breaks, now)
    ensures var after, seen := Next(w, Breaks, now), w.session.network.status;
            && (after.session.status.Ready? <==> seen != 461 && (300 <= seen < 400 || w.session.errors + 1 < 3))
            && (!after.session.status.Ready? ==>
                  && StaysStopped(after)
                  && after.session.status == if seen == 461 then RiskLimited else TransportStopped)
            && (seen != 461 ==>
                  after.session.errors == if 300 <= seen < 400 then 0 else w.session.errors + 1)
            && after.session.lastEnd == now && after.session.phase.Free? && after.starts == w.starts
  {
    hide StaysStopped;
    var after := Next(w, Breaks, now);
    if !after.session.status.Ready? {
      RecordedStopIsFinal(w, Breaks, now);
    }
  }

  /** A read that breaks after its answer was judged stops the session exactly when the
      answer does or the network saw a 461, and counts as the first broken one. */
  lemma LateBreaksExactly(w: World, reply: Reply, now: real)
    requires w.session.status.Ready? && Enabled(w, AnswersAndBreaks(reply), now)
    ensures var after, seen := Next(w, AnswersAndBreaks(reply), now), w.session.network;
            && (after.session.status.Ready? <==>
                  && !LoggedOut(reply) && (OneNote(reply, seen.verification) || Harmless(reply))
                  && seen.status != 461)
            && (!after.session.status.Ready? ==> StaysStopped(after))
            && after.session.errors <= 1 && after.session.lastEnd == now && after.starts == w.starts
  {
    hide StaysStopped;
    var after := Next(w, AnswersAndBreaks(reply), now);
    if !after.session.status.Ready? {
      RecordedStopIsFinal(w, AnswersAndBreaks(reply), now);
    }
  }

  // ---------------------------------------------------------------- three in a row

  /** How many reads break. */
  function Broken(events: seq<Timed>): nat {
    if |events| == 0 then 0
    else Broken(events[..|events| - 1]) + if events[|events| - 1].event.Breaks? then 1 else 0
  }

  /** Nothing is answered, redirected or logged in. */
  predicate Unanswered(events: seq<Timed>) {
    forall k :: 0 <= k < |events| ==>
      && !events[k].event.Answers? && !events[k].event.AnswersAndBreaks? && !events[k].event.LoginSucceeds?
      && (events[k].event.Observes? ==> !(300 <= events[k].event.seen.status < 400))
  }

  /** However reads, waits and other callers interleave: once three reads have broken with
      no answer between them, the session is stopped. */
  lemma {:induction false} ThreeBreaksStop(w: World, events: seq<Timed>)
    requires !(300 <= w.session.network.status < 400)
    requires RunFrom(w, events).Some? && Unanswered(events)
    ensures var end := RunFrom(w, events).value.session;
            && !(300 <= end.network.status < 400)
            && (end.status.Ready? ==>
                  end.errors == w.session.errors + Broken(events) && (Broken(events) > 0 ==> end.errors < 3))
    ensures Broken(events) >= 3 ==> !RunFrom(w, events).value.session.status.Ready?
    decreases |events|
  {
    if |events| == 0 {
    } else {
      var n := |events| - 1;
      ThreeBreaksStop(w, events[..n]);
      BreakStep(RunFrom(w, events[..n]).value, events[n].event, events[n].now);
    }
  }

  lemma BreakStep(w: World, e: Event, now: real)
    requires Enabled(w, e, now) && !(300 <= w.session.network.status < 400)
    requires Unanswered([Timed(e, now)])
    ensures var s, t := w.session, Next(w, e, now).session;
            && !(300 <= t.network.status < 400)
            && (t.status.Ready? ==>
                  && s.status.Ready?
                  && t.errors == s.errors + (if e.Breaks? then 1 else 0)
                  && (e.Breaks? ==> t.errors < 3))
  {
    assert [Timed(e, now)][0].event == e;
  }

  // ------------------------------------------------------------------- going out

  /** A caller that takes the lock of a ready session waits until the pause after the last
      read is over, its own jitter included, and no read is checked before; in a session
      that is not ready it leaves at once. */
  lemma EntersExactly(w: World, jitter: real, now: real, later: real)
    requires Enabled(w, Enters(jitter), now) && now <= later
    ensures var after := Next(w, Enters(jitter), now);
            var pause := w.session.interval + jitter
              + (if w.session.count > 0 && w.session.count % 10 == 0 then 90.0 else 0.0);
            && after.starts == w.starts
            && (if w.session.status.Ready?
                then Enabled(after, Checks, later) <==> later >= w.session.lastEnd + pause
                else after.session == w.session)
  {
  }

  /** A ready session that nobody uses lets the next caller's read out as soon as the pause
      after the last read is over: the interval, the jitter, and 90 seconds more after every
      ten reads. */
  lemma ReadGoesOut(w: World, jitter: real, entered: real, checked: real, sent: real)
    requires w.session.status.Ready? && w.session.phase.Free? && 0.0 <= jitter <= 10.0
    requires w.clock <= entered <= checked <= sent
    requires checked >= w.session.lastEnd + w.session.interval + jitter
                        + (if w.session.count > 0 && w.session.count % 10 == 0 then 90.0 else 0.0)
    ensures var t := RunFrom(w, [Timed(Enters(jitter), entered), Timed(Checks, checked), Timed(Sends, sent)]);
            && t.Some? && t.value.starts == w.starts + [sent]
            && t.value.session.count == w.session.count + 1 && t.value.session.phase.Reading?
            && t.value.session.network == Network(0, false, false)
  {
    hide RunFrom;
    ThreeSteps(w, Timed(Enters(jitter), entered), Timed(Checks, checked), Timed(Sends, sent));
  }

  lemma ThreeSteps(w: World, d: Timed, e: Timed, f: Timed)
    requires Enabled(w, d.event, d.now)
    requires Enabled(Next(w, d.event, d.now), e.event, e.now)
    requires Enabled(Next(Next(w, d.event, d.now), e.event, e.now), f.event, f.now)
    ensures RunFrom(w, [d, e, f])
         == Some(Next(Next(Next(w, d.event, d.now), e.event, e.now), f.event, f.now))
  {
    hide Enabled, Next;
    assert [d, e, f][..2] == [d, e] && [d, e][..1] == [d] && [d][..0] == [];
    assert RunFrom(w, []) == Some(w);
    assert RunFrom(w, [d]) == Some(Next(w, d.event, d.now));
    assert RunFrom(w, [d, e]) == Some(Next(Next(w, d.event, d.now), e.event, e.now));
  }

  /** A session opens not ready and unread, with an interval of at least fifteen seconds. */
  lemma OpensExactly(interval: real)
    ensures var w := Opening(interval);
            && !w.session.status.Ready? && w.session.phase.Free? && w.starts == []
            && w.session.count == 0 && w.session.errors == 0 && !w.session.loginMode
            && w.session.interval >= 15.0 && (interval >= 15.0 ==> w.session.interval == interval)
            && (interval < 15.0 ==> w.session.interval == 15.0)
  {
  }

  /** A login that succeeds makes any session ready again, and one that fails leaves it
      stopped. */
  lemma LoginDecides(w: World, started: real, ended: real, status: Status)
    requires w.clock <= started <= ended
    requires status.ReauthorizationRequired? || status.TransportStopped?
    ensures var begun := Next(w, LoginStarts, started);
            && Enabled(w, LoginStarts, started) && !begun.session.status.Ready?
            && Enabled(begun, LoginSucceeds, ended) && Enabled(begun, LoginFails(status), ended)
            && Next(begun, LoginSucceeds, ended).session.status.Ready?
            && Next(begun, LoginSucceeds, ended).session.lastEnd == ended
            && Next(begun, LoginFails(status), ended).session.status == status
            && !Next(begun, LoginSucceeds, ended).session.loginMode
            && !Next(begun, LoginFails(status), ended).session.loginMode
  {
  }
}
