// The deadline by which a detached session must be bound again, over all runs
// of binding, detaching, renegotiating and timers.
module ResumeExpiry {
  // A timer started by a detachment, and a decision it took to close.
  datatype Timer = Timer(at: nat, timeout: nat)
  datatype Decision = Decision(timer: Timer, checkedAt: nat, bindsThen: nat)

  // The session's own fields, the goroutines it has started, and the history:
  // when it was bound, and when the step that detached it last took place.
  datatype Session = Session(
    bound: bool, detachedAt: nat, timeout: nat, closed: bool, expired: bool,
    timers: set<Timer>, decisions: set<Decision>,
    clock: nat, binds: seq<nat>, unboundSince: nat)

  datatype Event =
    | Bind(now: nat)
    | Fail(at: nat, now: nat)
    | Renegotiate(peer: nat, now: nat)
    | Check(timer: Timer, now: nat)
    | CloseExpired(decision: Decision, now: nat)
    | CloseOther(now: nat)

  function LastBind(s: Session): nat {
    if s.binds == [] then 0 else s.binds[|s.binds| - 1]
  }

  // A binding fails with a detachment time read between its own start and now.
  // A timer that has run out looks at the session in one step and closes it in
  // a later one.
  function Step(s: Session, ev: Event): Session {
    if ev.now < s.clock then s else Act(s.(clock := ev.now), ev)
  }

  function Act(s: Session, ev: Event): Session {
    match ev
    case Bind(now) =>
      if s.closed then s else s.(bound := true, detachedAt := 0, binds := s.binds + [now])
    case Fail(at, now) =>
      if !s.bound || s.closed || at < LastBind(s) || at > now then s
      else s.(bound := false, detachedAt := at, timers := s.timers + {Timer(at, s.timeout)}, unboundSince := now)
    case Renegotiate(peer, _) =>
      if 0 < peer < s.timeout then s.(timeout := peer) else s
    case Check(timer, now) =>
      if timer in s.timers && now >= timer.at + timer.timeout && !s.closed && !s.bound && s.detachedAt == timer.at
      then s.(decisions := s.decisions + {Decision(timer, now, |s.binds|)})
      else s
    case CloseExpired(decision, _) =>
      if decision in s.decisions && !s.closed then s.(closed := true, expired := true, bound := false) else s
    case CloseOther(_) =>
      if s.closed then s else s.(closed := true, bound := false)
  }

  function Fresh(timeout: nat): Session {
    Session(false, 0, timeout, false, false, {}, {}, 0, [], 0)
  }

  function Run(s: Session, events: seq<Event>): Session {
    if events == [] then s else Step(Run(s, events[..|events| - 1]), events[|events| - 1])
  }

  // ---- The invariant -------------------------------------------------------

  predicate AllUpTo(times: seq<nat>, limit: nat) {
    forall i :: 0 <= i < |times| ==> times[i] <= limit
  }

  // A decision was taken after the full timeout, with no binding made since
  // the detachment time it is about.
  predicate Justified(s: Session, d: Decision) {
    && d.timer in s.timers
    && d.checkedAt >= d.timer.at + d.timer.timeout
    && d.bindsThen <= |s.binds|
    && AllUpTo(s.binds[..d.bindsThen], d.timer.at)
    && (forall i :: d.bindsThen <= i < |s.binds| ==> s.binds[i] >= d.checkedAt)
    && d.checkedAt <= s.clock
    && (|s.binds| == d.bindsThen && !s.closed ==> !s.bound)
  }

  predicate Ok(s: Session) {
    && s.timeout > 0
    && (forall i, j :: 0 <= i <= j < |s.binds| ==> s.binds[i] <= s.binds[j])
    && AllUpTo(s.binds, s.clock)
    && (forall t :: t in s.timers ==> s.timeout <= t.timeout)
    && (!s.bound && s.timers != {} && !s.closed ==>
          AllUpTo(s.binds, s.detachedAt) && s.detachedAt <= s.unboundSince <= s.clock)
    && (s.timers == {} ==> s.decisions == {})
    && (forall d :: d in s.decisions ==> Justified(s, d))
    && (s.bound ==> s.binds != [])
  }

  lemma StepOk(s: Session, ev: Event)
    requires Ok(s)
    ensures Ok(Step(s, ev))
  {
    hide Justified;
    var s' := Step(s, ev);
    forall d | d in s'.decisions ensures Justified(s', d) {
      if d in s.decisions { StaysJustified(s, ev, d); } else { DecidesJustly(s, ev); }
    }
  }

  lemma StaysJustified(s: Session, ev: Event, d: Decision)
    requires Ok(s) && d in s.decisions
    ensures Justified(Step(s, ev), d)
  {
    assert Justified(s, d);
    assert Step(s, ev).binds[..d.bindsThen] == s.binds[..d.bindsThen];
  }

  lemma DecidesJustly(s: Session, ev: Event)
    requires Ok(s) && ev.Check? && Step(s, ev).decisions != s.decisions
    ensures Justified(Step(s, ev), Decision(ev.timer, ev.now, |s.binds|))
  {
    assert s.binds[..|s.binds|] == s.binds;
  }

  lemma {:induction false} RunOk(timeout: nat, events: seq<Event>)
    requires timeout > 0
    ensures Ok(Run(Fresh(timeout), events))
    decreases |events|
  {
    if events != [] {
      RunOk(timeout, events[..|events| - 1]);
      StepOk(Run(Fresh(timeout), events[..|events| - 1]), events[|events| - 1]);
    }
  }

  // Over every run: when a timer decides to close at `now`, its full timeout,
  // and so the one now in force, has passed since the detachment time it is
  // about; the session has been unbound ever since, every binding being older.
  // A re-attachment thus defuses all earlier timers.
  lemma DecisionMeansExpired(timeout: nat, events: seq<Event>, timer: Timer, now: nat)
    requires timeout > 0
    requires var s := Run(Fresh(timeout), events);
             now >= s.clock && Step(s, Check(timer, now)).decisions != s.decisions
    ensures var s := Run(Fresh(timeout), events);
            && !s.bound && !s.closed
            && now >= timer.at + timer.timeout && s.timeout <= timer.timeout
            && AllUpTo(s.binds, timer.at)
            && timer.at <= s.unboundSince <= now
  {
    RunOk(timeout, events);
  }

  // Carrying out the decision comes later, and does not look again: what it
  // closes has been unbound since the detachment exactly when no binding was
  // made after the decision; otherwise it closes a session bound again.
  lemma ExpiryHitsUnboundIffNoBindSince(timeout: nat, events: seq<Event>, d: Decision, now: nat)
    requires timeout > 0
    requires var s := Run(Fresh(timeout), events);
             now >= s.clock && d in s.decisions && !s.closed
    ensures var s := Run(Fresh(timeout), events);
            && Step(s, CloseExpired(d, now)).expired
            && (AllUpTo(s.binds, d.timer.at) <==> |s.binds| == d.bindsThen)
            && (|s.binds| == d.bindsThen ==> !s.bound)
  {
    RunOk(timeout, events);
    var s := Run(Fresh(timeout), events);
    assert Justified(s, d);
    if |s.binds| == d.bindsThen {
      assert s.binds[..d.bindsThen] == s.binds;
    } else {
      assert s.binds[d.bindsThen] >= d.checkedAt;
    }
  }

  // ---- A session left unbound expires --------------------------------------

  // Nobody binds, and nobody closes the session for another reason.
  predicate LeftAlone(events: seq<Event>) {
    forall i :: 0 <= i < |events| ==> !events[i].Bind? && !events[i].CloseOther?
  }

  predicate WaitsFor(s: Session, timer: Timer) {
    !s.bound && !s.closed && timer in s.timers && s.detachedAt == timer.at
  }

  lemma {:induction false} WaitsOn(s: Session, events: seq<Event>, timer: Timer)
    requires WaitsFor(s, timer) && LeftAlone(events)
    ensures var r := Run(s, events); if r.closed then r.expired else WaitsFor(r, timer)
    decreases |events|
  {
    if events != [] {
      assert LeftAlone(events[..|events| - 1]);
      WaitsOn(s, events[..|events| - 1], timer);
    }
  }

  // Whenever a binding of an open session fails, the timer it starts closes the
  // session as expired, once the timeout in force then has passed and if nobody binds
  // or closes it before, whatever other timers and negotiations do meanwhile.
  lemma UnboundSessionExpires(s: Session, at: nat, now: nat, events: seq<Event>, later: nat)
    requires s.bound && !s.closed && LastBind(s) <= at <= now && s.clock <= now && LeftAlone(events)
    requires var r := Run(Step(s, Fail(at, now)), events);
             r.clock <= later && at + s.timeout <= later
    ensures var r := Run(Step(s, Fail(at, now)), events);
            var timer := Timer(at, s.timeout);
            var decided := Step(r, Check(timer, later));
            var done := Step(decided, CloseExpired(Decision(timer, later, |r.binds|), later));
            done.closed && done.expired
  {
    var timer := Timer(at, s.timeout);
    var failed := Step(s, Fail(at, now));
    assert WaitsFor(failed, timer);
    WaitsOn(failed, events, timer);
  }

  // The window is real: a session re-bound in time by its peer is closed by a
  // decision taken just before.
  lemma RebindCanLoseTheRace() returns (events: seq<Event>, d: Decision)
    ensures var s := Run(Fresh(60), events);
            s.bound && !s.closed && d in s.decisions && s.binds == [1, 71] && d.checkedAt == 70
            && Step(s, CloseExpired(d, 72)).closed && Step(s, CloseExpired(d, 72)).expired
  {
    var t := Timer(10, 60);
    events := [Bind(1), Fail(10, 10), Check(t, 70), Bind(71)];
    d := Decision(t, 70, 1);
    var s0 := Fresh(60);
    var s1 := Step(s0, Bind(1));
    var s2 := Step(s1, Fail(10, 10));
    var s3 := Step(s2, Check(t, 70));
    assert events[..3] == [Bind(1), Fail(10, 10), Check(t, 70)];
    assert events[..3][..2] == [Bind(1), Fail(10, 10)];
    assert events[..3][..2][..1] == [Bind(1)];
    assert Run(s0, events[..3][..2][..1]) == s1;
    assert Run(s0, events[..3][..2]) == s2;
    assert Run(s0, events[..3]) == s3;
    assert Run(s0, events) == Step(s3, Bind(71));
  }

}
