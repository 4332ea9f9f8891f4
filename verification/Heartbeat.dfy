// Liveness probing of one binding, with time as a number that never runs back.
module Heartbeat {
  import opened LinkPackets
  import opened LinkEndpoint

  const HEARTBEAT_INTERVAL: nat := 3000 * MILLISECOND
  const RESPONSE_TIMEOUT: nat := 2000 * MILLISECOND
  const FAILURE_LIMIT: nat := 2

  datatype Order = Wait | Probe | Detach

  // What the periodic check does at `now`.
  function Check(p: Pulse, now: nat): (Pulse, Order) {
    if p.pending then
      if now - p.sentAt < RESPONSE_TIMEOUT then (p, Wait)
      else if p.failures + 1 >= FAILURE_LIMIT then (Pulse(p.lastRX, false, p.sentAt, p.failures + 1), Detach)
      else (Pulse(p.lastRX, true, now, p.failures + 1), Probe)
    else if p.sentAt != 0 && now - p.sentAt < HEARTBEAT_INTERVAL then (p, Wait)
    else (Pulse(p.lastRX, true, now, p.failures), Probe)
  }

  datatype SendOutcome = Sent | DeadlineExceeded | SendFailed

  // What the result of sending the probe does; true orders a detachment.
  function SendResult(p: Pulse, started: nat, finished: nat, outcome: SendOutcome): (Pulse, bool) {
    match outcome
    case Sent => (if p.pending then p.(sentAt := finished) else p, false)
    case DeadlineExceeded =>
      if p.lastRX >= started then (Pulse(p.lastRX, false, finished, 0), false) else (p, true)
    case SendFailed => (p, true)
  }

  // ---- Runs of one binding -------------------------------------------------

  datatype Beat =
    | Packet(now: nat)
    | Tick(now: nat)
    | Result(started: nat, now: nat, outcome: SendOutcome)

  // A binding with its history: when it was attached, the latest time seen, the
  // times of all packets handled, the latest time at which a probe was ordered or got
  // through (or nothing was owed any more), and the probes ordered since the last
  // sign of life.
  datatype Track = Track(p: Pulse, boundAt: nat, clock: nat, heard: seq<nat>, asked: nat, unanswered: nat, detached: bool)

  function Bound(now: nat): Track {
    Track(Pulse(now, false, now, 0), now, now, [], now, 0, false)
  }

  // A sign of life no earlier than a moment: a packet, or the attachment.
  predicate AliveSince(t: Track, moment: nat) {
    t.boundAt >= moment || exists h :: h in t.heard && h >= moment
  }

  // Events after a detachment order, or whose time runs back, are skipped.
  function Step(t: Track, b: Beat): Track {
    if t.detached || b.now < t.clock then t else
    match b
    case Packet(now) =>
      t.(p := Revived(t.p, now), clock := now, heard := t.heard + [now], unanswered := 0)
    case Tick(now) =>
      var (p, order) := Check(t.p, now);
      t.(p := p, clock := now, detached := order == Detach,
         asked := if order == Probe then now else t.asked,
         unanswered := if order == Probe then t.unanswered + 1 else t.unanswered)
    case Result(started, now, outcome) =>
      var (p, detach) := SendResult(t.p, started, now, outcome);
      var pardoned := outcome == DeadlineExceeded && AliveSince(t, started);
      t.(p := p, clock := now, detached := detach,
         asked := if pardoned || (outcome == Sent && t.unanswered > 0) then now else t.asked,
         unanswered := if pardoned then 0 else t.unanswered)
  }

  function Run(t: Track, beats: seq<Beat>): Track {
    if beats == [] then t else Step(Run(t, beats[..|beats| - 1]), beats[|beats| - 1])
  }

  // A probe still unanswered was sent at least two seconds per failure after
  // the last packet; without a probe there is no failure on the books.
  predicate Sound(t: Track) {
    && t.boundAt <= t.p.lastRX <= t.clock && t.p.sentAt <= t.clock
    && (forall h :: h in t.heard ==> h <= t.p.lastRX)
    && (t.p.lastRX == t.boundAt || t.p.lastRX in t.heard)
    && (!t.detached ==>
          && (!t.p.pending ==> t.p.failures == 0)
          && t.p.failures < FAILURE_LIMIT
          && (t.p.pending ==> t.p.sentAt - t.p.lastRX >= RESPONSE_TIMEOUT * t.p.failures)
          && t.p.sentAt == t.asked && t.unanswered == if t.p.pending then t.p.failures + 1 else 0)
  }

  lemma StepSound(t: Track, b: Beat)
    requires Sound(t)
    ensures Sound(Step(t, b))
  {}

  lemma HeardLast(t: Track, moment: nat)
    requires Sound(t)
    ensures AliveSince(t, moment) <==> t.p.lastRX >= moment
  {}

  lemma {:induction false} RunSound(boundAt: nat, beats: seq<Beat>)
    ensures Sound(Run(Bound(boundAt), beats)) && Run(Bound(boundAt), beats).boundAt == boundAt
    decreases |beats|
  {
    if beats != [] {
      RunSound(boundAt, beats[..|beats| - 1]);
      StepSound(Run(Bound(boundAt), beats[..|beats| - 1]), beats[|beats| - 1]);
    }
  }

  // Over every run of a binding: when the periodic check orders a detachment at
  // `now`, neither the attachment nor any packet lies in the last four seconds.
  lemma DetachMeansSilence(boundAt: nat, beats: seq<Beat>, now: nat)
    requires !Run(Bound(boundAt), beats).detached && now >= Run(Bound(boundAt), beats).clock
    requires Check(Run(Bound(boundAt), beats).p, now).1 == Detach
    ensures forall h :: h in Run(Bound(boundAt), beats).heard ==> now - h >= 2 * RESPONSE_TIMEOUT
    ensures now - boundAt >= 2 * RESPONSE_TIMEOUT
  {
    RunSound(boundAt, beats);
  }

  // Over every run of a binding, what the periodic check orders, from the history: it
  // waits two seconds for the answer to a probe, from when the probe got through, and
  // three seconds otherwise; then it orders a probe, or after two probes in vain a
  // detachment.
  lemma CheckFollowsHistory(boundAt: nat, beats: seq<Beat>, now: nat)
    requires boundAt > 0
    requires var t := Run(Bound(boundAt), beats); !t.detached && now >= t.clock
    ensures var t := Run(Bound(boundAt), beats);
            var order := Check(t.p, now).1;
            && (order == Wait <==> now < t.asked + if t.unanswered > 0 then RESPONSE_TIMEOUT else HEARTBEAT_INTERVAL)
            && (order == Detach <==> t.unanswered == FAILURE_LIMIT && now >= t.asked + RESPONSE_TIMEOUT)
            && t.unanswered <= FAILURE_LIMIT
  {
    RunSound(boundAt, beats);
    AskedIsPositive(boundAt, beats);
  }

  lemma {:induction false} AskedIsPositive(boundAt: nat, beats: seq<Beat>)
    requires boundAt > 0
    ensures var t := Run(Bound(boundAt), beats); t.asked > 0 && t.clock > 0
    decreases |beats|
  {
    if beats != [] { AskedIsPositive(boundAt, beats[..|beats| - 1]); }
  }

  // Over every run of a binding, the result of sending a probe orders a detachment
  // exactly if sending failed, unless it only took too long and there has been a sign
  // of life since it started. Then nothing is held against the binding, and the next
  // probe is three seconds off.
  lemma SendFailureDetaches(boundAt: nat, beats: seq<Beat>, started: nat, now: nat, outcome: SendOutcome)
    requires var t := Run(Bound(boundAt), beats); !t.detached && now >= t.clock
    ensures var t := Run(Bound(boundAt), beats);
            var t' := Step(t, Result(started, now, outcome));
            && (t'.detached <==> outcome != Sent && !(outcome == DeadlineExceeded && AliveSince(t, started)))
            && (outcome == DeadlineExceeded && !t'.detached ==>
                  && !t'.p.pending && t'.p.failures == 0
                  && (now > 0 ==> forall later :: now <= later < now + HEARTBEAT_INTERVAL ==> Check(t'.p, later).1 == Wait))
  {
    RunSound(boundAt, beats);
    HeardLast(Run(Bound(boundAt), beats), started);
  }

  // ---- Silence is noticed --------------------------------------------------

  // The last check asked for a probe whose result is not yet in.
  predicate Probing(t: Track, beats: seq<Beat>) {
    beats != [] && beats[|beats| - 1].Tick?
    && var last := beats[|beats| - 1];
       Check(Run(t, beats[..|beats| - 1]).p, last.now).1 == Probe
  }

  // A run of the probing loop in which nothing is heard: checks, and after a probe
  // perhaps its successful sending, each at most d after what came before.
  predicate Unheard(t: Track, beats: seq<Beat>, d: nat)
    decreases |beats|
  {
    beats != [] ==>
      var before, last := beats[..|beats| - 1], beats[|beats| - 1];
      && Unheard(t, before, d)
      && Run(t, before).clock <= last.now <= Run(t, before).clock + d
      && (match last
          case Packet(_) => false
          case Tick(_) => true
          case Result(_, _, outcome) => outcome == Sent && Probing(t, before))
  }

  // The latest time by which a run can go on without a detachment.
  function Latest(p: Pulse, clock: nat, probing: bool, d: nat): nat {
    if !p.pending then Max(p.sentAt + HEARTBEAT_INTERVAL, clock) + 2 * RESPONSE_TIMEOUT + 5 * d
    else
      (if probing then clock + d + RESPONSE_TIMEOUT else Max(p.sentAt + RESPONSE_TIMEOUT, clock))
      + d + if p.failures == 0 then RESPONSE_TIMEOUT + 2 * d else 0
  }

  function Max(a: nat, b: nat): nat {
    if a >= b then a else b
  }

  // A run of silent beats keeps the track sound, right after a probe at its very
  // time, and within the deadline of its start.
  lemma {:induction false} DeadlineHolds(t: Track, beats: seq<Beat>, d: nat)
    requires Sound(t) && !t.detached && Unheard(t, beats, d)
    ensures var u := Run(t, beats);
            && Sound(u) && t.clock <= u.clock
            && (!u.detached && Probing(t, beats) ==> u.p.pending && u.p.sentAt == u.clock)
            && (!u.detached ==> Latest(u.p, u.clock, Probing(t, beats), d) <= Latest(t.p, t.clock, false, d))
    decreases |beats|
  {
    if beats != [] {
      var before, last := beats[..|beats| - 1], beats[|beats| - 1];
      DeadlineHolds(t, before, d);
      StepSound(Run(t, before), last);
      if !Run(t, beats).detached {
        BeatKeepsDeadline(Run(t, before), last, Probing(t, before), d);
      }
    }
  }

  lemma BeatKeepsDeadline(u: Track, b: Beat, probing: bool, d: nat)
    requires Sound(u) && !u.detached && !Step(u, b).detached && u.clock <= b.now <= u.clock + d
    requires b.Tick? || (b.Result? && b.outcome == Sent && probing)
    requires probing ==> u.p.pending && u.p.sentAt == u.clock
    ensures var v, asked := Step(u, b), b.Tick? && Check(u.p, b.now).1 == Probe;
            && (asked ==> v.p.pending && v.p.sentAt == v.clock)
            && Latest(v.p, v.clock, asked, d) <= Latest(u.p, u.clock, probing, d)
  {}

  // For every such run, however its checks and sends are spaced within d: once it
  // has lasted more than seven seconds and five times d, a detachment is ordered.
  lemma SilenceMeansDetach(t: Track, beats: seq<Beat>, d: nat)
    requires Sound(t) && !t.detached && Unheard(t, beats, d)
    requires Run(t, beats).clock > t.clock + HEARTBEAT_INTERVAL + 2 * RESPONSE_TIMEOUT + 5 * d
    ensures Run(t, beats).detached
  {
    DeadlineHolds(t, beats, d);
  }
}
