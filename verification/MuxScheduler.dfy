// The round-robin scheduler of a mux session, at the grain of its critical
// sections: a stream with frames to send holds one token, and only one.
module MuxScheduler {
  import opened Bytes

  // A stream's send side: frames queued, its `scheduled` flag, whether it was
  // closed, and whether it goes once drained.
  datatype Queue = Queue(frames: nat, scheduled: bool, closed: bool, removeWhenDrained: bool)

  // `streams` holds all streams ever made, `live` those still in the session.
  // A token is an id in `ready`, one some goroutine is about to push, or the one
  // the writer has taken. `removing` are streams about to be taken out.
  datatype Taken = Nobody | Somebody(id: nat)

  datatype State = State(
    max: nat,
    streams: map<nat, Queue>,
    live: set<nat>,
    ready: seq<nat>,
    pushing: multiset<nat>,
    taken: Taken,
    removing: set<nat>,
    overflow: bool,
    served: seq<nat>)

  datatype Step =
    | Open(id: nat)
    | Enqueue(id: nat)
    | Push(id: nat)
    | Take
    | Drop
    | Send
    | Close(id: nat, graceful: bool)
    | Reset(id: nat)
    | RemoveNow(id: nat)
    | RemoveWhile(id: nat, k: nat)

  function Without(q: seq<nat>, id: nat): (r: seq<nat>) {
    if q == [] then []
    else (if q[0] == id then [] else [q[0]]) + Without(q[1..], id)
  }

  function Set(s: State, id: nat, q: Queue): State {
    s.(streams := s.streams[id := q])
  }

  function Next(s: State, step: Step): State {
    match step
    case Open(id) =>
      if id in s.streams || |s.live| >= s.max then s
      else Set(s, id, Queue(0, false, false, false)).(live := s.live + {id})
    // Under the stream's lock: append a frame; the caller pushes if it must.
    case Enqueue(id) =>
      if id !in s.streams || s.streams[id].closed then s
      else
        var q := s.streams[id];
        Set(s, id, q.(frames := q.frames + 1, scheduled := true))
          .(pushing := if q.scheduled then s.pushing else s.pushing + multiset{id})
    // Under the session's lock: only a live stream is put in line.
    case Push(id) =>
      if id !in s.pushing then s
      else
        var t := s.(pushing := s.pushing - multiset{id});
        if id !in s.live then t
        else if |s.ready| >= s.max then t.(overflow := true)
        else t.(ready := s.ready + [id])
    case Take =>
      if s.ready == [] || s.taken != Nobody then s
      else s.(ready := s.ready[1..], served := s.served + [s.ready[0]], taken := Somebody(s.ready[0]))
    // Under the session's lock: the stream may be gone by now.
    case Drop =>
      if s.taken.Somebody? && s.taken.id !in s.live then s.(taken := Nobody) else s
    // Under the stream's lock: one frame, then back in line or done.
    case Send =>
      if s.taken == Nobody || s.taken.id !in s.streams then s else SendOf(s, s.taken.id)
    case Close(id, graceful) =>
      if id !in s.streams || s.streams[id].closed then s
      else
        var q := s.streams[id];
        var t := Set(s, id, q.(closed := true, removeWhenDrained := graceful));
        if graceful && q.frames > 0 then t else t.(removing := s.removing + {id})
    case Reset(id) =>
      if id !in s.streams || s.streams[id].closed then s
      else Set(s, id, Queue(0, false, true, s.streams[id].removeWhenDrained)).(removing := s.removing + {id})
    case RemoveNow(id) =>
      if id !in s.removing then s
      else s.(removing := s.removing - {id}, live := s.live - {id}, ready := Without(s.ready, id))
    // The same, while the writer, which does not need the session's lock for it,
    // takes a head before the k-th round of the rotation. A frame it was still sending
    // may as well be sent before.
    case RemoveWhile(id, k) =>
      if !Disturbs(s, id, k) then s
      else
        s.(removing := s.removing - {id}, live := s.live - {id}, ready := Disturbed(s.ready, id, k),
           served := s.served + [s.ready[k]], taken := Somebody(s.ready[k]))
  }

  predicate Disturbs(s: State, id: nat, k: nat) {
    id in s.removing && s.taken == Nobody && k < |s.ready|
  }

  // What the rotation goes over besides the stream the writer takes.
  function Others(q: seq<nat>, id: nat, k: nat): seq<nat>
    requires k < |q|
  {
    Without(q[..k] + q[k + 1..], id)
  }

  // The line with one stream taken out, and the first of the others sent back.
  function Disturbed(q: seq<nat>, id: nat, k: nat): seq<nat>
    requires k < |q|
  {
    var rest := Others(q, id, k);
    if rest == [] then [] else rest[1..] + [rest[0]]
  }

  function SendOf(s: State, id: nat): State
    requires id in s.streams
  {
    var q, t := s.streams[id], s.(taken := Nobody);
    if q.frames == 0 then Set(t, id, q.(scheduled := false))
    else if q.frames > 1 then Set(t, id, q.(frames := q.frames - 1)).(pushing := s.pushing + multiset{id})
    else
      var d := Set(t, id, q.(frames := 0, scheduled := false));
      if q.removeWhenDrained then d.(removing := s.removing + {id}) else d
  }

  function Run(s: State, steps: seq<Step>): State
    decreases |steps|
  {
    if steps == [] then s else Run(Next(s, steps[0]), steps[1..])
  }

  function Start(max: nat): State {
    State(max, map[], {}, [], multiset{}, Nobody, {}, false, [])
  }

  // ---- The token invariant -------------------------------------------------

  predicate Distinct(q: seq<nat>) {
    forall i, j :: 0 <= i < j < |q| ==> q[i] != q[j]
  }

  predicate HasToken(s: State, id: nat) {
    id in s.ready || id in s.pushing || s.taken == Somebody(id)
  }

  // Tokens are unique: in line, about to be pushed, or with the writer.
  predicate TokensUnique(s: State) {
    && Distinct(s.ready)
    && (forall id :: id in s.ready ==> id in s.live)
    && (forall id :: id in s.pushing ==> s.pushing[id] == 1 && id in s.streams && id !in s.ready && s.taken != Somebody(id))
    && (s.taken.Somebody? ==> s.taken.id in s.streams && s.taken.id !in s.ready)
  }

  // No wakeup is lost: a stream of the session is scheduled exactly while it has
  // frames, and exactly while it holds a token. If it is closed it is draining;
  // with nothing left to send it would be on its way out.
  predicate Awake(s: State, id: nat)
    requires id in s.streams
  {
    var q := s.streams[id];
    id in s.live && id !in s.removing ==>
      && (q.scheduled <==> q.frames > 0)
      && (q.scheduled <==> HasToken(s, id))
      && (if q.closed then q.removeWhenDrained && q.frames > 0 else !q.removeWhenDrained)
  }

  predicate Population(s: State) {
    && |s.live| <= s.max
    && s.live <= s.streams.Keys
    && (forall id :: id in s.removing ==> id in s.streams && s.streams[id].closed)
    && (forall id :: id in s.streams && !s.streams[id].closed ==> id in s.live)
    && !s.overflow
  }

  predicate Ok(s: State) {
    TokensUnique(s) && Population(s) && forall id :: id in s.streams ==> Awake(s, id)
  }

  lemma {:induction false} WithoutExact(q: seq<nat>, id: nat)
    ensures forall x :: x in Without(q, id) <==> x in q && x != id
    ensures |Without(q, id)| <= |q|
  {
    if q != [] {
      WithoutExact(q[1..], id);
      forall x ensures x in Without(q, id) <==> x in q && x != id {
        assert x in q <==> x == q[0] || x in q[1..];
      }
    }
  }

  lemma {:induction false} WithoutDistinct(q: seq<nat>, id: nat)
    requires Distinct(q)
    ensures Distinct(Without(q, id))
  {
    if q != [] {
      var rest := Without(q[1..], id);
      assert Distinct(q[1..]);
      WithoutDistinct(q[1..], id);
      WithoutExact(q[1..], id);
      assert q[0] !in q[1..];
      if q[0] != id {
        forall i, j | 0 <= i < j < |rest| + 1 ensures ([q[0]] + rest)[i] != ([q[0]] + rest)[j] {
          if i == 0 { assert ([q[0]] + rest)[j] in rest; }
        }
      }
    }
  }

  function Ids(q: seq<nat>): set<nat> {
    set x | x in q
  }

  lemma DistinctFits(q: seq<nat>, live: set<nat>, id: nat)
    requires Distinct(q) && (forall x :: x in q ==> x in live) && id in live && id !in q
    ensures |q| < |live|
  {
    DistinctSize(q);
    SubsetSize(Ids(q), live - {id});
  }

  lemma {:induction false} DistinctSize(q: seq<nat>)
    requires Distinct(q)
    ensures |Ids(q)| == |q|
  {
    if q == [] {
      assert Ids(q) == {};
    } else {
      var rest := q[1..];
      assert Distinct(rest);
      DistinctSize(rest);
      assert Ids(q) == Ids(rest) + {q[0]} by {
        forall x ensures x in q <==> x == q[0] || x in rest {}
      }
      assert q[0] !in rest;
    }
  }

  lemma OpenOk(s: State, id: nat)
    requires Ok(s)
    ensures Ok(Next(s, Open(id)))
  {
    var t := Next(s, Open(id));
    forall j | j in t.streams ensures Awake(t, j) {
      if j in s.streams { assert Awake(s, j); }
    }
  }

  lemma EnqueueOk(s: State, id: nat)
    requires Ok(s)
    ensures Ok(Next(s, Enqueue(id)))
  {
    var t := Next(s, Enqueue(id));
    if id in s.streams { assert Awake(s, id); }
    forall j | j in t.streams ensures Awake(t, j) { assert Awake(s, j); }
  }

  // The branch for a full queue cannot be taken.
  lemma PushOk(s: State, id: nat)
    requires Ok(s)
    ensures Ok(Next(s, Push(id)))
  {
    var t := Next(s, Push(id));
    if id in s.pushing {
      if id in s.live { DistinctFits(s.ready, s.live, id); }
      forall j | j in t.streams ensures Awake(t, j) { assert Awake(s, j); }
    }
  }

  lemma TakeOk(s: State)
    requires Ok(s)
    ensures Ok(Next(s, Take))
  {
    var t := Next(s, Take);
    if t != s {
      var id := s.ready[0];
      assert id in s.ready && id in s.live;
      forall x ensures x in s.ready <==> x == id || x in s.ready[1..] {}
      forall j | j in t.streams ensures Awake(t, j) { assert Awake(s, j); }
    }
  }

  lemma DropOk(s: State)
    requires Ok(s)
    ensures Ok(Next(s, Drop))
  {
    var t := Next(s, Drop);
    forall j | j in t.streams ensures Awake(t, j) { assert Awake(s, j); }
  }

  lemma SendKeepsTokens(s: State)
    requires TokensUnique(s) && Population(s) && (s.taken.Somebody? ==> Awake(s, s.taken.id))
    ensures TokensUnique(Next(s, Send)) && Population(Next(s, Send))
  {
    hide Distinct, HasToken;
    if s.taken.Somebody? {
      hide Next;
      SendIsSendOf(s);
      SendKeepsUnique(s, s.taken.id);
      SendKeepsPopulation(s, s.taken.id);
    }
  }

  lemma SendIsSendOf(s: State)
    requires s.taken.Somebody? && s.taken.id in s.streams
    ensures Next(s, Send) == SendOf(s, s.taken.id)
  {}

  lemma SendKeepsUnique(s: State, id: nat)
    requires TokensUnique(s) && s.taken == Somebody(id) && id in s.streams && s.live <= s.streams.Keys
    ensures TokensUnique(SendOf(s, id))
  {
    hide Distinct;
    assert id !in s.pushing && id !in s.ready;
  }

  lemma SendKeepsPopulation(s: State, id: nat)
    requires Population(s) && id in s.streams && Awake(s, id)
    ensures Population(SendOf(s, id))
  {
    hide HasToken;
  }

  lemma SendKeepsAwake(s: State, id: nat)
    requires TokensUnique(s) && Population(s) && id in s.streams && Awake(s, id)
    ensures Awake(Next(s, Send), id)
  {}

  lemma SendOk(s: State)
    requires Ok(s)
    ensures Ok(Next(s, Send))
  {
    hide Awake;
    assert s.taken.Somebody? ==> Awake(s, s.taken.id);
    SendKeepsTokens(s);
    assert forall id :: id in s.streams ==> Awake(s, id);
    hide TokensUnique, Population;
    forall id | id in Next(s, Send).streams ensures Awake(Next(s, Send), id) { SendKeepsAwake(s, id); }
  }

  lemma CloseKeepsAwake(s: State, step: Step, id: nat)
    requires (step.Close? || step.Reset?) && id in s.streams && Awake(s, id)
    ensures Awake(Next(s, step), id)
  {}

  lemma CloseKeepsTokens(s: State, step: Step)
    requires TokensUnique(s) && Population(s) && (step.Close? || step.Reset?)
    ensures TokensUnique(Next(s, step)) && Population(Next(s, step))
  {
    assert TokensUnique(Next(s, step)) by { hide Population; }
    assert Population(Next(s, step)) by { hide TokensUnique; }
  }

  lemma CloseOk(s: State, step: Step)
    requires Ok(s) && (step.Close? || step.Reset?)
    ensures Ok(Next(s, step))
  {
    hide TokensUnique, Population, Awake;
    var t := Next(s, step);
    CloseKeepsTokens(s, step);
    assert forall id :: id in s.streams ==> Awake(s, id);
    forall j | j in t.streams ensures Awake(t, j) { CloseKeepsAwake(s, step, j); }
  }

  lemma RemoveOk(s: State, id: nat)
    requires Ok(s)
    ensures Ok(Next(s, RemoveNow(id)))
  {
    var t := Next(s, RemoveNow(id));
    WithoutExact(s.ready, id);
    WithoutDistinct(s.ready, id);
    if id in s.removing {
      SubsetSize(t.live, s.live);
      forall j | j in t.streams ensures Awake(t, j) { assert Awake(s, j); }
    }
  }

  lemma DropOneDistinct(q: seq<nat>, k: nat)
    requires Distinct(q) && k < |q|
    ensures Distinct(q[..k] + q[k + 1..])
    ensures forall x :: x in q[..k] + q[k + 1..] <==> x in q && x != q[k]
  {
    var u, v := q[..k], q[k + 1..];
    forall x ensures x in u + v <==> x in q && x != q[k] {
      if x in q && x != q[k] {
        var i :| 0 <= i < |q| && q[i] == x;
        assert x == if i < k then (u + v)[i] else (u + v)[i - 1];
      }
    }
  }

  lemma SendBackDistinct(q: seq<nat>)
    requires Distinct(q) && q != []
    ensures Distinct(q[1..] + [q[0]])
    ensures forall x :: x in q[1..] + [q[0]] <==> x in q
  {
    forall x ensures x in q[1..] + [q[0]] <==> x in q { assert q == [q[0]] + q[1..]; }
  }

  lemma DisturbedExact(q: seq<nat>, id: nat, k: nat)
    requires Distinct(q) && k < |q|
    ensures Distinct(Others(q, id, k)) && Distinct(Disturbed(q, id, k))
    ensures forall x :: x in Others(q, id, k) <==> x in q && x != id && x != q[k]
    ensures forall x :: x in Disturbed(q, id, k) <==> x in Others(q, id, k)
  {
    hide Distinct;
    DropOneDistinct(q, k);
    WithoutExact(q[..k] + q[k + 1..], id);
    WithoutDistinct(q[..k] + q[k + 1..], id);
    if Others(q, id, k) == [] {
      assert Disturbed(q, id, k) == Others(q, id, k);
    } else {
      SendBackDistinct(Others(q, id, k));
    }
  }

  lemma RemoveWhileOk(s: State, id: nat, k: nat)
    requires Ok(s)
    ensures Ok(Next(s, RemoveWhile(id, k)))
  {
    hide Distinct, Disturbed, Others;
    var t := Next(s, RemoveWhile(id, k));
    if Disturbs(s, id, k) {
      DisturbedExact(s.ready, id, k);
      SubsetSize(t.live, s.live);
      assert s.ready[k] in s.ready;
      forall j | j in t.streams ensures Awake(t, j) { assert Awake(s, j); }
    }
  }

  lemma StepOk(s: State, step: Step)
    requires Ok(s)
    ensures Ok(Next(s, step))
  {
    hide Ok, Next;
    match step
    case Open(id) => OpenOk(s, id);
    case Enqueue(id) => EnqueueOk(s, id);
    case Push(id) => PushOk(s, id);
    case Take => TakeOk(s);
    case Drop => DropOk(s);
    case Send => SendOk(s);
    case Close(_, _) => CloseOk(s, step);
    case Reset(_) => CloseOk(s, step);
    case RemoveNow(id) => RemoveOk(s, id);
    case RemoveWhile(id, k) => RemoveWhileOk(s, id, k);
  }

  // Over every interleaving of the critical sections, and of the writer's takes
  // with the removals.
  lemma {:induction false} TokensOverRuns(s: State, steps: seq<Step>)
    requires Ok(s)
    ensures Ok(Run(s, steps))
    decreases |steps|
  {
    hide Ok, Next;
    if steps != [] {
      StepOk(s, steps[0]);
      TokensOverRuns(Next(s, steps[0]), steps[1..]);
    }
  }

  lemma StartOk(max: nat)
    ensures Ok(Start(max))
  {}

  // From the start of the session on: every stream of the session, open or
  // closed and draining, holds its token while it has frames, until it is on its
  // way out; no stream is in line twice, and the queue never overflows.
  lemma NoWakeupIsLost(max: nat, steps: seq<Step>, id: nat)
    ensures id in Run(Start(max), steps).live ==> id in Run(Start(max), steps).streams
    ensures var s := Run(Start(max), steps);
            && !s.overflow && |s.ready| <= max && Distinct(s.ready)
            && (id in s.live && id !in s.removing ==>
                  && (s.streams[id].frames > 0 <==> HasToken(s, id))
                  && (s.streams[id].closed ==> s.streams[id].frames > 0 && s.streams[id].removeWhenDrained))
  {
    StartOk(max);
    TokensOverRuns(Start(max), steps);
    RunKeepsMax(Start(max), steps);
    var s := Run(Start(max), steps);
    DistinctSize(s.ready);
    SubsetSize(Ids(s.ready), s.live);
    if id in s.streams { assert Awake(s, id); }
  }

  lemma {:induction false} RunKeepsMax(s: State, steps: seq<Step>)
    ensures Run(s, steps).max == s.max
    decreases |steps|
  {
    if steps != [] {
      RunKeepsMax(Next(s, steps[0]), steps[1..]);
    }
  }

  // ---- Fairness ------------------------------------------------------------

  // y is in line, and x is not in line before it.
  predicate AheadOf(q: seq<nat>, y: nat, x: nat) {
    exists i :: 0 <= i < |q| && q[i] == y && x !in q[..i]
  }

  lemma {:induction false} WithoutKeepsOrder(q: seq<nat>, id: nat, y: nat, x: nat)
    requires AheadOf(q, y, x) && id != y
    ensures AheadOf(Without(q, id), y, x)
  {
    var i :| 0 <= i < |q| && q[i] == y && x !in q[..i];
    var rest := Without(q[1..], id);
    if i == 0 {
      assert Without(q, id)[0] == y;
      assert x !in Without(q, id)[..0];
    } else {
      assert q[1..][i - 1] == y && q[1..][..i - 1] == q[..i][1..];
      assert AheadOf(q[1..], y, x);
      WithoutKeepsOrder(q[1..], id, y, x);
      var k :| 0 <= k < |rest| && rest[k] == y && x !in rest[..k];
      if q[0] == id {
        assert Without(q, id) == rest;
      } else {
        assert q[0] in q[..i];
        assert Without(q, id) == [q[0]] + rest;
        assert ([q[0]] + rest)[k + 1] == y && ([q[0]] + rest)[..k + 1] == [q[0]] + rest[..k];
      }
    }
  }

  lemma AheadTail(q: seq<nat>, y: nat, x: nat)
    requires AheadOf(q, y, x) && q[0] != y
    ensures q[0] != x && AheadOf(q[1..], y, x)
  {
    var i :| 0 <= i < |q| && q[i] == y && x !in q[..i];
    assert q[0] in q[..i];
    var rest := q[1..];
    assert rest[i - 1] == y && rest[..i - 1] == q[1..i];
    assert forall k :: 1 <= k < i ==> q[k] in q[..i];
  }

  lemma DropKeepsOrder(q: seq<nat>, k: nat, y: nat, x: nat)
    requires AheadOf(q, y, x) && k < |q| && q[k] != y
    ensures AheadOf(q[..k] + q[k + 1..], y, x)
  {
    var i :| 0 <= i < |q| && q[i] == y && x !in q[..i];
    var u := q[..k] + q[k + 1..];
    var j := if i < k then i else i - 1;
    assert u[j] == y;
    forall m | 0 <= m < j ensures u[m] != x {
      assert u[m] == q[..i][if m < k then m else m + 1];
    }
  }

  lemma AppendKeepsOrder(q: seq<nat>, last: nat, y: nat, x: nat)
    requires AheadOf(q, y, x)
    ensures AheadOf(q + [last], y, x)
  {
    var i :| 0 <= i < |q| && q[i] == y && x !in q[..i];
    assert (q + [last])[i] == y && (q + [last])[..i] == q[..i];
  }

  // y's being sent back from the head puts it behind every other.
  lemma SentBackIsLast(q: seq<nat>, y: nat, x: nat)
    requires Distinct(q) && q != [] && q[0] == y && x != y
    ensures AheadOf(q[1..] + [y], y, x) <==> x !in q
  {
    var line := q[1..] + [y];
    if x in q {
      var m :| 0 <= m < |q| && q[m] == x;
      assert line[m - 1] == x;
      forall i | 0 <= i < |line| && line[i] == y ensures x in line[..i] {
        assert i == |line| - 1;
        assert line[..i][m - 1] == x;
      }
    } else {
      assert line[|q| - 1] == y && line[..|q| - 1] == q[1..];
    }
  }

  // The step lets x overtake y: the writer takes x itself out of the middle of
  // the rotation, or y is the first of the others and is sent back behind x.
  predicate Lapse(s: State, step: Step, y: nat, x: nat) {
    && step.RemoveWhile? && Disturbs(s, step.id, step.k) && AheadOf(s.ready, y, x) && y != step.id
    && (s.ready[step.k] == x
        || (var rest := Others(s.ready, step.id, step.k); rest != [] && rest[0] == y && x in rest))
  }

  // Exactly so: y, ahead of x and staying, is served by a disturbed removal or
  // is still ahead of x after it, and x is not served, unless it is a lapse.
  lemma LapseIffOvertaken(s: State, id: nat, k: nat, y: nat, x: nat)
    requires Distinct(s.ready) && Disturbs(s, id, k) && AheadOf(s.ready, y, x) && x != y && y != id
    ensures var t := Next(s, RemoveWhile(id, k));
            Lapse(s, RemoveWhile(id, k), y, x)
            <==> !(t.served == s.served + [y] || (t.served != s.served + [x] && AheadOf(t.ready, y, x)))
  {
    hide Without, Distinct, AheadOf;
    var q, t := s.ready, Next(s, RemoveWhile(id, k));
    var rest := Others(q, id, k);
    SameLast(s.served, q[k], x);
    SameLast(s.served, q[k], y);
    DisturbedExact(q, id, k);
    if q[k] != y && q[k] != x {
      DropKeepsOrder(q, k, y, x);
      WithoutKeepsOrder(q[..k] + q[k + 1..], id, y, x);
      AheadNonEmpty(rest, y, x);
      if rest[0] == y {
        SentBackIsLast(rest, y, x);
      } else {
        AheadTail(rest, y, x);
        AppendKeepsOrder(rest[1..], rest[0], y, x);
      }
    } else if q[k] == y && rest != [] {
      assert rest[0] in rest;
    }
  }

  lemma SameLast(q: seq<nat>, a: nat, b: nat)
    ensures q + [a] == q + [b] <==> a == b
  {
    assert (q + [a])[|q|] == a && (q + [b])[|q|] == b;
  }

  lemma AheadNonEmpty(q: seq<nat>, y: nat, x: nat)
    requires AheadOf(q, y, x)
    ensures y in q
  {}

  // 1 if x is in line before y.
  function Behind(q: seq<nat>, y: nat, x: nat): nat {
    if AheadOf(q, y, x) then 0 else 1
  }

  function Lapses(s: State, steps: seq<Step>, y: nat, x: nat): nat
    decreases |steps|
  {
    if steps == [] then 0
    else (if Lapse(s, steps[0], y, x) then 1 else 0) + Lapses(Next(s, steps[0]), steps[1..], y, x)
  }

  function Count(q: seq<nat>, x: nat): nat {
    if q == [] then 0 else (if q[0] == x then 1 else 0) + Count(q[1..], x)
  }

  // What a step adds to the streams served: one, or none.
  function Given(s: State, step: Step): seq<nat> {
    var t := Next(s, step);
    if |s.served| < |t.served| then t.served[|s.served|..] else []
  }

  // A step serves y, or leaves it in line; what it gives to x, in turns and in
  // place, it pays with a lapse.
  predicate Paid(s: State, step: Step, y: nat, x: nat) {
    var t, given := Next(s, step), Given(s, step);
    && t.served == s.served + given && |given| <= 1
    && (y in given
        || (y in t.ready
            && Count(given, x) + Behind(t.ready, y, x) <= Behind(s.ready, y, x) + if Lapse(s, step, y, x) then 1 else 0))
  }

  lemma CountOne(z: nat, x: nat)
    ensures Count([z], x) == if z == x then 1 else 0
  {
    assert [z][1..] == [];
  }

  lemma TakePays(s: State, y: nat, x: nat)
    requires Distinct(s.ready) && y in s.ready && x != y
    ensures Paid(s, Take, y, x)
  {
    hide Distinct, AheadOf;
    var q, t := s.ready, Next(s, Take);
    if t != s {
      assert t.served == s.served + [q[0]];
      assert Given(s, Take) == [q[0]];
      CountOne(q[0], x);
      if q[0] != y {
        assert y in q[1..];
        HeadLeaves(q, y, x);
      }
    }
  }

  lemma HeadLeaves(q: seq<nat>, y: nat, x: nat)
    requires Distinct(q) && q != [] && q[0] != y && y in q && x != y
    ensures Behind(q[1..], y, x) <= Behind(q, y, x)
    ensures q[0] == x ==> Behind(q[1..], y, x) == 0 && Behind(q, y, x) == 1
  {
    if AheadOf(q, y, x) { AheadTail(q, y, x); }
    if q[0] == x { AheadOfAbsent(q[1..], y, x); }
  }

  lemma AheadOfAbsent(q: seq<nat>, y: nat, x: nat)
    requires y in q && x !in q
    ensures AheadOf(q, y, x)
  {
    var i :| 0 <= i < |q| && q[i] == y;
    assert x !in q[..i];
  }

  lemma RemovalPays(s: State, id: nat, y: nat, x: nat)
    requires y in s.ready && x != y && y in Next(s, RemoveNow(id)).live
    ensures Paid(s, RemoveNow(id), y, x)
  {
    hide Without, AheadOf;
    if id in s.removing {
      WithoutExact(s.ready, id);
      if AheadOf(s.ready, y, x) { WithoutKeepsOrder(s.ready, id, y, x); }
    }
  }

  lemma DisturbedPays(s: State, id: nat, k: nat, y: nat, x: nat)
    requires Distinct(s.ready) && y in s.ready && x != y && y in Next(s, RemoveWhile(id, k)).live
    ensures Paid(s, RemoveWhile(id, k), y, x)
  {
    hide Without, AheadOf, Disturbed, Others, Distinct;
    var q, t, step := s.ready, Next(s, RemoveWhile(id, k)), RemoveWhile(id, k);
    if Disturbs(s, id, k) {
      assert t.served == s.served + [q[k]];
      assert Given(s, step) == [q[k]];
      CountOne(q[k], x);
      SameLast(s.served, q[k], x);
      SameLast(s.served, q[k], y);
      DisturbedExact(q, id, k);
      if AheadOf(q, y, x) { LapseIffOvertaken(s, id, k, y, x); }
      if q[k] != y && q[k] == x { AheadOfAbsent(t.ready, y, x); }
    }
  }

  lemma PushPays(s: State, id: nat, y: nat, x: nat)
    requires y in s.ready
    ensures Paid(s, Push(id), y, x)
  {
    var t := Next(s, Push(id));
    if t.ready != s.ready && AheadOf(s.ready, y, x) { AppendKeepsOrder(s.ready, id, y, x); }
  }

  lemma StepPays(s: State, step: Step, y: nat, x: nat)
    requires Ok(s) && y in s.ready && x != y && y in Next(s, step).live
    ensures Paid(s, step, y, x)
  {
    match step
    case Push(id) => PushPays(s, id, y, x);
    case Take => TakePays(s, y, x);
    case RemoveNow(id) => RemovalPays(s, id, y, x);
    case RemoveWhile(id, k) => DisturbedPays(s, id, k, y, x);
    case _ => assert Next(s, step).ready == s.ready && Next(s, step).served == s.served;
  }

  lemma GoneIsGone(s: State, step: Step, y: nat)
    requires s.live <= s.streams.Keys && y in s.streams && y !in s.live
    ensures var t := Next(s, step); t.live <= t.streams.Keys && y in t.streams && y !in t.live
  {}

  lemma {:induction false} GoneForGood(s: State, steps: seq<Step>, y: nat)
    requires s.live <= s.streams.Keys && y in s.streams && y !in s.live
    ensures y !in Run(s, steps).live
    decreases |steps|
  {
    if steps != [] {
      GoneIsGone(s, steps[0], y);
      GoneForGood(Next(s, steps[0]), steps[1..], y);
    }
  }

  lemma ServedOnce(s: State, step: Step)
    ensures s.served <= Next(s, step).served
  {
    hide Without, Disturbed;
  }

  lemma {:induction false} ServedGrows(s: State, steps: seq<Step>)
    ensures s.served <= Run(s, steps).served
    decreases |steps|
  {
    hide Next;
    if steps != [] {
      ServedOnce(s, steps[0]);
      ServedGrows(Next(s, steps[0]), steps[1..]);
    }
  }

  // Overtaking is paid for: before y, in line, is served, x has at most one turn
  // if it is ahead, and one more for each lapse.
  lemma {:induction false} NoOvertaking(s: State, steps: seq<Step>, y: nat, x: nat, k: nat)
    requires Ok(s) && y in s.ready && x != y
    requires y in Run(s, steps).live
    requires |s.served| <= k <= |Run(s, steps).served| && y !in Run(s, steps).served[|s.served|..k]
    ensures Count(Run(s, steps).served[|s.served|..k], x) <= Behind(s.ready, y, x) + Lapses(s, steps, y, x)
    decreases |steps|
  {
    hide Next, AheadOf, Ok, Lapse, Given, Behind;
    var end := Run(s, steps).served;
    var since := end[|s.served|..k];
    if steps != [] && since != [] {
      var t, given := Next(s, steps[0]), Given(s, steps[0]);
      StepOk(s, steps[0]);
      StaysLive(s, steps, y);
      StepPays(s, steps[0], y, x);
      ServedGrows(t, steps[1..]);
      if |s.served| < |t.served| {
        assert since[0] == end[|s.served|] == t.served[|s.served|] == given[0];
        assert since == [given[0]] + since[1..] && since[1..] == end[|t.served|..k];
        assert given == [given[0]];
      }
      NoOvertaking(t, steps[1..], y, x, k);
    }
  }

  lemma StaysLive(s: State, steps: seq<Step>, y: nat)
    requires Ok(s) && y in s.ready && steps != [] && y in Run(s, steps).live
    ensures y in Next(s, steps[0]).live
  {
    hide Next;
    StillKnown(s, steps[0], y);
    if y !in Next(s, steps[0]).live { GoneForGood(Next(s, steps[0]), steps[1..], y); }
  }

  lemma StillKnown(s: State, step: Step, y: nat)
    requires Ok(s) && y in s.ready
    ensures var t := Next(s, step); y in t.streams && t.live <= t.streams.Keys
  {
    hide Without, Disturbed;
  }

  // Between two turns of x, every stream y that was in line at the first has had
  // one, unless it left the session: to be served again before y, x needs one
  // lapse at its expense for each turn, this one included.
  lemma RoundRobin(s: State, steps: seq<Step>, y: nat, x: nat, k: nat)
    requires Ok(s) && s.taken == Somebody(x) && y in s.ready
    requires y in Run(s, steps).live
    requires |s.served| <= k < |Run(s, steps).served| && Run(s, steps).served[k] == x
    ensures var before := Run(s, steps).served[|s.served|..k];
            Lapses(s, steps, y, x) <= Count(before, x) ==> y in before
  {
    hide Next, Run, AheadOf, Lapses;
    var end := Run(s, steps).served;
    var before := end[|s.served|..k];
    TakenGoesBehind(s, y);
    if y !in before {
      assert end[|s.served|..k + 1] == before + [x];
      NoOvertaking(s, steps, y, x, k + 1);
      CountLast(before, x);
    }
  }

  lemma {:induction false} CountLast(q: seq<nat>, x: nat)
    ensures Count(q + [x], x) == Count(q, x) + 1
  {
    if q == [] {
      assert q + [x] == [x] && [x][1..] == [];
    } else {
      assert (q + [x])[1..] == q[1..] + [x];
      CountLast(q[1..], x);
    }
  }

  // The code can give one stream two turns while others, in line and staying, have
  // none. 1, 2 and 3 have two frames, one and one; 1 is served and goes back to
  // the end, and the writer takes it again out of the rotation that removes 4.
  function BeforeTheLapse(): seq<Step> {
    [Open(1), Open(2), Open(3), Open(4),
     Enqueue(1), Enqueue(1), Push(1), Enqueue(2), Push(2), Enqueue(3), Push(3), Take]
  }

  function AfterTheTake(): seq<Step> {
    [Send, Push(1), Reset(4), RemoveWhile(4, 2)]
  }

  lemma TwoTurnsInARow()
    ensures var s := Run(Start(4), BeforeTheLapse());
            && Ok(s) && s.taken == Somebody(1) && s.ready == [2, 3] && s.served == [1]
            && var t := Run(s, AfterTheTake());
               && t.served == [1, 1] && t.ready == [3, 2] && t.live == {1, 2, 3}
               && Lapses(s, AfterTheTake(), 2, 1) == 1 && Lapses(s, AfterTheTake(), 3, 1) == 1
  {
    StartOk(4);
    TokensOverRuns(Start(4), BeforeTheLapse());
    FirstTurn();
    SecondTurn(2);
    SecondTurn(3);
    Disturbing();
  }

  function Waiting(frames: nat): Queue {
    Queue(frames, frames > 0, false, false)
  }

  function AtTheTake(): State {
    State(4, map[1 := Waiting(2), 2 := Waiting(1), 3 := Waiting(1), 4 := Waiting(0)], {1, 2, 3, 4},
          [2, 3], multiset{}, Somebody(1), {}, false, [1])
  }

  lemma RunFrom(s: State, steps: seq<Step>, i: nat)
    requires i < |steps|
    ensures Run(s, steps[i..]) == Run(Next(s, steps[i]), steps[i + 1..])
  {
    assert steps[i..][1..] == steps[i + 1..];
  }

  lemma RunThree(s: State, steps: seq<Step>, i: nat)
    requires i + 3 <= |steps|
    ensures Run(s, steps[i..]) == Run(Next(Next(Next(s, steps[i]), steps[i + 1]), steps[i + 2]), steps[i + 3..])
  {
    hide Run, Next;
    RunFrom(s, steps, i);
    RunFrom(Next(s, steps[i]), steps, i + 1);
    RunFrom(Next(Next(s, steps[i]), steps[i + 1]), steps, i + 2);
  }

  lemma ThreeOpen()
    ensures Next(Next(Next(Start(4), Open(1)), Open(2)), Open(3))
            == Start(4).(streams := map[1 := Waiting(0), 2 := Waiting(0), 3 := Waiting(0)], live := {1, 2, 3})
  {}

  lemma FourthOpens(s: State)
    requires s == Start(4).(streams := map[1 := Waiting(0), 2 := Waiting(0), 3 := Waiting(0)], live := {1, 2, 3})
    ensures Next(Next(Next(s, Open(4)), Enqueue(1)), Enqueue(1))
            == Start(4).(streams := map[1 := Waiting(2), 2 := Waiting(0), 3 := Waiting(0), 4 := Waiting(0)],
                         live := {1, 2, 3, 4}, pushing := multiset{1})
  {}

  lemma TwoInLine(s: State)
    requires s == Start(4).(streams := map[1 := Waiting(2), 2 := Waiting(0), 3 := Waiting(0), 4 := Waiting(0)],
                            live := {1, 2, 3, 4}, pushing := multiset{1})
    ensures Next(Next(Next(s, Push(1)), Enqueue(2)), Push(2))
            == Start(4).(streams := map[1 := Waiting(2), 2 := Waiting(1), 3 := Waiting(0), 4 := Waiting(0)],
                         live := {1, 2, 3, 4}, ready := [1, 2])
  {}

  lemma ThreeInLine(s: State)
    requires s == Start(4).(streams := map[1 := Waiting(2), 2 := Waiting(1), 3 := Waiting(0), 4 := Waiting(0)],
                            live := {1, 2, 3, 4}, ready := [1, 2])
    ensures Next(Next(Next(s, Enqueue(3)), Push(3)), Take) == AtTheTake()
  {}

  lemma FirstTurn()
    ensures Run(Start(4), BeforeTheLapse()) == AtTheTake()
  {
    hide Next;
    var a := BeforeTheLapse();
    assert a == a[0..];
    ThreeOpen();
    RunThree(Start(4), a, 0);
    var s3 := Next(Next(Next(Start(4), Open(1)), Open(2)), Open(3));
    FourthOpens(s3);
    RunThree(s3, a, 3);
    var s6 := Next(Next(Next(s3, Open(4)), Enqueue(1)), Enqueue(1));
    TwoInLine(s6);
    RunThree(s6, a, 6);
    var s9 := Next(Next(Next(s6, Push(1)), Enqueue(2)), Push(2));
    ThreeInLine(s9);
    RunThree(s9, a, 9);
  }

  function AtTheRemoval(): State {
    State(4, map[1 := Waiting(1), 2 := Waiting(1), 3 := Waiting(1), 4 := Queue(0, false, true, false)], {1, 2, 3, 4},
          [2, 3, 1], multiset{}, Nobody, {4}, false, [1])
  }

  lemma BackInLine()
    ensures Next(Next(Next(AtTheTake(), Send), Push(1)), Reset(4)) == AtTheRemoval()
  {}

  lemma Disturbing()
    ensures Next(AtTheRemoval(), RemoveWhile(4, 2))
            == AtTheRemoval().(removing := {}, live := {1, 2, 3}, ready := [3, 2], served := [1, 1], taken := Somebody(1))
    ensures Others([2, 3, 1], 4, 2) == [2, 3]
  {
    assert [2, 3, 1][..2] + [2, 3, 1][3..] == [2, 3];
    assert Without([2, 3], 4) == [2, 3] by {
      assert [2, 3][1..] == [3] && [3][1..] == [];
    }
  }

  lemma SecondTurn(y: nat)
    requires y == 2 || y == 3
    ensures Run(AtTheTake(), AfterTheTake()) == Next(AtTheRemoval(), RemoveWhile(4, 2))
    ensures Lapses(AtTheTake(), AfterTheTake(), y, 1) == 1
  {
    var a := AfterTheTake();
    assert AheadOf([2, 3, 1], y, 1) by { assert [2, 3, 1][y - 2] == y; }
    assert Lapse(AtTheRemoval(), RemoveWhile(4, 2), y, 1);
    hide Next, Lapse;
    BackInLine();
    var s1 := Next(AtTheTake(), Send);
    var s2 := Next(s1, Push(1));
    assert a == a[0..];
    RunThree(AtTheTake(), a, 0);
    RunFrom(AtTheRemoval(), a, 3);
    assert a[1..][1..] == a[2..] && a[2..][1..] == a[3..] && a[3..][1..] == [];
    assert Lapses(AtTheRemoval(), a[3..], y, 1) == 1;
    assert Lapses(s2, a[2..], y, 1) == 1;
    assert Lapses(s1, a[1..], y, 1) == 1;
  }

  // A stream the writer has just taken is behind everyone then in line.
  lemma TakenGoesBehind(s: State, y: nat)
    requires Ok(s) && s.taken.Somebody? && y in s.ready
    ensures AheadOf(s.ready, y, s.taken.id) && y != s.taken.id
  {
    AheadOfAbsent(s.ready, y, s.taken.id);
  }

  // There is no lapse without a removal that the writer disturbs.
  function Removals(steps: seq<Step>): nat {
    if steps == [] then 0 else (if steps[0].RemoveWhile? then 1 else 0) + Removals(steps[1..])
  }

  lemma {:induction false} LapsesNeedRemovals(s: State, steps: seq<Step>, y: nat, x: nat)
    ensures Lapses(s, steps, y, x) <= Removals(steps)
    decreases |steps|
  {
    hide Next;
    if steps != [] { LapsesNeedRemovals(Next(s, steps[0]), steps[1..], y, x); }
  }

  // ---- Nothing waits for ever, and no frame is lost -------------------------

  // What the writer alone does: take, and send or drop.
  predicate WriterOnly(steps: seq<Step>) {
    forall i :: 0 <= i < |steps| ==> steps[i].Take? || steps[i].Send? || steps[i].Drop?
  }

  lemma {:induction false} RunAppend(s: State, a: seq<Step>, b: seq<Step>)
    ensures Run(s, a + b) == Run(Run(s, a), b)
    decreases |a|
  {
    hide Next;
    if a == [] {
      assert a + b == b;
    } else {
      assert (a + b)[1..] == a[1..] + b;
      RunAppend(Next(s, a[0]), a[1..], b);
    }
  }

  lemma RunOne(s: State, step: Step)
    ensures Run(s, [step]) == Next(s, step)
  {
    hide Next;
    assert [step][1..] == [];
  }

  // The writer gets rid of what it has taken, and the line stays.
  lemma FreeHands(s: State) returns (steps: seq<Step>)
    requires Ok(s)
    ensures WriterOnly(steps) && |steps| <= 1
    ensures var t := Run(s, steps); Ok(t) && t.taken == Nobody && t.ready == s.ready && t.served == s.served
  {
    if s.taken == Nobody {
      steps := [];
    } else {
      steps := [Send];
      RunOne(s, Send);
      SendOk(s);
    }
  }

  // A stream in line is taken by the writer after no more than all those before it,
  // if nobody interferes.
  lemma {:induction false} LineMoves(s: State, i: nat) returns (steps: seq<Step>)
    requires Ok(s) && i < |s.ready|
    ensures WriterOnly(steps) && |steps| <= 2 * i + 2
    ensures var t := Run(s, steps); Ok(t) && t.taken == Somebody(s.ready[i]) && t.served == s.served + s.ready[..i + 1]
    decreases i
  {
    hide Ok, Next;
    var before := FreeHands(s);
    var m := Run(s, before);
    RunOne(m, Take);
    TakeOk(m);
    Taking(m);
    RunAppend(s, before, [Take]);
    var t := Run(s, before + [Take]);
    if i == 0 {
      steps := before + [Take];
      assert s.ready[..1] == [s.ready[0]];
    } else {
      var rest := LineMoves(t, i - 1);
      steps := before + [Take] + rest;
      RunAppend(s, before + [Take], rest);
      assert s.ready[..i + 1] == [s.ready[0]] + s.ready[1..][..i];
    }
  }

  lemma Taking(s: State)
    requires s.taken == Nobody && s.ready != []
    ensures var t := Next(s, Take);
            t.ready == s.ready[1..] && t.taken == Somebody(s.ready[0]) && t.served == s.served + [s.ready[0]]
  {}

  // Frames queued and frames sent in a run, one by one.
  function Queued(s: State, steps: seq<Step>, id: nat): nat
    decreases |steps|
  {
    if steps == [] then 0
    else
      (if steps[0] == Enqueue(id) && id in s.streams && !s.streams[id].closed then 1 else 0) + Queued(Next(s, steps[0]), steps[1..], id)
  }

  function Sent(s: State, steps: seq<Step>, id: nat): nat
    decreases |steps|
  {
    if steps == [] then 0
    else
      (if steps[0] == Send && s.taken == Somebody(id) && id in s.streams && s.streams[id].frames > 0 then 1 else 0)
      + Sent(Next(s, steps[0]), steps[1..], id)
  }

  // Until it is reset, what a stream has queued is what is still to be sent and what
  // was sent: every turn in which it has frames sends one, and nothing else does.
  lemma {:induction false} FramesAreConserved(s: State, steps: seq<Step>, id: nat)
    requires id in s.streams && forall i :: 0 <= i < |steps| ==> steps[i] != Reset(id)
    ensures var t := Run(s, steps);
            id in t.streams && s.streams[id].frames + Queued(s, steps, id) == t.streams[id].frames + Sent(s, steps, id)
    decreases |steps|
  {
    if steps != [] {
      hide Next;
      StepConserves(s, steps[0], id);
      FramesAreConserved(Next(s, steps[0]), steps[1..], id);
    }
  }

  lemma StepConserves(s: State, step: Step, id: nat)
    requires id in s.streams && step != Reset(id)
    ensures var t := Next(s, step);
            && id in t.streams
            && s.streams[id].frames + (if step == Enqueue(id) && !s.streams[id].closed then 1 else 0)
               == t.streams[id].frames + (if step == Send && s.taken == Somebody(id) && s.streams[id].frames > 0 then 1 else 0)
  {
    hide Without, Disturbed, SendOf;
    if step == Send && s.taken.Somebody? && s.taken.id in s.streams {
      SendIsSendOf(s);
      SendConserves(s, s.taken.id, id);
    }
  }

  lemma SendConserves(s: State, taken: nat, id: nat)
    requires id in s.streams && taken in s.streams
    ensures var t := SendOf(s, taken);
            id in t.streams && s.streams[id].frames == t.streams[id].frames + if taken == id && s.streams[id].frames > 0 then 1 else 0
  {}

  // ---- Taking an id out of the channel -------------------------------------

  // The rotation that removes an id takes the head and puts it back unless it
  // is the id, `rounds` times.
  function Turn(q: seq<nat>, id: nat): seq<nat> {
    if q == [] then [] else if q[0] == id then q[1..] else q[1..] + [q[0]]
  }

  // The writer may take heads meanwhile: before a round it does so where `steals`
  // says. The result is what is left in line, and what the writer took.
  function Rotate(q: seq<nat>, id: nat, rounds: nat, steals: seq<bool>): (seq<nat>, seq<nat>)
    decreases rounds
  {
    if rounds == 0 then (q, [])
    else
      var later := if steals == [] then [] else steals[1..];
      if steals == [] || !steals[0] || q == [] then Rotate(Turn(q, id), id, rounds - 1, later)
      else
        var (left, taken) := Rotate(Turn(q[1..], id), id, rounds - 1, later);
        (left, [q[0]] + taken)
  }

  // Undisturbed, it leaves the line in order, minus the id.
  lemma {:induction false} RotationKeepsOrder(u: seq<nat>, v: seq<nat>, id: nat)
    ensures Rotate(u + v, id, |u|, []) == (v + Without(u, id), [])
    decreases |u|
  {
    hide Turn;
    if u == [] {
      assert u + v == v;
      assert v + [] == v;
    } else {
      assert (u + v)[0] == u[0] && (u + v)[1..] == u[1..] + v;
      TurnMoves(u + v, id);
      if u[0] == id {
        RotationKeepsOrder(u[1..], v, id);
        assert Without(u, id) == Without(u[1..], id);
      } else {
        RotationKeepsOrder(u[1..], v + [u[0]], id);
        assert u[1..] + v + [u[0]] == u[1..] + (v + [u[0]]);
        assert v + [u[0]] + Without(u[1..], id) == v + ([u[0]] + Without(u[1..], id));
      }
    }
  }

  lemma RemovalKeepsOrder(q: seq<nat>, id: nat)
    ensures Rotate(q, id, |q|, []) == (Without(q, id), [])
  {
    RotationKeepsOrder(q, [], id);
    assert q + [] == q && [] + Without(q, id) == Without(q, id);
  }

  predicate ClearFrom(q: seq<nat>, id: nat, k: nat) {
    forall i :: k <= i < |q| ==> q[i] != id
  }

  lemma CountTail(q: seq<nat>, x: nat)
    requires q != []
    ensures multiset(q)[x] == multiset(q[1..])[x] + if q[0] == x then 1 else 0
  {
    assert q == [q[0]] + q[1..];
  }

  lemma TurnKeepsOthers(q: seq<nat>, id: nat, x: nat, k: nat)
    requires x != id && ClearFrom(q, id, k + 1)
    ensures multiset(Turn(q, id))[x] == multiset(q)[x] && ClearFrom(Turn(q, id), id, k)
  {
    if q != [] { CountTail(q, x); }
  }

  // However the writer interferes, the id is gone, and every other id is still
  // in line or was taken, once for each time it was there.
  lemma {:induction false} RotationClears(q: seq<nat>, id: nat, rounds: nat, steals: seq<bool>, x: nat)
    requires ClearFrom(q, id, rounds) && x != id
    ensures var (left, taken) := Rotate(q, id, rounds, steals);
            id !in left && multiset(left)[x] + multiset(taken)[x] == multiset(q)[x]
    decreases rounds
  {
    hide Turn;
    if rounds > 0 {
      var later := if steals == [] then [] else steals[1..];
      var rest := if steals == [] || !steals[0] || q == [] then q else q[1..];
      TurnKeepsOthers(rest, id, x, rounds - 1);
      RotationClears(Turn(rest, id), id, rounds - 1, later, x);
      if rest != q {
        CountTail(q, x);
        var (left, taken) := Rotate(Turn(rest, id), id, rounds - 1, later);
        CountTail([q[0]] + taken, x);
        assert ([q[0]] + taken)[1..] == taken;
      }
    }
  }

  lemma {:induction false} AbsentStays(q: seq<nat>, id: nat)
    requires id !in q
    ensures Without(q, id) == q
  {
    if q != [] { AbsentStays(q[1..], id); }
  }

  lemma {:induction false} WithoutAppend(u: seq<nat>, v: seq<nat>, id: nat)
    ensures Without(u + v, id) == Without(u, id) + Without(v, id)
  {
    if u == [] {
      assert u + v == v;
    } else {
      assert (u + v)[1..] == u[1..] + v;
      WithoutAppend(u[1..], v, id);
    }
  }

  lemma WithoutOne(x: nat, id: nat)
    ensures Without([x], id) == if x == id then [] else [x]
  {
    assert [x][1..] == [];
  }

  // Rounds in which the writer takes nothing, before others.
  lemma {:induction false} QuietRounds(u: seq<nat>, v: seq<nat>, id: nat, rounds: nat, steals: seq<bool>)
    ensures Rotate(u + v, id, |u| + rounds, seq(|u|, i => false) + steals) == Rotate(v + Without(u, id), id, rounds, steals)
    decreases |u|
  {
    hide Turn;
    var quiet := seq(|u|, i => false);
    if u == [] {
      assert u + v == v == v + Without(u, id) && quiet + steals == steals;
    } else {
      assert (quiet + steals)[1..] == seq(|u| - 1, i => false) + steals;
      assert (u + v)[1..] == u[1..] + v;
      TurnMoves(u + v, id);
      var moved := if u[0] == id then v else v + [u[0]];
      assert Turn(u + v, id) == u[1..] + moved;
      QuietRounds(u[1..], moved, id, rounds, steals);
      assert moved + Without(u[1..], id) == v + Without(u, id);
    }
  }

  // Without any more takes, the list of takes may also be at its end.
  lemma {:induction false} QuietEnd(q: seq<nat>, id: nat, rounds: nat)
    ensures Rotate(q, id, rounds, seq(rounds, i => false)) == Rotate(q, id, rounds, [])
    decreases rounds
  {
    hide Turn;
    if rounds > 0 {
      assert seq(rounds, i => false)[1..] == seq(rounds - 1, i => false);
      QuietEnd(Turn(q, id), id, rounds - 1);
    }
  }

  lemma TurnMoves(q: seq<nat>, id: nat)
    requires q != []
    ensures Turn(q, id) == if q[0] == id then q[1..] else q[1..] + [q[0]]
  {}

  // What one take does, for every line, every stream removed, in line or not, and
  // every round. The writer gets the stream that stood k-th; of the others, less
  // the one removed, the first goes to the end. Streams are then served in the
  // order in which they stood exactly if the take was the first of at most two,
  // or the removed stream itself with at most one other in line.
  lemma OneTakeReorders(q: seq<nat>, id: nat, k: nat)
    requires Distinct(q) && k < |q|
    ensures Rotate(q, id, |q|, seq(k, i => false) + [true]) == (Disturbed(q, id, k), [q[k]])
    ensures var w := Without(q, id);
            Without([q[k]], id) + Disturbed(q, id, k) == w
            <==> if q[k] == id then |w| <= 1 else w != [] && q[k] == w[0] && |w| <= 2
  {
    var u, v := q[..k], q[k..];
    assert q == u + v;
    OneTake(q, id, k);
    OrderKept(q, id, k);
  }

  lemma OneTake(q: seq<nat>, id: nat, k: nat)
    requires k < |q|
    ensures Rotate(q, id, |q|, seq(k, i => false) + [true]) == (Disturbed(q, id, k), [q[k]])
  {
    hide Turn, Without, Disturbed, Others;
    var u, v := q[..k], q[k..];
    assert q == u + v;
    QuietRounds(u, v, id, |v|, [true]);
    var line := v + Without(u, id);
    assert line[0] == q[k] && line[1..] == q[k + 1..] + Without(u, id);
    LastRounds(q, id, k, [true][1..]);
    var nobody: seq<nat> := [];
    assert [q[k]] + nobody == [q[k]];
  }

  // What the rounds after the take make of the line: all but the last go over the
  // part not yet seen, and the last moves the head once more.
  lemma LastRounds(q: seq<nat>, id: nat, k: nat, none: seq<bool>)
    requires k < |q| && none == []
    ensures Rotate(Turn(q[k + 1..] + Without(q[..k], id), id), id, |q| - k - 1, none) == (Disturbed(q, id, k), [])
  {
    hide Turn, Without;
    var unseen, seen := q[k + 1..], Without(q[..k], id);
    var rest := Without(q[..k] + q[k + 1..], id);
    WithoutAppend(q[..k], q[k + 1..], id);
    QuietRounds(unseen, seen, id, 1, [false]);
    assert seq(|unseen|, i => false) + [false] == seq(|unseen| + 1, i => false);
    QuietEnd(unseen + seen, id, |unseen| + 1);
    assert Rotate(unseen + seen, id, |unseen| + 1, none) == Rotate(rest, id, 1, [false]);
    assert Rotate(unseen + seen, id, |unseen| + 1, none) == Rotate(Turn(unseen + seen, id), id, |unseen|, none);
    assert Rotate(rest, id, 1, [false]) == (Turn(rest, id), []);
    WithoutExact(q[..k] + q[k + 1..], id);
    if rest == [] { TurnEmpty(rest, id); } else { assert rest[0] in rest; TurnMoves(rest, id); }
  }

  lemma TurnEmpty(q: seq<nat>, id: nat)
    requires q == []
    ensures Turn(q, id) == []
  {}

  lemma OrderKept(q: seq<nat>, id: nat, k: nat)
    requires Distinct(q) && k < |q|
    ensures var w := Without(q, id);
            Without([q[k]], id) + Disturbed(q, id, k) == w
            <==> if q[k] == id then |w| <= 1 else w != [] && q[k] == w[0] && |w| <= 2
  {
    hide Without;
    var a, b := Without(q[..k], id), Without(q[k + 1..], id);
    var w := Without(q, id);
    assert q == q[..k] + ([q[k]] + q[k + 1..]);
    WithoutAppend(q[..k], [q[k]] + q[k + 1..], id);
    WithoutAppend([q[k]], q[k + 1..], id);
    WithoutAppend(q[..k], q[k + 1..], id);
    WithoutOne(q[k], id);
    WithoutDistinct(q, id);
    SentBack(a, b, if q[k] == id then [] else [q[k]], w);
  }

  // One element x, or none, served before the rest with its head sent back.
  lemma SentBack(a: seq<nat>, b: seq<nat>, x: seq<nat>, w: seq<nat>)
    requires |x| <= 1 && w == a + (x + b) && Distinct(w)
    ensures var rest := a + b;
            x + (if rest == [] then [] else rest[1..] + [rest[0]]) == w
            <==> if x == [] then |w| <= 1 else x[0] == w[0] && |w| <= 2
  {
    var rest := a + b;
    var served := x + (if rest == [] then [] else rest[1..] + [rest[0]]);
    if x == [] {
      assert w == rest;
      if |w| > 1 { assert served[0] == w[1]; }
    } else {
      assert served[0] == x[0];
      if a == [] {
        assert w[1..] == b;
        if |w| > 2 { assert served[1] == w[2]; }
      } else {
        assert w[|a|] == x[0] && w[0] == a[0];
      }
    }
  }
}
