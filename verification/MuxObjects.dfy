// The session object of the mux: its table of streams, its queues, and the
// methods that change them, each proved against the functions of MuxSession.
module MuxObjects {
  import opened Bytes
  import opened Frames
  import opened StreamObject
  import opened MuxSession
  import Value = MuxStream
  import Services
  import Line = MuxScheduler

  class Session {
    const client: bool
    const maxStreams: nat
    var streams: map<Word, Stream>
    var nextID: nat
    var lastID: nat
    var control: seq<Frame>
    var ready: seq<nat>
    var accept: seq<Stream>
    var closed: bool
    // The services advertised by the server, once known.
    var services: seq<Services.Service>
    var servicesReady: bool
    // The session as a value.
    ghost var state: Half

    // The plain fields are those of the value.
    ghost predicate Fields()
      reads this
    {
      && state.client == client && state.maxStreams == maxStreams && state.nextID == nextID && state.lastID == lastID
      && state.control == control && state.accepting == |accept| && state.down == closed
      && forall id :: id in state.streams ==> id in streams
    }

    // Streams sit under their own identifier; the line holds live ones, once
    // each; a client's identifiers are odd and lie below the next one.
    ghost predicate Table()
      reads this`streams, this`ready, this`nextID, this`closed
    {
      && maxStreams > 0 && |streams| <= maxStreams
      && (forall id :: id in streams ==> streams[id].id == id)
      && Line.Distinct(ready)
      && (closed ==> streams == map[])
      && (!closed ==> forall id :: id in ready ==> id < 0x1_0000_0000 && id in streams)
      && (client ==> nextID <= MAX_WORD && (nextID == 0 || nextID % 2 == 1))
      && (client && nextID != 0 ==> forall id :: id in streams ==> id < nextID)
    }

    // A stream object is the one of the value, and in line exactly while it has
    // frames to send.
    ghost predicate Fits(id: Word)
      requires id in streams
      reads this, streams[id]
    {
      && id in state.streams && state.streams[id] == EntryOf(streams[id])
      && var s := state.streams[id].s;
         (s.scheduled <==> s.outbound != []) && (s.scheduled <==> id in ready)
    }

    ghost predicate Valid()
      reads this, streams.Values
    {
      Fields() && Table() && forall id :: id in streams ==> Fits(id)
    }

    lemma Known(id: Word)
      requires Valid() && id in streams
      ensures streams[id].id == id && !closed && !state.down && state.client == client
      ensures id in state.streams && state.streams[id] == EntryOf(streams[id]) == Entry(streams[id].View(), streams[id].written, streams[id].received, streams[id].selector)
      ensures var s := streams[id].View(); (s.scheduled <==> s.outbound != []) && (s.scheduled <==> id in ready)
      ensures forall j :: j in streams && j != id ==> streams[j] != streams[id]
    {
      assert Fits(id);
      forall j | j in streams && j != id ensures streams[j] != streams[id] { assert streams[j].id == j; }
    }

    // When one stream has changed, and is in line as it should be, the session
    // is as it should be.
    twostate lemma OneChanged(id: Word)
      requires old(Valid()) && Table() && id in streams
      requires unchanged(this`streams, this`nextID, this`lastID, this`control, this`accept, this`closed)
      requires state == With(old(state), id, EntryOf(streams[id]))
      requires forall j :: j in streams && j != id ==> unchanged(streams[j])
      requires forall j :: j != id ==> (j in ready <==> j in old(ready))
      requires var s := streams[id].View(); (s.scheduled <==> s.outbound != []) && (s.scheduled <==> id in ready)
      ensures Valid()
    {
      hide Table, Stream.View;
      forall j | j in streams ensures Fits(j) {
        if j != id { assert old(Fits(j)); }
      }
    }

    constructor (client: bool, limit: int)
      ensures Valid() && ready == []
      ensures state == NewHalf(client, if limit <= 0 then 1 else limit) && !servicesReady
    {
      this.client := client;
      maxStreams := if limit <= 0 then 1 else limit;
      streams, nextID, lastID := map[], if client then 1 else 2, 0;
      control, ready, accept, closed := [], [], [], false;
      services, servicesReady := [], false;
      state := NewHalf(client, if limit <= 0 then 1 else limit);
    }

    // A server that announces its services.
    constructor WithServices(limit: int, services: seq<Services.Service>)
      ensures Valid() && ready == [] && this.services == services
      ensures state == NewServer(if limit <= 0 then 1 else limit, Value.Some(services)) && !servicesReady
    {
      client := false;
      maxStreams := if limit <= 0 then 1 else limit;
      streams, nextID, lastID := map[], 2, 0;
      control, ready, accept, closed := [ServiceList(services)], [], [], false;
      this.services, servicesReady := services, false;
      state := NewServer(if limit <= 0 then 1 else limit, Value.Some(services));
    }

    // Drops every stream, and tells each of them.
    method Shutdown()
      requires Valid()
      modifies this, streams.Values
      ensures Valid() && state == MuxSession.Shutdown(old(state)) && ready == old(ready) && streams == map[]
      ensures services == old(services) && servicesReady == old(servicesReady)
      ensures forall s :: s in old(streams.Values) ==> s.View() == Value.ReceiveReset(old(s.View()))
    {
      hide Stream.View;
      if closed { return; }
      closed := true;
      var all := streams.Values;
      streams := map[];
      ResetAll(all);
      state := MuxSession.Shutdown(state);
    }

    method SendControl(f: Frame)
      requires Valid()
      modifies this, streams.Values
      ensures Valid() && state == MuxSession.SendControl(old(state), f) && ready == old(ready)
      ensures services == old(services) && servicesReady == old(servicesReady)
      ensures streams == old(streams) || streams == map[]
    {
      hide Stream.View, Table;
      if !closed {
        if |control| >= maxStreams * CONTROL_FACTOR {
          Shutdown();
        } else {
          control := control + [f];
          state := state.(control := control);
        }
      }
    }

    // Puts a stream in line. The line has a slot for every live stream, so it is
    // never full.
    method Schedule(s: Stream)
      requires Table() && s.id !in ready
      modifies this`ready
      ensures Table()
      ensures ready == if s.id in streams && streams[s.id] == s then old(ready) + [s.id] else old(ready)
    {
      if s.id in streams && streams[s.id] == s {
        SlotLeft(s.id);
        ready := ready + [s.id];
      }
    }

    lemma SlotLeft(id: Word)
      requires Table() && id in streams && id !in ready && !closed
      ensures |ready| < maxStreams
    {
      var live: set<nat> := set j | j in streams;
      assert live == streams.Keys;
      Line.DistinctFits(ready, live, id);
    }

    // Turns the line round once, leaving one stream out. If the writer takes none
    // meanwhile, the others keep their order; what becomes of the line when it does
    // is a matter of MuxScheduler.
    method LeaveLine(id: Word)
      modifies this`ready
      ensures ready == Line.Without(old(ready), id)
    {
      ghost var line := ready;
      var n := |ready|;
      assert line[..0] == [] && line[0..] + [] == line;
      for k := 0 to n
        invariant ready == line[k..] + Line.Without(line[..k], id)
      {
        hide Line.Without;
        OneTurn(line, k, id);
        var queued := ready[0];
        ready := ready[1..];
        if queued != id { ready := ready + [queued]; }
      }
      assert line[..n] == line && line[n..] == [];
    }

    // When one stream has changed, the rest of the session is as it was.
    twostate lemma OthersFit(id: Word)
      requires old(Valid()) && id in streams
      requires unchanged(this`streams, this`ready, this`nextID, this`lastID, this`control, this`accept, this`closed)
      requires state == With(old(state), id, EntryOf(streams[id]))
      requires forall j :: j in streams && j != id ==> unchanged(streams[j])
      ensures Fields() && Table() && forall j :: j in streams && j != id ==> Fits(j)
    {
      hide Stream.View, EntryOf;
      assert Table() by { hide Fields; }
      assert Fields() by { hide Table; }
      forall j | j in streams && j != id ensures Fits(j) { assert old(Fits(j)); }
    }

    twostate lemma OneGone(id: Word)
      requires old(Fields()) && old(Table()) && id in old(streams) && forall j :: j in old(streams) && j != id ==> old(Fits(j))
      requires streams == old(streams) - {id} && state == Remove(old(state), id) && ready == Line.Without(old(ready), id)
      requires unchanged(this`nextID, this`lastID, this`control, this`accept, this`closed)
      requires forall j :: j in streams ==> unchanged(streams[j])
      ensures Valid()
    {
      hide Stream.View;
      Line.WithoutExact(old(ready), id);
      Line.WithoutDistinct(old(ready), id);
      SubsetSize(streams.Keys, old(streams).Keys);
      assert Table() by { hide Fits, EntryOf; }
      forall j | j in streams ensures Fits(j) {
        hide Table;
        assert old(Fits(j));
      }
      assert Fields() by { hide Fits, EntryOf, Table; }
    }

    // Forgets a stream, which may have just been changed, and takes it out of the
    // line undisturbed.
    method RemoveStream(id: Word)
      requires id in streams && Fields() && Table() && forall j :: j in streams && j != id ==> Fits(j)
      modifies this`streams, this`ready, this`state
      ensures Valid() && streams.Values <= old(streams.Values)
      ensures state == Remove(old(state), id) && ready == Line.Without(old(ready), id)
    {
      hide Stream.View, EntryOf, Fields, Table, Fits, Remove;
      streams := streams - {id};
      LeaveLine(id);
      state := Remove(state, id);
      OneGone(id);
    }

    // ---- What the application does -----------------------------------------

    method Write(id: Word, p: seq<byte>) returns (taken: nat, outcome: WriteOutcome)
      requires Valid() && id in streams
      modifies this`ready, this`state, streams[id]
      ensures Valid() && state == Do(old(state), WriteOp(id, p)).0
      ensures taken == Value.Taken(old(state).streams[id].s, |p|)
      ensures ready == if taken > 0 && !old(state).streams[id].s.scheduled then old(ready) + [id] else old(ready)
    {
      hide Value.Write, Value.Taken, Stream.View, Fields, Table, Fits, Do;
      var s, needsSchedule := streams[id], false;
      Known(id);
      DoIsWith(state, WriteOp(id, p));
      WriteFills(s.View(), id, p);
      taken, needsSchedule, outcome := s.Write(p);
      if needsSchedule { Schedule(s); }
      state := With(state, id, EntryOf(s));
      OneChanged(id);
    }

    method Read(id: Word, size: nat) returns (p: seq<byte>, outcome: ReadOutcome)
      requires Valid() && id in streams
      modifies this, streams.Values
      ensures Valid() && state == Do(old(state), ReadOp(id, size)).0 && ready == old(ready)
      ensures p == Value.Read(old(state).streams[id].s, size).1
    {
      hide Value.Read, Stream.View, Fields, Table, Fits, Do;
      var s, update := streams[id], 0;
      Known(id);
      DoIsWith(state, ReadOp(id, size));
      ReadKeepsQueue(s.View(), size);
      p, update, outcome := s.Read(size);
      state := With(state, id, EntryOf(s));
      OneChanged(id);
      if 0 < update < 0x1_0000_0000 { SendControl(WindowUpdate(id, update)); }
    }

    method CloseWrite(id: Word)
      requires Valid() && id in streams
      modifies this`ready, this`state, streams[id]
      ensures Valid() && state == Do(old(state), CloseWriteOp(id)).0
      ensures ready == if state != old(state) && !old(state).streams[id].s.scheduled then old(ready) + [id] else old(ready)
    {
      hide Stream.View, Fields, Table, Fits, Do;
      var s := streams[id];
      Known(id);
      DoIsWith(state, CloseWriteOp(id));
      var needsSchedule := s.CloseWrite();
      if needsSchedule { Schedule(s); }
      state := With(state, id, EntryOf(s));
      OneChanged(id);
    }

    method CloseRead(id: Word)
      requires Valid() && id in streams
      modifies this`state, streams[id]
      ensures Valid() && state == Do(old(state), CloseReadOp(id)).0
    {
      hide Stream.View, Fields, Table, Fits, Do;
      Known(id);
      DoIsWith(state, CloseReadOp(id));
      streams[id].CloseRead();
      state := With(state, id, EntryOf(streams[id]));
      OneChanged(id);
    }

    method Close(id: Word)
      requires Valid() && id in streams
      modifies this, streams.Values
      ensures Valid() && state == Do(old(state), CloseOp(id)).0
      ensures ready == if Value.Close(old(state).streams[id].s).1.Keep? then old(ready) else Line.Without(old(ready), id)
    {
      hide Stream.View, Fields, Table, Fits, Do, Remove;
      Known(id);
      DoIsWith(state, CloseOp(id));
      var ending := streams[id].Close();
      state := With(state, id, EntryOf(streams[id]));
      OneChanged(id);
      if !ending.Keep? { RemoveStream(id); }
      if ending.RemoveAndReset? { SendControl(ResetFrame(id)); }
    }

    method Reset(id: Word)
      requires Valid() && id in streams
      modifies this, streams.Values
      ensures Valid() && state == Do(old(state), ResetOp(id)).0
      ensures ready == if old(state).streams[id].s.closed then old(ready) else Line.Without(old(ready), id)
      ensures services == old(services) && servicesReady == old(servicesReady)
    {
      hide Stream.View, Fields, Table, Fits, Do, Remove;
      Known(id);
      DoIsWith(state, ResetOp(id));
      var done := streams[id].Reset();
      state := With(state, id, EntryOf(streams[id]));
      if done {
        OthersFit(id);
        RemoveStream(id);
        SendControl(ResetFrame(id));
      } else {
        OneChanged(id);
      }
    }

    method Approve(id: Word)
      requires Valid() && id in streams
      modifies this, streams.Values
      ensures Valid() && state == Do(old(state), ApproveOp(id)).0 && ready == old(ready)
    {
      hide Stream.View, Fields, Table, Fits, Do;
      Known(id);
      DoIsWith(state, ApproveOp(id));
      var done := streams[id].Approve();
      state := With(state, id, EntryOf(streams[id]));
      OneChanged(id);
      if done { SendControl(Frame(OPEN_OK, id, [])); }
    }

    method Reject(id: Word)
      requires Valid() && id in streams
      modifies this, streams.Values
      ensures Valid() && state == Do(old(state), RejectOp(id)).0
      ensures ready == if old(state).streams[id].s.closed then old(ready) else Line.Without(old(ready), id)
    {
      hide Stream.View, Fields, Table, Fits, Do, Remove;
      Known(id);
      DoIsWith(state, RejectOp(id));
      var done := streams[id].Reject();
      state := With(state, id, EntryOf(streams[id]));
      OneChanged(id);
      if done {
        RemoveStream(id);
        SendControl(Frame(OPEN_ERROR, id, []));
      }
    }

    // The next stream waiting to be accepted.
    method Accept() returns (s: Value.Option<Stream>)
      requires Valid()
      modifies this`accept, this`state
      ensures Valid() && (!closed ==> state == Do(old(state), AcceptOp).0)
      ensures if old(accept) == [] then s.None? && accept == [] else s == Value.Some(old(accept)[0]) && accept == old(accept)[1..]
    {
      hide Stream.View, Table, EntryOf;
      if accept == [] { return Value.None; }
      s := Value.Some(accept[0]);
      accept := accept[1..];
      state := state.(accepting := |accept|);
      forall j | j in streams ensures Fits(j) { assert old(Fits(j)); }
    }

    // Takes the next identifier and announces the stream.
    method OpenService(selector: seq<byte>) returns (id: Value.Option<Word>)
      requires Valid()
      modifies this, streams.Values
      ensures Valid() && state == Open(old(state), selector) && ready == old(ready)
      ensures id.Some? ==> id.value == old(nextID) == lastID && id.value !in old(streams)
    {
      hide Stream.View, Fields, Table, Fits;
      Sizes();
      if !client || |selector| > Services.MAX_SERVICE_NAME || closed || |streams| >= maxStreams || nextID == 0 {
        return Value.None;
      }
      NextIsUnused();
      var n: Word := nextID;
      Add(n, [], selector, if n == MAX_WORD then 0 else n + 2, n);
      SendControl(Frame(OPEN, n, selector));
      Sizes();
      id := if closed then Value.None else Value.Some(n);
    }

    lemma Sizes()
      requires Valid()
      ensures state.client == client && state.maxStreams == maxStreams && state.nextID == nextID && state.lastID == lastID
      ensures state.accepting == |accept| && state.down == closed && |state.streams| == |streams|
      ensures forall id :: id in state.streams <==> id in streams
    {
      forall id ensures id in state.streams <==> id in streams {
        if id in streams { assert Fits(id); }
      }
      assert state.streams.Keys == streams.Keys;
    }

    lemma NextIsUnused()
      requires Valid() && client && nextID != 0
      ensures nextID <= MAX_WORD && nextID !in streams && nextID % 2 == 1
    {}

    // Enters a new stream.
    method Add(id: Word, service: seq<byte>, ghost selector: seq<byte>, next: nat, last: nat)
      requires Valid() && id !in streams && |streams| < maxStreams && !closed
      requires if client then id == nextID && id != 0 && next == (if id == MAX_WORD then 0 else id + 2) else next == nextID
      modifies this`streams, this`nextID, this`lastID, this`state
      ensures Valid() && id in streams && fresh(streams[id]) && streams == old(streams)[id := streams[id]]
      ensures streams[id].service == service
      ensures state == With(old(state), id, Entry(Value.New(), [], [], selector)).(nextID := next, lastID := last)
    {
      hide Stream.View, Fields, Table, Fits, EntryOf;
      var s := new Stream(id, service, selector);
      EntryIs(s);
      streams := streams[id := s];
      nextID, lastID := next, last;
      state := With(state, id, EntryOf(s)).(nextID := next, lastID := last);
      OneAdded(id);
    }

    twostate lemma TableAdded(id: Word)
      requires old(Table()) && id !in old(streams) && |old(streams)| < maxStreams && !closed
      requires if client then id == old(nextID) && id != 0 && nextID == (if id == MAX_WORD then 0 else id + 2) else nextID == old(nextID)
      requires unchanged(this`ready, this`closed)
      requires id in streams && streams == old(streams)[id := streams[id]] && streams[id].id == id
      ensures Table() && id !in ready
    {
      assert streams.Keys == old(streams).Keys + {id} && |streams.Keys| == |old(streams).Keys| + 1;
      assert forall j :: j in streams <==> j == id || j in old(streams);
    }

    twostate lemma OneAdded(id: Word)
      requires old(Valid()) && id !in old(streams) && |old(streams)| < maxStreams && !closed
      requires if client then id == old(nextID) && id != 0 && nextID == (if id == MAX_WORD then 0 else id + 2) else nextID == old(nextID)
      requires unchanged(this`ready, this`control, this`accept, this`closed)
      requires id in streams && streams == old(streams)[id := streams[id]] && streams[id].id == id
      requires state == With(old(state), id, EntryOf(streams[id])).(nextID := nextID, lastID := lastID)
      requires streams[id].View() == Value.New()
      requires forall j :: j in old(streams) ==> unchanged(old(streams)[j])
      ensures Valid()
    {
      hide Stream.View, EntryOf;
      hide Table;
      TableAdded(id);
      EntryIs(streams[id]);
      forall j | j in streams ensures Fits(j) {
        if j != id { assert old(Fits(j)); }
      }
    }

    // ---- Frames from the peer ----------------------------------------------

    method HandleOpen(f: Frame)
      requires Valid() && !closed && f.kind == OPEN
      modifies this, streams.Values
      ensures Valid() && state == MuxSession.HandleOpen(old(state), f) && ready == old(ready)
      ensures f.stream in streams && f.stream !in old(streams) ==> streams[f.stream].service == f.payload
      ensures services == old(services) && servicesReady == old(servicesReady)
    {
      hide Stream.View, Table, Fits, EntryOf;
      Sizes();
      if client || f.stream % 2 == 0 || f.stream in streams {
        Shutdown();
        return;
      }
      NoteOpen(f.stream);
      if |streams| >= maxStreams || |accept| >= maxStreams * ACCEPT_FACTOR {
        SendControl(Frame(OPEN_ERROR, f.stream, []));
      } else {
        Add(f.stream, f.payload, f.payload, nextID, lastID);
        Backlog(f.stream);
      }
    }

    // Identifiers may arrive out of order.
    method NoteOpen(id: Word)
      requires Valid()
      modifies this`lastID, this`state
      ensures Valid() && lastID == Max(old(lastID), id) && state == old(state).(lastID := lastID)
    {
      hide Stream.View, Table, EntryOf;
      lastID := Max(lastID, id);
      state := state.(lastID := lastID);
      forall j | j in streams ensures Fits(j) { assert old(Fits(j)); }
    }

    method Backlog(id: Word)
      requires Valid() && id in streams
      modifies this`accept, this`state
      ensures Valid() && accept == old(accept) + [streams[id]] && state == old(state).(accepting := old(state).accepting + 1)
    {
      hide Stream.View, Table, EntryOf;
      accept := accept + [streams[id]];
      state := state.(accepting := |accept|);
      forall j | j in streams ensures Fits(j) { assert old(Fits(j)); }
    }

    method HandleFrame(f: Frame)
      requires Valid()
      modifies this, streams.Values
      ensures Valid() && state == MuxSession.HandleFrame(old(state), f)
      ensures !state.down ==> ready == if f.stream in old(state).streams && f.stream !in state.streams then Line.Without(old(ready), f.stream) else old(ready)
      ensures var listed := Services.Decode(f.payload);
              if !old(closed) && f.kind == SERVICE_LIST && client && f.stream == 0 && listed.Listed?
              then servicesReady && services == listed.services
              else services == old(services) && servicesReady == old(servicesReady)
    {
      hide Stream.View, Table;
      if closed { return; }
      if f.kind == SERVICE_LIST {
        var listed := Services.Decode(f.payload);
        if !client || f.stream != 0 || listed.Refused? {
          Shutdown();
        } else {
          services, servicesReady := listed.services, true;
          StillValid();
        }
      } else if f.kind == OPEN {
        HandleOpen(f);
      } else if f.stream !in streams {
        var retired := f.stream % 2 == 1 && f.stream <= lastID;
        if !retired && f.kind != RESET && f.kind != OPEN_ERROR { SendControl(ResetFrame(f.stream)); }
      } else {
        HandleStreamFrame(f);
      }
    }

    twostate lemma StillValid()
      requires old(Valid())
      requires unchanged(this`state, this`streams, this`ready, this`nextID, this`lastID, this`control, this`accept, this`closed)
      requires forall j :: j in streams ==> unchanged(streams[j])
      ensures Valid()
    {
      hide Stream.View, EntryOf;
      assert Table() by { hide Fields; }
      assert Fields() by { hide Table; }
      forall j | j in streams ensures Fits(j) { assert old(Fits(j)); }
    }

    method HandleStreamFrame(f: Frame)
      requires Valid() && !closed && f.stream in streams
      modifies this, streams.Values
      ensures Valid() && state == MuxSession.HandleStreamFrame(old(state), f)
      ensures !state.down ==> ready == if f.stream in state.streams then old(ready) else Line.Without(old(ready), f.stream)
      ensures services == old(services) && servicesReady == old(servicesReady)
    {
      hide Stream.View, Fields, Table, Fits;
      var id, s := f.stream, streams[f.stream];
      Known(id);
      if f.kind == OPEN_OK && client {
        s.MarkOpened(true);
        state := With(state, id, EntryOf(s));
        OneChanged(id);
      } else if f.kind == OPEN_ERROR || f.kind == RESET {
        if f.kind == RESET { s.ReceiveReset(); } else { s.MarkOpened(false); }
        state := With(state, id, EntryOf(s));
        OneChanged(id);
        RemoveStream(id);
      } else if f.kind == DATA || f.kind == WINDOW_UPDATE {
        HandleTraffic(f);
      } else if f.kind == FIN {
        s.ReceiveFIN();
        state := With(state, id, EntryOf(s));
        OneChanged(id);
      } else {
        Shutdown();
      }
    }

    // An error of the peer's in DATA or a window update resets the stream.
    method HandleTraffic(f: Frame)
      requires Valid() && !closed && f.stream in streams && (f.kind == DATA || f.kind == WINDOW_UPDATE)
      modifies this, streams.Values
      ensures Valid() && state == MuxSession.HandleStreamFrame(old(state), f)
      ensures !state.down ==> ready == if f.stream in state.streams then old(ready) else Line.Without(old(ready), f.stream)
      ensures services == old(services) && servicesReady == old(servicesReady)
    {
      hide Stream.View, Fields, Table, Fits, Do, Value.ReceiveData, Value.UpdateSendWindow;
      var id, s := f.stream, streams[f.stream];
      Known(id);
      TrafficKeepsQueue(s.View(), f);
      var ok;
      if f.kind == DATA {
        ok := s.ReceiveData(f.payload);
      } else {
        ok := s.UpdateSendWindow(WindowAmount(f));
      }
      state := With(state, id, EntryOf(s));
      OneChanged(id);
      if !ok {
        ResetKeeps(state, id);
        Reset(id);
      }
    }

    // ---- The writer --------------------------------------------------------

    method Flush() returns (frame: Value.Option<Frame>)
      requires Valid()
      modifies this`control, this`state
      ensures Valid()
      ensures !closed ==> (state, if frame.Some? then [frame.value] else []) == Do(old(state), FlushOp)
    {
      hide Stream.View, Table;
      if control == [] { return Value.None; }
      frame := Value.Some(control[0]);
      control := control[1..];
      state := state.(control := control);
    }

    ghost function Head(): (id: Word)
      requires Table() && !closed && ready != []
      ensures id in streams
      reads this
    {
      assert ready[0] in ready;
      ready[0]
    }

    // Serves the head of the line: one frame of it, and if it has more, its
    // place is at the end of the line.
    method PickReady() returns (frame: Value.Option<Frame>)
      requires Valid() && !closed
      modifies this, streams.Values
      ensures Valid()
      ensures old(ready) == [] ==> frame == Value.None && state == old(state) && ready == []
      ensures old(ready) != [] ==>
        var id := old(Head());
        var queue := old(state).streams[id].s.outbound;
        && (state, if frame.Some? then [frame.value] else []) == Do(old(state), PickOp(id))
        && queue != [] && frame == Value.Some(queue[0])
        && ready == if |queue| > 1 then old(ready)[1..] + [id] else old(ready)[1..]
    {
      hide Stream.View, Fields, Table, Fits, Do;
      if ready == [] { return Value.None; }
      ghost var head := Head();
      var id: Word := ready[0];
      var s := streams[id];
      Known(id);
      DoIsWith(state, PickOp(id));
      TakeHead(id);
      var out := s.NextOutbound();
      frame := out.frame;
      if out.requeue { Schedule(s); }
      state := With(state, id, EntryOf(s));
      OneChanged(id);
      if out.remove {
        Line.AbsentStays(ready, id);
        RemoveStream(id);
      }
    }

    // The writer takes the head of the line.
    method TakeHead(id: Word)
      requires Table() && ready != [] && ready[0] == id
      modifies this`ready
      ensures Table() && ready == old(ready)[1..] && id !in ready
      ensures forall j :: j in old(ready) <==> j == id || j in ready
    {
      assert forall j :: j in ready <==> j == ready[0] || j in ready[1..];
      assert forall k :: 0 <= k < |ready| - 1 ==> ready[1..][k] == ready[k + 1];
      ready := ready[1..];
    }
  }

  ghost function With(h: Half, id: Word, e: Entry): Half {
    h.(streams := h.streams[id := e])
  }

  lemma EntryIs(s: Stream)
    ensures EntryOf(s) == Entry(s.View(), s.written, s.received, s.selector)
  {}

  // What the operations on one stream amount to.
  lemma DoIsWith(h: Half, op: Op)
    requires !h.down && !op.OpenOp? && !op.AcceptOp? && !op.FlushOp? && !op.FailOp? && op.id in h.streams
    ensures var e, id, after := h.streams[op.id], op.id, Do(h, op).0;
            match op
            case WriteOp(_, p) =>
              after == With(h, id, e.(s := Value.Write(e.s, id, p), written := e.written + p[..Value.Taken(e.s, |p|)]))
            case ReadOp(_, size) =>
              var (s, got, update) := Value.Read(e.s, size);
              var h' := With(h, id, e.(s := s, read := e.read + got));
              after == if 0 < update < 0x1_0000_0000 then MuxSession.SendControl(h', WindowUpdate(id, update)) else h'
            case CloseWriteOp(_) => after == With(h, id, e.(s := Value.CloseWrite(e.s, id)))
            case CloseReadOp(_) => after == With(h, id, e.(s := Value.CloseRead(e.s)))
            case CloseOp(_) =>
              var (s, ending) := Value.Close(e.s);
              after == if ending.Keep? then With(h, id, e.(s := s))
                       else
                         var gone := Remove(With(h, id, e.(s := s)), id);
                         if ending.Remove? then gone else MuxSession.SendControl(gone, ResetFrame(id))
            case ResetOp(_) =>
              after == if e.s.closed then h
                       else MuxSession.SendControl(Remove(With(h, id, e.(s := Value.Reset(e.s))), id), ResetFrame(id))
            case ApproveOp(_) =>
              after == if e.s.closed || e.s.isOpen then h
                       else MuxSession.SendControl(With(h, id, e.(s := e.s.(isOpen := true))), Frame(OPEN_OK, id, []))
            case RejectOp(_) =>
              after == if e.s.closed then h
                       else MuxSession.SendControl(Remove(With(h, id, e.(s := e.s.(closed := true))), id), Frame(OPEN_ERROR, id, []))
            case PickOp(_) =>
              var (s, out) := Value.NextOutbound(e.s);
              && Do(h, op).1 == (if out.frame.Some? then [out.frame.value] else [])
              && after == if out.remove then Remove(With(h, id, e.(s := s)), id) else With(h, id, e.(s := s))
  {
    hide Value.Write, Value.Read, Value.Close, Value.CloseWrite, Value.CloseRead, Value.NextOutbound, Value.Reset, Remove, MuxSession.SendControl;
  }

  method ResetAll(all: set<Stream>)
    modifies all
    ensures forall s :: s in all ==> s.View() == Value.ReceiveReset(old(s.View()))
  {
    var rest := all;
    while rest != {}
      invariant rest <= all
      invariant forall s :: s in rest ==> s.View() == old(s.View())
      invariant forall s :: s in all - rest ==> s.View() == Value.ReceiveReset(old(s.View()))
      decreases |rest|
    {
      var s :| s in rest;
      s.ReceiveReset();
      rest := rest - {s};
    }
  }

  ghost function EntryOf(s: Stream): Entry
    reads s
  {
    Entry(s.View(), s.written, s.received, s.selector)
  }

  // A write that takes bytes leaves frames to send, and any other nothing.
  lemma WriteFills(s: Value.Stream, id: Word, p: seq<byte>)
    ensures var t, n := Value.Write(s, id, p), Value.Taken(s, |p|);
            if n > 0 then t.outbound != [] && t.scheduled else t == s
  {
    hide Value.Chunks;
    Value.ChunksCarry(id, p[..Value.Taken(s, |p|)]);
  }

  lemma TrafficKeepsQueue(s: Value.Stream, f: Frame)
    ensures var r := Value.ReceiveData(s, f.payload); r.Some? ==> r.value.outbound == s.outbound && r.value.scheduled == s.scheduled
    ensures var r := Value.UpdateSendWindow(s, WindowAmount(f)); r.Some? ==> r.value.outbound == s.outbound && r.value.scheduled == s.scheduled
  {}

  lemma ResetKeeps(h: Half, id: Word)
    requires !h.down && id in h.streams
    ensures Do(h, ResetOp(id)).0 == ResetStream(h, id)
    ensures !ResetStream(h, id).down ==>
              (id in ResetStream(h, id).streams <==> h.streams[id].s.closed)
  {}

  lemma ReadKeepsQueue(s: Value.Stream, size: nat)
    ensures Value.Read(s, size).0.outbound == s.outbound && Value.Read(s, size).0.scheduled == s.scheduled
  {}

  lemma OneTurn(line: seq<nat>, k: nat, id: nat)
    requires k < |line|
    ensures var q := line[k..] + Line.Without(line[..k], id);
            && q[0] == line[k]
            && (if q[0] == id then q[1..] else q[1..] + [q[0]]) == line[k + 1..] + Line.Without(line[..k + 1], id)
  {
    WithoutLast(line[..k], line[k], id);
    assert line[..k + 1] == line[..k] + [line[k]];
    assert (line[k..] + Line.Without(line[..k], id))[1..] == line[k + 1..] + Line.Without(line[..k], id);
  }

  lemma {:induction false} WithoutLast(q: seq<nat>, last: nat, id: nat)
    ensures Line.Without(q + [last], id) == Line.Without(q, id) + if last == id then [] else [last]
  {
    if q == [] {
      assert q + [last] == [last];
      assert [last][1..] == [];
    } else {
      assert (q + [last])[1..] == q[1..] + [last];
      WithoutLast(q[1..], last, id);
    }
  }
}
