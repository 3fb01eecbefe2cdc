/** Two sessions over FIFO transports. Each stream of the system is one `Pair`; every step of a session is, for every
    stream, a step of its pair or nothing. */
module YamuxSystem {
  import opened Common
  import opened YamuxFrame
  import opened YamuxStream
  import opened YamuxHandle
  import opened YamuxPair
  import opened YamuxPairUse
  import opened YamuxOrder
  import opened YamuxSession

  // ---------------------------------------------------------------- one stream of the system

  predicate OfStream(id: StreamId, f: Frame) {
    f.header.streamId == id && (f.header.ty.Data? || f.header.ty.WindowUpdate?)
  }

  /** The frames of one stream, in order. */
  function Of(id: StreamId, frames: seq<Frame>): seq<Frame> {
    if frames == [] then []
    else (if OfStream(id, frames[0]) then [frames[0]] else []) + Of(id, frames[1..])
  }

  /** All frames from one session to the other that are not in a stream's channel yet, oldest first. */
  function Pipe(from: Endpoint, to: Endpoint): seq<Frame> {
    to.readPending + from.sink + from.writePending + EventFrames(from.events)
  }

  predicate CleanEnd(e: Endpoint) { !e.localGoAway && !e.remoteGoAway && !e.eof && e.up }

  function HalfOf(id: StreamId, e: Endpoint): Half {
    Half(if id in e.handles then Some(e.handles[id]) else None, id in e.streams, e.up, e.cfg.maxStreamWindow)
  }

  function Proj(v: View, id: StreamId): Pair {
    Pair(HalfOf(id, v.me), HalfOf(id, v.peer), Of(id, Pipe(v.me, v.peer)), Of(id, Pipe(v.peer, v.me)),
         CleanEnd(v.me) && CleanEnd(v.peer))
  }

  lemma {:induction false} OfConcat(id: StreamId, a: seq<Frame>, b: seq<Frame>)
    ensures Of(id, a + b) == Of(id, a) + Of(id, b)
  {
    hide OfStream;
    if a == [] {
      assert a + b == b;
    } else {
      OfConcat(id, a[1..], b);
      assert (a + b)[0] == a[0] && (a + b)[1..] == a[1..] + b;
      var first := if OfStream(id, a[0]) then [a[0]] else [];
      assert first + (Of(id, a[1..]) + Of(id, b)) == (first + Of(id, a[1..])) + Of(id, b);
    }
  }

  lemma OfOne(id: StreamId, f: Frame)
    ensures Of(id, [f]) == if OfStream(id, f) then [f] else []
  {
    assert [f][1..] == [];
  }

  /** Appending one frame to a pipe. */
  lemma OfAppend(id: StreamId, a: seq<Frame>, f: Frame)
    ensures Of(id, a + [f]) == Of(id, a) + if OfStream(id, f) then [f] else []
  {
    OfConcat(id, a, [f]);
    OfOne(id, f);
  }

  /** Inserting a frame in the middle of a pipe is an append, as far as a stream is concerned that has none behind
      it. */
  lemma OfInsert(id: StreamId, a: seq<Frame>, f: Frame, c: seq<Frame>)
    ensures !OfStream(id, f) ==> Of(id, a + [f] + c) == Of(id, a + c)
    ensures Of(id, c) == [] && OfStream(id, f) ==> Of(id, a + [f] + c) == Of(id, a + c) + [f]
  {
    OfConcat(id, a + [f], c);
    OfAppend(id, a, f);
    OfConcat(id, a, c);
  }

  /** Cutting a stretch out of a pipe. */
  lemma OfCut(id: StreamId, a: seq<Frame>, b: seq<Frame>, c: seq<Frame>)
    ensures Of(id, a + b + c) == Of(id, a) + Of(id, b) + Of(id, c)
    ensures Of(id, a + c) == Of(id, a) + Of(id, c)
  {
    OfConcat(id, a + b, c);
    OfConcat(id, a, b);
    OfConcat(id, a, c);
  }

  lemma {:induction false} OfNone(id: StreamId, a: seq<Frame>)
    requires forall f :: f in a ==> !OfStream(id, f)
    ensures Of(id, a) == []
  {
    if a != [] {
      assert a[0] in a;
      OfNone(id, a[1..]);
    }
  }

  lemma {:induction false} OfMembers(id: StreamId, a: seq<Frame>, f: Frame)
    ensures f in Of(id, a) <==> f in a && OfStream(id, f)
  {
    if a != [] { OfMembers(id, a[1..], f); }
  }

  // ---------------------------------------------------------------- the invariant

  predicate Blank(p: Pair) { p.me.handle.None? && p.peer.handle.None? && p.out == [] && p.inn == [] }

  /** Ids above the allocation counter of the side they belong to: odd for the client, even for the server. */
  predicate Unopened(v: View, id: StreamId) {
    id >= if (id % 2 == 1) == v.me.client then v.me.nextStreamId else v.peer.nextStreamId
  }

  predicate ValidEvent(e: Endpoint, ev: StreamEvent) {
    match ev
    case EventFrame(f) => f.header.streamId in e.handles && StreamFrame(f)
    case EventClosed(id) => id in e.handles && (e.handles[id].stream.state.Closed? || e.handles[id].dropped)
    case EventGoAway => false
  }

  /** What a session ever hands to the transport: no GoAway but the normal one. */
  predicate Polite(f: Frame) { WellFormed(f) && (f.header.ty.GoAway? ==> f == NewGoAway(Normal)) }

  predicate AllPolite(frames: seq<Frame>) { forall f :: f in frames ==> Polite(f) }

  predicate EndInv(e: Endpoint) {
    && e.nextStreamId % 2 == (if e.client then 1 else 0)
    && (forall id :: id in e.handles ==> e.handles[id].stream.id == id)
    && (forall ev :: ev in e.events ==> ValidEvent(e, ev))
    && AllPolite(e.writePending) && AllPolite(e.sink)
    && StreamFrames(e.readPending)
  }

  predicate ViewInv(v: View) {
    && v.me.client != v.peer.client
    && EndInv(v.me) && EndInv(v.peer)
    && (forall id :: PairInv(Proj(v, id)))
    && (forall id :: Unopened(v, id) ==> Blank(Proj(v, id)))
  }

  function Swap(v: View): View { View(v.peer, v.me) }

  lemma SwapKeeps(v: View)
    requires ViewInv(v)
    ensures ViewInv(Swap(v))
  {
    hide Of, EndInv, Pipe;
    forall id ensures PairInv(Proj(Swap(v), id)) && (Unopened(Swap(v), id) ==> Blank(Proj(Swap(v), id))) {
      assert PairInv(Proj(v, id));
      assert Proj(Swap(v), id) == Flip(Proj(v, id));
    }
  }

  // ---------------------------------------------------------------- steps that no stream notices

  /** Same streams, same pipes. */
  lemma Unnoticed(v: View, v': View)
    requires ViewInv(v) && EndInv(v'.me) && EndInv(v'.peer)
    requires v'.me.client == v.me.client && v'.peer.client == v.peer.client
    requires v'.me.nextStreamId == v.me.nextStreamId && v'.peer.nextStreamId == v.peer.nextStreamId
    requires forall id :: Proj(v', id) == Proj(v, id) || Proj(v', id) == Soil(Proj(v, id))
    ensures ViewInv(v')
  {
    forall id ensures PairInv(Proj(v', id)) && (Unopened(v', id) ==> Blank(Proj(v', id))) {
      var p := Proj(v, id);
      assert PairInv(p);
      SoilHolds(p);
      if Unopened(v', id) { assert Unopened(v, id); }
      assert Proj(v', id) == p || Proj(v', id) == Soil(p);
    }
  }

  /** A stretch of `me`'s outgoing frames is gone, and the run is no longer clean. */
  lemma Cut(v: View, v': View, a: seq<Frame>, b: seq<Frame>, c: seq<Frame>)
    requires ViewInv(v) && EndInv(v'.me) && EndInv(v'.peer)
    requires v'.peer == v.peer && !CleanEnd(v'.me)
    requires v'.me == v.me.(writePending := v'.me.writePending, sink := v'.me.sink, synLog := v'.me.synLog,
                            localGoAway := v'.me.localGoAway, remoteGoAway := v'.me.remoteGoAway)
    requires Pipe(v.me, v.peer) == a + b + c
    requires forall id :: Of(id, Pipe(v'.me, v'.peer)) == Of(id, a + c)
    ensures ViewInv(v')
  {
    hide PairInv, EndInv, Of;
    forall id ensures PairInv(Proj(v', id)) && (Unopened(v', id) ==> Blank(Proj(v', id))) {
      var p := Soil(Proj(v, id));
      assert PairInv(Proj(v, id));
      OfCut(id, a, b, c);
      SoilHolds(Proj(v, id));
      LoseOutHolds(p, Of(id, a), Of(id, b), Of(id, c));
      assert Proj(v', id) == p.(out := Of(id, a) + Of(id, c));
    }
  }

  /** Only the two outgoing queues and the flags changed, and they hold what they may. */
  lemma QueuesKeep(e: Endpoint, e': Endpoint)
    requires EndInv(e)
    requires e' == e.(writePending := e'.writePending, sink := e'.sink, synLog := e'.synLog,
                      localGoAway := e'.localGoAway, remoteGoAway := e'.remoteGoAway)
    requires AllPolite(e'.writePending) && AllPolite(e'.sink)
    ensures EndInv(e')
  {
    forall ev | ev in e'.events ensures ValidEvent(e', ev) { assert ValidEvent(e, ev); }
  }

  lemma PoliteParts(a: seq<Frame>, n: nat)
    requires AllPolite(a) && n <= |a|
    ensures AllPolite(a[..n]) && AllPolite(a[n..])
  {
  }

  lemma SendNothingDead(v: View, ready: nat)
    requires ViewInv(v) && IsDead(v.me) && v.me.writePending != []
    ensures ViewInv(v.(me := SendAll(v.me, ready)))
  {
    var me := v.me;
    var v' := v.(me := SendAll(me, ready));
    PoliteParts(me.writePending, 1);
    QueuesKeep(me, v'.me);
    var a, b, c := v.peer.readPending + me.sink, me.writePending[..1], me.writePending[1..] + EventFrames(me.events);
    assert Pipe(me, v.peer) == a + b + c;
    assert Pipe(v'.me, v.peer) == a + c;
    Cut(v, v', a, b, c);
  }

  lemma SendSome(v: View, ready: nat)
    requires ViewInv(v) && !IsDead(v.me) && v.me.writePending != []
    ensures ViewInv(v.(me := SendAll(v.me, ready)))
  {
    var me := v.me;
    var v' := v.(me := SendAll(me, ready));
    var n := Min(ready, |me.writePending|);
    PoliteParts(me.writePending, n);
    QueuesKeep(me, v'.me);
    assert me.writePending == me.writePending[..n] + me.writePending[n..];
    assert Pipe(v'.me, v.peer) == Pipe(me, v.peer);
    assert Pipe(v.peer, v'.me) == Pipe(v.peer, me);
    Unnoticed(v, v');
  }

  lemma SendAllKeeps(v: View, ready: nat)
    requires ViewInv(v)
    ensures ViewInv(v.(me := SendAll(v.me, ready)))
  {
    if v.me.writePending == [] {
      assert v.(me := SendAll(v.me, ready)) == v;
    } else if IsDead(v.me) {
      SendNothingDead(v, ready);
    } else {
      SendSome(v, ready);
    }
  }

  /** A frame of the session itself joins the write queue. */
  lemma SessionFrameKeeps(v: View, f: Frame, ready: nat)
    requires ViewInv(v) && Polite(f) && (f.header.ty.Ping? || f.header.ty.GoAway?)
    ensures ViewInv(v.(me := SendFrame(v.me, f, ready)))
  {
    var v1 := v.(me := v.me.(writePending := v.me.writePending + [f]));
    forall id ensures Proj(v1, id) == Proj(v, id) {
      var a, c := v.peer.readPending + v.me.sink + v.me.writePending, EventFrames(v.me.events);
      assert Pipe(v1.me, v.peer) == a + [f] + c;
      OfInsert(id, a, f, c);
    }
    QueuesKeep(v.me, v1.me);
    Unnoticed(v, v1);
    SendAllKeeps(v1, ready);
  }

  /** What `send_go_away_with_code` leaves: the frame sent, waiting, or lost because the session was dead. */
  lemma GoAwayShape(e: Endpoint, code: GoAwayCode, ready: nat)
    ensures var e' := SendGoAway(e, code, ready);
            && e' == e.(writePending := e'.writePending, sink := e'.sink, synLog := e'.synLog, localGoAway := true)
            && (|| (e'.writePending == [NewGoAway(code)] && e'.sink == e.sink)
                || (e'.writePending == [] && e'.sink == e.sink + [NewGoAway(code)])
                || (e'.writePending == [] && e'.sink == e.sink))
  {
    var g := NewGoAway(code);
    assert [] + [g] == [g] && [g][1..] == [] && [g][..0] == [] && [g][..1] == [g] && [g][0..] == [g];
  }

  /** GoAway: the write queue is cleared, the frame goes out or waits, the flag is set. */
  lemma GoAwayKeeps(v: View, remote: bool, ready: nat)
    requires ViewInv(v)
    ensures ViewInv(v.(me := SendGoAway(v.me.(remoteGoAway := remote), Normal, ready)))
  {
    hide PairInv, SendGoAway;
    var me := v.me;
    var g := NewGoAway(Normal);
    GoAwayShape(me.(remoteGoAway := remote), Normal, ready);
    var v' := v.(me := SendGoAway(me.(remoteGoAway := remote), Normal, ready));
    var a, b, c := v.peer.readPending + me.sink, me.writePending, EventFrames(me.events);
    assert Pipe(me, v.peer) == a + b + c;
    assert Pipe(v'.me, v.peer) == a + [g] + c || Pipe(v'.me, v.peer) == a + c;
    forall id ensures Of(id, Pipe(v'.me, v'.peer)) == Of(id, a + c) { OfInsert(id, a, g, c); }
    QueuesKeep(me, v'.me);
    Cut(v, v', a, b, c);
  }

  lemma FlagsKeep(v: View, v': View)
    requires ViewInv(v)
    requires v' == v.(me := v.me.(remoteGoAway := v'.me.remoteGoAway, eof := v'.me.eof,
             pendingStreams := v'.me.pendingStreams))
    requires CleanEnd(v'.me) ==> CleanEnd(v.me)
    ensures ViewInv(v')
  {
    assert Pipe(v'.me, v.peer) == Pipe(v.me, v.peer) && Pipe(v.peer, v'.me) == Pipe(v.peer, v.me);
    forall id ensures Proj(v', id) == Proj(v, id) || Proj(v', id) == Soil(Proj(v, id)) {}
    Unnoticed(v, v');
  }

  lemma EndStepKeeps(v: View)
    requires ViewInv(v)
    ensures ViewInv(v.(me := v.me.(up := false, streams := {})))
  {
    hide PairInv, Of;
    var v' := v.(me := v.me.(up := false, streams := {}));
    assert Pipe(v'.me, v.peer) == Pipe(v.me, v.peer) && Pipe(v.peer, v'.me) == Pipe(v.peer, v.me);
    forall id ensures PairInv(Proj(v', id)) && (Unopened(v', id) ==> Blank(Proj(v', id))) {
      assert PairInv(Proj(v, id));
      EndHolds(Proj(v, id));
      assert Proj(v', id) == End(Proj(v, id));
    }
  }

  // ---------------------------------------------------------------- opening, using

  /** Handles may be added or replaced as long as finished ones stay finished. */
  lemma HandlesKeep(e: Endpoint, e': Endpoint, id: StreamId, h: Handle, evs: seq<StreamEvent>)
    requires EndInv(e)
    requires e' == e.(handles := e.handles[id := h], events := e.events + evs, streams := e'.streams,
                      nextStreamId := e'.nextStreamId, pendingStreams := e'.pendingStreams)
    requires e'.nextStreamId % 2 == e.nextStreamId % 2 && h.stream.id == id
    requires id in e.handles && (e.handles[id].stream.state.Closed? || e.handles[id].dropped) ==>
             h.stream.state.Closed? || h.dropped
    requires forall ev :: ev in evs ==> ValidEvent(e', ev)
    ensures EndInv(e')
  {
    forall ev | ev in e'.events ensures ValidEvent(e', ev) {
      if ev in e.events { assert ValidEvent(e, ev); }
    }
  }

  lemma PipeGrows(v: View, v': View, evs: seq<StreamEvent>, id: StreamId)
    requires v'.peer == v.peer && v'.me.sink == v.me.sink && v'.me.writePending == v.me.writePending
    requires v'.me.events == v.me.events + evs
    ensures Of(id, Pipe(v'.me, v'.peer)) == Of(id, Pipe(v.me, v.peer)) + Of(id, EventFrames(evs))
  {
    EventFramesConcat(v.me.events, evs);
    assert Pipe(v'.me, v'.peer) == Pipe(v.me, v.peer) + EventFrames(evs);
    OfConcat(id, Pipe(v.me, v.peer), EventFrames(evs));
  }

  predicate CanOpen(e: Endpoint) {
    !IsDead(e) && !e.remoteGoAway && e.nextStreamId as int + 2 < U32_SIZE
  }

  lemma NextIdIsFree(v: View)
    requires ViewInv(v)
    ensures v.me.nextStreamId !in v.me.streams && v.me.nextStreamId !in v.me.handles
  {
    var newId := v.me.nextStreamId;
    assert Unopened(v, newId) && PairInv(Proj(v, newId));
    assert HalfInv(HalfOf(newId, v.me));
  }

  lemma OpenProj(v: View, id: StreamId)
    requires CanOpen(v.me) && v.me.nextStreamId !in v.me.streams && v.me.nextStreamId !in v.me.handles
    requires INITIAL_STREAM_WINDOW <= v.me.cfg.maxStreamWindow
    ensures Proj(v.(me := OpenStream(v.me)), id)
         == if id == v.me.nextStreamId then Open(Proj(v, id), id) else Proj(v, id)
  {
    hide Of, EventFrames;
    var me := v.me;
    var v' := v.(me := OpenStream(me));
    var (h, evs) := Born(true, me.nextStreamId, me.cfg.maxStreamWindow);
    BornInv(true, me.nextStreamId, me.cfg.maxStreamWindow);
    var syn := evs[0].frame;
    OneFrame(syn, []);
    assert evs == [EventFrame(syn)] + [];
    PipeGrows(v, v', evs, id);
    OfOne(id, syn);
    assert Of(id, Pipe(v.me, v.peer)) + [] == Of(id, Pipe(v.me, v.peer));
  }

  lemma OpenEnd(e: Endpoint)
    requires EndInv(e) && CanOpen(e) && e.nextStreamId !in e.streams && e.nextStreamId !in e.handles
    requires INITIAL_STREAM_WINDOW <= e.cfg.maxStreamWindow
    ensures EndInv(OpenStream(e))
  {
    var (h, evs) := Born(true, e.nextStreamId, e.cfg.maxStreamWindow);
    BornInv(true, e.nextStreamId, e.cfg.maxStreamWindow);
    HandlesKeep(e, OpenStream(e), e.nextStreamId, h, evs);
  }

  lemma WindowConfigured(v: View)
    requires ViewInv(v)
    ensures INITIAL_STREAM_WINDOW <= v.me.cfg.maxStreamWindow
  {
    assert PairInv(Proj(v, 0));
  }

  lemma OpenStreamKeeps(v: View)
    requires ViewInv(v) && v.me.up
    ensures ViewInv(v.(me := OpenStream(v.me)))
  {
    hide PairInv, EndInv, Of, Pipe;
    if CanOpen(v.me) {
      var v' := v.(me := OpenStream(v.me));
      WindowConfigured(v);
      NextIdIsFree(v);
      OpenEnd(v.me);
      forall id ensures PairInv(Proj(v', id)) && (Unopened(v', id) ==> Blank(Proj(v', id))) {
        var p := Proj(v, id);
        assert PairInv(p);
        OpenProj(v, id);
        if id == v.me.nextStreamId {
          assert Unopened(v, id);
          OpenHolds(p, id);
        }
      }
    } else {
      assert v.(me := OpenStream(v.me)) == v;
    }
  }

  /** What an event of a handle may say, given the handle it leaves behind. */
  predicate Truthful(ev: StreamEvent, h: Handle) {
    match ev
    case EventFrame(f) => StreamFrame(f) && f.header.streamId == h.stream.id
    case EventClosed(id) => id == h.stream.id && (h.stream.state.Closed? || h.dropped)
    case EventGoAway => false
  }

  /** The frames a handle emits are in its log. */
  lemma EmittedAreLogged(up: bool, hungUp: bool, h: Handle, op: Op)
    ensures var (h', evs) := Act(up, hungUp, h, op); h'.sent == h.sent + EventFrames(evs)
  {
    assert h.sent + EventFrames([]) == h.sent;
  }

  /** The events a handle emits speak of itself, and it says Closed only when it is. */
  lemma EventsAreValid(up: bool, hungUp: bool, h: Handle, op: Op)
    requires HandleInv(up, h) && HandleInv(up, Act(up, hungUp, h, op).0)
    requires EventGoAway !in Act(up, hungUp, h, op).1
    ensures var (h', evs) := Act(up, hungUp, h, op);
            && h'.stream.id == h.stream.id
            && (forall f :: f in EventFrames(evs) ==> StreamFrame(f) && f.header.streamId == h.stream.id)
            && forall ev :: ev in evs ==> Truthful(ev, h')
  {
    hide Act;
    var (h', evs) := Act(up, hungUp, h, op);
    KeepsId(up, hungUp, h, op);
    EmittedAreLogged(up, hungUp, h, op);
    ClosedEvents(up, hungUp, h, op);
    forall f | f in EventFrames(evs) ensures StreamFrame(f) && f.header.streamId == h.stream.id { assert f in h'.sent; }
    forall ev | ev in evs ensures Truthful(ev, h') {
      if ev.EventFrame? { InEventFrames(evs, ev); }
    }
  }

  lemma {:induction false} InEventFrames(evs: seq<StreamEvent>, ev: StreamEvent)
    requires ev in evs && ev.EventFrame?
    ensures ev.frame in EventFrames(evs)
  {
    if evs[0] != ev { InEventFrames(evs[1..], ev); }
  }

  lemma ClosedEvents(up: bool, hungUp: bool, h: Handle, op: Op)
    ensures var (h', evs) := Act(up, hungUp, h, op);
            forall ev :: ev in evs && ev.EventClosed? ==>
              ev.id == h.stream.id && (h'.stream.state.Closed? || h'.dropped)
  {
    if op.OpRead? { ReadSaysNotClosed(up, hungUp, h.stream, h.inbox, op.capacity); }
  }

  lemma ReadSaysNotClosed(up: bool, hungUp: bool, s: Stream, inbox: seq<Frame>, capacity: nat)
    ensures forall ev :: ev in PollRead(up, hungUp, s, inbox, capacity).events ==> !ev.EventClosed?
  {
    var (s1, inbox1, _) := RecvFrames(hungUp, s, inbox);
    CopySaysNotClosed(up, s1, inbox1, capacity);
  }

  lemma CopySaysNotClosed(up: bool, s: Stream, inbox: seq<Frame>, capacity: nat)
    ensures forall ev :: ev in CopyOut(up, s, inbox, capacity).events ==> !ev.EventClosed?
  {
  }

  lemma ReadKeepsId(up: bool, hungUp: bool, s: Stream, inbox: seq<Frame>, capacity: nat)
    requires StreamFrames(inbox) && WindowInv(s)
    ensures PollRead(up, hungUp, s, inbox, capacity).stream.id == s.id
  {
    RecvFramesConserves(hungUp, s, inbox);
    var (s1, inbox1, _) := RecvFrames(hungUp, s, inbox);
    CopyKeepsId(up, s1, inbox1, capacity);
  }

  lemma KeepsId(up: bool, hungUp: bool, h: Handle, op: Op)
    requires HandleInv(up, h)
    ensures Act(up, hungUp, h, op).0.stream.id == h.stream.id
  {
    if op.OpRead? { ReadKeepsId(up, hungUp, h.stream, h.inbox, op.capacity); }
  }

  lemma CopyKeepsId(up: bool, s: Stream, inbox: seq<Frame>, capacity: nat)
    ensures CopyOut(up, s, inbox, capacity).stream.id == s.id
  {
  }

  function Emitted(e: Endpoint, key: StreamId, op: Op): seq<StreamEvent>
    requires key in e.handles
  {
    Act(e.up, LetGo(e, key), e.handles[key], op).1
  }

  /** One handle changes or appears and its frames join the pipe. */
  lemma HandleProj(v: View, v': View, key: StreamId, h: Handle, evs: seq<StreamEvent>, id: StreamId)
    requires v'.peer == v.peer
    requires v'.me == v.me.(handles := v.me.handles[key := h], events := v.me.events + evs,
                            streams := v'.me.streams, pendingStreams := v'.me.pendingStreams)
    requires id != key ==> (id in v'.me.streams <==> id in v.me.streams)
    requires forall f :: f in EventFrames(evs) ==> OfStream(key, f)
    ensures Proj(v', id) == if id != key then Proj(v, id)
                            else Proj(v, id).(me := HalfOf(id, v.me).(handle := Some(h), held := key in v'.me.streams),
                                              out := Of(id, Pipe(v.me, v.peer)) + EventFrames(evs))
  {
    PipeGrows(v, v', evs, id);
    assert Pipe(v'.peer, v'.me) == Pipe(v.peer, v.me);
    if id == key {
      OfAll(id, EventFrames(evs));
    } else {
      OfNone(id, EventFrames(evs));
      assert Of(id, Pipe(v.me, v.peer)) + [] == Of(id, Pipe(v.me, v.peer));
    }
  }

  lemma UseProj(v: View, key: StreamId, op: Op, id: StreamId)
    requires key in v.me.handles
    requires forall f :: f in EventFrames(Emitted(v.me, key, op)) ==> OfStream(key, f)
    ensures Proj(v.(me := UseHandle(v.me, key, op)), id) == if id == key then Use(Proj(v, id), op) else Proj(v, id)
  {
    var (h, evs) := Act(v.me.up, LetGo(v.me, key), v.me.handles[key], op);
    assert evs == Emitted(v.me, key, op);
    HandleProj(v, v.(me := UseHandle(v.me, key, op)), key, h, evs, id);
    if id == key { assert HungUp(Proj(v, id).me) == LetGo(v.me, key); }
  }

  lemma UseEnd(e: Endpoint, key: StreamId, op: Op)
    requires EndInv(e) && key in e.handles && HandleInv(e.up, e.handles[key])
    requires HandleInv(e.up, Act(e.up, LetGo(e, key), e.handles[key], op).0)
    requires EventGoAway !in Emitted(e, key, op)
    ensures EndInv(UseHandle(e, key, op))
    ensures forall f :: f in EventFrames(Emitted(e, key, op)) ==> OfStream(key, f)
  {
    hide Act, HandleInv, EventFrames, AllPolite, StreamFrames, Truthful;
    var h, hungUp := e.handles[key], LetGo(e, key);
    EventsAreValid(e.up, hungUp, h, op);
    if h.stream.state.Closed? || h.dropped { ClosedStays(e.up, hungUp, h, op); }
    var (h', evs) := Act(e.up, hungUp, h, op);
    var e' := UseHandle(e, key, op);
    assert h.stream.id == key;
    forall ev | ev in evs ensures ValidEvent(e', ev) { TruthIsValid(e', key, ev); }
    HandlesKeep(e, e', key, h', evs);
  }

  lemma TruthIsValid(e: Endpoint, key: StreamId, ev: StreamEvent)
    requires key in e.handles && e.handles[key].stream.id == key && Truthful(ev, e.handles[key])
    ensures ValidEvent(e, ev)
  {
  }

  lemma UsedHalf(p: Pair, op: Op)
    requires PairInv(p) && p.me.handle.Some?
    ensures HandleInv(p.me.up, p.me.handle.value)
    ensures HandleInv(p.me.up, Act(p.me.up, HungUp(p.me), p.me.handle.value, op).0)
  {
    HalfAfter(p, op);
  }

  /** What `UseHolds` says about the stream that is used, in the system's terms. */
  lemma UsedPair(v: View, key: StreamId, op: Op)
    requires ViewInv(v) && key in v.me.handles
    ensures PairInv(Use(Proj(v, key), op))
    ensures HandleInv(v.me.up, v.me.handles[key])
    ensures HandleInv(v.me.up, Act(v.me.up, LetGo(v.me, key), v.me.handles[key], op).0)
    ensures EventGoAway !in Emitted(v.me, key, op)
  {
    var p := Proj(v, key);
    assert PairInv(p);
    assert HungUp(p.me) == LetGo(v.me, key);
    UseHolds(p, op);
    UsedHalf(p, op);
  }

  lemma UseHandleKeeps(v: View, key: StreamId, op: Op)
    requires ViewInv(v)
    ensures ViewInv(v.(me := UseHandle(v.me, key, op)))
  {
    hide PairInv, Act, EndInv, Of;
    var v' := v.(me := UseHandle(v.me, key, op));
    if key in v.me.handles {
      UsedPair(v, key, op);
      UseEnd(v.me, key, op);
      forall id ensures PairInv(Proj(v', id)) && (Unopened(v', id) ==> Blank(Proj(v', id))) {
        UseProj(v, key, op, id);
        assert PairInv(Proj(v, id));
        if Unopened(v', id) { assert Unopened(v, id); }
      }
    } else {
      assert v' == v;
    }
  }

  lemma {:induction false} OfAll(id: StreamId, a: seq<Frame>)
    requires forall f :: f in a ==> OfStream(id, f)
    ensures Of(id, a) == a
  {
    if a != [] {
      assert a[0] in a;
      assert forall f :: f in a[1..] ==> f in a;
      OfAll(id, a[1..]);
    }
  }

  // ---------------------------------------------------------------- events and frames come in

  lemma FrameEventKeeps(v: View, ready: nat)
    requires ViewInv(v) && v.me.events != [] && v.me.events[0].EventFrame?
    ensures ViewInv(v.(me := HandleEvent(v.me, ready)))
  {
    hide PairInv, Of;
    var me := v.me;
    var f := me.events[0].frame;
    assert ValidEvent(me, me.events[0]);
    var v1 := v.(me := me.(events := me.events[1..], writePending := me.writePending + [f]));
    forall ev | ev in v1.me.events ensures ValidEvent(v1.me, ev) { assert ev in me.events; assert ValidEvent(me, ev); }
    assert EventFrames(me.events) == [f] + EventFrames(me.events[1..]);
    assert Pipe(v1.me, v.peer) == Pipe(me, v.peer);
    assert Pipe(v.peer, v1.me) == Pipe(v.peer, me);
    Unnoticed(v, v1);
    SendAllKeeps(v1, ready);
  }

  lemma ForgetProj(v: View, v': View, key: StreamId, id: StreamId)
    requires PairInv(Proj(v, id)) && (key == id ==> ValidEvent(v.me, EventClosed(key)))
    requires v' == v.(me := v'.me) && v'.me == v.me.(events := v'.me.events, streams := v.me.streams - {key})
    requires Pipe(v'.me, v.peer) == Pipe(v.me, v.peer)
    ensures PairInv(Proj(v', id))
    ensures Unopened(v', id) ==> Unopened(v, id)
    ensures Blank(Proj(v, id)) ==> Blank(Proj(v', id))
  {
    hide PairInv, Of;
    assert Pipe(v.peer, v'.me) == Pipe(v.peer, v.me);
    if id == key {
      ForgetHolds(Proj(v, id));
      assert Proj(v', id) == Forget(Proj(v, id));
    } else {
      assert Proj(v', id) == Proj(v, id);
    }
  }

  lemma ClosedEventKeeps(v: View, ready: nat)
    requires ViewInv(v) && v.me.events != [] && v.me.events[0].EventClosed?
    ensures ViewInv(v.(me := HandleEvent(v.me, ready)))
  {
    hide PairInv, Proj;
    var me := v.me;
    var key := me.events[0].id;
    assert ValidEvent(me, me.events[0]);
    var v' := v.(me := HandleEvent(me, ready));
    forall ev | ev in v'.me.events ensures ValidEvent(v'.me, ev) { assert ev in me.events; assert ValidEvent(me, ev); }
    assert EventFrames(me.events) == [] + EventFrames(me.events[1..]);
    assert Pipe(v'.me, v.peer) == Pipe(me, v.peer);
    forall id ensures PairInv(Proj(v', id)) && (Unopened(v', id) ==> Blank(Proj(v', id))) {
      assert PairInv(Proj(v, id));
      ForgetProj(v, v', key, id);
    }
  }

  lemma EventKeeps(v: View, ready: nat)
    requires ViewInv(v) && v.me.events != []
    ensures ViewInv(v.(me := HandleEvent(v.me, ready)))
  {
    assert ValidEvent(v.me, v.me.events[0]);
    if v.me.events[0].EventFrame? { FrameEventKeeps(v, ready); } else { ClosedEventKeeps(v, ready); }
  }

  /** The transport delivers a frame of the session itself: no stream notices. */
  lemma SessionFrameLeaves(v: View)
    requires ViewInv(v) && v.peer.sink != []
    requires v.peer.sink[0].header.ty.Ping? || v.peer.sink[0].header.ty.GoAway?
    ensures ViewInv(v.(peer := v.peer.(sink := v.peer.sink[1..])))
  {
    hide PairInv, Of;
    var v' := v.(peer := v.peer.(sink := v.peer.sink[1..]));
    PoliteParts(v.peer.sink, 1);
    QueuesKeep(v.peer, v'.peer);
    var f := v.peer.sink[0];
    var a, c := v.me.readPending, v.peer.sink[1..] + v.peer.writePending + EventFrames(v.peer.events);
    assert Pipe(v.peer, v.me) == a + [f] + c;
    assert Pipe(v'.peer, v.me) == a + c;
    assert Pipe(v.me, v'.peer) == Pipe(v.me, v.peer);
    forall id ensures Proj(v', id) == Proj(v, id) { OfInsert(id, a, f, c); }
    Unnoticed(v, v');
  }

  lemma StreamFrameArrives(v: View)
    requires ViewInv(v) && v.peer.sink != []
    requires v.peer.sink[0].header.ty.Data? || v.peer.sink[0].header.ty.WindowUpdate?
    ensures ViewInv(View(v.me.(readPending := v.me.readPending + [v.peer.sink[0]]), v.peer.(sink := v.peer.sink[1..])))
  {
    hide PairInv, Of, Unopened;
    var f := v.peer.sink[0];
    var v' := View(v.me.(readPending := v.me.readPending + [f]), v.peer.(sink := v.peer.sink[1..]));
    PoliteParts(v.peer.sink, 1);
    QueuesKeep(v.peer, v'.peer);
    assert Polite(f) by { assert f in v.peer.sink; }
    forall ev | ev in v'.me.events ensures ValidEvent(v'.me, ev) { assert ValidEvent(v.me, ev); }
    assert EndInv(v'.me);
    assert v.peer.sink == [f] + v.peer.sink[1..];
    assert Pipe(v'.peer, v'.me) == Pipe(v.peer, v.me);
    assert Pipe(v'.me, v'.peer) == Pipe(v.me, v.peer);
    Unnoticed(v, v');
  }

  lemma HandleGoAwayKeeps(v: View, ready: nat)
    requires ViewInv(v)
    ensures ViewInv(v.(me := HandleGoAway(v.me, ready)))
  {
    var me := v.me;
    if me.localGoAway {
      var v' := v.(me := HandleGoAway(me, ready));
      QueuesKeep(me, v'.me);
      var a, b, c := v.peer.readPending + me.sink, me.writePending, EventFrames(me.events);
      assert Pipe(me, v.peer) == a + b + c;
      assert Pipe(v'.me, v.peer) == a + c;
      Cut(v, v', a, b, c);
    } else {
      GoAwayKeeps(v, true, ready);
    }
  }

  lemma ReceiveKeeps(v: View, ready: nat)
    requires ViewInv(v) && v.peer.sink != []
    ensures ViewInv(View(YamuxSession.HandleFrame(v.me, v.peer.sink[0], ready), v.peer.(sink := v.peer.sink[1..])))
  {
    var f := v.peer.sink[0];
    if f.header.ty.Data? || f.header.ty.WindowUpdate? {
      StreamFrameArrives(v);
    } else {
      var v1 := v.(peer := v.peer.(sink := v.peer.sink[1..]));
      SessionFrameLeaves(v);
      if f.header.ty.GoAway? {
        HandleGoAwayKeeps(v1, ready);
      } else if f.header.flags.syn {
        SessionFrameKeeps(v1, NewPing(Only(Ack), f.header.length), ready);
      }
    }
  }
}
