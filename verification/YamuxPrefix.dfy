/** What a reader is handed is a prefix of what was written, in every run in which no GoAway was sent, even if
    connections end and sessions are dropped: what a session can no longer send is a tail. */
module YamuxPrefix {
  import opened Common
  import opened YamuxFrame
  import opened YamuxStream
  import opened YamuxHandle
  import opened YamuxPair
  import opened YamuxPairUse
  import opened YamuxOrder
  import opened YamuxSession
  import opened YamuxSystem
  import opened YamuxDistribute
  import opened YamuxTheorems
  import opened YamuxSynOrder
  import opened YamuxTable

  // ---------------------------------------------------------------- what can still arrive

  /** The session still sends. */
  predicate Alive(e: Endpoint) { !e.eof && e.up }

  /** What has left a session or can still leave it. */
  function Tail(e: Endpoint): seq<Frame> { e.sink + if Alive(e) then e.writePending + EventFrames(e.events) else [] }

  /** The frames of a stream that can still reach the channel of its handle. */
  function Coming(from: Endpoint, to: Endpoint, id: StreamId): seq<Frame> { Of(id, to.readPending + Tail(from)) }

  /** What was received is a prefix of what was written; followed by what can still arrive it is one, too, and while the
      sender still sends, it is everything. */
  predicate Flow(sending: bool, s: Half, r: Half, d: seq<Frame>) {
    r.up ==>
      && ReceivedBy(r) <= WrittenBy(s)
      && (Live(r, d) ==>
            var all := ReceivedBy(r) + Bodies(Path(r, d));
            all <= WrittenBy(s) && (sending ==> all == WrittenBy(s)))
  }

  predicate FlowsTo(from: Endpoint, to: Endpoint, id: StreamId) {
    Flow(Alive(from), HalfOf(id, from), HalfOf(id, to), Coming(from, to, id))
  }

  predicate Calm(v: View) { !v.me.localGoAway && !v.peer.localGoAway }

  predicate FlowInv(v: View) { Calm(v) ==> forall id :: FlowsTo(v.me, v.peer, id) && FlowsTo(v.peer, v.me, id) }

  // ---------------------------------------------------------------- steps that no stream notices

  /** The same handles and the same frames to come. */
  lemma SameFlow(from: Endpoint, to: Endpoint, from': Endpoint, to': Endpoint, id: StreamId)
    requires FlowsTo(from, to, id)
    requires HalfOf(id, from').handle == HalfOf(id, from).handle && HalfOf(id, to').handle == HalfOf(id, to).handle
    requires Alive(from') == Alive(from) && (to'.up ==> to.up) && Coming(from', to', id) == Coming(from, to, id)
    ensures FlowsTo(from', to', id)
  {
    hide Coming, Bodies;
  }

  lemma QuietStep(v: View, v': View)
    requires FlowInv(v) && v'.me.handles == v.me.handles && v'.peer.handles == v.peer.handles
    requires Alive(v'.me) == Alive(v.me) && Alive(v'.peer) == Alive(v.peer) && v'.me.up == v.me.up
             && v'.peer.up == v.peer.up
    requires Calm(v') ==> Calm(v)
    requires Calm(v') ==> forall id :: Coming(v'.me, v'.peer, id) == Coming(v.me, v.peer, id)
    requires Calm(v') ==> forall id :: Coming(v'.peer, v'.me, id) == Coming(v.peer, v.me, id)
    ensures FlowInv(v')
  {
    hide Coming, FlowsTo, Alive;
    if Calm(v') {
      forall id ensures FlowsTo(v'.me, v'.peer, id) && FlowsTo(v'.peer, v'.me, id) {
        assert FlowsTo(v.me, v.peer, id) && FlowsTo(v.peer, v.me, id);
        SameFlow(v.me, v.peer, v'.me, v'.peer, id);
        SameFlow(v.peer, v.me, v'.peer, v'.me, id);
      }
    }
  }

  /** A session that changes nothing but its queues, and keeps its tail. */
  lemma QueuesFlow(v: View, e: Endpoint)
    requires FlowInv(v) && e.handles == v.me.handles && e.up == v.me.up && e.eof == v.me.eof
    requires e.readPending == v.me.readPending && e.localGoAway == v.me.localGoAway
    requires Calm(v) ==> forall id :: Of(id, Tail(e)) == Of(id, Tail(v.me))
    ensures FlowInv(v.(me := e))
  {
    hide Tail, FlowInv, Of;
    var v' := v.(me := e);
    if Calm(v) {
      forall id ensures Coming(e, v.peer, id) == Coming(v.me, v.peer, id)
          && Coming(v.peer, e, id) == Coming(v.peer, v.me, id) {
        OfConcat(id, v.peer.readPending, Tail(e));
        OfConcat(id, v.peer.readPending, Tail(v.me));
      }
    }
    QuietStep(v, v');
  }

  lemma SendAllTail(e: Endpoint, ready: nat)
    requires !e.localGoAway && e.up
    ensures Tail(SendAll(e, ready)) == Tail(e)
  {
    if e.writePending != [] && !IsDead(e) {
      var n := Min(ready, |e.writePending|);
      var x, y, evs := e.writePending[..n], e.writePending[n..], EventFrames(e.events);
      assert e.writePending == x + y;
      assert (e.sink + x) + (y + evs) == e.sink + (x + y + evs);
    }
  }

  lemma SendAllFlows(v: View, ready: nat)
    requires FlowInv(v) && v.me.up
    ensures FlowInv(v.(me := SendAll(v.me, ready)))
  {
    hide FlowInv, Tail;
    if Calm(v) { SendAllTail(v.me, ready); }
    QueuesFlow(v, SendAll(v.me, ready));
  }

  /** A frame without bytes and SYN joins the write queue, in front of the events. */
  lemma JoinsTail(e: Endpoint, f: Frame, id: StreamId)
    ensures var e' := e.(writePending := e.writePending + [f]);
            !OfStream(id, f) || !Alive(e) ==> Of(id, Tail(e')) == Of(id, Tail(e))
  {
    hide Of;
    var e' := e.(writePending := e.writePending + [f]);
    if Alive(e) {
      var a, c := e.sink + e.writePending, EventFrames(e.events);
      assert Tail(e') == a + [f] + c && Tail(e) == a + c;
      OfInsert(id, a, f, c);
    }
  }

  lemma PingFlows(v: View, f: Frame, ready: nat)
    requires FlowInv(v) && v.me.up && f.header.ty.Ping?
    ensures FlowInv(v.(me := SendFrame(v.me, f, ready)))
  {
    hide FlowInv, Tail, SendAll, Of;
    var e := v.me.(writePending := v.me.writePending + [f]);
    forall id ensures Of(id, Tail(e)) == Of(id, Tail(v.me)) { JoinsTail(v.me, f, id); }
    QueuesFlow(v, e);
    SendAllFlows(v.(me := e), ready);
  }

  lemma GoneAway(v: View, v': View)
    requires v'.me.localGoAway
    ensures FlowInv(v')
  {
  }

  lemma EventFlows(v: View, ready: nat)
    requires ViewInv(v) && FlowInv(v) && v.me.up && v.me.events != []
    ensures FlowInv(v.(me := HandleEvent(v.me, ready)))
  {
    hide FlowInv, SendAll, ViewInv, Of;
    NoComplaint(v);
    var e, ev := v.me, v.me.events[0];
    assert EventFrames(e.events) == (if ev.EventFrame? then [ev.frame] else []) + EventFrames(e.events[1..]);
    if ev.EventFrame? {
      var e1 := e.(events := e.events[1..], writePending := e.writePending + [ev.frame]);
      assert Tail(e1) == Tail(e);
      QueuesFlow(v, e1);
      SendAllFlows(v.(me := e1), ready);
    } else {
      assert Tail(HandleEvent(e, ready)) == Tail(e);
      QueuesFlow(v, HandleEvent(e, ready));
    }
  }

  lemma ReceiveFlows(v: View, ready: nat)
    requires FlowInv(v) && v.me.up && v.peer.sink != []
    ensures FlowInv(View(YamuxSession.HandleFrame(v.me, v.peer.sink[0], ready), v.peer.(sink := v.peer.sink[1..])))
  {
    hide FlowInv, SendFrame, SendGoAway;
    var f := v.peer.sink[0];
    match f.header.ty
    case Data | WindowUpdate => FrameArrives(v);
    case Ping =>
      var v1 := v.(peer := v.peer.(sink := v.peer.sink[1..]));
      SessionFrameGoes(v, v1);
      if f.header.flags.syn { PingFlows(v1, NewPing(Only(Ack), f.header.length), ready); }
    case GoAway =>
      GoAwayShape(v.me.(remoteGoAway := true, writePending := []), Normal, ready);
      GoneAway(v, View(YamuxSession.HandleFrame(v.me, f, ready), v.peer.(sink := v.peer.sink[1..])));
  }

  lemma FrameArrives(v: View)
    requires FlowInv(v) && v.peer.sink != []
    ensures FlowInv(View(v.me.(readPending := v.me.readPending + [v.peer.sink[0]]), v.peer.(sink := v.peer.sink[1..])))
  {
    hide FlowInv, Of, EventFrames;
    var v' := View(v.me.(readPending := v.me.readPending + [v.peer.sink[0]]), v.peer.(sink := v.peer.sink[1..]));
    var more := if Alive(v.peer) then v.peer.writePending + EventFrames(v.peer.events) else [];
    assert v.peer.sink == [v.peer.sink[0]] + v.peer.sink[1..];
    assert v'.me.readPending + (v.peer.sink[1..] + more) == v.me.readPending + (v.peer.sink + more);
    assert Tail(v'.me) == Tail(v.me);
    QuietStep(v, v');
  }

  lemma SessionFrameGoes(v: View, v1: View)
    requires FlowInv(v) && v.peer.sink != [] && v.peer.sink[0].header.ty.Ping?
    requires v1 == v.(peer := v.peer.(sink := v.peer.sink[1..]))
    ensures FlowInv(v1)
  {
    hide FlowInv, Of, EventFrames;
    forall id ensures Coming(v1.peer, v1.me, id) == Coming(v.peer, v.me, id) { FrontLeaves(v, id); }
    assert Tail(v1.me) == Tail(v.me);
    QuietStep(v, v1);
  }

  lemma FrontLeaves(v: View, id: StreamId)
    requires v.peer.sink != [] && !OfStream(id, v.peer.sink[0])
    ensures Coming(v.peer.(sink := v.peer.sink[1..]), v.me, id) == Coming(v.peer, v.me, id)
  {
    hide Of;
    var p' := v.peer.(sink := v.peer.sink[1..]);
    var rest := v.peer.sink[1..] + if Alive(v.peer) then v.peer.writePending + EventFrames(v.peer.events) else [];
    assert Tail(v.peer) == [v.peer.sink[0]] + rest && Tail(p') == rest;
    assert v.me.readPending + Tail(v.peer) == v.me.readPending + [v.peer.sink[0]] + rest;
    OfInsert(id, v.me.readPending, v.peer.sink[0], rest);
  }

  // ---------------------------------------------------------------- a sender stops

  lemma {:induction false} BodiesPrefix(a: seq<Frame>, b: seq<Frame>)
    ensures Bodies(a) <= Bodies(a + b)
  {
    BodiesConcat(a, b);
  }

  lemma SynFlagPrefix(a: seq<Frame>, b: seq<Frame>)
    requires HasFlag(a, Syn)
    ensures HasFlag(a + b, Syn)
  {
    var k :| 0 <= k < |a| && Contains(a[k].header.flags, Syn);
    assert (a + b)[k] == a[k];
  }

  lemma ShorterFlow(sending: bool, s: Half, r: Half, d: seq<Frame>, rest: seq<Frame>)
    requires Flow(sending, s, r, d + rest)
    ensures Flow(false, s, r, d)
  {
    hide Bodies, HasFlag;
    if Live(r, d) {
      if r.handle.None? { SynFlagPrefix(d, rest); }
      assert Path(r, d + rest) == Path(r, d) + rest;
      BodiesPrefix(Path(r, d), rest);
      var got, a, b := ReceivedBy(r), Bodies(Path(r, d)), Bodies(Path(r, d + rest));
      assert b == a + b[|a|..];
      assert got + b == (got + a) + b[|a|..];
    }
  }

  lemma StopFlows(v: View, e: Endpoint)
    requires FlowInv(v) && e == v.me.(eof := e.eof, up := e.up, streams := e.streams) && (e.up ==> v.me.up) && !Alive(e)
    ensures FlowInv(v.(me := e))
  {
    hide Of, Flow;
    if Calm(v) {
      forall id ensures FlowsTo(e, v.peer, id) && FlowsTo(v.peer, e, id) {
        assert FlowsTo(v.me, v.peer, id) && FlowsTo(v.peer, v.me, id);
        var more := if Alive(v.me) then v.me.writePending + EventFrames(v.me.events) else [];
        assert v.peer.readPending + Tail(v.me) == (v.peer.readPending + v.me.sink) + more;
        assert v.peer.readPending + Tail(e) == v.peer.readPending + v.me.sink;
        OfConcat(id, v.peer.readPending + v.me.sink, more);
        ShorterFlow(Alive(v.me), HalfOf(id, v.me), HalfOf(id, v.peer), Coming(e, v.peer, id), Of(id, more));
        OtherHalf(Alive(v.peer), HalfOf(id, v.peer), HalfOf(id, v.me), HalfOf(id, e), Coming(v.peer, e, id));
        HeldIsFree(false, HalfOf(id, v.me), HalfOf(id, e), HalfOf(id, v.peer), Coming(e, v.peer, id));
      }
    }
  }

  lemma OtherHalf(sending: bool, s: Half, r: Half, r': Half, d: seq<Frame>)
    requires Flow(sending, s, r, d) && r'.handle == r.handle && (r'.up ==> r.up)
    ensures Flow(sending, s, r', d)
  {
    hide Bodies;
  }

  lemma HeldIsFree(sending: bool, s: Half, s': Half, r: Half, d: seq<Frame>)
    requires Flow(sending, s, r, d) && WrittenBy(s') == WrittenBy(s)
    ensures Flow(sending, s', r, d)
  {
    hide Bodies;
  }

  // ---------------------------------------------------------------- a handle is used

  lemma CopyConserves(read: seq<byte>, s: Stream, inbox: seq<Frame>, capacity: nat)
    ensures var r := CopyOut(true, s, inbox, capacity);
            var read' := read + if r.result.ReadBytes? then r.result.data else [];
            r.inbox == inbox && read' + r.stream.readBuf == read + s.readBuf
  {
    hide SendWindowUpdate;
    var n := Min(capacity, |s.readBuf|);
    assert s.readBuf == s.readBuf[..n] + s.readBuf[n..];
    if n > 0 {
      UpdateKeepsBuffer(true, s.(readBuf := s.readBuf[n..]));
      UpdateSucceeds(s.(readBuf := s.readBuf[n..]));
    }
  }

  lemma UpdateSucceeds(s: Stream)
    ensures SendWindowUpdate(true, s).2
  {
  }

  /** While its session lives, a read moves bytes from the channel to the buffer and from there to the reader, and a
      handle that has stopped takes none from the channel. */
  lemma ReadConserves(hungUp: bool, h: Handle, capacity: nat)
    requires !h.dropped && StreamFrames(h.inbox) && WindowInv(h.stream)
    requires !IsProtocolError(RecvFrames(hungUp, h.stream, h.inbox).2)
    ensures var h' := Act(true, hungUp, h, OpRead(capacity)).0;
            && h'.read + h'.stream.readBuf + Bodies(h'.inbox) == h.read + h.stream.readBuf + Bodies(h.inbox)
            && (!Receiving(h.stream) ==> h'.read + h'.stream.readBuf == h.read + h.stream.readBuf)
            && h'.written == h.written && !h'.dropped
  {
    hide Bodies, RecvFrames, CopyOut, Act, HasFlag, WindowInv;
    assert h.read + [] == h.read;
    if CheckSelfState(h.stream).None? {
      RecvFramesConserves(hungUp, h.stream, h.inbox);
      var (s, inbox, _) := RecvFrames(hungUp, h.stream, h.inbox);
      if !Receiving(h.stream) { StaysPut(hungUp, h.stream, h.inbox); }
      var h1 := h.(stream := s, inbox := inbox, sawFin := h.sawFin || HasFlag(Consumed(h.inbox, inbox), Fin));
      ReadUnfolds(true, hungUp, h, h1, capacity);
      CopyConserves(h.read, s, inbox, capacity);
      Associate(h.read, s.readBuf, Bodies(inbox));
      Associate(h.read, h.stream.readBuf, Bodies(h.inbox));
    } else {
      ReadsNothing(hungUp, h, capacity);
    }
  }

  lemma ReadsNothing(hungUp: bool, h: Handle, capacity: nat)
    requires !h.dropped && CheckSelfState(h.stream).Some?
    ensures var h' := Act(true, hungUp, h, OpRead(capacity)).0;
            h'.stream == h.stream && h'.inbox == h.inbox && h'.read == h.read + [] && h'.written == h.written
                && !h'.dropped
  {
  }

  lemma Associate(a: seq<byte>, b: seq<byte>, c: seq<byte>)
    ensures a + (b + c) == a + b + c
  {
  }

  lemma StaysPut(hungUp: bool, s: Stream, inbox: seq<Frame>)
    requires !Receiving(s)
    ensures RecvFrames(hungUp, s, inbox).0 == s && RecvFrames(hungUp, s, inbox).1 == inbox
  {
  }

  /** What a use does to the receiving side of its handle. */
  lemma ActConserves(hungUp: bool, h: Handle, op: Op)
    requires StreamFrames(h.inbox) && WindowInv(h.stream)
    requires !h.dropped ==> !IsProtocolError(RecvFrames(hungUp, h.stream, h.inbox).2)
    ensures var h' := Act(true, hungUp, h, op).0;
            && (!h'.dropped && Receiving(h'.stream) ==> !h.dropped && Receiving(h.stream))
            && (!h'.dropped ==>
                  h'.read + h'.stream.readBuf + Bodies(h'.inbox) == h.read + h.stream.readBuf + Bodies(h.inbox))
            && (h.dropped || h'.dropped || !Receiving(h.stream) ==>
               h'.read + h'.stream.readBuf == h.read + h.stream.readBuf)
  {
    hide Bodies, RecvFrames;
    if !Receiving(h.stream) || h.dropped { StoppedStays(true, hungUp, h, op); }
    if op.OpRead? && !h.dropped { ReadConserves(hungUp, h, op.capacity); } else { OtherConserves(hungUp, h, op); }
  }

  lemma OtherConserves(hungUp: bool, h: Handle, op: Op)
    requires h.dropped || !op.OpRead?
    ensures var h' := Act(true, hungUp, h, op).0;
            h'.read == h.read && h'.stream.readBuf == h.stream.readBuf && (!h'.dropped ==> h'.inbox == h.inbox)
  {
  }

  /** The direction towards the handle that is used. */
  lemma UseFlowsIn(sending: bool, s: Half, r: Half, r': Half, d: seq<Frame>, h': Handle)
    requires Flow(sending, s, r, d) && r.handle.Some? && r' == r.(handle := Some(h'))
    requires var h := r.handle.value;
             && (!h'.dropped && Receiving(h'.stream) ==> !h.dropped && Receiving(h.stream))
             && (!h'.dropped ==>
                   h'.read + h'.stream.readBuf + Bodies(h'.inbox) == h.read + h.stream.readBuf + Bodies(h.inbox))
             && (h.dropped || h'.dropped || !Receiving(h.stream) ==>
                h'.read + h'.stream.readBuf == h.read + h.stream.readBuf)
    ensures Flow(sending, s, r', d)
  {
    hide Bodies;
    var h := r.handle.value;
    var a, b, x, y, z := h.read + h.stream.readBuf, h'.read + h'.stream.readBuf, Bodies(h.inbox), Bodies(h'.inbox),
        Bodies(d);
    BodiesConcat(h.inbox, d);
    BodiesConcat(h'.inbox, d);
    Associate(a, x, z);
    Associate(b, y, z);
    if r.up && !h.dropped && !h'.dropped && Receiving(h.stream) {
      assert b + (y + z) == a + (x + z);
      assert b <= b + (y + z);
    }
  }

  /** The direction away from it: what it wrote joins what is coming, unless the session has stopped sending. */
  lemma UseFlowsOut(sending: bool, s: Half, s': Half, r: Half, d: seq<Frame>, more: seq<Frame>)
    requires Flow(sending, s, r, d) && WrittenBy(s') == WrittenBy(s) + Bodies(more) && !HasFlag(more, Syn)
    ensures sending ==> Flow(true, s', r, d + more)
    ensures !sending ==> Flow(false, s', r, d)
  {
    hide Bodies, HasFlag;
    if r.up && sending && Live(r, d + more) {
      if r.handle.None? { NoSynAdded(d, more); }
      assert Path(r, d + more) == Path(r, d) + more;
      BodiesConcat(Path(r, d), more);
      Associate(ReceivedBy(r), Bodies(Path(r, d)), Bodies(more));
    }
  }

  lemma NoSynAdded(d: seq<Frame>, more: seq<Frame>)
    requires !HasFlag(more, Syn)
    ensures HasFlag(d + more, Syn) ==> HasFlag(d, Syn)
  {
    assert forall k :: 0 <= k < |more| ==> (d + more)[|d| + k] == more[k];
  }

  /** What is still coming is the front of everything under way. */
  lemma ComingIsFront(from: Endpoint, to: Endpoint, id: StreamId)
    ensures Coming(from, to, id) <= Of(id, Pipe(from, to))
  {
    hide Of;
    var more := if Alive(from) then [] else from.writePending + EventFrames(from.events);
    assert Pipe(from, to) == (to.readPending + Tail(from)) + more;
    OfConcat(id, to.readPending + Tail(from), more);
  }

  /** More events at the end of the queue. */
  lemma TailGrows(v: View, e: Endpoint, evs: seq<StreamEvent>, id: StreamId)
    requires e.sink == v.me.sink && e.writePending == v.me.writePending && e.events == v.me.events + evs
    requires Alive(e) == Alive(v.me)
    ensures Coming(e, v.peer, id) == Coming(v.me, v.peer, id) + if Alive(e) then Of(id, EventFrames(evs)) else []
  {
    hide Of;
    if Alive(e) {
      EventFramesConcat(v.me.events, evs);
      var a, b, c := v.me.sink, v.me.writePending, EventFrames(v.me.events);
      assert v.peer.readPending + Tail(e) == (v.peer.readPending + Tail(v.me)) + EventFrames(evs);
      OfConcat(id, v.peer.readPending + Tail(v.me), EventFrames(evs));
    } else {
      assert Tail(e) == Tail(v.me);
    }
  }

  lemma UsedWrites(v: View, key: StreamId, op: Op)
    requires ViewInv(v) && key in v.me.handles
    ensures var (h', evs) := Act(v.me.up, LetGo(v.me, key), v.me.handles[key], op);
            && h'.written == v.me.handles[key].written + Bodies(EventFrames(evs))
            && (forall f :: f in EventFrames(evs) ==> OfStream(key, f))
            && !HasFlag(EventFrames(evs), Syn)
  {
    hide Act, ViewInv;
    UsedPair(v, key, op);
    assert EndInv(v.me) by { assert ViewInv(v); ViewEnds(v); }
    UseEnd(v.me, key, op);
    ActWrites(v.me.up, LetGo(v.me, key), v.me.handles[key], op);
    NotInit(v.me.up, v.me.handles[key]);
    ActSendsNoSyn(v.me.up, LetGo(v.me, key), v.me.handles[key], op);
    var frames := EventFrames(Act(v.me.up, LetGo(v.me, key), v.me.handles[key], op).1);
    NoSynFrames(key, frames);
  }

  lemma ViewEnds(v: View)
    requires ViewInv(v)
    ensures EndInv(v.me)
  {
  }

  lemma NotInit(up: bool, h: Handle)
    requires HandleInv(up, h)
    ensures !h.stream.state.Init? && StreamFrames(h.inbox) && WindowInv(h.stream)
  {
  }

  lemma NoSynFrames(key: StreamId, frames: seq<Frame>)
    requires forall f :: f in frames ==> OfStream(key, f) && !IsSyn(f)
    ensures !HasFlag(frames, Syn)
  {
    forall k | 0 <= k < |frames| ensures !Contains(frames[k].header.flags, Syn) { assert frames[k] in frames; }
  }

  lemma UseFlowsAt(v: View, key: StreamId, op: Op)
    requires ViewInv(v) && key in v.me.handles && FlowsTo(v.me, v.peer, key) && FlowsTo(v.peer, v.me, key)
    ensures var e := UseHandle(v.me, key, op); FlowsTo(e, v.peer, key) && FlowsTo(v.peer, e, key)
  {
    hide Act, ViewInv, Flow, Of, Bodies, Tail, HasFlag;
    var e, h := UseHandle(v.me, key, op), v.me.handles[key];
    var (h', evs) := Act(v.me.up, LetGo(v.me, key), h, op);
    UsedWrites(v, key, op);
    TailGrows(v, e, evs, key);
    OfAll(key, EventFrames(evs));
    assert Coming(v.me, v.peer, key) + [] == Coming(v.me, v.peer, key);
    assert Alive(e) == Alive(v.me);
    var s, s', r := HalfOf(key, v.me), HalfOf(key, e), HalfOf(key, v.peer);
    UseFlowsOut(Alive(v.me), s, s', r, Coming(v.me, v.peer, key), EventFrames(evs));
    if v.me.up {
      UsedPair(v, key, op);
      NotInit(true, h);
      ReadableHandle(v, key);
      ActConserves(LetGo(v.me, key), h, op);
      UseFlowsIn(Alive(v.peer), r, s, s', Coming(v.peer, v.me, key), h');
    } else {
      DownIsFree(Alive(v.peer), r, s', Coming(v.peer, e, key));
    }
  }

  lemma DownIsFree(sending: bool, s: Half, r: Half, d: seq<Frame>)
    requires !r.up
    ensures Flow(sending, s, r, d)
  {
  }

  lemma UseFlows(v: View, key: StreamId, op: Op)
    requires ViewInv(v) && FlowInv(v)
    ensures FlowInv(v.(me := UseHandle(v.me, key, op)))
  {
    hide Act, ViewInv, Of, Tail, FlowsTo;
    if Calm(v) && key in v.me.handles {
      var e := UseHandle(v.me, key, op);
      var evs := Act(v.me.up, LetGo(v.me, key), v.me.handles[key], op).1;
      UsedWrites(v, key, op);
      forall id ensures FlowsTo(e, v.peer, id) && FlowsTo(v.peer, e, id) {
        assert FlowsTo(v.me, v.peer, id) && FlowsTo(v.peer, v.me, id);
        if id == key {
          UseFlowsAt(v, key, op);
        } else {
          TailGrows(v, e, evs, id);
          OfNone(id, EventFrames(evs));
          assert Coming(v.me, v.peer, id) + [] == Coming(v.me, v.peer, id);
          SameFlow(v.me, v.peer, e, v.peer, id);
          SameFlow(v.peer, v.me, v.peer, e, id);
        }
      }
    }
  }

  // ---------------------------------------------------------------- a stream is opened

  lemma FreshFlows(sending: bool, s: Half, r: Half, d: seq<Frame>)
    requires ReceivedBy(r) == [] && Bodies(Path(r, d)) == [] && WrittenBy(s) == []
    ensures Flow(sending, s, r, d)
  {
  }

  lemma NewbornIsEmpty(opener: bool, id: StreamId, maxWindow: u32)
    requires INITIAL_STREAM_WINDOW <= maxWindow
    ensures var (h, evs) := Born(opener, id, maxWindow);
            && h.read == [] && h.written == [] && h.stream.readBuf == [] && h.inbox == []
            && Bodies(EventFrames(evs)) == [] && (forall f :: f in EventFrames(evs) ==> OfStream(id, f))
            && (!opener ==> !HasFlag(EventFrames(evs), Syn))
  {
    BornInv(opener, id, maxWindow);
    var evs := Born(opener, id, maxWindow).1;
    OneFrame(evs[0].frame, []);
    assert evs == [evs[0]] + [] && [evs[0].frame][1..] == [];
  }

  lemma OpenFlows(v: View)
    requires ViewInv(v) && FlowInv(v) && v.me.up
    ensures FlowInv(v.(me := OpenStream(v.me)))
  {
    hide ViewInv, Of, Tail, FlowsTo, Born, Bodies, HasFlag;
    if Calm(v) && CanOpen(v.me) {
      var e, key := OpenStream(v.me), v.me.nextStreamId;
      NextIdIsFree(v);
      WindowConfigured(v);
      var (h, evs) := Born(true, key, v.me.cfg.maxStreamWindow);
      NewbornIsEmpty(true, key, v.me.cfg.maxStreamWindow);
      forall id ensures FlowsTo(e, v.peer, id) && FlowsTo(v.peer, e, id) {
        assert FlowsTo(v.me, v.peer, id) && FlowsTo(v.peer, v.me, id);
        TailGrows(v, e, evs, id);
        if id == key {
          OfAll(id, EventFrames(evs));
          OpenedFlows(v, e, h, evs);
        } else {
          OfNone(id, EventFrames(evs));
          assert Coming(v.me, v.peer, id) + [] == Coming(v.me, v.peer, id);
          SameFlow(v.me, v.peer, e, v.peer, id);
          SameFlow(v.peer, v.me, v.peer, e, id);
        }
      }
    } else {
      assert Calm(v) ==> OpenStream(v.me) == v.me;
      if !Calm(v) { OpenStaysAway(v.me); }
    }
  }

  lemma OpenStaysAway(e: Endpoint)
    ensures OpenStream(e).localGoAway == e.localGoAway
  {
  }

  lemma OpenedFlows(v: View, e: Endpoint, h: Handle, evs: seq<StreamEvent>)
    requires ViewInv(v) && v.me.nextStreamId in e.handles && e.handles[v.me.nextStreamId] == h
    requires h.read == [] && h.written == [] && h.stream.readBuf == [] && h.inbox == []
             && Bodies(EventFrames(evs)) == []
    requires e.readPending == v.me.readPending
    requires Coming(e, v.peer, v.me.nextStreamId) ==
             Coming(v.me, v.peer, v.me.nextStreamId) + (if Alive(e) then EventFrames(evs) else [])
    ensures FlowsTo(e, v.peer, v.me.nextStreamId) && FlowsTo(v.peer, e, v.me.nextStreamId)
  {
    hide Of, Tail, Pipe, Bodies, Flow;
    var key := v.me.nextStreamId;
    assert Unopened(v, key) && Blank(Proj(v, key));
    ComingIsFront(v.me, v.peer, key);
    ComingIsFront(v.peer, v.me, key);
    assert Coming(v.peer, e, key) == [] && Coming(v.me, v.peer, key) == [];
    assert [] + EventFrames(evs) == EventFrames(evs);
    NoBodies();
    FreshFlows(Alive(e), HalfOf(key, e), HalfOf(key, v.peer), Coming(e, v.peer, key));
    FreshFlows(Alive(v.peer), HalfOf(key, v.peer), HalfOf(key, e), Coming(v.peer, e, key));
  }

  lemma NoBodies()
    ensures Bodies([]) == []
  {
  }

  // ---------------------------------------------------------------- a pass of the distribution

  /** The frame at the front of the queue is the next one of its stream. */
  lemma ComingIn(v: View, e: Endpoint, kept: seq<Frame>, rest: seq<Frame>, id: StreamId)
    requires rest != [] && StreamFrame(rest[0]) && NoneOf(rest[0].header.streamId, kept)
    ensures var d := Coming(v.peer, During(v, e, kept, rest).me, id);
            var d' := Coming(v.peer, During(v, e, kept, rest[1..]).me, id);
            if id == rest[0].header.streamId then d == [rest[0]] + d' else d' == d
  {
    hide Of, Tail;
    var f, c := rest[0], rest[1..] + Tail(v.peer);
    assert (kept + rest) + Tail(v.peer) == kept + [f] + c;
    assert (kept + rest[1..]) + Tail(v.peer) == kept + c;
    OfInsert(id, kept, f, c);
    if id == f.header.streamId {
      OfNone(id, kept);
      OfCut(id, kept, [f], c);
      OfOne(id, f);
    }
  }

  /** Behind the next frame of a stream there is no SYN. */
  lemma NoLaterSyn(w: View, id: StreamId)
    requires ViewInv(w) && Coming(w.peer, w.me, id) != []
    ensures !HasFlag(Coming(w.peer, w.me, id)[1..], Syn)
  {
    hide Of, Tail, Pipe;
    var d, p := Coming(w.peer, w.me, id), Proj(w, id);
    assert PairInv(p);
    ComingIsFront(w.peer, w.me, id);
    forall k | 0 <= k < |d[1..]| ensures !Contains(d[1..][k].header.flags, Syn) { assert d[1..][k] == p.inn[k + 1]; }
  }

  lemma DeadFlow(sending: bool, s: Half, r: Half, r': Half, d: seq<Frame>, d': seq<Frame>)
    requires Flow(sending, s, r, d) && r'.handle == r.handle && r'.up == r.up && !Live(r, d')
    ensures Flow(sending, s, r', d')
  {
    hide Bodies;
  }

  lemma DeliverFlow(sending: bool, s: Half, r: Half, r': Half, f: Frame, d': seq<Frame>)
    requires Flow(sending, s, r, [f] + d') && r.handle.Some? && r'.up == r.up
    requires r'.handle == Some(r.handle.value.(inbox := r.handle.value.inbox + [f]))
    ensures Flow(sending, s, r', d')
  {
    hide Bodies;
    assert Path(r', d') == Path(r, [f] + d');
  }

  lemma AcceptFlow(sending: bool, s: Half, r: Half, r': Half, f: Frame, d': seq<Frame>)
    requires Flow(sending, s, r, [f] + d') && r.handle.None? && Contains(f.header.flags, Syn) && r'.up == r.up
    requires r'.handle.Some? && ReceivedBy(r') == [] && Inbox(r') == [f]
    ensures Flow(sending, s, r', d')
  {
    hide Bodies;
    assert HasFlag([f] + d', Syn) by { assert Contains(([f] + d')[0].header.flags, Syn); }
    assert Path(r', d') == [f] + d' == Path(r, [f] + d');
  }

  /** The stream of the frame at hand flows on as stated, every other one is left alone. */
  lemma TurnFlows(w: View, w': View, key: StreamId)
    requires FlowInv(w) && Calm(w) && w'.peer == w.peer && Alive(w'.me) == Alive(w.me) && w'.me.up == w.me.up
    requires FlowsTo(w'.me, w.peer, key) && FlowsTo(w.peer, w'.me, key)
    requires forall id :: id != key ==>
               && HalfOf(id, w'.me).handle == HalfOf(id, w.me).handle
               && Coming(w'.me, w.peer, id) == Coming(w.me, w.peer, id)
                  && Coming(w.peer, w'.me, id) == Coming(w.peer, w.me, id)
    ensures FlowInv(w')
  {
    hide Coming, FlowsTo, Alive;
    forall id ensures FlowsTo(w'.me, w'.peer, id) && FlowsTo(w'.peer, w'.me, id) {
      assert FlowsTo(w.me, w.peer, id) && FlowsTo(w.peer, w.me, id);
      if id != key {
        SameFlow(w.me, w.peer, w'.me, w'.peer, id);
        SameFlow(w.peer, w.me, w'.peer, w'.me, id);
      }
    }
  }

  /** A frame for a stream this side does not know, or no longer takes frames for. */
  lemma LostFlow(v: View, e: Endpoint, kept: seq<Frame>, rest: seq<Frame>, e': Endpoint)
    requires rest != [] && ViewInv(During(v, e, kept, rest)) && FlowInv(During(v, e, kept, rest))
    requires Calm(During(v, e, kept, rest)) && e.up && NoneOf(rest[0].header.streamId, kept)
    requires rest[0].header.streamId in e.streams ==>
               rest[0].header.streamId in e.handles && e.handles[rest[0].header.streamId].dropped
    requires e' == e.(streams := e'.streams)
    ensures FlowInv(During(v, e', kept, rest[1..]))
  {
    hide Of, Tail, FlowInv, Flow, NoneOf, ViewInv;
    var key, w, w' := rest[0].header.streamId, During(v, e, kept, rest), During(v, e', kept, rest[1..]);
    assert StreamFrame(rest[0]) by { FrontIsStream(w); }
    assert FlowsTo(w.me, w.peer, key) && FlowsTo(w.peer, w.me, key) by { FlowAt(w, key); }
    assert Tail(w'.me) == Tail(w.me) by { SameTail(w.me, w'.me); }
    forall id ensures id != key ==> Coming(w.peer, w'.me, id) == Coming(w.peer, w.me, id) {
      ComingIn(v, e, kept, rest, id);
    }
    ComingIn(v, e, kept, rest, key);
    var d' := Coming(w.peer, w'.me, key);
    NoLaterSyn(w, key);
    assert ([rest[0]] + d')[1..] == d';
    assert !Live(HalfOf(key, w.me), d') by { if key in w.me.handles { Gone(w, key); } }
    DeadFlow(Alive(w.peer), HalfOf(key, w.peer), HalfOf(key, w.me), HalfOf(key, w'.me), Coming(w.peer, w.me, key), d');
    HeldIsFree(Alive(w.me), HalfOf(key, w.me), HalfOf(key, w'.me), HalfOf(key, w.peer), Coming(w.me, w.peer, key));
    TurnFlows(w, w', key);
  }

  lemma FrontIsStream(w: View)
    requires ViewInv(w)
    ensures StreamFrames(w.me.readPending)
  {
  }

  lemma FlowAt(w: View, id: StreamId)
    requires FlowInv(w) && Calm(w)
    ensures FlowsTo(w.me, w.peer, id) && FlowsTo(w.peer, w.me, id)
  {
  }

  lemma SameTail(e: Endpoint, e': Endpoint)
    requires e'.sink == e.sink && e'.writePending == e.writePending && e'.events == e.events && Alive(e') == Alive(e)
    ensures Tail(e') == Tail(e)
  {
  }

  /** A handle without an entry, while the session lives, takes no more frames. */
  lemma Gone(w: View, id: StreamId)
    requires ViewInv(w) && w.me.up && id in w.me.handles && (id !in w.me.streams || w.me.handles[id].dropped)
    ensures w.me.handles[id].dropped || !Receiving(w.me.handles[id].stream)
  {
    assert PairInv(Proj(w, id)) && HalfInv(Proj(w, id).me);
  }

  /** A frame goes into the channel. */
  lemma DeliverTurnFlows(v: View, e: Endpoint, kept: seq<Frame>, rest: seq<Frame>, e': Endpoint)
    requires rest != [] && ViewInv(During(v, e, kept, rest)) && FlowInv(During(v, e, kept, rest))
    requires Calm(During(v, e, kept, rest)) && NoneOf(rest[0].header.streamId, kept)
             && rest[0].header.streamId in e.handles
    requires var h := e.handles[rest[0].header.streamId];
             e' == e.(handles := e.handles[rest[0].header.streamId := h.(inbox := h.inbox + [rest[0]])])
    ensures FlowInv(During(v, e', kept, rest[1..]))
  {
    hide Of, Tail, FlowInv, Flow, NoneOf, ViewInv;
    var key, w, w' := rest[0].header.streamId, During(v, e, kept, rest), During(v, e', kept, rest[1..]);
    assert StreamFrame(rest[0]) by { FrontIsStream(w); }
    assert FlowsTo(w.me, w.peer, key) && FlowsTo(w.peer, w.me, key) by { FlowAt(w, key); }
    assert Tail(w'.me) == Tail(w.me) by { SameTail(w.me, w'.me); }
    forall id ensures id != key ==> Coming(w.peer, w'.me, id) == Coming(w.peer, w.me, id) {
      ComingIn(v, e, kept, rest, id);
    }
    ComingIn(v, e, kept, rest, key);
    DeliverFlow(Alive(w.peer), HalfOf(key, w.peer), HalfOf(key, w.me), HalfOf(key, w'.me), rest[0],
        Coming(w.peer, w'.me, key));
    HeldIsFree(Alive(w.me), HalfOf(key, w.me), HalfOf(key, w'.me), HalfOf(key, w.peer), Coming(w.me, w.peer, key));
    TurnFlows(w, w', key);
  }

  /** A SYN creates its stream. */
  lemma AcceptTurnFlows(v: View, e: Endpoint, kept: seq<Frame>, rest: seq<Frame>)
    requires rest != [] && ViewInv(During(v, e, kept, rest)) && FlowInv(During(v, e, kept, rest))
    requires Calm(During(v, e, kept, rest)) && NoneOf(rest[0].header.streamId, kept) && rest[0].header.flags.syn
    ensures FlowInv(During(v, Accepted(e, rest[0]), kept, rest[1..]))
  {
    hide Of, Tail, FlowInv, Flow, NoneOf, ViewInv, Born, Bodies, HasFlag;
    var key, w, e' := rest[0].header.streamId, During(v, e, kept, rest), Accepted(e, rest[0]);
    var w' := During(v, e', kept, rest[1..]);
    SynIsNew(v, e, kept, rest);
    WindowConfigured(w);
    assert StreamFrame(rest[0]) by { FrontIsStream(w); }
    assert FlowsTo(w.me, w.peer, key) && FlowsTo(w.peer, w.me, key) by { FlowAt(w, key); }
    var (h, evs) := Born(false, key, e.cfg.maxStreamWindow);
    NewbornIsEmpty(false, key, e.cfg.maxStreamWindow);
    forall id ensures id != key ==>
                        Coming(w.peer, w'.me, id) == Coming(w.peer, w.me, id)
                            && Coming(w'.me, w.peer, id) == Coming(w.me, w.peer, id) {
      ComingIn(v, e, kept, rest, id);
      TailGrows(w, w'.me, evs, id);
      if id != key { OfNone(id, EventFrames(evs)); }
      assert Coming(w.me, w.peer, id) + [] == Coming(w.me, w.peer, id);
    }
    ComingIn(v, e, kept, rest, key);
    TailGrows(w, w'.me, evs, key);
    OfAll(key, EventFrames(evs));
    assert Coming(w.me, w.peer, key) + [] == Coming(w.me, w.peer, key);
    AcceptFlow(Alive(w.peer), HalfOf(key, w.peer), HalfOf(key, w.me), HalfOf(key, w'.me), rest[0],
        Coming(w.peer, w'.me, key));
    UseFlowsOut(Alive(w.me), HalfOf(key, w.me), HalfOf(key, w'.me), HalfOf(key, w.peer), Coming(w.me, w.peer, key),
        EventFrames(evs));
    TurnFlows(w, w', key);
  }

  /** What an answer in front of the events adds to what is coming; its stream has no events. */
  lemma AnswerGrows(w: View, e: Endpoint, answer: Frame, key: StreamId, id: StreamId)
    requires e == w.me.(writePending := w.me.writePending + [answer], readPending := e.readPending)
             && OfStream(key, answer)
    requires forall f :: f in EventFrames(w.me.events) ==> f.header.streamId != key
    ensures Coming(e, w.peer, id) == Coming(w.me, w.peer, id) + if id == key && Alive(e) then [answer] else []
  {
    hide Of;
    if Alive(e) {
      var a, c := w.peer.readPending + w.me.sink + w.me.writePending, EventFrames(w.me.events);
      assert w.peer.readPending + Tail(w.me) == a + c && w.peer.readPending + Tail(e) == a + [answer] + c;
      OfInsert(id, a, answer, c);
      if id == key { OfNone(id, c); }
    } else {
      assert Tail(e) == Tail(w.me);
    }
  }

  /** A SYN is turned down. */
  lemma RefuseTurnFlows(v: View, e: Endpoint, kept: seq<Frame>, rest: seq<Frame>, answer: Frame)
    requires rest != [] && ViewInv(During(v, e, kept, rest)) && FlowInv(During(v, e, kept, rest))
    requires Calm(During(v, e, kept, rest)) && NoneOf(rest[0].header.streamId, kept) && rest[0].header.flags.syn
    requires OfStream(rest[0].header.streamId, answer) && answer.body.None? && !Contains(answer.header.flags, Syn)
    ensures FlowInv(During(v, Refused(e, answer), kept, rest[1..]))
  {
    hide Of, Tail, FlowInv, Flow, NoneOf, ViewInv, OfStream;
    var key, w, w' := rest[0].header.streamId, During(v, e, kept, rest), During(v, Refused(e, answer), kept, rest[1..]);
    SynIsNew(v, e, kept, rest);
    assert StreamFrame(rest[0]) by { FrontIsStream(w); }
    assert FlowsTo(w.me, w.peer, key) && FlowsTo(w.peer, w.me, key) by { FlowAt(w, key); }
    forall id ensures id != key ==>
                        Coming(w.peer, w'.me, id) == Coming(w.peer, w.me, id)
                            && Coming(w'.me, w.peer, id) == Coming(w.me, w.peer, id) {
      ComingIn(v, e, kept, rest, id);
      AnswerGrows(w, w'.me, answer, key, id);
      assert Coming(w.me, w.peer, id) + [] == Coming(w.me, w.peer, id);
    }
    ComingIn(v, e, kept, rest, key);
    AnswerGrows(w, w'.me, answer, key, key);
    assert Coming(w.me, w.peer, key) + [] == Coming(w.me, w.peer, key);
    var d' := Coming(w.peer, w'.me, key);
    NoLaterSyn(w, key);
    assert ([rest[0]] + d')[1..] == d';
    DeadFlow(Alive(w.peer), HalfOf(key, w.peer), HalfOf(key, w.me), HalfOf(key, w'.me), Coming(w.peer, w.me, key), d');
    AnswerIsEmpty(answer);
    assert WrittenBy(HalfOf(key, w.me)) + [] == WrittenBy(HalfOf(key, w.me));
    UseFlowsOut(Alive(w.me), HalfOf(key, w.me), HalfOf(key, w'.me), HalfOf(key, w.peer), Coming(w.me, w.peer, key),
        [answer]);
    TurnFlows(w, w', key);
  }

  lemma AnswerIsEmpty(answer: Frame)
    requires answer.body.None? && !Contains(answer.header.flags, Syn)
    ensures Bodies([answer]) == [] && !HasFlag([answer], Syn)
  {
    assert [answer][1..] == [];
  }

  /** One turn of the loop, while no side has gone away: it never ends the loop early. */
  lemma OneTurnFlows(v: View, e: Endpoint, kept: seq<Frame>, rest: seq<Frame>, full: bool, ready: nat)
    requires rest != [] && ViewInv(During(v, e, kept, rest)) && FlowInv(During(v, e, kept, rest))
    requires Calm(During(v, e, kept, rest)) && e.up && NoneOf(rest[0].header.streamId, kept)
    ensures var (e', verdict) := DistributeOne(e, rest[0], full, ready);
            && !verdict.Abort? && e'.localGoAway == e.localGoAway
            && (verdict.Done? ==> FlowInv(During(v, e', kept, rest[1..])))
  {
    hide ViewInv, FlowInv, NoneOf, CreateStream, Born, PushFrame;
    var f := rest[0];
    if !f.header.flags.syn {
      PushTurnFlows(v, e, kept, rest, full);
    } else {
      SynIsNew(v, e, kept, rest);
      if |e.streams| < e.cfg.maxStreamCount && |e.pendingStreams| < e.cfg.acceptBacklog {
        AcceptedIs(e, f, full);
        AcceptTurnFlows(v, e, kept, rest);
      } else {
        var answer := NewWindowUpdate(AddFlag(Only(Ack), Rst), f.header.streamId, 0);
        RefuseTurnFlows(v, e, kept, rest, answer);
        UnlistedIsDropped(Refused(e, answer), f, full);
      }
    }
  }

  lemma UnlistedIsDropped(e: Endpoint, f: Frame, full: bool)
    requires f.header.streamId !in e.streams
    ensures PushFrame(e, f, full) == (e, Done)
  {
  }

  lemma PushTurnFlows(v: View, e: Endpoint, kept: seq<Frame>, rest: seq<Frame>, full: bool)
    requires rest != [] && ViewInv(During(v, e, kept, rest)) && FlowInv(During(v, e, kept, rest))
    requires Calm(During(v, e, kept, rest)) && e.up && NoneOf(rest[0].header.streamId, kept)
    ensures var (e', verdict) := PushFrame(e, rest[0], full);
            && !verdict.Abort? && e'.localGoAway == e.localGoAway
            && (verdict.Done? ==> FlowInv(During(v, e', kept, rest[1..])))
  {
    hide ViewInv, FlowInv, NoneOf;
    var key := rest[0].header.streamId;
    assert key in e.streams ==> key in e.handles by {
      if key in e.streams { ListedIsKnown(During(v, e, kept, rest), key); }
    }
    if key !in e.streams || e.handles[key].dropped {
      LostFlow(v, e, kept, rest, PushFrame(e, rest[0], full).0);
    } else if !full || e.handles[key].inbox == [] {
      DeliverTurnFlows(v, e, kept, rest, PushFrame(e, rest[0], full).0);
    }
  }

  lemma ListedIsKnown(w: View, id: StreamId)
    requires ViewInv(w) && id in w.me.streams
    ensures id in w.me.handles
  {
    assert PairInv(Proj(w, id)) && HalfInv(Proj(w, id).me);
  }

  lemma {:induction false} LoopFlows(v: View, e: Endpoint, kept: seq<Frame>, rest: seq<Frame>, blocked: set<StreamId>,
                                     full: seq<bool>, ready: nat)
    requires |full| == |rest| && ViewInv(During(v, e, kept, rest)) && FlowInv(During(v, e, kept, rest)) && e.up
    requires Calm(During(v, e, kept, rest)) && forall f :: f in kept ==> f.header.streamId in blocked
    ensures FlowInv(View(DistributeLoop(e, kept, rest, blocked, full, ready), v.peer))
    decreases |rest|
  {
    hide ViewInv, FlowInv, DistributeOne;
    if rest == [] {
      assert kept + rest == kept;
    } else {
      var f := rest[0];
      assert kept + [f] + rest[1..] == kept + rest;
      if f.header.streamId in blocked {
        LoopFlows(v, e, kept + [f], rest[1..], blocked, full[1..], ready);
      } else {
        Turn(v, e, kept, rest, full[0], ready);
        OneTurnFlows(v, e, kept, rest, full[0], ready);
        var (e', verdict) := DistributeOne(e, f, full[0], ready);
        if verdict.Done? {
          LoopFlows(v, e', kept, rest[1..], blocked, full[1..], ready);
        } else {
          LoopFlows(v, e', kept + [f], rest[1..], blocked + {f.header.streamId}, full[1..], ready);
        }
      }
    }
  }

  lemma {:induction false} LoopStaysAway(e: Endpoint, kept: seq<Frame>, rest: seq<Frame>, blocked: set<StreamId>,
                                         full: seq<bool>, ready: nat)
    requires |full| == |rest|
    ensures e.localGoAway ==> DistributeLoop(e, kept, rest, blocked, full, ready).localGoAway
    decreases |rest|
  {
    hide DistributeOne;
    if rest != [] {
      if rest[0].header.streamId in blocked {
        LoopStaysAway(e, kept + [rest[0]], rest[1..], blocked, full[1..], ready);
      } else {
        TurnStaysAway(e, rest[0], full[0], ready);
        var (e', verdict) := DistributeOne(e, rest[0], full[0], ready);
        if verdict.Done? { LoopStaysAway(e', kept, rest[1..], blocked, full[1..], ready); }
        if verdict.Block? {
          LoopStaysAway(e', kept + [rest[0]], rest[1..], blocked + {rest[0].header.streamId}, full[1..], ready);
        }
      }
    }
  }

  lemma TurnStaysAway(e: Endpoint, f: Frame, full: bool, ready: nat)
    ensures e.localGoAway ==> DistributeOne(e, f, full, ready).0.localGoAway
  {
  }

  lemma DistributeFlows(v: View, answers: seq<bool>, ready: nat)
    requires ViewInv(v) && FlowInv(v) && v.me.up
    ensures FlowInv(v.(me := Distribute(v.me, answers, ready)))
  {
    hide ViewInv, DistributeLoop;
    var n := |v.me.readPending|;
    var full := seq(n, k requires 0 <= k < n => k < |answers| && answers[k]);
    assert [] + v.me.readPending == v.me.readPending;
    if Calm(v) {
      LoopFlows(v, v.me, [], v.me.readPending, {}, full, ready);
    } else {
      LoopStaysAway(v.me, [], v.me.readPending, {}, full, ready);
    }
  }

  // ---------------------------------------------------------------- runs

  lemma StepFlows(v: View, step: Step)
    requires ViewInv(v) && FlowInv(v)
    ensures FlowInv(Apply(v, step))
  {
    hide ViewInv, FlowInv, OpenStream, UseHandle, HandleEvent, SendAll, SendFrame, YamuxSession.HandleFrame,
        Distribute, SendGoAway;
    if v.me.up || step.StepUse? {
      match step
      case StepOpen => OpenFlows(v);
      case StepAccept => FlagsFlow(v, Apply(v, step).me);
      case StepUse(id, op) => UseFlows(v, id, op);
      case StepEvent(ready) => if v.me.events != [] { EventFlows(v, ready); }
      case StepFlush(ready) => SendAllFlows(v, ready);
      case StepReceive(ready) => if v.peer.sink != [] { ReceiveFlows(v, ready); }
      case StepDistribute(answers, ready) => DistributeFlows(v, answers, ready);
      case StepPing(pingId, ready) => PingFlows(v, NewPing(Only(Syn), pingId), ready);
      case StepShutdown(ready) =>
        GoAwayShape(v.me, Normal, ready);
        GoneAway(v, v.(me := SendGoAway(v.me, Normal, ready)));
      case StepTimeout => FlagsFlow(v, Apply(v, step).me);
      case StepEof => StopFlows(v, v.me.(eof := true));
      case StepEnd => StopFlows(v, v.me.(up := false, streams := {}));
    }
  }

  lemma FlagsFlow(v: View, e: Endpoint)
    requires FlowInv(v) && e == v.me.(pendingStreams := e.pendingStreams, remoteGoAway := e.remoteGoAway)
    ensures FlowInv(v.(me := e))
  {
    hide FlowInv;
    SameTail(v.me, e);
    QueuesFlow(v, e);
  }

  lemma {:induction false} RunFlows(client: Config, server: Config, moves: seq<Move>)
    requires ValidConfig(client) && ValidConfig(server)
    ensures FlowInv(ViewOf(Run(client, server, moves)))
    decreases |moves|
  {
    hide ViewInv, FlowsTo;
    if moves == [] {
      var s := Run(client, server, moves);
      forall id ensures FlowsTo(s.a, s.b, id) && FlowsTo(s.b, s.a, id) {
        StartFlows(client, server, true, id);
        StartFlows(client, server, false, id);
      }
    } else {
      var s, m := Run(client, server, moves[..|moves| - 1]), moves[|moves| - 1];
      RunFlows(client, server, moves[..|moves| - 1]);
      RunKeeps(client, server, moves[..|moves| - 1]);
      SwapKeeps(ViewOf(s));
      if m.byClient { StepFlows(ViewOf(s), m.step); } else { StepFlows(View(s.b, s.a), m.step); }
    }
  }

  lemma StartFlows(client: Config, server: Config, who: bool, id: StreamId)
    ensures FlowsTo(NewSession(who, if who then client else server), NewSession(!who, if who then server else client),
            id)
  {
  }

  /** In every run in which neither side has sent a GoAway, whether or not connections ended and sessions were dropped:
      what a reader was handed before its own session was dropped is a prefix of what was written, and what it has
      buffered follows. */
  lemma ReadsArePrefixes(client: Config, server: Config, moves: seq<Move>, who: bool, id: StreamId)
    requires ValidConfig(client) && ValidConfig(server)
    ensures var s := Run(client, server, moves);
            var mine, theirs := EndOf(s, who), OtherEnd(s, who);
            !s.a.localGoAway && !s.b.localGoAway && mine.up && id in mine.handles ==>
              mine.handles[id].read + mine.handles[id].stream.readBuf <= WrittenBy(HalfOf(id, theirs))
  {
    hide Run, Coming, Bodies;
    RunFlows(client, server, moves);
    var v := ViewOf(Run(client, server, moves));
    if Calm(v) { assert FlowsTo(v.me, v.peer, id) && FlowsTo(v.peer, v.me, id); }
  }
}
