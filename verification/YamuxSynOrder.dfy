/** The streams a session opens leave it in order: the SYNs it sends carry strictly increasing ids of its own parity,
    whatever its peer does. */
module YamuxSynOrder {
  import opened Common
  import opened YamuxFrame
  import opened YamuxStream
  import opened YamuxHandle
  import opened YamuxSession
  import opened YamuxTheorems

  predicate Ascending(ids: seq<StreamId>) { forall j, k :: 0 <= j < k < |ids| ==> ids[j] < ids[k] }

  /** The ids of the SYNs sent, then of those in the write queue, then of those in the event channel. */
  function Trail(e: Endpoint): seq<StreamId> {
    e.synLog + SynIds(e.writePending) + SynIds(EventFrames(e.events))
  }

  predicate OwnBelow(ids: seq<StreamId>, client: bool, bound: u32) {
    forall k :: 0 <= k < |ids| ==> ids[k] < bound && ids[k] % 2 == if client then 1 else 0
  }

  predicate SynOrder(e: Endpoint) {
    && Ascending(Trail(e)) && OwnBelow(Trail(e), e.client, e.nextStreamId)
    && e.nextStreamId % 2 == (if e.client then 1 else 0)
    && forall id :: id in e.handles ==> !e.handles[id].stream.state.Init?
  }

  lemma {:induction false} SynIdsConcat(a: seq<Frame>, b: seq<Frame>)
    ensures SynIds(a + b) == SynIds(a) + SynIds(b)
  {
    if a == [] {
      assert a + b == b;
    } else {
      var c := a + b;
      assert c[0] == a[0] && c[1..] == a[1..] + b;
      SynIdsConcat(a[1..], b);
      var one, rest := if IsSyn(a[0]) then [a[0].header.streamId] else [], SynIds(a[1..]);
      assert SynIds(a) == one + rest && SynIds(c) == one + SynIds(c[1..]);
      assert one + (rest + SynIds(b)) == (one + rest) + SynIds(b);
    }
  }

  lemma {:induction false} NoSynIds(a: seq<Frame>)
    requires forall f :: f in a ==> !IsSyn(f)
    ensures SynIds(a) == []
  {
    if a != [] {
      assert a[0] in a;
      NoSynIds(a[1..]);
    }
  }

  /** Same trail, or the trail with a stretch missing. */
  lemma TrailKeeps(e: Endpoint, e': Endpoint, a: seq<StreamId>, b: seq<StreamId>, c: seq<StreamId>)
    requires SynOrder(e) && Trail(e) == a + b + c && Trail(e') == a + c
    requires e'.client == e.client && e'.nextStreamId == e.nextStreamId
    requires forall id :: id in e'.handles ==> !e'.handles[id].stream.state.Init?
    ensures SynOrder(e')
  {
    var t, t' := a + b + c, a + c;
    assert forall k :: 0 <= k < |t'| ==> t'[k] == t[if k < |a| then k else k + |b|];
    forall j, k | 0 <= j < k < |t'| ensures t'[j] < t'[k] {
      var j', k' := if j < |a| then j else j + |b|, if k < |a| then k else k + |b|;
      assert t[j'] < t[k'];
    }
  }

  lemma SameTrail(e: Endpoint, e': Endpoint)
    requires SynOrder(e) && Trail(e') == Trail(e)
    requires e'.client == e.client && e'.nextStreamId == e.nextStreamId
    requires forall id :: id in e'.handles ==> !e'.handles[id].stream.state.Init?
    ensures SynOrder(e')
  {
  }

  lemma SplitQueue(q: seq<Frame>, n: nat)
    requires n <= |q|
    ensures SynIds(q) == SynIds(q[..n]) + SynIds(q[n..])
  {
    assert q == q[..n] + q[n..];
    SynIdsConcat(q[..n], q[n..]);
  }

  lemma Assoc(a: seq<StreamId>, b: seq<StreamId>, c: seq<StreamId>, d: seq<StreamId>)
    ensures a + (b + c) + d == a + b + (c + d) && a + (b + c) + d == (a + b) + c + d
  {
  }

  lemma SendDeadOrder(e: Endpoint)
    requires SynOrder(e) && e.writePending != []
    ensures SynOrder(e.(writePending := e.writePending[1..]))
  {
    SplitQueue(e.writePending, 1);
    var x, y, evs := SynIds(e.writePending[..1]), SynIds(e.writePending[1..]), SynIds(EventFrames(e.events));
    Assoc(e.synLog, x, y, evs);
    Assoc(e.synLog, [], y, evs);
    assert [] + y == y && e.synLog + [] == e.synLog;
    TrailKeeps(e, e.(writePending := e.writePending[1..]), e.synLog, x, y + evs);
  }

  lemma SendSomeOrder(e: Endpoint, e': Endpoint, n: nat)
    requires SynOrder(e) && n <= |e.writePending|
    requires e' == e.(writePending := e.writePending[n..], sink := e'.sink,
             synLog := e.synLog + SynIds(e.writePending[..n]))
    ensures SynOrder(e')
  {
    SplitQueue(e.writePending, n);
    var x, y, evs := SynIds(e.writePending[..n]), SynIds(e.writePending[n..]), SynIds(EventFrames(e.events));
    Assoc(e.synLog, x, y, evs);
    SameTrail(e, e');
  }

  lemma SendAllOrder(e: Endpoint, ready: nat)
    requires SynOrder(e)
    ensures SynOrder(SendAll(e, ready))
  {
    if e.writePending != [] {
      if IsDead(e) { SendDeadOrder(e); } else { SendSomeOrder(e, SendAll(e, ready), Min(ready, |e.writePending|)); }
    }
  }

  /** A frame without SYN joins the write queue. */
  lemma SendFrameOrder(e: Endpoint, f: Frame, ready: nat)
    requires SynOrder(e) && !IsSyn(f)
    ensures SynOrder(SendFrame(e, f, ready))
    ensures SynOrder(e.(writePending := e.writePending + [f]))
  {
    var e1 := e.(writePending := e.writePending + [f]);
    SynIdsConcat(e.writePending, [f]);
    NoSynIds([f]);
    assert Trail(e1) == Trail(e);
    SameTrail(e, e1);
    SendAllOrder(e1, ready);
  }

  lemma ClearOrder(e: Endpoint)
    requires SynOrder(e)
    ensures SynOrder(e.(writePending := []))
  {
    var e' := e.(writePending := []);
    var q, evs := SynIds(e.writePending), SynIds(EventFrames(e.events));
    assert Trail(e') == e.synLog + [] + evs == e.synLog + evs;
    TrailKeeps(e, e', e.synLog, q, evs);
  }

  lemma GoAwayOrder(e: Endpoint, code: GoAwayCode, ready: nat)
    requires SynOrder(e)
    ensures SynOrder(SendGoAway(e, code, ready))
  {
    ClearOrder(e);
    SendFrameOrder(e.(writePending := []), NewGoAway(code), ready);
    FlagsOrder(SendFrame(e.(writePending := []), NewGoAway(code), ready), SendGoAway(e, code, ready));
  }

  /** Fields that hold no SYN may change freely. */
  lemma FlagsOrder(e: Endpoint, e': Endpoint)
    requires SynOrder(e)
    requires e' == e.(localGoAway := e'.localGoAway, remoteGoAway := e'.remoteGoAway, eof := e'.eof, up := e'.up,
                      streams := e'.streams, pendingStreams := e'.pendingStreams, readPending := e'.readPending,
                          sink := e'.sink)
    ensures SynOrder(e')
  {
    assert Trail(e') == Trail(e);
  }

  lemma ActSendsNoSyn(up: bool, hungUp: bool, h: Handle, op: Op)
    requires !h.stream.state.Init?
    ensures var (h', evs) := Act(up, hungUp, h, op);
            !h'.stream.state.Init? && forall f :: f in EventFrames(evs) ==> !IsSyn(f)
  {
    if op.OpRead? {
      ReadSendsNoSyn(up, hungUp, h.stream, h.inbox, op.capacity);
    } else {
      var evs := Act(up, hungUp, h, op).1;
      forall f | f in EventFrames(evs) ensures !IsSyn(f) { FromEventFrames(evs, f); }
    }
  }

  lemma ReadSendsNoSyn(up: bool, hungUp: bool, s: Stream, inbox: seq<Frame>, capacity: nat)
    requires !s.state.Init?
    ensures var r := PollRead(up, hungUp, s, inbox, capacity);
            !r.stream.state.Init? && forall f :: f in EventFrames(r.events) ==> !IsSyn(f)
  {
    RecvFramesMovesForward(hungUp, s, inbox);
    var (s1, inbox1, _) := RecvFrames(hungUp, s, inbox);
    CopySendsNoSyn(up, s1, inbox1, capacity);
  }

  lemma CopySendsNoSyn(up: bool, s: Stream, inbox: seq<Frame>, capacity: nat)
    requires !s.state.Init?
    ensures var r := CopyOut(up, s, inbox, capacity);
            !r.stream.state.Init? && forall f :: f in EventFrames(r.events) ==> !IsSyn(f)
  {
  }

  /** A handle without SYN to send is added or replaced. */
  lemma HandleOrder(e: Endpoint, e': Endpoint, id: StreamId, h: Handle, evs: seq<StreamEvent>)
    requires SynOrder(e) && !h.stream.state.Init? && forall f :: f in EventFrames(evs) ==> !IsSyn(f)
    requires e' == e.(handles := e.handles[id := h], events := e.events + evs, streams := e'.streams,
             pendingStreams := e'.pendingStreams)
    ensures SynOrder(e')
  {
    EventFramesConcat(e.events, evs);
    SynIdsConcat(EventFrames(e.events), EventFrames(evs));
    NoSynIds(EventFrames(evs));
    assert Trail(e') == Trail(e);
    SameTrail(e, e');
  }

  lemma OpenOrder(e: Endpoint)
    requires SynOrder(e) && INITIAL_STREAM_WINDOW <= e.cfg.maxStreamWindow
    ensures SynOrder(OpenStream(e))
  {
    hide Born, IsSyn;
    if !IsDead(e) && !e.remoteGoAway && e.nextStreamId as int + 2 < U32_SIZE && e.nextStreamId !in e.streams {
      var e' := OpenStream(e);
      var (h, evs) := Born(true, e.nextStreamId, e.cfg.maxStreamWindow);
      BornInv(true, e.nextStreamId, e.cfg.maxStreamWindow);
      OpenTrail(e, evs);
      LongerTrail(e, e');
    }
  }

  lemma OpenTrail(e: Endpoint, evs: seq<StreamEvent>)
    requires |evs| == 1 && evs[0].EventFrame? && IsSyn(evs[0].frame)
    ensures Trail(e.(events := e.events + evs)) == Trail(e) + [evs[0].frame.header.streamId]
  {
    EventFramesConcat(e.events, evs);
    OneFrame(evs[0].frame, []);
    assert evs == [evs[0]] + [];
    SynIdsConcat(EventFrames(e.events), [evs[0].frame]);
    assert [evs[0].frame][1..] == [];
  }

  lemma LongerTrail(e: Endpoint, e': Endpoint)
    requires SynOrder(e) && Trail(e') == Trail(e) + [e.nextStreamId]
    requires e'.client == e.client && e'.nextStreamId as int == e.nextStreamId as int + 2
    requires forall id :: id in e'.handles ==> !e'.handles[id].stream.state.Init?
    ensures SynOrder(e')
  {
  }

  lemma FrameEventTrail(e: Endpoint, f: Frame)
    requires e.events != [] && e.events[0] == EventFrame(f)
    ensures Trail(e.(events := e.events[1..], writePending := e.writePending + [f])) == Trail(e)
  {
    var rest := EventFrames(e.events[1..]);
    assert EventFrames(e.events) == [f] + rest;
    SynIdsConcat(e.writePending, [f]);
    SynIdsConcat([f], rest);
    var a, x, y := SynIds(e.writePending), SynIds([f]), SynIds(rest);
    Assoc(e.synLog, a, x, y);
  }

  lemma OtherEventTrail(e: Endpoint)
    requires e.events != [] && !e.events[0].EventFrame?
    ensures Trail(e.(events := e.events[1..])) == Trail(e)
  {
    assert EventFrames(e.events) == EventFrames(e.events[1..]);
  }

  lemma EventOrder(e: Endpoint, ready: nat)
    requires SynOrder(e) && e.events != []
    ensures SynOrder(HandleEvent(e, ready))
  {
    var ev, e1 := e.events[0], e.(events := e.events[1..]);
    if ev.EventFrame? {
      var e2 := e1.(writePending := e.writePending + [ev.frame]);
      FrameEventTrail(e, ev.frame);
      SameTrail(e, e2);
      SendAllOrder(e2, ready);
    } else {
      OtherEventTrail(e);
      SameTrail(e, e1);
      if ev.EventGoAway? { GoAwayOrder(e1, ProtocolError, ready); }
          else { FlagsOrder(e1, e1.(streams := e1.streams - {ev.id})); }
    }
  }

  lemma ReceiveOrder(e: Endpoint, f: Frame, ready: nat)
    requires SynOrder(e)
    ensures SynOrder(YamuxSession.HandleFrame(e, f, ready))
  {
    hide SynOrder, SendFrame, SendGoAway;
    match f.header.ty
    case Data | WindowUpdate => FlagsOrder(e, YamuxSession.HandleFrame(e, f, ready));
    case Ping => SendFrameOrder(e, NewPing(Only(Ack), f.header.length), ready);
    case GoAway =>
      ClearOrder(e);
      FlagsOrder(e.(writePending := []), e.(remoteGoAway := true, writePending := []));
      GoAwayOrder(e.(remoteGoAway := true, writePending := []), Normal, ready);
  }

  lemma PushOrder(e: Endpoint, f: Frame, full: bool)
    requires SynOrder(e)
    ensures SynOrder(PushFrame(e, f, full).0)
  {
    var id := f.header.streamId;
    if id in e.streams && id in e.handles {
      var h := e.handles[id];
      assert e.events + [] == e.events;
      HandleOrder(e, e.(handles := e.handles[id := h.(inbox := h.inbox + [f])]), id, h.(inbox := h.inbox + [f]), []);
      FlagsOrder(e, e.(streams := e.streams - {id}));
    }
  }

  lemma CreationOrder(e: Endpoint, id: StreamId)
    requires SynOrder(e) && INITIAL_STREAM_WINDOW <= e.cfg.maxStreamWindow
    ensures CreateStream(e, Some(id)).Created? ==>
              var e' := CreateStream(e, Some(id)).endpoint;
              SynOrder(e'.(pendingStreams := e'.pendingStreams + [id])) && e'.cfg == e.cfg
  {
    var (h, evs) := Born(false, id, e.cfg.maxStreamWindow);
    BornInv(false, id, e.cfg.maxStreamWindow);
    OneFrame(evs[0].frame, []);
    assert evs == [evs[0]] + [];
    var c := CreateStream(e, Some(id));
    if c.Created? {
      HandleOrder(e, c.endpoint.(pendingStreams := c.endpoint.pendingStreams + [id]), id, h, evs);
    }
  }

  lemma TurnOrder(e: Endpoint, f: Frame, full: bool, ready: nat)
    requires SynOrder(e) && INITIAL_STREAM_WINDOW <= e.cfg.maxStreamWindow
    ensures SynOrder(DistributeOne(e, f, full, ready).0)
  {
    var id := f.header.streamId;
    if f.header.flags.syn && e.localGoAway {
      SendFrameOrder(e, NewWindowUpdate(Only(Rst), id, 0), ready);
    } else if f.header.flags.syn && |e.streams| < e.cfg.maxStreamCount && |e.pendingStreams| < e.cfg.acceptBacklog {
      CreationOrder(e, id);
      GoAwayOrder(e, ProtocolError, ready);
      var c := CreateStream(e, Some(id));
      if c.Created? { PushOrder(c.endpoint.(pendingStreams := c.endpoint.pendingStreams + [id]), f, full); }
    } else if f.header.flags.syn {
      var answer := NewWindowUpdate(AddFlag(Only(Ack), Rst), id, 0);
      SendFrameOrder(e, answer, ready);
      PushOrder(e.(writePending := e.writePending + [answer]), f, full);
    } else {
      PushOrder(e, f, full);
    }
  }

  lemma {:induction false} LoopOrder(e: Endpoint, kept: seq<Frame>, rest: seq<Frame>, blocked: set<StreamId>,
                                     full: seq<bool>, ready: nat)
    requires |full| == |rest| && SynOrder(e) && INITIAL_STREAM_WINDOW <= e.cfg.maxStreamWindow
    ensures SynOrder(DistributeLoop(e, kept, rest, blocked, full, ready))
    decreases |rest|
  {
    if rest == [] {
      FlagsOrder(e, e.(readPending := kept));
    } else if rest[0].header.streamId in blocked {
      LoopOrder(e, kept + [rest[0]], rest[1..], blocked, full[1..], ready);
    } else {
      TurnOrder(e, rest[0], full[0], ready);
      var (e', verdict) := DistributeOne(e, rest[0], full[0], ready);
      match verdict
      case Done => LoopOrder(e', kept, rest[1..], blocked, full[1..], ready);
      case Block => LoopOrder(e', kept + [rest[0]], rest[1..], blocked + {rest[0].header.streamId}, full[1..], ready);
      case Abort => FlagsOrder(e', e'.(readPending := kept));
    }
  }

  /** Every step of a session keeps the order of its SYNs; nothing is asked of the peer. */
  lemma UseOrder(e: Endpoint, id: StreamId, op: Op)
    requires SynOrder(e) && INITIAL_STREAM_WINDOW <= e.cfg.maxStreamWindow
    ensures SynOrder(UseHandle(e, id, op))
  {
    if id in e.handles {
      ActSendsNoSyn(e.up, LetGo(e, id), e.handles[id], op);
      var (h, evs) := Act(e.up, LetGo(e, id), e.handles[id], op);
      HandleOrder(e, UseHandle(e, id, op), id, h, evs);
    }
  }

  lemma DistributeOrder(e: Endpoint, answers: seq<bool>, ready: nat)
    requires SynOrder(e) && INITIAL_STREAM_WINDOW <= e.cfg.maxStreamWindow
    ensures SynOrder(Distribute(e, answers, ready))
  {
    var n := |e.readPending|;
    LoopOrder(e, [], e.readPending, {}, seq(n, k requires 0 <= k < n => k < |answers| && answers[k]), ready);
  }

  lemma StepOrder(v: View, step: Step)
    requires SynOrder(v.me) && INITIAL_STREAM_WINDOW <= v.me.cfg.maxStreamWindow
    ensures SynOrder(Apply(v, step).me)
  {
    hide SynOrder, OpenStream, UseHandle, YamuxSession.HandleEvent, SendAll, SendFrame, YamuxSession.HandleFrame,
        Distribute, SendGoAway;
    var me := v.me;
    if me.up || step.StepUse? {
      match step
      case StepOpen => OpenOrder(me);
      case StepUse(id, op) =>
        UseOrder(me, id, op);
      case StepEvent(ready) => if me.events != [] { EventOrder(me, ready); }
      case StepFlush(ready) => SendAllOrder(me, ready);
      case StepReceive(ready) => if v.peer.sink != [] { ReceiveOrder(me, v.peer.sink[0], ready); }
      case StepDistribute(answers, ready) =>
        DistributeOrder(me, answers, ready);
      case StepPing(pingId, ready) => SendFrameOrder(me, NewPing(Only(Syn), pingId), ready);
      case StepShutdown(ready) => GoAwayOrder(me, Normal, ready);
      case StepAccept | StepTimeout | StepEof | StepEnd => FlagsOrder(me, Apply(v, step).me);
    }
  }

  /** In every run the SYNs each side has sent so far carry strictly increasing ids, odd for the client and even for the
      server. */
  lemma {:induction false} SynsLeaveInOrder(client: Config, server: Config, moves: seq<Move>)
    requires ValidConfig(client) && ValidConfig(server)
    ensures var s := Run(client, server, moves);
            && SynOrder(s.a) && s.a.client && SynOrder(s.b) && !s.b.client
            && Ascending(s.a.synLog) && (forall k :: 0 <= k < |s.a.synLog| ==> s.a.synLog[k] % 2 == 1)
            && Ascending(s.b.synLog) && (forall k :: 0 <= k < |s.b.synLog| ==> s.b.synLog[k] % 2 == 0)
    decreases |moves|
  {
    var s := Run(client, server, moves);
    if moves != [] {
      var before := moves[..|moves| - 1];
      SynsLeaveInOrder(client, server, before);
      ConfigsStay(client, server, before);
      var t, m := Run(client, server, before), moves[|moves| - 1];
      if m.byClient {
        StepOrder(View(t.a, t.b), m.step);
        PeerSink(View(t.a, t.b), m.step);
      } else {
        StepOrder(View(t.b, t.a), m.step);
        PeerSink(View(t.b, t.a), m.step);
      }
    }
    LogIsPrefix(s.a);
    LogIsPrefix(s.b);
  }

  /** A step changes nothing of the other side but what it takes off the wire. */
  lemma PeerSink(v: View, step: Step)
    requires SynOrder(v.peer)
    ensures var v' := Apply(v, step); v'.peer == v.peer.(sink := v'.peer.sink) && SynOrder(v'.peer)
  {
    if step.StepReceive? && v.peer.sink != [] { FlagsOrder(v.peer, v.peer.(sink := v.peer.sink[1..])); }
  }

  lemma LogIsPrefix(e: Endpoint)
    requires SynOrder(e)
    ensures Ascending(e.synLog) && OwnBelow(e.synLog, e.client, e.nextStreamId)
  {
    var t := Trail(e);
    assert forall k :: 0 <= k < |e.synLog| ==> e.synLog[k] == t[k];
  }
}
