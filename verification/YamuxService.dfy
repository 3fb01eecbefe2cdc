/** What a session does for its peer and its owner at each step, against any peer: what it puts on the transport, which
    streams it creates and hands out, and which frames reach their channels. */
module YamuxService {
  import opened Common
  import opened YamuxFrame
  import opened YamuxStream
  import opened YamuxHandle
  import opened YamuxSession
  import opened YamuxDelivery
  import opened YamuxLimits

  // ---------------------------------------------------------------- frames for the transport

  /** Everything handed to the transport or waiting for it, oldest first. */
  function Outgoing(e: Endpoint): seq<Frame> { e.sink + e.writePending }

  /** A live session moves as many frames as the transport takes, in order; one that is over, since both sides have gone
      away or the connection has ended, sends nothing. */
  lemma FlushMoves(e: Endpoint, ready: nat)
    ensures var e' := SendAll(e, ready);
            && e' == e.(writePending := e'.writePending, sink := e'.sink, synLog := e'.synLog)
            && (if e.eof || (e.localGoAway && e.remoteGoAway) then e'.sink == e.sink
               && e'.writePending == e.writePending[Min(1, |e.writePending|)..]
                else Outgoing(e') == Outgoing(e) && |e'.sink| == |e.sink| + Min(ready, |e.writePending|))
  {
    var n := Min(ready, |e.writePending|);
    assert e.writePending == e.writePending[..n] + e.writePending[n..];
    assert e.sink + (e.writePending[..n] + e.writePending[n..]) == (e.sink + e.writePending[..n]) + e.writePending[n..];
    if e.writePending == [] { assert e.writePending[0..] == e.writePending; }
  }

  lemma SendQueuesOne(e: Endpoint, f: Frame, ready: nat)
    requires !IsDead(e)
    ensures var e' := SendFrame(e, f, ready);
            && Outgoing(e') == Outgoing(e) + [f]
            && e' == e.(writePending := e'.writePending, sink := e'.sink, synLog := e'.synLog)
  {
    hide SendAll;
    FlushMoves(e.(writePending := e.writePending + [f]), ready);
    assert e.sink + (e.writePending + [f]) == (e.sink + e.writePending) + [f];
  }

  /** Going away: what waits is dropped, and the one frame that follows what the transport has is the go-away. */
  lemma GoAwaySays(e: Endpoint, code: GoAwayCode, ready: nat)
    requires !IsDead(e)
    ensures var e' := SendGoAway(e, code, ready);
            && Outgoing(e') == e.sink + [NewGoAway(code)]
            && e' == e.(writePending := e'.writePending, sink := e'.sink, synLog := e'.synLog, localGoAway := true)
  {
    hide SendFrame;
    SendQueuesOne(e.(writePending := []), NewGoAway(code), ready);
    assert e.sink + [] == e.sink;
  }

  /** A ping with SYN is answered by one ping with ACK and the same number; any other ping by nothing. */
  lemma PingIsAnswered(e: Endpoint, f: Frame, ready: nat)
    requires f.header.ty.Ping? && !IsDead(e)
    ensures var e' := YamuxSession.HandleFrame(e, f, ready);
            if !f.header.flags.syn then e' == e
            else && Outgoing(e') == Outgoing(e) + [Bare(Ping, Flags(false, true, false, false, 0), 0, f.header.length)]
                 && e' == e.(writePending := e'.writePending, sink := e'.sink, synLog := e'.synLog)
  {
    hide SendFrame;
    SendQueuesOne(e, NewPing(Only(Ack), f.header.length), ready);
  }

  /** A go-away is answered by one normal go-away, unless this side went away first; afterwards the session is dead. */
  lemma GoAwayIsAnswered(e: Endpoint, f: Frame, ready: nat)
    requires f.header.ty.GoAway? && !e.eof
    ensures var e' := YamuxSession.HandleFrame(e, f, ready);
            && IsDead(e') && e'.remoteGoAway && e'.localGoAway
            && Outgoing(e') == e.sink + (if e.localGoAway then [] else [Bare(GoAway, NO_FLAGS, 0, 0)])
            && e'.streams == e.streams && e'.handles == e.handles && e'.readPending == e.readPending
  {
    hide SendGoAway;
    if !e.localGoAway { GoAwaySays(e.(remoteGoAway := true, writePending := []), Normal, ready); }
  }

  /** `shutdown` says so once, and not at all on a dead session. */
  lemma ShutdownSays(e: Endpoint, ready: nat)
    ensures var e' := Shutdown(e, ready);
            if IsDead(e) then e' == e
            else e'.localGoAway && Outgoing(e') == e.sink + [Bare(GoAway, NO_FLAGS, 0, 0)] && e'.streams == e.streams
  {
    hide SendGoAway;
    if !IsDead(e) { GoAwaySays(e, Normal, ready); }
  }

  /** Sending a ping, the timeout after a go-away of this side, and the end of the connection. */
  lemma SmallStepsAct(v: View, pingId: u32, ready: nat)
    requires v.me.up
    ensures !IsDead(v.me) ==>
              Outgoing(Apply(v, StepPing(pingId, ready)).me)
              == Outgoing(v.me) + [Bare(Ping, Flags(true, false, false, false, 0), 0, pingId)]
    ensures Apply(v, StepTimeout).me == v.me.(remoteGoAway := v.me.remoteGoAway || v.me.localGoAway)
    ensures Apply(v, StepEof).me == v.me.(eof := true)
  {
    hide SendFrame;
    if !IsDead(v.me) { SendQueuesOne(v.me, NewPing(Only(Syn), pingId), ready); }
  }

  /** Of a substream's events: a frame goes out behind the others, a closed stream leaves the table, and a broken
      protocol makes the session go away with that code. */
  lemma EventIsHandled(e: Endpoint, ready: nat)
    requires e.events != [] && !IsDead(e)
    ensures var e' := HandleEvent(e, ready);
            && e'.events == e.events[1..] && e'.handles == e.handles && e'.readPending == e.readPending
            && match e.events[0]
               case EventFrame(f) => Outgoing(e') == Outgoing(e) + [f] && e'.streams == e.streams
               case EventClosed(id) => Outgoing(e') == Outgoing(e) && e'.streams == e.streams - {id}
               case EventGoAway =>
                 && e'.localGoAway && e'.streams == e.streams
                 && Outgoing(e') == e.sink + [Bare(GoAway, NO_FLAGS, 0, 1)]
  {
    hide SendFrame, SendGoAway;
    var e1 := e.(events := e.events[1..]);
    match e.events[0]
    case EventFrame(f) => SendQueuesOne(e1, f, ready);
    case EventClosed(id) =>
    case EventGoAway => GoAwaySays(e1, ProtocolError, ready);
  }

  // ---------------------------------------------------------------- opening and handing out

  /** `open_stream` may create a stream: both sides are still there, ids are left, and the next one is free. */
  predicate CanOpen(e: Endpoint) {
    !IsDead(e) && !e.remoteGoAway && e.nextStreamId as int + 2 < U32_SIZE && e.nextStreamId !in e.streams
  }

  /** It does so exactly then: the next id joins the table and its SYN, announcing the whole window, is queued. */
  lemma OpensIff(e: Endpoint)
    requires INITIAL_STREAM_WINDOW <= e.cfg.maxStreamWindow
    ensures var e', id := OpenStream(e), e.nextStreamId;
            if CanOpen(e) then
              var window := e.cfg.maxStreamWindow as int - INITIAL_STREAM_WINDOW as int;
              var syn := Bare(WindowUpdate, Flags(true, false, false, false, 0), id, window);
              && e'.streams == e.streams + {id} && e'.nextStreamId as int == id as int + 2
              && e'.events == e.events + [EventFrame(syn)] && e'.pendingStreams == e.pendingStreams
              && id in e'.handles && e'.handles[id].opener && e'.handles == e.handles[id := e'.handles[id]]
            else e' == e.(nextStreamId := e'.nextStreamId)
  {
    BornInv(true, e.nextStreamId, e.cfg.maxStreamWindow);
    BornBy(true, e.nextStreamId, e.cfg.maxStreamWindow);
  }

  lemma BornBy(opener: bool, id: StreamId, maxWindow: u32)
    ensures Born(opener, id, maxWindow).0.opener == opener
  {
  }

  /** A step, and what an arbitrary peer has on the transport when it is taken. */
  datatype Turn = Turn(arriving: seq<Frame>, step: Step)

  function TakeTurn(e: Endpoint, peer: Endpoint, t: Turn): Endpoint {
    Apply(View(e, peer.(sink := t.arriving)), t.step).me
  }

  /** The streams handed out by the accepts among these turns. */
  function HandedOut(e: Endpoint, peer: Endpoint, turns: seq<Turn>): seq<StreamId>
    decreases |turns|
  {
    if turns == [] then []
    else
      (if turns[0].step.StepAccept? && e.up && e.pendingStreams != [] then [e.pendingStreams[0]] else [])
      + HandedOut(TakeTurn(e, peer, turns[0]), peer, turns[1..])
  }

  /** The streams that the passes among these turns accept, in the order of their SYNs. */
  function TakenIn(e: Endpoint, peer: Endpoint, turns: seq<Turn>): seq<StreamId>
    decreases |turns|
  {
    if turns == [] then []
    else
      var e' := TakeTurn(e, peer, turns[0]);
      (if |e.pendingStreams| <= |e'.pendingStreams| then e'.pendingStreams[|e.pendingStreams|..] else [])
      + TakenIn(e', peer, turns[1..])
  }

  function AfterTurns(e: Endpoint, peer: Endpoint, turns: seq<Turn>): Endpoint
    decreases |turns|
  {
    if turns == [] then e else AfterTurns(TakeTurn(e, peer, turns[0]), peer, turns[1..])
  }

  /** A pass appends to the queue of streams to be handed out, and an accept takes its first. */
  lemma QueueMoves(e: Endpoint, peer: Endpoint, t: Turn)
    ensures var e' := TakeTurn(e, peer, t);
            if t.step.StepAccept? && e.up && e.pendingStreams != [] then e'.pendingStreams == e.pendingStreams[1..]
            else e.pendingStreams <= e'.pendingStreams
  {
    if t.step.StepAccept? {
    } else if t.step.StepDistribute? {
      DistributeAppends(e, t.step.answers, t.step.ready);
    } else {
      QueueStays(View(e, peer.(sink := t.arriving)), t.step);
    }
  }

  lemma QueueStays(v: View, step: Step)
    requires !step.StepAccept? && !step.StepDistribute?
    ensures Apply(v, step).me.pendingStreams == v.me.pendingStreams
  {
    hide OpenStream, UseHandle, HandleEvent, SendAll, SendFrame, SendGoAway, YamuxSession.HandleFrame, Distribute;
    var me := v.me;
    if me.up || step.StepUse? {
      match step
      case StepOpen => OpenAddsOne(me);
      case StepUse(id, op) => UseLeavesStreams(me, id, op);
      case StepEvent(ready) => if me.events != [] { EventLeavesQueue(me, ready); }
      case StepFlush(ready) => SendLeavesStreams(me, NewGoAway(Normal), Normal, ready);
      case StepReceive(ready) => if v.peer.sink != [] { ReceivingLeavesStreams(me, v.peer.sink[0], ready); }
      case StepPing(pingId, ready) => SendLeavesStreams(me, NewPing(Only(Syn), pingId), Normal, ready);
      case StepShutdown(ready) => SendLeavesStreams(me, NewGoAway(Normal), Normal, ready);
      case _ =>
    }
  }

  lemma DistributeAppends(e: Endpoint, answers: seq<bool>, ready: nat)
    ensures e.pendingStreams <= Distribute(e, answers, ready).pendingStreams
  {
    hide DistributeLoop;
    PassAppends(e, [], e.readPending, {}, Answers(e, answers), ready);
  }

  lemma EventLeavesQueue(e: Endpoint, ready: nat)
    requires e.events != []
    ensures HandleEvent(e, ready).pendingStreams == e.pendingStreams
  {
    hide SendFrame, SendGoAway;
    var e1 := e.(events := e.events[1..]);
    match e.events[0]
    case EventFrame(f) => SendLeavesStreams(e1, f, Normal, ready);
    case EventClosed(id) =>
    case EventGoAway => SendLeavesStreams(e1, NewGoAway(Normal), ProtocolError, ready);
  }

  lemma {:induction false} PassAppends(e: Endpoint, kept: seq<Frame>, rest: seq<Frame>, blocked: set<StreamId>,
                                       full: seq<bool>, ready: nat)
    requires |full| == |rest|
    ensures e.pendingStreams <= DistributeLoop(e, kept, rest, blocked, full, ready).pendingStreams
    decreases |rest|
  {
    hide DistributeOne;
    if rest != [] {
      if rest[0].header.streamId in blocked {
        PassAppends(e, kept + [rest[0]], rest[1..], blocked, full[1..], ready);
      } else {
        TurnAppends(e, rest[0], full[0], ready);
        var (e', verdict) := DistributeOne(e, rest[0], full[0], ready);
        if verdict.Done? { PassAppends(e', kept, rest[1..], blocked, full[1..], ready); }
        if verdict.Block? {
          PassAppends(e', kept + [rest[0]], rest[1..], blocked + {rest[0].header.streamId}, full[1..], ready);
        }
      }
    }
  }

  lemma TurnAppends(e: Endpoint, f: Frame, full: bool, ready: nat)
    ensures e.pendingStreams <= DistributeOne(e, f, full, ready).0.pendingStreams
  {
    hide DistributeOne;
    if !f.header.flags.syn {
      OthersAddNothing(e, f, full, ready);
    } else if e.localGoAway {
      LateSynLeaves(e, f, full, ready);
    } else {
      SynIsAnswered(e, f, full, ready);
    }
  }

  /** Streams are handed out in the order in which their SYNs were accepted, each once and none left out. */
  lemma {:induction false} HandedOutInOrder(e: Endpoint, peer: Endpoint, turns: seq<Turn>)
    ensures HandedOut(e, peer, turns) + AfterTurns(e, peer, turns).pendingStreams
         == e.pendingStreams + TakenIn(e, peer, turns)
    decreases |turns|
  {
    hide TakeTurn;
    if turns == [] {
      assert [] + e.pendingStreams == e.pendingStreams + [];
    } else {
      var e', rest := TakeTurn(e, peer, turns[0]), turns[1..];
      QueueMoves(e, peer, turns[0]);
      HandedOutInOrder(e', peer, rest);
      var out, late := HandedOut(e', peer, rest), AfterTurns(e', peer, rest).pendingStreams;
      var taken := TakenIn(e', peer, rest);
      if turns[0].step.StepAccept? && e.up && e.pendingStreams != [] {
        assert e.pendingStreams == [e.pendingStreams[0]] + e'.pendingStreams;
        FirstIsOut(e.pendingStreams[0], e'.pendingStreams, out, late, taken);
      } else {
        var more := e'.pendingStreams[|e.pendingStreams|..];
        assert e'.pendingStreams == e.pendingStreams + more;
        NoneIsOut(e.pendingStreams, more, out, late, taken);
      }
    }
  }

  lemma FirstIsOut<T>(first: T, queue: seq<T>, out: seq<T>, late: seq<T>, taken: seq<T>)
    requires out + late == queue + taken
    ensures ([first] + out) + late == ([first] + queue) + ([] + taken)
  {
    assert ([first] + out) + late == [first] + (out + late);
    assert [] + taken == taken;
  }

  lemma NoneIsOut<T>(queue: seq<T>, more: seq<T>, out: seq<T>, late: seq<T>, taken: seq<T>)
    requires out + late == (queue + more) + taken
    ensures ([] + out) + late == queue + (more + taken)
  {
    assert [] + out == out;
  }

  // ---------------------------------------------------------------- frames for the channels

  /** A pass leaves none of a stream's frames behind if no channel answered full for one of them. */
  lemma {:induction false} LoopDrains(e: Endpoint, kept: seq<Frame>, rest: seq<Frame>, blocked: set<StreamId>,
                                      full: seq<bool>, ready: nat, id: StreamId)
    requires |full| == |rest| && id !in blocked && ById(id, kept) == []
    requires forall k :: 0 <= k < |rest| && rest[k].header.streamId == id ==> !full[k]
    ensures ById(id, DistributeLoop(e, kept, rest, blocked, full, ready).readPending) == []
    decreases |rest|
  {
    hide DistributeOne;
    if rest != [] {
      var f := rest[0];
      var other := f.header.streamId;
      assert forall k :: 0 <= k < |rest[1..]| ==> rest[1..][k] == rest[k + 1] && full[1..][k] == full[k + 1];
      if other != id { KeepsOther(id, kept, f); }
      if other in blocked {
        LoopDrains(e, kept + [f], rest[1..], blocked, full[1..], ready, id);
      } else {
        BlocksIfFull(e, f, full[0], ready);
        var (e', verdict) := DistributeOne(e, f, full[0], ready);
        if verdict.Done? { LoopDrains(e', kept, rest[1..], blocked, full[1..], ready, id); }
        if verdict.Block? { LoopDrains(e', kept + [f], rest[1..], blocked + {other}, full[1..], ready, id); }
      }
    }
  }

  /** What a pass has put back waits in front of everything else, however the pass ends. */
  lemma {:induction false} PutBackStays(e: Endpoint, kept: seq<Frame>, rest: seq<Frame>, blocked: set<StreamId>,
                                        full: seq<bool>, ready: nat)
    requires |full| == |rest|
    ensures kept <= DistributeLoop(e, kept, rest, blocked, full, ready).readPending
    decreases |rest|
  {
    hide DistributeOne;
    if rest != [] {
      var f := rest[0];
      if f.header.streamId in blocked {
        PutBackStays(e, kept + [f], rest[1..], blocked, full[1..], ready);
      } else {
        var (e', verdict) := DistributeOne(e, f, full[0], ready);
        if verdict.Done? { PutBackStays(e', kept, rest[1..], blocked, full[1..], ready); }
        if verdict.Block? {
          PutBackStays(e', kept + [f], rest[1..], blocked + {f.header.streamId}, full[1..], ready);
        }
      }
    }
  }

  lemma KeepsOther(id: StreamId, kept: seq<Frame>, f: Frame)
    requires f.header.streamId != id && ById(id, kept) == []
    ensures ById(id, kept + [f]) == []
  {
    ByIdConcat(id, kept, [f]);
    assert [f][1..] == [];
  }

  lemma BlocksIfFull(e: Endpoint, f: Frame, full: bool, ready: nat)
    ensures DistributeOne(e, f, full, ready).1.Block? ==> full
  {
    hide SendFrame, SendGoAway;
  }

  /** A connected stream whose channel never answered full has all its frames in its channel after the pass, in order,
      or after an early return a prefix of them. */
  lemma PassHandsOver(e: Endpoint, answers: seq<bool>, ready: nat, id: StreamId)
    requires Connected(e, id)
    requires forall k :: 0 <= k < |e.readPending| && k < |answers| && e.readPending[k].header.streamId == id ==>
             !answers[k]
    ensures var e' := Distribute(e, answers, ready);
            var all := e.handles[id].inbox + ById(id, e.readPending);
            && Connected(e', id)
            && (if Aborts(e, e.readPending, {}, Answers(e, answers), ready) then e'.handles[id].inbox <= all
                else e'.handles[id].inbox == all && ById(id, e'.readPending) == [])
  {
    hide DistributeLoop, Aborts;
    DistributeDelivers(e, answers, ready, id);
    LoopDrains(e, [], e.readPending, {}, Answers(e, answers), ready, id);
    var e' := Distribute(e, answers, ready);
    assert e'.handles[id].inbox + [] == e'.handles[id].inbox;
  }
}
