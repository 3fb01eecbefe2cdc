/** How a session answers the SYNs of an arbitrary peer, and the limits on streams that follow. */
module YamuxLimits {
  import opened Common
  import opened YamuxFrame
  import opened YamuxStream
  import opened YamuxHandle
  import opened YamuxSession
  import opened YamuxDelivery
  import opened YamuxSystem

  /** Both limits leave room for one more stream. */
  predicate HasRoom(e: Endpoint) {
    |e.streams| < e.cfg.maxStreamCount && |e.pendingStreams| < e.cfg.acceptBacklog
  }

  /** ACK and RST for a stream that is not created. */
  function Refused(id: StreamId): Frame {
    Bare(WindowUpdate, Flags(false, true, false, true, 0), id, 0)
  }

  // ---------------------------------------------------------------- one frame

  lemma PushLeavesQueues(e: Endpoint, f: Frame, full: bool)
    ensures var (e', verdict) := PushFrame(e, f, full);
            && !verdict.Abort? && e'.pendingStreams == e.pendingStreams && e'.writePending == e.writePending
            && e'.events == e.events && e'.localGoAway == e.localGoAway && e'.readPending == e.readPending
            && e'.streams == (if f.header.streamId in e.streams && f.header.streamId in e.handles
                                 && e.handles[f.header.streamId].dropped
                              then e.streams - {f.header.streamId} else e.streams)
  {
  }

  /** A SYN that comes before any go-away creates its stream exactly when both limits leave room and the id is new. At a
      limit one refusal is queued and no stream appears; for an id in the table the session goes away. */
  lemma SynIsAnswered(e: Endpoint, f: Frame, full: bool, ready: nat)
    requires f.header.flags.syn && !e.localGoAway
    ensures var (e', verdict) := DistributeOne(e, f, full, ready);
            var id := f.header.streamId;
            && (e'.pendingStreams == e.pendingStreams + [id] <==> HasRoom(e) && id !in e.streams)
            && (HasRoom(e) && id !in e.streams ==>
                  && verdict.Done? && e'.streams == e.streams + {id} && e'.writePending == e.writePending
                  && id in e'.handles && e'.handles[id].inbox == [f] && !e'.handles[id].opener)
            && (!HasRoom(e) ==>
                  && !verdict.Abort? && e'.pendingStreams == e.pendingStreams && e'.events == e.events
                  && e'.writePending == e.writePending + [Refused(id)] && e'.streams <= e.streams <= e'.streams + {id}
                  && (id !in e.streams ==> e' == e.(writePending := e'.writePending)))
            && (HasRoom(e) && id in e.streams ==>
                  && verdict.Abort? && e'.localGoAway && e'.streams == e.streams
                     && e'.pendingStreams == e.pendingStreams)
  {
    hide SendGoAway, PushFrame;
    var id := f.header.streamId;
    if HasRoom(e) && id !in e.streams {
      var c := CreateStream(e, Some(id)).endpoint;
      PushIntoNew(c.(pendingStreams := c.pendingStreams + [id]), f, full);
    } else if HasRoom(e) {
      GoAwayShape(e, ProtocolError, ready);
    } else {
      PushLeavesQueues(e.(writePending := e.writePending + [Refused(id)]), f, full);
      PushUnlisted(e.(writePending := e.writePending + [Refused(id)]), f, full);
    }
  }

  /** The stream it creates acknowledges at once and announces the whole window. */
  lemma AcceptedIsAcknowledged(e: Endpoint, f: Frame, full: bool, ready: nat)
    requires f.header.flags.syn && !e.localGoAway && HasRoom(e) && f.header.streamId !in e.streams
    requires INITIAL_STREAM_WINDOW <= e.cfg.maxStreamWindow
    ensures var e', id := DistributeOne(e, f, full, ready).0, f.header.streamId;
            var window := e.cfg.maxStreamWindow as int - INITIAL_STREAM_WINDOW as int;
            var ack := Bare(WindowUpdate, Flags(false, true, false, false, 0), id, window);
            && e'.events == e.events + [EventFrame(ack)]
            && id in e'.handles && e'.handles[id].stream.recvWindow == e.cfg.maxStreamWindow
            && e'.handles[id].stream.sendWindow == INITIAL_STREAM_WINDOW
  {
    hide PushFrame, Born;
    var id := f.header.streamId;
    BornInv(false, id, e.cfg.maxStreamWindow);
    var c := CreateStream(e, Some(id)).endpoint;
    var c' := c.(pendingStreams := c.pendingStreams + [id]);
    BornEmpty(false, id, e.cfg.maxStreamWindow);
    PushIntoNew(c', f, full);
    PushLeavesQueues(c', f, full);
  }

  lemma BornEmpty(opener: bool, id: StreamId, maxWindow: u32)
    ensures var h := Born(opener, id, maxWindow).0; !h.dropped && h.inbox == []
  {
  }

  lemma PushIntoNew(e: Endpoint, f: Frame, full: bool)
    requires f.header.streamId in e.streams && f.header.streamId in e.handles
    requires !e.handles[f.header.streamId].dropped && e.handles[f.header.streamId].inbox == []
    ensures var (e', verdict) := PushFrame(e, f, full);
            && verdict.Done? && e'.streams == e.streams && e'.pendingStreams == e.pendingStreams
            && e'.writePending == e.writePending && f.header.streamId in e'.handles
            && e'.handles[f.header.streamId] == e.handles[f.header.streamId].(inbox := [f])
  {
    assert [] + [f] == [f];
  }

  lemma PushUnlisted(e: Endpoint, f: Frame, full: bool)
    ensures f.header.streamId !in e.streams ==> PushFrame(e, f, full) == (e, Done)
  {
  }

  /** After this side has gone away a SYN is reset, and the pass ends with it. */
  lemma LateSynIsReset(e: Endpoint, f: Frame, full: bool, ready: nat)
    requires f.header.flags.syn && e.localGoAway && !IsDead(e)
    ensures var (e', verdict) := DistributeOne(e, f, full, ready);
            && verdict.Abort? && e'.streams == e.streams && e'.pendingStreams == e.pendingStreams
               && e'.handles == e.handles
            && e'.sink + e'.writePending == e.sink + e.writePending
                 + [Bare(WindowUpdate, Flags(false, false, false, true, 0), f.header.streamId, 0)]
  {
    var rst := NewWindowUpdate(Only(Rst), f.header.streamId, 0);
    var q := e.writePending + [rst];
    var n := Min(ready, |q|);
    assert q == q[..n] + q[n..];
    assert e.sink + q == (e.sink + q[..n]) + q[n..];
  }

  /** A frame without SYN adds no stream and queues no answer. */
  lemma OthersAddNothing(e: Endpoint, f: Frame, full: bool, ready: nat)
    requires !f.header.flags.syn
    ensures var (e', verdict) := DistributeOne(e, f, full, ready);
            && !verdict.Abort? && e'.pendingStreams == e.pendingStreams && e'.writePending == e.writePending
            && e'.streams <= e.streams && e'.localGoAway == e.localGoAway
  {
    hide PushFrame;
    PushLeavesQueues(e, f, full);
  }

  // ---------------------------------------------------------------- a pass

  lemma SubsetIsSmaller(a: set<StreamId>, b: set<StreamId>)
    requires a <= b
    ensures |a| <= |b|
  {
    if a != {} {
      var x :| x in a;
      SubsetIsSmaller(a - {x}, b - {x});
    }
  }

  /** Neither limit is passed on the way from `e` to `e'`. */
  predicate WithinLimits(e: Endpoint, e': Endpoint) {
    && |e'.streams| <= Max(|e.streams|, e.cfg.maxStreamCount)
    && |e'.pendingStreams| <= Max(|e.pendingStreams|, e.cfg.acceptBacklog)
  }

  lemma TurnIsWithinLimits(e: Endpoint, f: Frame, full: bool, ready: nat)
    ensures WithinLimits(e, DistributeOne(e, f, full, ready).0)
  {
    hide DistributeOne;
    var e' := DistributeOne(e, f, full, ready).0;
    if !f.header.flags.syn {
      OthersAddNothing(e, f, full, ready);
      SubsetIsSmaller(e'.streams, e.streams);
    } else if e.localGoAway {
      LateSynLeaves(e, f, full, ready);
    } else {
      SynIsAnswered(e, f, full, ready);
      if !HasRoom(e) { SubsetIsSmaller(e'.streams, e.streams); }
    }
  }

  lemma LateSynLeaves(e: Endpoint, f: Frame, full: bool, ready: nat)
    requires f.header.flags.syn && e.localGoAway
    ensures var e' := DistributeOne(e, f, full, ready).0;
            e'.streams == e.streams && e'.pendingStreams == e.pendingStreams
  {
  }

  lemma {:induction false} LoopIsWithinLimits(e: Endpoint, kept: seq<Frame>, rest: seq<Frame>, blocked: set<StreamId>,
                                              full: seq<bool>, ready: nat)
    requires |full| == |rest|
    ensures WithinLimits(e, DistributeLoop(e, kept, rest, blocked, full, ready))
    decreases |rest|
  {
    hide DistributeOne;
    if rest != [] {
      if rest[0].header.streamId in blocked {
        LoopIsWithinLimits(e, kept + [rest[0]], rest[1..], blocked, full[1..], ready);
      } else {
        TurnIsWithinLimits(e, rest[0], full[0], ready);
        var (e', verdict) := DistributeOne(e, rest[0], full[0], ready);
        if verdict.Done? { LoopIsWithinLimits(e', kept, rest[1..], blocked, full[1..], ready); }
        if verdict.Block? {
          LoopIsWithinLimits(e', kept + [rest[0]], rest[1..], blocked + {rest[0].header.streamId}, full[1..], ready);
        }
      }
    }
  }

  /** Whatever the peer sent: a pass takes the table and the streams waiting to be handed out past neither limit. */
  lemma PassIsWithinLimits(e: Endpoint, answers: seq<bool>, ready: nat)
    ensures WithinLimits(e, Distribute(e, answers, ready))
  {
    hide DistributeLoop;
    LoopIsWithinLimits(e, [], e.readPending, {}, Answers(e, answers), ready);
  }

  // ---------------------------------------------------------------- every SYN is answered once

  /** SYNs of one stream among these frames. */
  function Syns(id: StreamId, frames: seq<Frame>): nat {
    if frames == [] then 0
    else (if frames[0].header.flags.syn && frames[0].header.streamId == id then 1 else 0) + Syns(id, frames[1..])
  }

  function Mentions(id: StreamId, ids: seq<StreamId>): nat {
    if ids == [] then 0 else (if ids[0] == id then 1 else 0) + Mentions(id, ids[1..])
  }

  function Refusals(id: StreamId, frames: seq<Frame>): nat {
    if frames == [] then 0 else (if frames[0] == Refused(id) then 1 else 0) + Refusals(id, frames[1..])
  }

  lemma {:induction false} SynsConcat(id: StreamId, a: seq<Frame>, b: seq<Frame>)
    ensures Syns(id, a + b) == Syns(id, a) + Syns(id, b)
  {
    if a == [] {
      assert a + b == b;
    } else {
      SynsConcat(id, a[1..], b);
      assert (a + b)[0] == a[0] && (a + b)[1..] == a[1..] + b;
    }
  }

  lemma {:induction false} MentionsAppend(id: StreamId, ids: seq<StreamId>, last: StreamId)
    ensures Mentions(id, ids + [last]) == Mentions(id, ids) + if last == id then 1 else 0
  {
    if ids == [] {
      assert ids + [last] == [last] && [last][1..] == [];
    } else {
      MentionsAppend(id, ids[1..], last);
      assert (ids + [last])[1..] == ids[1..] + [last];
    }
  }

  lemma {:induction false} RefusalsAppend(id: StreamId, frames: seq<Frame>, last: Frame)
    ensures Refusals(id, frames + [last]) == Refusals(id, frames) + if last == Refused(id) then 1 else 0
  {
    if frames == [] {
      assert frames + [last] == [last] && [last][1..] == [];
    } else {
      RefusalsAppend(id, frames[1..], last);
      assert (frames + [last])[1..] == frames[1..] + [last];
    }
  }

  /** Streams created and refusals queued for this id so far. */
  function Answered(e: Endpoint, id: StreamId): nat {
    Mentions(id, e.pendingStreams) + Refusals(id, e.writePending)
  }

  lemma TurnAnswers(e: Endpoint, f: Frame, full: bool, ready: nat, id: StreamId)
    requires !e.localGoAway
    ensures var (e', verdict) := DistributeOne(e, f, full, ready);
            !verdict.Abort? ==>
              && Answered(e', id) == Answered(e, id) + (if f.header.flags.syn && f.header.streamId == id then 1 else 0)
              && !e'.localGoAway && e'.cfg == e.cfg
  {
    hide DistributeOne;
    if f.header.flags.syn {
      SynIsAnswered(e, f, full, ready);
      StaysHere(e, f, full, ready);
      MentionsAppend(id, e.pendingStreams, f.header.streamId);
      RefusalsAppend(id, e.writePending, Refused(f.header.streamId));
    } else {
      OthersAddNothing(e, f, full, ready);
    }
  }

  lemma StaysHere(e: Endpoint, f: Frame, full: bool, ready: nat)
    requires !e.localGoAway
    ensures var (e', verdict) := DistributeOne(e, f, full, ready); !verdict.Abort? ==> !e'.localGoAway
  {
    hide PushFrame;
    var id := f.header.streamId;
    PushLeavesQueues(e, f, full);
    PushLeavesQueues(e.(writePending := e.writePending + [Refused(id)]), f, full);
    if id !in e.streams {
      var c := CreateStream(e, Some(id)).endpoint;
      PushLeavesQueues(c.(pendingStreams := c.pendingStreams + [id]), f, full);
    }
  }

  /** In a pass that does not end early every SYN it takes is answered, by a stream or by a refusal, and once unless the
      SYN is put back for a later pass. */
  lemma {:induction false} LoopAnswers(e: Endpoint, kept: seq<Frame>, rest: seq<Frame>, blocked: set<StreamId>,
                                       full: seq<bool>, ready: nat, id: StreamId)
    requires |full| == |rest| && !e.localGoAway
    requires !Aborts(e, rest, blocked, full, ready)
    ensures var e' := DistributeLoop(e, kept, rest, blocked, full, ready);
            var taken := Syns(id, kept + rest) as int - Syns(id, e'.readPending) as int;
            && Syns(id, kept) <= Syns(id, e'.readPending)
            && taken <= Answered(e', id) as int - Answered(e, id) as int
            && (Syns(id, e'.readPending) == Syns(id, kept) ==>
               taken == Answered(e', id) as int - Answered(e, id) as int)
    decreases |rest|
  {
    hide DistributeOne, Mentions, Refusals;
    SynsConcat(id, kept, rest);
    if rest == [] {
      assert kept + rest == kept;
    } else {
      var f := rest[0];
      var one := if f.header.flags.syn && f.header.streamId == id then 1 else 0;
      SynsConcat(id, kept, [f]);
      assert [f][1..] == [] && Syns(id, [f]) == one;
      SynsConcat(id, kept, rest[1..]);
      SynsConcat(id, kept + [f], rest[1..]);
      if f.header.streamId in blocked {
        LoopAnswers(e, kept + [f], rest[1..], blocked, full[1..], ready, id);
      } else {
        TurnAnswers(e, f, full[0], ready, id);
        var (e', verdict) := DistributeOne(e, f, full[0], ready);
        if verdict.Done? {
          LoopAnswers(e', kept, rest[1..], blocked, full[1..], ready, id);
        } else {
          LoopAnswers(e', kept + [f], rest[1..], blocked + {f.header.streamId}, full[1..], ready, id);
        }
      }
    }
  }

  /** The whole call: what it takes of the SYNs of an id it answers, and if it puts none back, each exactly once. */
  lemma PassAnswersSyns(e: Endpoint, answers: seq<bool>, ready: nat, id: StreamId)
    requires !e.localGoAway
    requires !Aborts(e, e.readPending, {}, Answers(e, answers), ready)
    ensures var e' := Distribute(e, answers, ready);
            && Syns(id, e.readPending) <= Syns(id, e'.readPending) + (Answered(e', id) - Answered(e, id)) as int
            && (Syns(id, e'.readPending) == 0 ==> Answered(e', id) == Answered(e, id) + Syns(id, e.readPending))
  {
    hide DistributeLoop, Answered;
    assert [] + e.readPending == e.readPending;
    LoopAnswers(e, [], e.readPending, {}, Answers(e, answers), ready, id);
  }

  /** A SYN for a stream whose channel is full, at a limit, is refused and put back: the next pass answers it again. */
  lemma PutBackSynIsRefused(e: Endpoint, syn: Frame, ready: nat)
    requires syn.header.flags.syn && !e.localGoAway && !HasRoom(e) && e.readPending == [syn]
    requires Connected(e, syn.header.streamId) && e.handles[syn.header.streamId].inbox != []
    ensures Distribute(e, [true], ready) == e.(writePending := e.writePending + [Refused(syn.header.streamId)])
  {
    var full, one := Answers(e, [true]), e.(writePending := e.writePending + [Refused(syn.header.streamId)]);
    assert full == [true] && [syn][0] == syn && [syn][1..] == [] && [] + [syn] == [syn];
    assert DistributeOne(e, syn, true, ready) == (one, Block);
    assert full[1..] == [];
    assert DistributeLoop(one, [syn], [], {syn.header.streamId}, [], ready) == one.(readPending := [syn]);
    assert {} + {syn.header.streamId} == {syn.header.streamId};
    assert DistributeLoop(e, [], [syn], {}, full, ready)
        == DistributeLoop(one, [] + [syn], [syn][1..], {} + {syn.header.streamId}, full[1..], ready);
  }

  // ---------------------------------------------------------------- every step, every run

  lemma OpenAddsOne(e: Endpoint)
    ensures var e' := OpenStream(e); e'.pendingStreams == e.pendingStreams && |e'.streams| <= |e.streams| + 1
  {
  }

  lemma SendLeavesStreams(e: Endpoint, f: Frame, code: GoAwayCode, ready: nat)
    ensures var e' := SendAll(e, ready); e'.streams == e.streams && e'.pendingStreams == e.pendingStreams
    ensures var e' := SendFrame(e, f, ready); e'.streams == e.streams && e'.pendingStreams == e.pendingStreams
    ensures var e' := SendGoAway(e, code, ready); e'.streams == e.streams && e'.pendingStreams == e.pendingStreams
  {
  }

  lemma ReceivingLeavesStreams(e: Endpoint, f: Frame, ready: nat)
    ensures var e' := YamuxSession.HandleFrame(e, f, ready);
            e'.streams == e.streams && e'.pendingStreams == e.pendingStreams
  {
    hide SendFrame, SendGoAway, SendAll;
    SendLeavesStreams(e, NewPing(Only(Ack), f.header.length), Normal, ready);
    SendLeavesStreams(e.(remoteGoAway := true, writePending := []), f, Normal, ready);
  }

  lemma EventIsWithinLimits(e: Endpoint, ready: nat)
    requires e.events != []
    ensures WithinLimits(e, HandleEvent(e, ready))
  {
    hide SendFrame, SendGoAway;
    var e1 := e.(events := e.events[1..]);
    match e.events[0]
    case EventFrame(f) => SendLeavesStreams(e1, f, Normal, ready);
    case EventClosed(id) => SubsetIsSmaller(e.streams - {id}, e.streams);
    case EventGoAway => SendLeavesStreams(e1, NewGoAway(Normal), ProtocolError, ready);
  }

  /** Against any peer: no step takes the streams waiting to be handed out past the backlog, and only an open of its own
      can take the table past the maximal number of streams, by one. */
  lemma StepIsWithinLimits(v: View, step: Step)
    ensures var me' := Apply(v, step).me;
            && (if step.StepOpen? then |me'.streams| <= |v.me.streams| + 1 else WithinLimits(v.me, me'))
            && |me'.pendingStreams| <= Max(|v.me.pendingStreams|, v.me.cfg.acceptBacklog)
    ensures var peer' := Apply(v, step).peer;
            peer'.streams == v.peer.streams && peer'.pendingStreams == v.peer.pendingStreams
  {
    hide OpenStream, UseHandle, HandleEvent, SendAll, SendFrame, SendGoAway, YamuxSession.HandleFrame, Distribute;
    var me := v.me;
    if me.up || step.StepUse? {
      match step
      case StepOpen => OpenAddsOne(me);
      case StepUse(id, op) => UseLeavesStreams(me, id, op);
      case StepEvent(ready) => if me.events != [] { EventIsWithinLimits(me, ready); }
      case StepFlush(ready) => SendLeavesStreams(me, NewGoAway(Normal), Normal, ready);
      case StepReceive(ready) => if v.peer.sink != [] { ReceivingLeavesStreams(me, v.peer.sink[0], ready); }
      case StepDistribute(answers, ready) => PassIsWithinLimits(me, answers, ready);
      case StepPing(pingId, ready) => SendLeavesStreams(me, NewPing(Only(Syn), pingId), Normal, ready);
      case StepShutdown(ready) => SendLeavesStreams(me, NewGoAway(Normal), Normal, ready);
      case _ =>
    }
  }

  lemma UseLeavesStreams(e: Endpoint, id: StreamId, op: Op)
    ensures var e' := UseHandle(e, id, op); e'.streams == e.streams && e'.pendingStreams == e.pendingStreams
  {
  }

  /** In every run the streams a side has not handed out yet fit its backlog. */
  lemma {:induction false} BacklogIsKept(client: Config, server: Config, moves: seq<Move>)
    ensures var s := Run(client, server, moves);
            && |s.a.pendingStreams| <= client.acceptBacklog && s.a.cfg == client
            && |s.b.pendingStreams| <= server.acceptBacklog && s.b.cfg == server
    decreases |moves|
  {
    hide Apply;
    if moves != [] {
      BacklogIsKept(client, server, moves[..|moves| - 1]);
      var s, m := Run(client, server, moves[..|moves| - 1]), moves[|moves| - 1];
      StepIsWithinLimits(if m.byClient then View(s.a, s.b) else View(s.b, s.a), m.step);
    }
  }
}
