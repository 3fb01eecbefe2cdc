/** Entries of a stream table that no event will ever remove: what makes one go, and a run that leaves one behind. */
module YamuxOrphan {
  import opened Common
  import opened YamuxFrame
  import opened YamuxStream
  import opened YamuxHandle
  import opened YamuxEnding
  import opened YamuxPast
  import opened YamuxSession
  import opened YamuxSystem
  import opened YamuxDistribute
  import opened YamuxTheorems
  import opened YamuxTable

  /** The handle is dropped, its entry is there, and no Closed event for it is queued. */
  predicate Orphan(e: Endpoint, id: StreamId) {
    e.up && id in e.streams && id in e.handles && e.handles[id].dropped && EventClosed(id) !in e.events
  }

  /** A pass over these frames comes to one of the stream before a SYN, refused after go-away, makes it return. */
  predicate Reaches(away: bool, frames: seq<Frame>, id: StreamId) {
    if frames == [] then false
    else if frames[0].header.streamId == id then true
    else if away && frames[0].header.flags.syn then false
    else Reaches(away, frames[1..], id)
  }

  // ---------------------------------------------------------------- the distribution loop

  /** What a turn leaves alone: flags, and everything about streams it is not for. */
  predicate LeavesAlone(e: Endpoint, e': Endpoint, id: StreamId) {
    && e'.localGoAway == e.localGoAway && e'.up == e.up
    && (id in e'.streams <==> id in e.streams)
    && (id in e.handles ==> id in e'.handles && e'.handles[id] == e.handles[id])
    && (EventClosed(id) in e'.events <==> EventClosed(id) in e.events)
    && (forall k :: k in e.handles ==> k in e'.handles)
  }

  lemma SendLeavesAlone(e: Endpoint, f: Frame, ready: nat, id: StreamId)
    ensures LeavesAlone(e, SendFrame(e, f, ready), id)
  {
  }

  lemma PushLeavesAlone(e: Endpoint, f: Frame, full: bool, id: StreamId)
    requires f.header.streamId != id
    ensures var (e', verdict) := PushFrame(e, f, full);
            LeavesAlone(e, e', id) && !verdict.Abort? && (verdict.Block? ==> f.header.streamId in e.handles)
  {
  }

  lemma AcceptLeavesAlone(e: Endpoint, f: Frame, id: StreamId)
    requires f.header.streamId != id && INITIAL_STREAM_WINDOW <= e.cfg.maxStreamWindow
    ensures LeavesAlone(e, Accepted(e, f), id)
  {
    hide Born;
    BornPast(false, f.header.streamId, e.cfg.maxStreamWindow);
  }

  lemma OtherTurn(v: View, e: Endpoint, kept: seq<Frame>, rest: seq<Frame>, full: bool, ready: nat, id: StreamId)
    requires rest != [] && ViewInv(During(v, e, kept, rest)) && e.up && NoneOf(rest[0].header.streamId, kept)
    requires rest[0].header.streamId != id
    ensures var (e', verdict) := DistributeOne(e, rest[0], full, ready);
            && LeavesAlone(e, e', id)
            && (verdict.Abort? <==> e.localGoAway && rest[0].header.flags.syn)
            && (verdict.Block? ==> rest[0].header.streamId in e.handles)
  {
    hide ViewInv, NoneOf, SendFrame, PushFrame, CreateStream, LeavesAlone;
    var f := rest[0];
    if !f.header.flags.syn {
      PushLeavesAlone(e, f, full, id);
    } else {
      SynIsNew(v, e, kept, rest);
      if e.localGoAway {
        SendLeavesAlone(e, NewWindowUpdate(Only(Rst), f.header.streamId, 0), ready, id);
      } else if |e.streams| < e.cfg.maxStreamCount && |e.pendingStreams| < e.cfg.acceptBacklog {
        AcceptedIs(e, f, full);
        WindowConfigured(During(v, e, kept, rest));
        AcceptLeavesAlone(e, f, id);
      } else {
        var answer := NewWindowUpdate(AddFlag(Only(Ack), Rst), f.header.streamId, 0);
        PushLeavesAlone(e.(writePending := e.writePending + [answer]), f, full, id);
        RefusedIsPushed(e, answer, f, full, id);
      }
    }
  }

  lemma RefusedIsPushed(e: Endpoint, answer: Frame, f: Frame, full: bool, id: StreamId)
    requires LeavesAlone(e.(writePending := e.writePending + [answer]),
             PushFrame(e.(writePending := e.writePending + [answer]), f, full).0, id)
    ensures LeavesAlone(e, PushFrame(e.(writePending := e.writePending + [answer]), f, full).0, id)
  {
  }

  /** A frame for a stream this side knows is no SYN. */
  lemma KnownIsNoSyn(v: View, e: Endpoint, kept: seq<Frame>, rest: seq<Frame>)
    requires rest != [] && ViewInv(During(v, e, kept, rest)) && rest[0].header.streamId in e.handles
    ensures !rest[0].header.flags.syn
  {
    hide ViewInv;
    BlamelessEnd(During(v, e, kept, rest));
    assert rest[0] in kept + rest;
  }

  /** The entry of a known stream, once gone, does not come back. */
  lemma {:induction false} GoneStays(v: View, e: Endpoint, kept: seq<Frame>, rest: seq<Frame>, blocked: set<StreamId>,
                                     full: seq<bool>, ready: nat, id: StreamId)
    requires |full| == |rest| && ViewInv(During(v, e, kept, rest)) && e.up
    requires forall f :: f in kept ==> f.header.streamId in blocked
    requires id in e.handles && id !in e.streams
    ensures id !in DistributeLoop(e, kept, rest, blocked, full, ready).streams
    decreases |rest|
  {
    hide ViewInv, DistributeOne;
    if rest != [] {
      var f := rest[0];
      assert kept + [f] + rest[1..] == kept + rest;
      if f.header.streamId in blocked {
        GoneStays(v, e, kept + [f], rest[1..], blocked, full[1..], ready, id);
      } else {
        Turn(v, e, kept, rest, full[0], ready);
        GoneTurn(v, e, kept, rest, full[0], ready, id);
        var (e', verdict) := DistributeOne(e, f, full[0], ready);
        match verdict
        case Done => GoneStays(v, e', kept, rest[1..], blocked, full[1..], ready, id);
        case Block => GoneStays(v, e', kept + [f], rest[1..], blocked + {f.header.streamId}, full[1..], ready, id);
        case Abort =>
      }
    }
  }

  lemma GoneTurn(v: View, e: Endpoint, kept: seq<Frame>, rest: seq<Frame>, full: bool, ready: nat, id: StreamId)
    requires rest != [] && ViewInv(During(v, e, kept, rest)) && e.up && NoneOf(rest[0].header.streamId, kept)
    requires id in e.handles && id !in e.streams
    ensures var e' := DistributeOne(e, rest[0], full, ready).0; id in e'.handles && id !in e'.streams
  {
    hide ViewInv, NoneOf, SendFrame, CreateStream;
    if rest[0].header.streamId == id {
      KnownIsNoSyn(v, e, kept, rest);
    } else {
      OtherTurn(v, e, kept, rest, full, ready, id);
    }
  }

  /** A pass removes such an entry exactly when it comes to a frame of the stream. */
  lemma {:induction false} LoopRemovesIff(v: View, e: Endpoint, kept: seq<Frame>, rest: seq<Frame>,
      blocked: set<StreamId>,
                                          full: seq<bool>, ready: nat, id: StreamId)
    requires |full| == |rest| && ViewInv(During(v, e, kept, rest)) && e.up
    requires forall f :: f in kept ==> f.header.streamId in blocked
    requires (forall k :: k in blocked ==> k in e.handles) && id !in blocked && Orphan(e, id)
    ensures Orphan(DistributeLoop(e, kept, rest, blocked, full, ready), id) <==> !Reaches(e.localGoAway, rest, id)
    decreases |rest|
  {
    hide ViewInv, DistributeOne;
    if rest != [] {
      var f := rest[0];
      assert kept + [f] + rest[1..] == kept + rest;
      if f.header.streamId in blocked {
        KnownIsNoSyn(v, e, kept, rest);
        LoopRemovesIff(v, e, kept + [f], rest[1..], blocked, full[1..], ready, id);
      } else if f.header.streamId == id {
        KnownIsNoSyn(v, e, kept, rest);
        Turn(v, e, kept, rest, full[0], ready);
        MeetsDropped(e, f, full[0], ready);
        GoneStays(v, DistributeOne(e, f, full[0], ready).0, kept, rest[1..], blocked, full[1..], ready, id);
      } else {
        Turn(v, e, kept, rest, full[0], ready);
        OtherTurn(v, e, kept, rest, full[0], ready, id);
        var (e', verdict) := DistributeOne(e, f, full[0], ready);
        match verdict
        case Done => LoopRemovesIff(v, e', kept, rest[1..], blocked, full[1..], ready, id);
        case Block => LoopRemovesIff(v, e', kept + [f], rest[1..], blocked + {f.header.streamId}, full[1..], ready, id);
        case Abort =>
      }
    }
  }

  lemma MeetsDropped(e: Endpoint, f: Frame, full: bool, ready: nat)
    requires Orphan(e, f.header.streamId) && !f.header.flags.syn
    ensures DistributeOne(e, f, full, ready) == (e.(streams := e.streams - {f.header.streamId}), Done)
  {
  }

  // ---------------------------------------------------------------- all steps

  /** The steps that remove an orphaned entry: the end of the session, and a pass that comes to a frame of its
      stream. */
  predicate Removes(e: Endpoint, step: Step, id: StreamId) {
    step.StepEnd? || (step.StepDistribute? && Reaches(e.localGoAway, e.readPending, id))
  }

  lemma DistributeRemovesIff(v: View, answers: seq<bool>, ready: nat, id: StreamId)
    requires ViewInv(v) && Orphan(v.me, id)
    ensures Orphan(Distribute(v.me, answers, ready), id) <==> !Reaches(v.me.localGoAway, v.me.readPending, id)
  {
    hide ViewInv, Orphan, Reaches;
    var n := |v.me.readPending|;
    assert [] + v.me.readPending == v.me.readPending;
    assert v.me.up by { OrphanIsUp(v.me, id); }
    LoopRemovesIff(v, v.me, [], v.me.readPending, {}, seq(n, k requires 0 <= k < n => k < |answers| && answers[k]),
        ready, id);
  }

  lemma OrphanIsUp(e: Endpoint, id: StreamId)
    requires Orphan(e, id)
    ensures e.up
  {
  }

  lemma UseLeavesOrphan(v: View, key: StreamId, op: Op, id: StreamId)
    requires ViewInv(v) && PastEnd(v.me) && Orphan(v.me, id)
    ensures Orphan(UseHandle(v.me, key, op), id)
  {
    hide ViewInv, Act, PastInv, Plain, AllPlain, TableInv;
    if key in v.me.handles {
      ReadableHandle(v, key);
      ActKeepsPast(v.me.up, LetGo(v.me, key), v.me.handles[key], op);
      if key == id { DroppedIsInert(v.me.up, LetGo(v.me, key), v.me.handles[key], op); }
    }
  }

  lemma DroppedIsInert(up: bool, hungUp: bool, h: Handle, op: Op)
    requires h.dropped
    ensures Act(up, hungUp, h, op) == (h, [])
  {
  }

  lemma OpenLeavesOrphan(v: View, id: StreamId)
    requires ViewInv(v) && Orphan(v.me, id)
    ensures Orphan(OpenStream(v.me), id)
  {
    hide ViewInv, Born;
    NextIdIsFree(v);
    WindowConfigured(v);
    BornPast(true, v.me.nextStreamId, v.me.cfg.maxStreamWindow);
  }

  /** Whatever the session does next: the entry stays exactly as long as the step is not one of those. */
  lemma StepRemovesIff(v: View, step: Step, id: StreamId)
    requires ViewInv(v) && PastEnd(v.me) && Orphan(v.me, id)
    ensures Orphan(Apply(v, step).me, id) <==> !Removes(v.me, step, id)
  {
    hide ViewInv, PastEnd, OpenStream, UseHandle, Distribute, SendFrame, SendGoAway, Reaches;
    var me := v.me;
    match step
    case StepOpen => OpenLeavesOrphan(v, id);
    case StepUse(key, op) => UseLeavesOrphan(v, key, op, id);
    case StepEvent(ready) => if me.events != [] { EventLeavesOrphan(v, ready, id); }
    case StepReceive(ready) => if v.peer.sink != [] { ReceiveLeavesOrphan(me, v.peer.sink[0], ready, id); }
    case StepDistribute(answers, ready) => DistributeRemovesIff(v, answers, ready, id);
    case StepPing(pingId, ready) => SendLeavesAlone(me, NewPing(Only(Syn), pingId), ready, id);
    case StepShutdown(ready) => GoAwayShape(me, Normal, ready);
    case _ =>
  }

  lemma EventLeavesOrphan(v: View, ready: nat, id: StreamId)
    requires ViewInv(v) && v.me.events != [] && Orphan(v.me, id)
    ensures Orphan(HandleEvent(v.me, ready), id)
  {
    hide ViewInv, SendFrame, SendGoAway;
    NoComplaint(v);
    var e1 := v.me.(events := v.me.events[1..]);
    assert Orphan(e1, id);
    if v.me.events[0].EventFrame? { SendLeavesAlone(e1, v.me.events[0].frame, ready, id); }
  }

  lemma ReceiveLeavesOrphan(e: Endpoint, f: Frame, ready: nat, id: StreamId)
    requires Orphan(e, id)
    ensures Orphan(YamuxSession.HandleFrame(e, f, ready), id)
  {
    hide SendFrame, SendGoAway;
    if f.header.ty.Ping? { SendLeavesAlone(e, NewPing(Only(Ack), f.header.length), ready, id); }
    GoAwayShape(e.(remoteGoAway := true, writePending := []), Normal, ready);
  }

  /** In every run: an entry whose handle is dropped and for which no Closed event is queued stays in the table,
      whatever either side does, until the session ends or a frame of that stream is distributed. */
  lemma OrphanStaysIff(client: Config, server: Config, moves: seq<Move>, who: bool, id: StreamId, m: Move)
    requires ValidConfig(client) && ValidConfig(server) && Orphan(EndOf(Run(client, server, moves), who), id)
    ensures Orphan(EndOf(Run(client, server, moves + [m]), who), id) <==>
            !(m.byClient == who && Removes(EndOf(Run(client, server, moves), who), m.step, id))
  {
    hide ViewInv, PastEnd, Orphan, Removes, Apply;
    EndOfRun(client, server, moves, who);
    assert (moves + [m])[..|moves|] == moves;
    var s := Run(client, server, moves);
    var mine, theirs := View(EndOf(s, who), OtherEnd(s, who)), View(OtherEnd(s, who), EndOf(s, who));
    if m.byClient == who {
      StepRemovesIff(mine, m.step, id);
    } else {
      PeerLeavesOrphan(theirs, m.step, id);
    }
  }

  lemma PeerLeavesOrphan(v: View, step: Step, id: StreamId)
    requires Orphan(v.peer, id)
    ensures Orphan(Apply(v, step).peer, id)
  {
  }

  // ---------------------------------------------------------------- a run that leaves an entry behind

  /** The client opens a stream and shuts it down at once; its two frames reach the server, which creates the stream and
      hands it out; there it is shut down, read and dropped. */
  const ORPHANING: seq<Move> := [
    Move(true, StepOpen), Move(true, StepUse(1, OpClose)), Move(true, StepEvent(1)), Move(true, StepEvent(1)),
    Move(false, StepReceive(0)), Move(false, StepReceive(0)), Move(false, StepDistribute([], 0)),
    Move(false, StepAccept), Move(false, StepUse(1, OpClose)), Move(false, StepUse(1, OpRead(1))),
    Move(false, StepUse(1, OpDrop))]

  /** A run, move by move. */
  lemma {:induction false} RunIsChain(client: Config, server: Config, moves: seq<Move>, chain: seq<System>)
    requires |chain| == |moves| + 1 && chain[0] == Run(client, server, [])
    requires forall k :: 0 <= k < |moves| ==> chain[k + 1] == Advance(chain[k], moves[k])
    ensures Run(client, server, moves) == chain[|moves|]
    decreases |moves|
  {
    if moves != [] {
      var n := |moves| - 1;
      RunIsChain(client, server, moves[..n], chain[..n + 1]);
      assert chain[..n + 1][n] == chain[n];
    }
  }

  const FIN := NewWindowUpdate(Only(Fin), 1, 0)

  function SynOf(cfg: Config): Frame
    requires ValidConfig(cfg)
  {
    NewWindowUpdate(Only(Syn), 1, cfg.maxStreamWindow as int - INITIAL_STREAM_WINDOW as int)
  }

  lemma OpenedAndClosed(cfg: Config)
    requires ValidConfig(cfg)
    ensures var h := Born(true, 1, cfg.maxStreamWindow).0;
            && Born(true, 1, cfg.maxStreamWindow).1 == [EventFrame(SynOf(cfg))]
            && Act(true, false, h, OpClose).1 == [EventFrame(FIN)]
  {
    BornInv(true, 1, cfg.maxStreamWindow);
    UpdateIsExact(true, NewStream(1, Init, cfg.maxStreamWindow));
  }

  lemma SendsOne(e: Endpoint, f: Frame)
    requires e.writePending == [] && !IsDead(e)
    ensures var e' := SendFrame(e, f, 1); e' == e.(sink := e.sink + [f], synLog := e'.synLog)
  {
    assert [] + [f] == [f] && [f][1..] == [] && [f][..1] == [f];
  }

  /** The client's four moves put SYN and FIN on the wire. */
  lemma ClientSends(cfg: Config)
    requires ValidConfig(cfg)
    ensures var e1 := OpenStream(NewSession(true, cfg));
            var e2 := UseHandle(e1, 1, OpClose);
            && e1.up && e2.up && |e2.events| == 2 && HandleEvent(e2, 1).up && |HandleEvent(e2, 1).events| == 1
            && var e4 := HandleEvent(HandleEvent(e2, 1), 1);
               e4.sink == [SynOf(cfg), FIN] && e4.writePending == [] && e4.events == []
  {
    hide Born, Act, SendFrame;
    OpenedAndClosed(cfg);
    var e1 := OpenStream(NewSession(true, cfg));
    var e2 := UseHandle(e1, 1, OpClose);
    assert e2.events == [EventFrame(SynOf(cfg)), EventFrame(FIN)];
    SendsOne(e2.(events := e2.events[1..]), SynOf(cfg));
    var e3 := HandleEvent(e2, 1);
    assert e3.sink == [SynOf(cfg)] && e3.events == [EventFrame(FIN)] && e3.writePending == [];
    SendsOne(e3.(events := e3.events[1..]), FIN);
  }

  /** The server's pass over SYN and FIN. */
  lemma ServerAccepts(e: Endpoint, syn: Frame)
    requires e.up && !e.localGoAway && e.streams == {} && e.handles == map[] && e.pendingStreams == [] && e.events == []
    requires e.cfg.maxStreamCount > 0 && e.cfg.acceptBacklog > 0 && ValidConfig(e.cfg)
    requires e.readPending == [syn, FIN] && syn.header.streamId == 1 && syn.header.flags == Only(Syn)
    ensures var e' := Distribute(e, [], 0);
            var (h, evs) := Born(false, 1, e.cfg.maxStreamWindow);
            && e' == e.(streams := {1}, handles := map[1 := h.(inbox := [syn, FIN])], events := evs,
               pendingStreams := [1],
                        readPending := [])
            && forall ev :: ev in e'.events ==> ev.EventFrame?
  {
    hide Born, CreateStream, PushFrame;
    var full := [false, false];
    var answers: seq<bool>, n := [], |e.readPending|;
    assert seq(n, k requires 0 <= k < n => k < |answers| && answers[k]) == full;
    AcceptedIs(e, syn, false);
    BornPast(false, 1, e.cfg.maxStreamWindow);
    var e1 := Accepted(e, syn);
    assert DistributeOne(e, syn, false, 0) == (e1, Done);
    var h := e1.handles[1];
    var e2 := e1.(handles := e1.handles[1 := h.(inbox := h.inbox + [FIN])]);
    assert DistributeOne(e1, FIN, false, 0) == (e2, Done) by { PushesOn(e1, FIN); }
    assert [syn, FIN][1..] == [FIN] && [FIN][1..] == [] && full[1..] == [false] && [false][1..] == [];
    assert DistributeLoop(e2, [], [], {}, [], 0) == e2.(readPending := []);
    assert DistributeLoop(e1, [], [FIN], {}, [false], 0) == e2.(readPending := []);
    assert DistributeLoop(e, [], [syn, FIN], {}, full, 0) == e2.(readPending := []);
    assert [syn] + [FIN] == [syn, FIN];
    assert e2.events == Born(false, 1, e.cfg.maxStreamWindow).1 && e2.streams == {1} && e2.pendingStreams == [1];
    assert e2.handles == map[1 := Born(false, 1, e.cfg.maxStreamWindow).0.(inbox := [syn, FIN])];
  }

  lemma PushesOn(e: Endpoint, f: Frame)
    requires f.header.streamId in e.streams && f.header.streamId in e.handles && !e.handles[f.header.streamId].dropped
    ensures var h := e.handles[f.header.streamId];
            PushFrame(e, f, false) == (e.(handles := e.handles[f.header.streamId := h.(inbox := h.inbox + [f])]), Done)
  {
  }

  /** The server's owner shuts the stream down, reads and drops it: not a word of it to the session. */
  lemma OwnerLeaves(h: Handle, syn: Frame, maxWindow: u32)
    requires INITIAL_STREAM_WINDOW <= maxWindow && h == Born(false, 1, maxWindow).0.(inbox := [syn, FIN])
    requires syn.header.ty.WindowUpdate? && syn.header.flags == Only(Syn) && WellFormed(syn)
    requires INITIAL_STREAM_WINDOW as int + syn.header.length as int < U32_SIZE
    ensures var (h1, evs1) := Act(true, false, h, OpClose);
            var (h2, evs2) := Act(true, false, h1, OpRead(1));
            var (h3, evs3) := Act(true, false, h2, OpDrop);
            h3.dropped && (forall ev :: ev in evs1 + evs2 + evs3 ==> ev.EventFrame?)
  {
    hide PollRead, Born;
    BornInv(false, 1, maxWindow);
    BornIsOpen(maxWindow);
    BornPast(false, 1, maxWindow);
    var h1 := Act(true, false, h, OpClose).0;
    assert h1.stream == h.stream.(state := LocalClosing) && h1.inbox == [syn, FIN] && !h1.dropped;
    FinIsReached(h1.stream, syn);
    FinClosesIff(true, false, h1.stream, h1.inbox, 1);
  }

  lemma BornIsOpen(maxWindow: u32)
    requires INITIAL_STREAM_WINDOW <= maxWindow
    ensures var s := Born(false, 1, maxWindow).0.stream; s.state.Established? && s.readBuf == []
  {
    UpdateIsExact(true, NewStream(1, SynReceived, maxWindow));
  }

  lemma FinIsReached(s: Stream, syn: Frame)
    requires syn.header.ty.WindowUpdate? && syn.header.flags == Only(Syn)
    requires s.sendWindow as int + syn.header.length as int < U32_SIZE
    ensures FinArrives(s, [syn, FIN])
  {
    var inbox := [syn, FIN];
    assert inbox[..2] == inbox && inbox[1..] == [FIN] && [FIN][1..] == [];
    assert Credit(inbox) == syn.header.length as int + Credit([FIN]);
    assert StopsAt(s, inbox, 1);
  }

  lemma OwnerOrphans(e: Endpoint, syn: Frame)
    requires e.up && e.streams == {1} && 1 in e.handles && ValidConfig(e.cfg)
    requires e.handles[1] == Born(false, 1, e.cfg.maxStreamWindow).0.(inbox := [syn, FIN])
    requires syn.header.ty.WindowUpdate? && syn.header.flags == Only(Syn) && WellFormed(syn)
    requires INITIAL_STREAM_WINDOW as int + syn.header.length as int < U32_SIZE
    requires forall ev :: ev in e.events ==> ev.EventFrame?
    ensures var e1 := UseHandle(e, 1, OpClose);
            var e2 := UseHandle(e1, 1, OpRead(1));
            var e3 := UseHandle(e2, 1, OpDrop);
            Orphan(e3, 1) && e3.readPending == e.readPending
  {
    hide Born, Act;
    OwnerLeaves(e.handles[1], syn, e.cfg.maxStreamWindow);
    var (h1, evs1) := Act(true, false, e.handles[1], OpClose);
    var (h2, evs2) := Act(true, false, h1, OpRead(1));
    var (h3, evs3) := Act(true, false, h2, OpDrop);
    var e3 := UseHandle(UseHandle(UseHandle(e, 1, OpClose), 1, OpRead(1)), 1, OpDrop);
    assert e3.events == e.events + (evs1 + evs2 + evs3) && e3.handles[1] == h3;
  }

  lemma Received(a: Endpoint, b: Endpoint)
    requires b.up && a.sink != [] && (a.sink[0].header.ty.Data? || a.sink[0].header.ty.WindowUpdate?)
    ensures Advance(System(a, b), Move(false, StepReceive(0))) ==
            System(a.(sink := a.sink[1..]), b.(readPending := b.readPending + [a.sink[0]]))
  {
  }

  lemma ClientMoves(a: Endpoint, b: Endpoint, step: Step)
    requires a.up && (step.StepOpen? || step.StepUse? || (step.StepEvent? && a.events != []))
    ensures Advance(System(a, b), Move(true, step)) ==
            System(if step.StepOpen? then OpenStream(a) else if step.StepUse? then UseHandle(a, step.id, step.op)
                   else HandleEvent(a, step.ready), b)
  {
  }

  lemma ServerMoves(a: Endpoint, b: Endpoint, step: Step)
    requires b.up && (step.StepDistribute? || step.StepUse? || (step.StepAccept? && b.pendingStreams != []))
    ensures Advance(System(a, b), Move(false, step)) ==
            System(a, if step.StepUse? then UseHandle(b, step.id, step.op)
                      else if step.StepAccept? then b.(pendingStreams := b.pendingStreams[1..])
                      else Distribute(b, step.answers, step.ready))
  {
  }

  /** For any configuration that lets the server accept a stream at all, this run leaves an entry behind at the server,
      with nothing more under way to it. */
  lemma OrphanIsLeft(client: Config, server: Config)
    requires ValidConfig(client) && ValidConfig(server) && server.maxStreamCount > 0 && server.acceptBacklog > 0
    ensures Orphan(Run(client, server, ORPHANING).b, 1)
    ensures var s := Run(client, server, ORPHANING);
            s.b.readPending + s.a.sink + s.a.writePending == [] && s.a.events == []
  {
    hide OpenStream, UseHandle, HandleEvent, Distribute, Born, Act, Advance, Orphan;
    ClientSends(client);
    var syn := SynOf(client);
    var a0, b0 := NewSession(true, client), NewSession(false, server);
    var a1 := OpenStream(a0);
    var a2 := UseHandle(a1, 1, OpClose);
    var a3 := HandleEvent(a2, 1);
    var a4 := HandleEvent(a3, 1);
    ClientMoves(a0, b0, StepOpen);
    ClientMoves(a1, b0, StepUse(1, OpClose));
    ClientMoves(a2, b0, StepEvent(1));
    ClientMoves(a3, b0, StepEvent(1));
    var a5, b5 := a4.(sink := [FIN]), b0.(readPending := [syn]);
    var a6, b6 := a4.(sink := []), b0.(readPending := [syn, FIN]);
    assert [syn, FIN][1..] == [FIN] && [FIN][1..] == [] && [] + [syn] == [syn] && [syn] + [FIN] == [syn, FIN];
    Received(a4, b0);
    Received(a5, b5);
    ServerAccepts(b6, syn);
    var b7 := Distribute(b6, [], 0);
    ServerMoves(a6, b6, StepDistribute([], 0));
    var b8 := b7.(pendingStreams := []);
    ServerMoves(a6, b7, StepAccept);
    OwnerOrphans(b8, syn);
    var b9 := UseHandle(b8, 1, OpClose);
    var b10 := UseHandle(b9, 1, OpRead(1));
    StillUp(b8, 1, OpClose);
    StillUp(b9, 1, OpRead(1));
    ServerMoves(a6, b8, StepUse(1, OpClose));
    ServerMoves(a6, b9, StepUse(1, OpRead(1)));
    ServerMoves(a6, b10, StepUse(1, OpDrop));
    RunIsChain(client, server, ORPHANING,
               [System(a0, b0), System(a1, b0), System(a2, b0), System(a3, b0), System(a4, b0), System(a5, b5),
                   System(a6, b6),
                System(a6, b7), System(a6, b8), System(a6, b9), System(a6, b10),
                    System(a6, UseHandle(b10, 1, OpDrop))]);
  }

  lemma StillUp(e: Endpoint, id: StreamId, op: Op)
    ensures UseHandle(e, id, op).up == e.up
  {
  }
}
