/** A session whose peer uses a stream id again: the Closed event of the old handle removes the entry of the new one,
    which then sends data behind its own FIN. */
module YamuxReuse {
  import opened Common
  import opened YamuxFrame
  import opened YamuxStream
  import opened YamuxHandle
  import opened YamuxReopen
  import opened YamuxSession
  import opened YamuxDistribute
  import opened YamuxTheorems
  import opened YamuxOrphan

  /** A session by itself takes these steps; what the peer has put on the wire is `v.peer.sink`. */
  function Serve(v: View, steps: seq<Step>): View
    decreases |steps|
  {
    if steps == [] then v else Apply(Serve(v, steps[..|steps| - 1]), steps[|steps| - 1])
  }

  const SYN := NewWindowUpdate(Only(Syn), 1, 0)

  /** SYN and FIN come in, the stream is handed out, read and shut down twice; two frames and the first of two Closed
      events are handled; SYN comes in again, a new stream is handed out, and the second Closed event is handled. */
  const REUSE: seq<Step> := [
    StepReceive(0), StepReceive(0), StepDistribute([], 0), StepAccept,
    StepUse(1, OpRead(1)), StepUse(1, OpClose), StepUse(1, OpClose),
    StepEvent(1), StepEvent(1), StepEvent(1),
    StepReceive(0), StepDistribute([], 0), StepAccept, StepEvent(1)]

  /** The new stream is shut down, read and written. */
  const WRITE_AGAIN: seq<Step> := [StepUse(1, OpClose), StepUse(1, OpRead(1)), StepUse(1, OpWrite([7]))]

  lemma {:induction false} ServeIsChain(steps: seq<Step>, chain: seq<View>)
    requires |chain| == |steps| + 1
    requires forall k :: 0 <= k < |steps| ==> chain[k + 1] == Apply(chain[k], steps[k])
    ensures Serve(chain[0], steps) == chain[|steps|]
    decreases |steps|
  {
    hide Apply;
    if steps != [] {
      var n := |steps| - 1;
      ServeIsChain(steps[..n], chain[..n + 1]);
      assert chain[..n + 1][n] == chain[n];
    }
  }

  function Newborn(cfg: Config, inbox: seq<Frame>): Handle { Born(false, 1, cfg.maxStreamWindow).0.(inbox := inbox) }

  function Hello(cfg: Config): seq<StreamEvent> { Born(false, 1, cfg.maxStreamWindow).1 }

  lemma NewbornIsOpen(cfg: Config, inbox: seq<Frame>)
    requires ValidConfig(cfg)
    ensures var h := Newborn(cfg, inbox);
            && h.stream.state.Established? && h.stream.readBuf == [] && h.stream.sendWindow == INITIAL_STREAM_WINDOW
            && h.stream.id == 1 && !h.dropped && FinIsLast(h.sent)
    ensures |Hello(cfg)| == 1 && Hello(cfg)[0].EventFrame?
  {
    UpdateIsExact(true, NewStream(1, SynReceived, cfg.maxStreamWindow));
    BornInv(false, 1, cfg.maxStreamWindow);
  }

  // ---------------------------------------------------------------- the old handle

  lemma ReadsToTheEnd(s: Stream)
    requires s.state.Established? && s.readBuf == [] && s.id == 1
    ensures RecvFrames(false, s, [SYN, FIN]) == (s.(state := RemoteClosing), [], Some(SubStreamRemoteClosing))
  {
    var closing := s.(state := RemoteClosing);
    assert [SYN, FIN][1..] == [FIN] && [FIN][1..] == [];
    assert YamuxStream.HandleFrame(s, SYN) == (s, None);
    assert YamuxStream.HandleFrame(s, FIN) == (closing, None);
    assert RecvFrames(false, closing, []) == (closing, [], Some(SubStreamRemoteClosing));
    assert RecvFrames(false, s, [FIN]) == (closing, [], Some(SubStreamRemoteClosing));
  }

  /** Read, shut down, shut down again: a FIN and two Closed events. */
  lemma OldHandleSays(h: Handle)
    requires h.stream.state.Established? && h.stream.readBuf == [] && h.stream.id == 1 && !h.dropped
             && h.inbox == [SYN, FIN]
    ensures var (h1, evs1) := Act(true, false, h, OpRead(1));
            var (h2, evs2) := Act(true, false, h1, OpClose);
            var (h3, evs3) := Act(true, false, h2, OpClose);
            evs1 == [] && evs2 == [EventFrame(FIN), EventClosed(1)] && evs3 == [EventClosed(1)]
  {
    hide RecvFrames;
    ReadsToTheEnd(h.stream);
    var h1 := Act(true, false, h, OpRead(1)).0;
    assert h1.stream == h.stream.(state := RemoteClosing) && !h1.dropped;
  }

  /** The three uses, in the session. */
  lemma OldHandleEnds(e: Endpoint)
    requires e.up && e.streams == {1} && ValidConfig(e.cfg) && e.handles == map[1 := Newborn(e.cfg, [SYN, FIN])]
    requires e.events == Hello(e.cfg)
    ensures var e1 := UseHandle(e, 1, OpRead(1));
            var e2 := UseHandle(e1, 1, OpClose);
            var e3 := UseHandle(e2, 1, OpClose);
            e3 == e.(handles := e3.handles, events := [Hello(e.cfg)[0], EventFrame(FIN), EventClosed(1),
                EventClosed(1)])
  {
    hide Act, Newborn, Hello;
    NewbornIsOpen(e.cfg, [SYN, FIN]);
    assert Newborn(e.cfg, [SYN, FIN]).inbox == [SYN, FIN] by { InboxIs(e.cfg, [SYN, FIN]); }
    OldHandleSays(Newborn(e.cfg, [SYN, FIN]));
    assert e.events == [Hello(e.cfg)[0]];
  }

  lemma InboxIs(cfg: Config, inbox: seq<Frame>)
    ensures Newborn(cfg, inbox).inbox == inbox
  {
  }

  /** Two frames leave and the first Closed event removes the entry. */
  lemma ThreeEvents(e: Endpoint, f: Frame, g: Frame)
    requires e.events == [EventFrame(f), EventFrame(g), EventClosed(1), EventClosed(1)]
    requires e.writePending == [] && !IsDead(e) && e.streams == {1}
    ensures var e1 := HandleEvent(e, 1);
            && e1.events != [] && e1.up == e.up
            && var e2 := HandleEvent(e1, 1);
            && e2.events != [] && e2.up == e.up
            && var e3 := HandleEvent(e2, 1);
               e3 == e.(streams := {}, events := [EventClosed(1)], sink := e3.sink, synLog := e3.synLog)
  {
    hide SendFrame;
    SendsOne(e.(events := e.events[1..]), f);
    var e1 := HandleEvent(e, 1);
    assert e1.events == [EventFrame(g), EventClosed(1), EventClosed(1)];
    SendsOne(e1.(events := e1.events[1..]), g);
    var e2 := HandleEvent(e1, 1);
    assert e2.events == [EventClosed(1), EventClosed(1)];
    assert e2.events[1..] == [EventClosed(1)];
  }

  // ---------------------------------------------------------------- the new handle

  /** A pass over a single SYN for an id that is not in the table. */
  lemma SynMakesNew(e: Endpoint)
    requires !e.localGoAway && e.streams == {} && e.pendingStreams == [] && e.readPending == [SYN]
    requires e.cfg.maxStreamCount > 0 && e.cfg.acceptBacklog > 0 && ValidConfig(e.cfg)
    ensures Distribute(e, [], 0) ==
            e.(streams := {1}, handles := e.handles[1 := Newborn(e.cfg, [SYN])], events := e.events + Hello(e.cfg),
               pendingStreams := [1], readPending := [])
  {
    hide Born, CreateStream, PushFrame;
    var full := [false];
    var answers: seq<bool>, n := [], |e.readPending|;
    assert seq(n, k requires 0 <= k < n => k < |answers| && answers[k]) == full;
    AcceptedIs(e, SYN, false);
    var e1 := Accepted(e, SYN);
    assert DistributeOne(e, SYN, false, 0) == (e1, Done);
    assert [SYN][1..] == [] && full[1..] == [];
    assert DistributeLoop(e1, [], [], {}, [], 0) == e1.(readPending := []);
    assert DistributeLoop(e, [], [SYN], {}, full, 0) == e1.(readPending := []);
  }

  /** Shut down, read to the end of the abandoned channel, written: data behind the FIN. */
  lemma NewHandleWrites(h: Handle)
    requires h.stream.state.Established? && h.stream.readBuf == [] && h.stream.sendWindow == INITIAL_STREAM_WINDOW
    requires !h.dropped && h.inbox == [SYN]
    ensures var h1 := Act(true, true, h, OpClose).0;
            var h2 := Act(true, true, h1, OpRead(1)).0;
            !FinIsLast(Act(true, true, h2, OpWrite([7])).0.sent)
  {
    hide FinIsLast, Act, Reopens;
    var w1 := World(Act(true, true, h, OpClose).0, true, true, true);
    ClosesWithFin(h);
    assert Reopens(w1, Does(OpRead(1))) by { SynOnlyReopens(w1); }
    WritesAgainIff(w1, Does(OpRead(1)));
    var w2 := Happen(w1, Does(OpRead(1)));
    ReadKeepsFin(w1.handle);
    HappenBreaksIff(w2, Does(OpWrite([7])));
  }

  lemma ClosesWithFin(h: Handle)
    requires h.stream.state.Established? && !h.dropped && h.inbox == [SYN]
    ensures var h1 := Act(true, true, h, OpClose).0;
            && h1.stream == h.stream.(state := LocalClosing) && !h1.dropped && h1.inbox == [SYN]
               && StreamFrames(h1.inbox)
            && HasFlag(h1.sent, Fin)
  {
    var h1 := Act(true, true, h, OpClose).0;
    OneFrame(NewWindowUpdate(Only(Fin), h.stream.id, 0), []);
    assert [EventFrame(NewWindowUpdate(Only(Fin), h.stream.id, 0))] ==
           [EventFrame(NewWindowUpdate(Only(Fin), h.stream.id, 0))] + [];
    assert Contains(h1.sent[|h.sent|].header.flags, Fin);
  }

  lemma SynOnlyReopens(w: World)
    requires w.hungUp && !w.handle.dropped && w.handle.stream.state.LocalClosing? && w.handle.stream.readBuf == []
    requires w.handle.inbox == [SYN] && w.handle.stream.sendWindow == INITIAL_STREAM_WINDOW
    ensures Reopens(w, Does(OpRead(1)))
  {
    assert [SYN][1..] == [];
  }

  /** The read that opens the handle again leaves its log and its credit alone. */
  lemma ReadKeepsFin(h: Handle)
    requires !h.dropped && h.stream.state.LocalClosing? && h.stream.readBuf == [] && h.inbox == [SYN]
             && HasFlag(h.sent, Fin)
    requires h.stream.sendWindow == INITIAL_STREAM_WINDOW
    ensures var h' := Act(true, true, h, OpRead(1)).0;
            !h'.dropped && HasFlag(h'.sent, Fin) && h'.stream.sendWindow > 0
  {
    var s := h.stream;
    assert [SYN][1..] == [];
    assert YamuxStream.HandleFrame(s, SYN) == (s, None);
    assert RecvFrames(true, s, []) == (s.(state := RemoteClosing), [], Some(SessionShutdown));
    assert RecvFrames(true, s, [SYN]) == (s.(state := RemoteClosing), [], Some(SessionShutdown));
    assert h.sent + [] == h.sent;
  }

  // ---------------------------------------------------------------- the run

  lemma Receives(v: View)
    requires v.me.up && v.peer.sink != []
    requires v.peer.sink[0].header.ty.WindowUpdate?
    ensures Apply(v, StepReceive(0)) ==
            View(v.me.(readPending := v.me.readPending + [v.peer.sink[0]]), v.peer.(sink := v.peer.sink[1..]))
  {
  }

  lemma Handles(v: View)
    requires v.me.up && v.me.events != []
    ensures Apply(v, StepEvent(1)) == v.(me := HandleEvent(v.me, 1))
  {
  }

  lemma Accepts(v: View)
    requires v.me.up && v.me.pendingStreams == [1]
    ensures Apply(v, StepAccept) == v.(me := v.me.(pendingStreams := []))
  {
  }

  lemma Distributes(v: View)
    requires v.me.up
    ensures Apply(v, StepDistribute([], 0)) == v.(me := Distribute(v.me, [], 0))
  {
  }

  lemma Uses(v: View, op: Op)
    ensures Apply(v, StepUse(1, op)) == v.(me := UseHandle(v.me, 1, op))
  {
  }

  /** What the session is after the first four steps. */
  function Handed(cfg: Config): Endpoint {
    NewSession(false, cfg).(streams := {1}, handles := map[1 := Newborn(cfg, [SYN, FIN])], events := Hello(cfg))
  }

  lemma FirstFour(cfg: Config, peer: Endpoint, rest: seq<Frame>)
    requires ValidConfig(cfg) && cfg.maxStreamCount > 0 && cfg.acceptBacklog > 0 && peer.sink == [SYN, FIN] + rest
    ensures Serve(View(NewSession(false, cfg), peer), REUSE[..4]) == View(Handed(cfg), peer.(sink := rest))
  {
    hide Apply, Distribute, Born, Serve;
    var e0 := NewSession(false, cfg);
    var v0 := View(e0, peer);
    var v1 := View(e0.(readPending := [SYN]), peer.(sink := [FIN] + rest));
    var v2 := View(e0.(readPending := [SYN, FIN]), peer.(sink := rest));
    assert peer.sink[1..] == [FIN] + rest && ([FIN] + rest)[1..] == rest;
    assert [] + [SYN] == [SYN] && [SYN] + [FIN] == [SYN, FIN];
    Receives(v0);
    Receives(v1);
    Distributes(v2);
    ServerAccepts(v2.me, SYN);
    var v3 := v2.(me := Distribute(v2.me, [], 0));
    Accepts(v3);
    ServeIsChain(REUSE[..4], [v0, v1, v2, v3, View(Handed(cfg), peer.(sink := rest))]);
  }

  lemma NextSix(cfg: Config, peer: Endpoint) returns (v: View)
    requires ValidConfig(cfg)
    ensures v == Serve(View(Handed(cfg), peer), REUSE[4..10])
    ensures v.peer == peer && v.me == NewSession(false, cfg).(handles := v.me.handles, events := [EventClosed(1)],
                                                              sink := v.me.sink, synLog := v.me.synLog)
  {
    hide Apply, UseHandle, HandleEvent, Newborn, Hello;
    var e4 := Handed(cfg);
    NewbornIsOpen(cfg, []);
    OldHandleEnds(e4);
    var e5 := UseHandle(e4, 1, OpRead(1));
    var e6 := UseHandle(e5, 1, OpClose);
    var e7 := UseHandle(e6, 1, OpClose);
    ThreeEvents(e7, Hello(cfg)[0].frame, FIN);
    var e8 := HandleEvent(e7, 1);
    var e9 := HandleEvent(e8, 1);
    var e10 := HandleEvent(e9, 1);
    Uses(View(e4, peer), OpRead(1));
    Uses(View(e5, peer), OpClose);
    Uses(View(e6, peer), OpClose);
    Handles(View(e7, peer));
    Handles(View(e8, peer));
    Handles(View(e9, peer));
    v := View(e10, peer);
    ServeIsChain(REUSE[4..10], [View(e4, peer), View(e5, peer), View(e6, peer), View(e7, peer), View(e8, peer),
                                View(e9, peer), v]);
  }

  lemma LastFour(v: View) returns (v': View)
    requires v.me.up && !v.me.localGoAway && v.me.streams == {} && v.me.pendingStreams == [] && v.me.readPending == []
    requires v.me.events == [EventClosed(1)] && v.peer.sink == [SYN] && ValidConfig(v.me.cfg)
    requires v.me.cfg.maxStreamCount > 0 && v.me.cfg.acceptBacklog > 0
    ensures v' == Serve(v, REUSE[10..])
    ensures v'.me.up && v'.me.streams == {} && 1 in v'.me.handles && v'.me.handles[1] == Newborn(v.me.cfg, [SYN])
  {
    hide Apply, Distribute, Newborn, Hello;
    var v1 := View(v.me.(readPending := [SYN]), v.peer.(sink := []));
    assert [] + [SYN] == [SYN] && [SYN][1..] == [];
    Receives(v);
    SynMakesNew(v1.me);
    var v2 := v1.(me := Distribute(v1.me, [], 0));
    Distributes(v1);
    var v3 := v2.(me := v2.me.(pendingStreams := []));
    Accepts(v2);
    v' := v3.(me := HandleEvent(v3.me, 1));
    Handles(v3);
    ServeIsChain(REUSE[10..], [v, v1, v2, v3, v']);
  }

  lemma {:induction false} ServeTwice(v: View, a: seq<Step>, b: seq<Step>)
    ensures Serve(v, a + b) == Serve(Serve(v, a), b)
    decreases |b|
  {
    hide Apply;
    if b == [] {
      assert a + b == a;
    } else {
      ServeTwice(v, a, b[..|b| - 1]);
      assert (a + b)[..|a + b| - 1] == a + b[..|b| - 1];
    }
  }

  /** Whatever the configuration, if the server accepts streams at all: a peer that sends SYN, FIN and SYN again for one
      id can leave the server with a live handle whose entry is gone, and that handle, shut down, read and written, has
      sent data behind its FIN. */
  lemma ReusedIdWritesBehindFin(cfg: Config, peer: Endpoint)
    requires ValidConfig(cfg) && cfg.maxStreamCount > 0 && cfg.acceptBacklog > 0 && peer.sink == [SYN, FIN, SYN]
    ensures var e := Serve(View(NewSession(false, cfg), peer), REUSE).me;
            && e.up && 1 !in e.streams && 1 in e.handles && !e.handles[1].dropped && Receiving(e.handles[1].stream)
    ensures var e := Serve(View(NewSession(false, cfg), peer), REUSE + WRITE_AGAIN).me;
            1 in e.handles && !FinIsLast(e.handles[1].sent)
  {
    hide Serve, FinIsLast, Newborn, Hello, HandleEvent;
    var v0 := View(NewSession(false, cfg), peer);
    assert peer.sink == [SYN, FIN] + [SYN];
    FirstFour(cfg, peer, [SYN]);
    var v10 := NextSix(cfg, peer.(sink := [SYN]));
    var v14 := LastFour(v10);
    assert REUSE == (REUSE[..4] + REUSE[4..10]) + REUSE[10..];
    ServeTwice(v0, REUSE[..4] + REUSE[4..10], REUSE[10..]);
    ServeTwice(v0, REUSE[..4], REUSE[4..10]);
    assert Serve(v0, REUSE) == v14;
    NewbornIsOpen(cfg, [SYN]);
    WritesOn(v14, cfg);
    ServeTwice(v0, REUSE, WRITE_AGAIN);
  }

  lemma WritesOn(v: View, cfg: Config)
    requires ValidConfig(cfg) && v.me.up && v.me.streams == {} && 1 in v.me.handles
             && v.me.handles[1] == Newborn(cfg, [SYN])
    ensures var e := Serve(v, WRITE_AGAIN).me; 1 in e.handles && !FinIsLast(e.handles[1].sent)
  {
    hide Apply, Act, FinIsLast, Newborn;
    NewbornIsOpen(cfg, [SYN]);
    InboxIs(cfg, [SYN]);
    NewHandleWrites(v.me.handles[1]);
    var e1 := UseHandle(v.me, 1, OpClose);
    var e2 := UseHandle(e1, 1, OpRead(1));
    var e3 := UseHandle(e2, 1, OpWrite([7]));
    Uses(v, OpClose);
    Uses(v.(me := e1), OpRead(1));
    Uses(v.(me := e2), OpWrite([7]));
    ServeIsChain(WRITE_AGAIN, [v, v.(me := e1), v.(me := e2), v.(me := e3)]);
  }
}
