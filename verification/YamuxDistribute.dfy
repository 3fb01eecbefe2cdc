/** `distribute_to_substream` keeps every stream: each turn of its loop is a step of one pair. */
module YamuxDistribute {
  import opened Common
  import opened YamuxFrame
  import opened YamuxStream
  import opened YamuxHandle
  import opened YamuxPair
  import opened YamuxOrder
  import opened YamuxSession
  import opened YamuxSystem

  /** The session in the middle of the loop: `kept` were put back, `rest` are still to come. */
  function During(v: View, e: Endpoint, kept: seq<Frame>, rest: seq<Frame>): View {
    View(e.(readPending := kept + rest), v.peer)
  }

  predicate NoneOf(id: StreamId, frames: seq<Frame>) { forall f :: f in frames ==> f.header.streamId != id }

  lemma PipeIn(v: View, e: Endpoint, kept: seq<Frame>, rest: seq<Frame>, id: StreamId)
    requires rest != [] && StreamFrame(rest[0]) && NoneOf(rest[0].header.streamId, kept)
    ensures var w, w' := During(v, e, kept, rest), During(v, e, kept, rest[1..]);
            var p, p' := Proj(w, id), Proj(w', id);
            if id == rest[0].header.streamId then p.inn != [] && p.inn[0] == rest[0] && p' == p.(inn := p.inn[1..])
            else p' == p
  {
    hide Of, EventFrames;
    var f := rest[0];
    var w, w' := During(v, e, kept, rest), During(v, e, kept, rest[1..]);
    var c := rest[1..] + v.peer.sink + v.peer.writePending + EventFrames(v.peer.events);
    assert Pipe(w.peer, w.me) == kept + [f] + c;
    assert Pipe(w'.peer, w'.me) == kept + c;
    OfInsert(id, kept, f, c);
    assert Pipe(w.me, w.peer) == Pipe(w'.me, w'.peer);
    if id == f.header.streamId {
      OfNone(id, kept);
      OfCut(id, kept, [f], c);
      OfOne(id, f);
      assert Proj(w, id).inn == [f] + Of(id, c);
      assert Proj(w', id).inn == Of(id, c);
    }
  }

  lemma FewerEnd(v: View, e: Endpoint, kept: seq<Frame>, rest: seq<Frame>, fewer: seq<Frame>)
    requires EndInv(During(v, e, kept, rest).me) && forall f :: f in fewer ==> f in rest
    ensures EndInv(During(v, e, kept, fewer).me)
  {
    hide AllPolite, StreamFrame;
    var a, b := During(v, e, kept, rest).me, During(v, e, kept, fewer).me;
    assert forall f :: f in kept + fewer ==> f in kept + rest;
    forall ev | ev in e.events ensures ValidEvent(b, ev) {
      assert ValidEvent(a, ev);
    }
  }

  lemma DuringEnd(v: View, e: Endpoint, kept: seq<Frame>, rest: seq<Frame>)
    requires EndInv(During(v, e, kept, rest).me) && rest != []
    ensures EndInv(During(v, e, kept, rest[1..]).me) && EndInv(During(v, e, kept, []).me) && StreamFrame(rest[0])
  {
    hide AllPolite, ValidEvent;
    FewerEnd(v, e, kept, rest, rest[1..]);
    FewerEnd(v, e, kept, rest, []);
    assert rest[0] in kept + rest;
  }

  /** The stream of the frame at hand changes as stated, every other one not at all. */
  lemma OneStreamMoves(w: View, w': View, key: StreamId)
    requires ViewInv(w) && EndInv(w'.me) && w'.peer == w.peer && w'.me.client == w.me.client
    requires w'.me.nextStreamId == w.me.nextStreamId
    requires PairInv(Proj(w', key)) && !Unopened(w, key)
    requires forall id :: id != key ==> Proj(w', id) == Proj(w, id)
    ensures ViewInv(w')
  {
    forall id ensures PairInv(Proj(w', id)) && (Unopened(w', id) ==> Blank(Proj(w', id))) {
      assert PairInv(Proj(w, id));
      if Unopened(w', id) { assert Unopened(w, id); }
    }
  }

  // ---------------------------------------------------------------- a frame of a known or unknown stream

  lemma DiscardTurn(v: View, e: Endpoint, kept: seq<Frame>, rest: seq<Frame>)
    requires rest != [] && ViewInv(During(v, e, kept, rest)) && e.up
    requires NoneOf(rest[0].header.streamId, kept) && !rest[0].header.flags.syn
    requires rest[0].header.streamId !in e.streams
    ensures ViewInv(During(v, e, kept, rest[1..]))
  {
    var w, w', key := During(v, e, kept, rest), During(v, e, kept, rest[1..]), rest[0].header.streamId;
    DuringEnd(v, e, kept, rest);
    forall id ensures id != key ==> Proj(w', id) == Proj(w, id) { PipeIn(v, e, kept, rest, id); }
    PipeIn(v, e, kept, rest, key);
    assert PairInv(Proj(w, key));
    DiscardHolds(Proj(w, key));
    OneStreamMoves(w, w', key);
  }

  lemma DisconnectTurn(v: View, e: Endpoint, kept: seq<Frame>, rest: seq<Frame>)
    requires rest != [] && ViewInv(During(v, e, kept, rest)) && e.up
    requires NoneOf(rest[0].header.streamId, kept)
    requires rest[0].header.streamId in e.streams && rest[0].header.streamId in e.handles
             && e.handles[rest[0].header.streamId].dropped
    ensures ViewInv(During(v, e.(streams := e.streams - {rest[0].header.streamId}), kept, rest[1..]))
  {
    hide PairInv, Of, EventFrames;
    var key := rest[0].header.streamId;
    var e' := e.(streams := e.streams - {key});
    var w, w1, w' := During(v, e, kept, rest), During(v, e, kept, rest[1..]), During(v, e', kept, rest[1..]);
    DuringEnd(v, e, kept, rest);
    forall ev | ev in e.events ensures ValidEvent(w'.me, ev) { assert ValidEvent(w.me, ev); }
    assert EndInv(w'.me);
    assert Pipe(w'.me, w'.peer) == Pipe(w1.me, w1.peer) && Pipe(w'.peer, w'.me) == Pipe(w1.peer, w1.me);
    forall id ensures id != key ==> Proj(w', id) == Proj(w, id) { PipeIn(v, e, kept, rest, id); }
    PipeIn(v, e, kept, rest, key);
    assert PairInv(Proj(w, key));
    DisconnectHolds(Proj(w, key));
    assert Proj(w', key) == Disconnect(Proj(w, key));
    OneStreamMoves(w, w', key);
  }

  lemma DeliverTurn(v: View, e: Endpoint, kept: seq<Frame>, rest: seq<Frame>, h: Handle)
    requires rest != [] && ViewInv(During(v, e, kept, rest)) && e.up
    requires NoneOf(rest[0].header.streamId, kept)
    requires rest[0].header.streamId in e.streams && rest[0].header.streamId in e.handles
             && !e.handles[rest[0].header.streamId].dropped
    requires h == e.handles[rest[0].header.streamId].(inbox := e.handles[rest[0].header.streamId].inbox + [rest[0]])
    ensures ViewInv(During(v, e.(handles := e.handles[rest[0].header.streamId := h]), kept, rest[1..]))
  {
    hide PairInv, Of, EventFrames, AllPolite, Unopened, StreamFrames;
    var key := rest[0].header.streamId;
    var e' := e.(handles := e.handles[key := h]);
    var w, w1, w' := During(v, e, kept, rest), During(v, e, kept, rest[1..]), During(v, e', kept, rest[1..]);
    DuringEnd(v, e, kept, rest);
    assert e.events + [] == e.events;
    HandlesKeep(w1.me, w'.me, key, h, []);
    assert Pipe(w'.me, w'.peer) == Pipe(w1.me, w1.peer) && Pipe(w'.peer, w'.me) == Pipe(w1.peer, w1.me);
    forall id ensures id != key ==> Proj(w', id) == Proj(w, id) { PipeIn(v, e, kept, rest, id); }
    PipeIn(v, e, kept, rest, key);
    assert PairInv(Proj(w, key));
    DeliverHolds(Proj(w, key));
    assert Proj(w', key) == Deliver(Proj(w, key));
    OneStreamMoves(w, w', key);
  }

  // ---------------------------------------------------------------- a SYN

  /** A SYN is always for a stream this side has never had, so it never meets an entry in the table. */
  lemma SynIsNew(v: View, e: Endpoint, kept: seq<Frame>, rest: seq<Frame>)
    requires rest != [] && ViewInv(During(v, e, kept, rest))
    requires NoneOf(rest[0].header.streamId, kept) && rest[0].header.flags.syn
    ensures var key := rest[0].header.streamId;
            && key !in e.handles && key !in e.streams
            && PairInv(Proj(During(v, e, kept, rest), key)) && !Unopened(During(v, e, kept, rest), key)
            && (forall f :: f in EventFrames(e.events) ==> f.header.streamId != key)
  {
    var w, key := During(v, e, kept, rest), rest[0].header.streamId;
    DuringEnd(v, e, kept, rest);
    PipeIn(v, e, kept, rest, key);
    var p := Proj(w, key);
    assert PairInv(p);
    assert HasFlag(p.inn, Syn) by { assert Contains(p.inn[0].header.flags, Syn); }
    assert p.me.handle.None?;
    assert HalfInv(p.me);
    forall f | f in EventFrames(e.events) ensures f.header.streamId != key {
      FromEventFrames(e.events, f);
      assert ValidEvent(w.me, EventFrame(f));
    }
  }

  function Refused(e: Endpoint, answer: Frame): Endpoint { e.(writePending := e.writePending + [answer]) }

  /** The answer joins the write queue, in front of the events; its stream has none there. */
  lemma AnswerJoins(w: View, answer: Frame, key: StreamId, id: StreamId)
    requires OfStream(key, answer) && forall f :: f in EventFrames(w.me.events) ==> f.header.streamId != key
    ensures var w' := w.(me := Refused(w.me, answer));
            Proj(w', id) == if id == key then Proj(w, id).(out := Proj(w, id).out + [answer]) else Proj(w, id)
  {
    var w' := w.(me := Refused(w.me, answer));
    var a, c := w.peer.readPending + w.me.sink + w.me.writePending, EventFrames(w.me.events);
    assert Pipe(w.me, w.peer) == a + c;
    assert Pipe(w'.me, w'.peer) == a + [answer] + c;
    if id == key { OfNone(id, c); }
    OfInsert(id, a, answer, c);
    assert Pipe(w'.peer, w'.me) == Pipe(w.peer, w.me);
  }

  lemma RefuseProj(v: View, e: Endpoint, kept: seq<Frame>, rest: seq<Frame>, answer: Frame, id: StreamId)
    requires rest != [] && StreamFrame(rest[0]) && NoneOf(rest[0].header.streamId, kept)
    requires forall f :: f in EventFrames(e.events) ==> f.header.streamId != rest[0].header.streamId
    requires OfStream(rest[0].header.streamId, answer)
    ensures var p, p' := Proj(During(v, e, kept, rest), id), Proj(During(v, Refused(e, answer), kept, rest[1..]), id);
            if id == rest[0].header.streamId then p.inn != [] && p' == Refuse(p, answer) else p' == p
  {
    PipeIn(v, e, kept, rest, id);
    var w1 := During(v, e, kept, rest[1..]);
    AnswerJoins(w1, answer, rest[0].header.streamId, id);
    assert w1.(me := Refused(w1.me, answer)) == During(v, Refused(e, answer), kept, rest[1..]);
  }

  lemma RefuseTurn(v: View, e: Endpoint, kept: seq<Frame>, rest: seq<Frame>, answer: Frame)
    requires rest != [] && ViewInv(During(v, e, kept, rest)) && e.up
    requires NoneOf(rest[0].header.streamId, kept) && rest[0].header.flags.syn
    requires Refusal(answer) && StreamFrame(answer) && OfStream(rest[0].header.streamId, answer)
    ensures ViewInv(During(v, Refused(e, answer), kept, rest[1..]))
  {
    hide PairInv, Of;
    var w, w', key := During(v, e, kept, rest), During(v, Refused(e, answer), kept, rest[1..]), rest[0].header.streamId;
    DuringEnd(v, e, kept, rest);
    SynIsNew(v, e, kept, rest);
    QueuesKeep(During(v, e, kept, rest[1..]).me, w'.me);
    forall id ensures id != key ==> Proj(w', id) == Proj(w, id) { RefuseProj(v, e, kept, rest, answer, id); }
    RefuseProj(v, e, kept, rest, answer, key);
    PipeIn(v, e, kept, rest, key);
    RefuseHolds(Proj(w, key), answer);
    OneStreamMoves(w, w', key);
  }

  /** The session after accepting the SYN: the frame itself is the first one in the new channel. */
  function Accepted(e: Endpoint, f: Frame): Endpoint {
    var id := f.header.streamId;
    var (h, evs) := Born(false, id, e.cfg.maxStreamWindow);
    e.(streams := e.streams + {id}, handles := e.handles[id := h.(inbox := [f])],
       events := e.events + evs, pendingStreams := e.pendingStreams + [id])
  }

  /** The new handle appears, and its acknowledgement joins the events. */
  lemma AcceptJoins(w: View, f: Frame, id: StreamId)
    requires INITIAL_STREAM_WINDOW <= w.me.cfg.maxStreamWindow
    ensures var w' := w.(me := Accepted(w.me, f));
            var (h, evs) := Born(false, f.header.streamId, w.me.cfg.maxStreamWindow);
            Proj(w', id) == if id != f.header.streamId then Proj(w, id)
                            else Proj(w, id).(me := Proj(w, id).me.(handle := Some(h.(inbox := [f])), held := true),
                                              out := Proj(w, id).out + EventFrames(evs))
  {
    var key := f.header.streamId;
    var (h, evs) := Born(false, key, w.me.cfg.maxStreamWindow);
    BornInv(false, key, w.me.cfg.maxStreamWindow);
    OneFrame(evs[0].frame, []);
    assert evs == [evs[0]] + [];
    HandleProj(w, w.(me := Accepted(w.me, f)), key, h.(inbox := [f]), evs, id);
  }

  lemma AcceptProj(v: View, e: Endpoint, kept: seq<Frame>, rest: seq<Frame>, id: StreamId)
    requires rest != [] && StreamFrame(rest[0]) && NoneOf(rest[0].header.streamId, kept)
    requires INITIAL_STREAM_WINDOW <= e.cfg.maxStreamWindow
    ensures var p, p' := Proj(During(v, e, kept, rest), id), Proj(During(v, Accepted(e, rest[0]), kept, rest[1..]), id);
            if id == rest[0].header.streamId then p.inn != [] && p' == Accept(p, id) else p' == p
  {
    hide NoneOf, Of, EventFrames, Pipe;
    PipeIn(v, e, kept, rest, id);
    var w1 := During(v, e, kept, rest[1..]);
    AcceptJoins(w1, rest[0], id);
    assert w1.(me := Accepted(w1.me, rest[0])) == During(v, Accepted(e, rest[0]), kept, rest[1..]);
  }

  lemma AcceptTurn(v: View, e: Endpoint, kept: seq<Frame>, rest: seq<Frame>)
    requires rest != [] && ViewInv(During(v, e, kept, rest)) && e.up
    requires NoneOf(rest[0].header.streamId, kept) && rest[0].header.flags.syn
    ensures ViewInv(During(v, Accepted(e, rest[0]), kept, rest[1..]))
  {
    var w, w', key := During(v, e, kept, rest), During(v, Accepted(e, rest[0]), kept, rest[1..]),
        rest[0].header.streamId;
    DuringEnd(v, e, kept, rest);
    SynIsNew(v, e, kept, rest);
    WindowConfigured(w);
    AcceptEnd(v, e, kept, rest);
    forall id ensures id != key ==> Proj(w', id) == Proj(w, id) { AcceptProj(v, e, kept, rest, id); }
    AcceptProj(v, e, kept, rest, key);
    PipeIn(v, e, kept, rest, key);
    AcceptHolds(Proj(w, key), key);
    OneStreamMoves(w, w', key);
  }

  lemma AcceptEnd(v: View, e: Endpoint, kept: seq<Frame>, rest: seq<Frame>)
    requires rest != [] && EndInv(During(v, e, kept, rest[1..]).me) && rest[0].header.streamId !in e.handles
    requires INITIAL_STREAM_WINDOW <= e.cfg.maxStreamWindow
    ensures EndInv(During(v, Accepted(e, rest[0]), kept, rest[1..]).me)
  {
    var key := rest[0].header.streamId;
    var (h, evs) := Born(false, key, e.cfg.maxStreamWindow);
    BornInv(false, key, e.cfg.maxStreamWindow);
    HandlesKeep(During(v, e, kept, rest[1..]).me, During(v, Accepted(e, rest[0]), kept, rest[1..]).me, key,
        h.(inbox := [rest[0]]), evs);
  }

  /** The early return: the frames not yet looked at are lost. */
  lemma AbortKeeps(v: View, e: Endpoint, kept: seq<Frame>, rest: seq<Frame>)
    requires ViewInv(During(v, e, kept, rest)) && !CleanEnd(e)
    ensures ViewInv(During(v, e, kept, []))
  {
    hide DirInv, HalfInv, Of, EventFrames;
    var w, w' := During(v, e, kept, rest), During(v, e, kept, []);
    assert forall f :: f in kept + [] ==> f in kept + rest;
    forall ev | ev in e.events ensures ValidEvent(w'.me, ev) { assert ValidEvent(w.me, ev); }
    assert EndInv(w'.me);
    var c := v.peer.sink + v.peer.writePending + EventFrames(v.peer.events);
    assert Pipe(w.peer, w.me) == kept + rest + c;
    assert Pipe(w'.peer, w'.me) == kept + c;
    assert Pipe(w'.me, w'.peer) == Pipe(w.me, w.peer);
    forall id ensures PairInv(Proj(w', id)) && (Unopened(w', id) ==> Blank(Proj(w', id))) {
      var p := Flip(Proj(w, id));
      assert PairInv(Proj(w, id));
      assert PairInv(p);
      OfCut(id, kept, rest, c);
      LoseOutHolds(p, Of(id, kept), Of(id, rest), Of(id, c));
      assert Flip(Proj(w', id)) == p.(out := Of(id, kept) + Of(id, c));
      assert PairInv(Flip(Proj(w', id)));
      if Unopened(w', id) { assert Unopened(w, id); }
    }
  }

  // ---------------------------------------------------------------- one turn, the loop, the call

  lemma PushTurn(v: View, e: Endpoint, kept: seq<Frame>, rest: seq<Frame>, full: bool)
    requires rest != [] && ViewInv(During(v, e, kept, rest)) && e.up
    requires NoneOf(rest[0].header.streamId, kept) && !rest[0].header.flags.syn
    ensures var (e', verdict) := PushFrame(e, rest[0], full);
            && (verdict.Done? ==> e'.up && ViewInv(During(v, e', kept, rest[1..])))
            && (verdict.Block? ==> e' == e)
            && !verdict.Abort?
  {
    var key := rest[0].header.streamId;
    assert PairInv(Proj(During(v, e, kept, rest), key));
    assert HalfInv(HalfOf(key, During(v, e, kept, rest).me));
    if key !in e.streams {
      DiscardTurn(v, e, kept, rest);
    } else if e.handles[key].dropped {
      DisconnectTurn(v, e, kept, rest);
    } else if !full || e.handles[key].inbox == [] {
      DeliverTurn(v, e, kept, rest, e.handles[key].(inbox := e.handles[key].inbox + [rest[0]]));
    }
  }

  lemma AcceptedIs(e: Endpoint, f: Frame, full: bool)
    requires f.header.streamId !in e.streams
    ensures CreateStream(e, Some(f.header.streamId)).Created?
    ensures var e' := CreateStream(e, Some(f.header.streamId)).endpoint;
            PushFrame(e'.(pendingStreams := e'.pendingStreams + [f.header.streamId]), f, full) == (Accepted(e, f), Done)
  {
    var id := f.header.streamId;
    var (h, evs) := Born(false, id, e.cfg.maxStreamWindow);
    assert e.handles[id := h][id := h.(inbox := [f])] == e.handles[id := h.(inbox := [f])];
    assert h.inbox + [f] == [f];
  }

  lemma SynTurn(v: View, e: Endpoint, kept: seq<Frame>, rest: seq<Frame>, full: bool, ready: nat)
    requires rest != [] && ViewInv(During(v, e, kept, rest)) && e.up && rest[0].header.flags.syn
    requires NoneOf(rest[0].header.streamId, kept) && !e.localGoAway
    ensures var (e', verdict) := DistributeOne(e, rest[0], full, ready);
            verdict.Done? && e'.up && ViewInv(During(v, e', kept, rest[1..]))
  {
    hide ViewInv, NoneOf;
    var f := rest[0];
    SynIsNew(v, e, kept, rest);
    if |e.streams| < e.cfg.maxStreamCount && |e.pendingStreams| < e.cfg.acceptBacklog {
      AcceptedIs(e, f, full);
      AcceptTurn(v, e, kept, rest);
    } else {
      RefuseTurn(v, e, kept, rest, NewWindowUpdate(AddFlag(Only(Ack), Rst), f.header.streamId, 0));
    }
  }

  lemma LateSynTurn(v: View, e: Endpoint, kept: seq<Frame>, rest: seq<Frame>, ready: nat)
    requires rest != [] && ViewInv(During(v, e, kept, rest)) && e.up && rest[0].header.flags.syn
    requires NoneOf(rest[0].header.streamId, kept) && e.localGoAway
    ensures var e' := SendFrame(e, NewWindowUpdate(Only(Rst), rest[0].header.streamId, 0), ready);
            ViewInv(During(v, e', kept, []))
  {
    hide ViewInv, NoneOf;
    var answer := NewWindowUpdate(Only(Rst), rest[0].header.streamId, 0);
    RefuseTurn(v, e, kept, rest, answer);
    AbortKeeps(v, Refused(e, answer), kept, rest[1..]);
    SendAllKeeps(During(v, Refused(e, answer), kept, []), ready);
  }

  lemma Turn(v: View, e: Endpoint, kept: seq<Frame>, rest: seq<Frame>, full: bool, ready: nat)
    requires rest != [] && ViewInv(During(v, e, kept, rest)) && e.up
    requires NoneOf(rest[0].header.streamId, kept)
    ensures var (e', verdict) := DistributeOne(e, rest[0], full, ready);
            && (verdict.Done? ==> e'.up && ViewInv(During(v, e', kept, rest[1..])))
            && (verdict.Block? ==> e' == e)
            && (verdict.Abort? ==> ViewInv(During(v, e', kept, [])))
  {
    hide ViewInv, NoneOf, SendFrame, CreateStream;
    if !rest[0].header.flags.syn {
      PushTurn(v, e, kept, rest, full);
    } else if e.localGoAway {
      LateSynTurn(v, e, kept, rest, ready);
    } else {
      SynTurn(v, e, kept, rest, full, ready);
    }
  }

  lemma {:induction false} LoopKeeps(v: View, e: Endpoint, kept: seq<Frame>, rest: seq<Frame>, blocked: set<StreamId>,
                                     full: seq<bool>, ready: nat)
    requires |full| == |rest| && ViewInv(During(v, e, kept, rest)) && e.up
    requires forall f :: f in kept ==> f.header.streamId in blocked
    ensures ViewInv(View(DistributeLoop(e, kept, rest, blocked, full, ready), v.peer))
    decreases |rest|
  {
    if rest == [] {
      assert kept + rest == kept;
    } else {
      var f := rest[0];
      assert kept + [f] + rest[1..] == kept + rest;
      if f.header.streamId in blocked {
        LoopKeeps(v, e, kept + [f], rest[1..], blocked, full[1..], ready);
      } else {
        Turn(v, e, kept, rest, full[0], ready);
        var (e', verdict) := DistributeOne(e, f, full[0], ready);
        match verdict
        case Done => LoopKeeps(v, e', kept, rest[1..], blocked, full[1..], ready);
        case Block => LoopKeeps(v, e', kept + [f], rest[1..], blocked + {f.header.streamId}, full[1..], ready);
        case Abort => assert kept + [] == kept;
      }
    }
  }

  lemma DistributeKeeps(v: View, answers: seq<bool>, ready: nat)
    requires ViewInv(v) && v.me.up
    ensures ViewInv(v.(me := Distribute(v.me, answers, ready)))
  {
    var n := |v.me.readPending|;
    assert [] + v.me.readPending == v.me.readPending;
    LoopKeeps(v, v.me, [], v.me.readPending, {}, seq(n, k requires 0 <= k < n => k < |answers| && answers[k]), ready);
  }
}
