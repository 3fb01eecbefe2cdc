/** The end of a byte stream in every run of two sessions: who gets end of file, and when. */
module YamuxFinish {
  import opened YamuxFrame
  import opened YamuxStream
  import opened YamuxHandle
  import opened YamuxOwner
  import opened YamuxPast
  import opened YamuxPair
  import opened YamuxOrder
  import opened YamuxSession
  import opened YamuxSystem
  import opened YamuxTheorems
  import opened YamuxTable

  /** What the next read of this handle answers and leaves. */
  function NextRead(e: Endpoint, id: StreamId, capacity: nat): ReadOutcome
    requires id in e.handles
  {
    PollRead(e.up, LetGo(e, id), e.handles[id].stream, e.handles[id].inbox, capacity)
  }

  /** Two sessions never make a read fail with InvalidData. And while nothing has gone away: once a reader has taken the
      FIN, and no RST, its reads answer end of file exactly when it has been handed every byte that was written. */
  lemma FinGivesEof(client: Config, server: Config, moves: seq<Move>, who: bool, id: StreamId, capacity: nat)
    requires ValidConfig(client) && ValidConfig(server)
    requires var e := EndOf(Run(client, server, moves), who); id in e.handles && !e.handles[id].dropped
    ensures var s := Run(client, server, moves);
            var e := EndOf(s, who);
            var h, p := e.handles[id], Proj(View(e, OtherEnd(s, who)), id);
            && NextRead(e, id, capacity).result != InvalidData
            && (p.clean && h.sawFin && !h.stream.state.Reset? ==>
                  (NextRead(e, id, capacity).result == Eof <==> h.read == WrittenBy(p.peer)))
  {
    hide Run, PastEnd, ViewInv, RecvFrames, CopyOut, EndArrives, RunsDry, ProtocolBreaks, BytesArrive, AtHand;
    EndOfRun(client, server, moves, who);
    var s := Run(client, server, moves);
    var e := EndOf(s, who);
    var v := View(e, OtherEnd(s, who));
    var h, p := e.handles[id], Proj(v, id);
    ReadableHandle(v, id);
    ReadAnswers(e.up, LetGo(e, id), h.stream, h.inbox, capacity);
    if Receiving(h.stream) && h.stream.readBuf == [] { TakenOrNot(LetGo(e, id), h.stream, h.inbox); }
    PastOf(e, id);
    if p.clean {
      ReceivedOf(v, id);
      assert h.stream.readBuf == [] ==> h.read + h.stream.readBuf == h.read;
    }
  }

  lemma PastOf(e: Endpoint, id: StreamId)
    requires PastEnd(e) && id in e.handles
    ensures PastInv(e.up, e.handles[id])
  {
  }

  lemma ReceivedOf(v: View, id: StreamId)
    requires ViewInv(v) && id in v.me.handles && Proj(v, id).clean
    ensures var h, all := v.me.handles[id], WrittenBy(Proj(v, id).peer);
            && h.read + h.stream.readBuf <= all && (h.sawFin ==> h.read + h.stream.readBuf == all)
  {
    var p := Proj(v, id);
    assert PairInv(p);
    assert DirInv(p.peer, p.me, p.inn, p.out, true);
  }

  /** And the other way round: a read that answers end of file after a FIN, taken now or earlier, has left nothing. */
  lemma EofMeansAll(client: Config, server: Config, moves: seq<Move>, who: bool, id: StreamId, capacity: nat)
    requires ValidConfig(client) && ValidConfig(server)
    requires var e := EndOf(Run(client, server, moves), who); id in e.handles && !e.handles[id].dropped
    ensures var s := Run(client, server, moves);
            var e := EndOf(s, who);
            var h, p, r := e.handles[id], Proj(View(e, OtherEnd(s, who)), id), NextRead(e, id, capacity);
            p.clean && r.result == Eof && (h.sawFin || HasFlag(Consumed(h.inbox, r.inbox), Fin)) ==>
              h.read == WrittenBy(p.peer)
  {
    hide Run, PastEnd, ViewInv, PollRead, HasFlag, Proj, WrittenBy;
    EndOfRun(client, server, moves, who);
    var s := Run(client, server, moves);
    var e := EndOf(s, who);
    var v := View(e, OtherEnd(s, who));
    var step := StepUse(id, OpRead(capacity));
    var v' := Apply(v, step);
    StepKeeps(v, step);
    SameOther(v, v', id);
    var h, h', r := e.handles[id], v'.me.handles[id], NextRead(e, id, capacity);
    EofLeavesNothing(e.up, LetGo(e, id), h.stream, h.inbox, capacity);
    if Proj(v, id).clean && r.result == Eof && h'.sawFin {
      ReceivedOf(v', id);
      assert h'.read == h.read + [] == h.read && h'.read + [] == h'.read;
    }
  }

  lemma SameOther(v: View, v': View, id: StreamId)
    requires v'.peer == v.peer && CleanEnd(v'.me) == CleanEnd(v.me)
    ensures WrittenBy(Proj(v', id).peer) == WrittenBy(Proj(v, id).peer) && Proj(v', id).clean == Proj(v, id).clean
  {
  }

  lemma EofLeavesNothing(up: bool, hungUp: bool, s: Stream, inbox: seq<Frame>, capacity: nat)
    ensures var r := PollRead(up, hungUp, s, inbox, capacity); r.result == Eof ==> r.stream.readBuf == []
  {
    hide RecvFrames;
  }
}
