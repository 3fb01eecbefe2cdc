/** What every run of two yamux sessions satisfies, one client and one server, under any interleaving of opens, reads,
    writes, half-closes, drops, limits, pings, shutdowns, timeouts, lost connections and dropped sessions. */
module YamuxTheorems {
  import opened Common
  import opened YamuxFrame
  import opened YamuxStream
  import opened YamuxPair
  import opened YamuxOrder
  import opened YamuxSession
  import opened YamuxSystem
  import opened YamuxDistribute

  /** What `Session::new` asserts of its configuration. */
  predicate ValidConfig(cfg: Config) { INITIAL_STREAM_WINDOW <= cfg.maxStreamWindow }

  lemma StepKeeps(v: View, step: Step)
    requires ViewInv(v)
    ensures ViewInv(Apply(v, step))
  {
    hide ViewInv, OpenStream, UseHandle, YamuxSession.HandleEvent, SendAll, SendFrame, YamuxSession.HandleFrame,
        Distribute, SendGoAway;
    if v.me.up || step.StepUse? {
      match step
      case StepOpen => OpenStreamKeeps(v);
      case StepAccept => if v.me.pendingStreams != [] { FlagsKeep(v, Apply(v, step)); }
      case StepUse(id, op) => UseHandleKeeps(v, id, op);
      case StepEvent(ready) => if v.me.events != [] { EventKeeps(v, ready); }
      case StepFlush(ready) => SendAllKeeps(v, ready);
      case StepReceive(ready) => if v.peer.sink != [] { ReceiveKeeps(v, ready); }
      case StepDistribute(answers, ready) => DistributeKeeps(v, answers, ready);
      case StepPing(pingId, ready) => SessionFrameKeeps(v, NewPing(Only(Syn), pingId), ready);
      case StepShutdown(ready) => if !IsDead(v.me) { GoAwayKeeps(v, v.me.remoteGoAway, ready); }
      case StepTimeout => if v.me.localGoAway { FlagsKeep(v, Apply(v, step)); }
      case StepEof => FlagsKeep(v, Apply(v, step));
      case StepEnd => EndStepKeeps(v);
    }
  }

  lemma InitKeeps(client: Config, server: Config)
    requires ValidConfig(client) && ValidConfig(server)
    ensures ViewInv(View(NewSession(true, client), NewSession(false, server)))
  {
    var v := View(NewSession(true, client), NewSession(false, server));
    forall id ensures PairInv(Proj(v, id)) && Blank(Proj(v, id)) {
      assert Pipe(v.me, v.peer) == [] && Pipe(v.peer, v.me) == [];
    }
  }

  function ViewOf(s: System): View { View(s.a, s.b) }

  lemma {:induction false} RunKeeps(client: Config, server: Config, moves: seq<Move>)
    requires ValidConfig(client) && ValidConfig(server)
    ensures ViewInv(ViewOf(Run(client, server, moves)))
    decreases |moves|
  {
    if moves == [] {
      InitKeeps(client, server);
    } else {
      var s, m := Run(client, server, moves[..|moves| - 1]), moves[|moves| - 1];
      RunKeeps(client, server, moves[..|moves| - 1]);
      if m.byClient {
        StepKeeps(ViewOf(s), m.step);
      } else {
        SwapKeeps(ViewOf(s));
        StepKeeps(View(s.b, s.a), m.step);
        SwapKeeps(Apply(View(s.b, s.a), m.step));
      }
    }
  }

  lemma {:induction false} ConfigsStay(client: Config, server: Config, moves: seq<Move>)
    ensures var s := Run(client, server, moves); s.a.cfg == client && s.b.cfg == server
    decreases |moves|
  {
    if moves != [] {
      hide Apply;
      ConfigsStay(client, server, moves[..|moves| - 1]);
    }
  }

  // ---------------------------------------------------------------- safety

  /** Neither side ever finds fault with the other: no handle reports a protocol error, no GoAway but the normal one is
      queued or sent, and no SYN waiting to be distributed meets a stream that exists. */
  lemma NeverAProtocolError(client: Config, server: Config, moves: seq<Move>)
    requires ValidConfig(client) && ValidConfig(server)
    ensures var s := Run(client, server, moves);
            && Blameless(s.a) && Blameless(s.b)
  {
    RunKeeps(client, server, moves);
    var s := Run(client, server, moves);
    BlamelessEnd(ViewOf(s));
    SwapKeeps(ViewOf(s));
    BlamelessEnd(Swap(ViewOf(s)));
  }

  predicate Blameless(e: Endpoint) {
    && EventGoAway !in e.events
    && NewGoAway(ProtocolError) !in e.writePending && NewGoAway(ProtocolError) !in e.sink
    && forall f :: f in e.readPending && f.header.flags.syn ==>
         f.header.streamId !in e.streams && f.header.streamId !in e.handles
  }

  lemma BlamelessEnd(v: View)
    requires ViewInv(v)
    ensures Blameless(v.me)
  {
    assert !ValidEvent(v.me, EventGoAway);
    forall f | f in v.me.readPending && f.header.flags.syn
      ensures f.header.streamId !in v.me.streams && f.header.streamId !in v.me.handles
    {
      var id := f.header.streamId;
      var p := Proj(v, id);
      assert PairInv(p);
      assert f in Pipe(v.peer, v.me);
      OfMembers(id, Pipe(v.peer, v.me), f);
      assert HasFlag(p.inn, Syn) by {
        var k :| 0 <= k < |p.inn| && p.inn[k] == f;
        assert Contains(p.inn[k].header.flags, Syn);
      }
      assert HalfInv(p.me);
    }
  }

  /** Credit is conserved. For every stream, in both directions: the credit a sender holds, the data on their way and
      the credit on its way back never exceed the receiver's window, which never exceeds its maximum; and they are
      exactly the receiver's window while nothing has gone away and both ends take frames. */
  lemma CreditIsConserved(client: Config, server: Config, moves: seq<Move>, id: StreamId)
    requires ValidConfig(client) && ValidConfig(server)
    ensures var p := Proj(ViewOf(Run(client, server, moves)), id);
            && Outstanding(p.me, p.peer, p.out, p.inn) <= RecvWindow(p.peer) <= server.maxStreamWindow as int
            && Outstanding(p.peer, p.me, p.inn, p.out) <= RecvWindow(p.me) <= client.maxStreamWindow as int
            && (p.clean && Live(p.me, p.inn) && Live(p.peer, p.out) ==>
                  && Outstanding(p.me, p.peer, p.out, p.inn) == RecvWindow(p.peer)
                  && Outstanding(p.peer, p.me, p.inn, p.out) == RecvWindow(p.me))
  {
    RunKeeps(client, server, moves);
    ConfigsStay(client, server, moves);
    assert PairInv(Proj(ViewOf(Run(client, server, moves)), id));
  }

  lemma {:induction false} OneOfMany(a: seq<Frame>, f: Frame)
    requires f in a && f.header.ty.Data?
    ensures f.header.length as int <= DataBytes(a)
  {
    if a[0] != f { OneOfMany(a[1..], f); }
  }

  lemma SinkFits(v: View, f: Frame)
    requires ViewInv(v) && f in v.me.sink
    ensures Fits(f, v.peer.cfg.maxStreamWindow)
  {
    assert Polite(f);
    if f.header.ty.Data? {
      var p := Proj(v, f.header.streamId);
      assert PairInv(p);
      assert f in Pipe(v.me, v.peer);
      OfMembers(f.header.streamId, Pipe(v.me, v.peer), f);
      assert f in Path(p.peer, p.out);
      OneOfMany(Path(p.peer, p.out), f);
    }
  }

  /** Whatever is on the wire, and however the transport cuts it up, the other side's codec decodes it to exactly the
      frames that were sent: it never rejects one. */
  lemma WireIsUnderstood(client: Config, server: Config, moves: seq<Move>, chunks: seq<seq<byte>>)
    requires ValidConfig(client) && ValidConfig(server)
    ensures var s := Run(client, server, moves);
            && (Concat(chunks) == EncodeAll(s.a.sink) ==>
                  FeedAll(Fresh(server.maxStreamWindow), chunks) == Fresh(server.maxStreamWindow).(frames := s.a.sink))
            && (Concat(chunks) == EncodeAll(s.b.sink) ==>
                  FeedAll(Fresh(client.maxStreamWindow), chunks) == Fresh(client.maxStreamWindow).(frames := s.b.sink))
  {
    RunKeeps(client, server, moves);
    ConfigsStay(client, server, moves);
    var s := Run(client, server, moves);
    SwapKeeps(ViewOf(s));
    forall f | f in s.a.sink ensures Fits(f, server.maxStreamWindow) { SinkFits(ViewOf(s), f); }
    forall f | f in s.b.sink ensures Fits(f, client.maxStreamWindow) { SinkFits(Swap(ViewOf(s)), f); }
    if Concat(chunks) == EncodeAll(s.a.sink) { EncodedFramesArrive(s.a.sink, server.maxStreamWindow, chunks); }
    if Concat(chunks) == EncodeAll(s.b.sink) { EncodedFramesArrive(s.b.sink, client.maxStreamWindow, chunks); }
  }

  // ---------------------------------------------------------------- the byte stream, while nothing has gone away

  /** What a stream delivers from `s` to `r` is what was written, in order and without gaps; and a reader that sees the
      end of the stream because of a FIN has read every byte. */
  predicate Delivers(s: Half, r: Half, up: seq<Frame>) {
    r.handle.Some? ==>
      var h := r.handle.value;
      && h.read <= WrittenBy(s)
      && (Live(r, up) ==> WrittenBy(s) == h.read + h.stream.readBuf + Bodies(h.inbox + up))
      && (CheckSelfState(h.stream) == Some(Eof) && (h.sawFin || !h.stream.state.Closed?) ==> h.read == WrittenBy(s))
  }

  lemma BytesArriveInOrder(client: Config, server: Config, moves: seq<Move>, id: StreamId)
    requires ValidConfig(client) && ValidConfig(server)
    ensures var p := Proj(ViewOf(Run(client, server, moves)), id);
            p.clean ==> Delivers(p.me, p.peer, p.out) && Delivers(p.peer, p.me, p.inn)
  {
    RunKeeps(client, server, moves);
    var p := Proj(ViewOf(Run(client, server, moves)), id);
    assert PairInv(p);
    if p.clean {
      DeliversOneWay(p.me, p.peer, p.out, p.inn);
      DeliversOneWay(p.peer, p.me, p.inn, p.out);
    }
  }

  lemma DeliversOneWay(s: Half, r: Half, up: seq<Frame>, back: seq<Frame>)
    requires DirInv(s, r, up, back, true)
    ensures Delivers(s, r, up)
  {
    if r.handle.Some? {
      var h := r.handle.value;
      assert h.read <= h.read + h.stream.readBuf;
      if h.stream.readBuf == [] { assert h.read + h.stream.readBuf == h.read; }
    }
  }

  /** Whatever goes away, in every run: the bytes a reader was handed are bytes that were written to that stream, in the
      order they were written and none twice, with at most some left out. */
  lemma OrderSurvives(client: Config, server: Config, moves: seq<Move>, id: StreamId)
    requires ValidConfig(client) && ValidConfig(server)
    ensures var p := Proj(ViewOf(Run(client, server, moves)), id);
            && (p.peer.handle.Some? ==> Woven(p.peer.handle.value.read, WrittenBy(p.me)))
            && (p.me.handle.Some? ==> Woven(p.me.handle.value.read, WrittenBy(p.peer)))
  {
    hide Woven, CoreInv, Proj;
    RunKeeps(client, server, moves);
    var p := Proj(ViewOf(Run(client, server, moves)), id);
    assert PairInv(p);
    if p.peer.handle.Some? { ReadIsWoven(p.me, p.peer, p.out); }
    if p.me.handle.Some? { ReadIsWoven(p.peer, p.me, p.inn); }
  }

  lemma ReadIsWoven(s: Half, r: Half, up: seq<Frame>)
    requires OrderInv(s, r, up) && r.handle.Some?
    ensures Woven(r.handle.value.read, WrittenBy(s))
  {
    hide Woven;
    var h := r.handle.value;
    var rest := h.stream.readBuf + Bodies(Path(r, up));
    WovenSame(h.read);
    WovenExtend(h.read, h.read, rest);
    assert h.read + rest == ReceivedBy(r) + Bodies(Path(r, up));
    WovenTrans(h.read, h.read + rest, WrittenBy(s));
  }

  /** No flow-control stall: while nothing has gone away and both ends take frames, if the reader has an empty buffer
      and neither data nor credit are on their way, the writer may send more than half of the reader's maximal
      window. */
  lemma NeverStalls(client: Config, server: Config, moves: seq<Move>, id: StreamId)
    requires ValidConfig(client) && ValidConfig(server)
    ensures var p := Proj(ViewOf(Run(client, server, moves)), id);
            p.clean && p.me.handle.Some? && p.peer.handle.Some? && Live(p.me, p.inn) && Live(p.peer, p.out) ==>
              && (Idle(p.me, p.peer, p.out, p.inn) ==> 2 * SendWindow(p.me) > server.maxStreamWindow as int)
              && (Idle(p.peer, p.me, p.inn, p.out) ==> 2 * SendWindow(p.peer) > client.maxStreamWindow as int)
  {
    RunKeeps(client, server, moves);
    ConfigsStay(client, server, moves);
    assert PairInv(Proj(ViewOf(Run(client, server, moves)), id));
  }

  /** Nothing is left to do between `s` writing and `r` reading. */
  predicate Idle(s: Half, r: Half, up: seq<Frame>, back: seq<Frame>)
    requires r.handle.Some?
  {
    r.handle.value.stream.readBuf == [] && DataBytes(Path(r, up)) == 0 && Credit(Path(s, back)) == 0
  }
}
