/** Which entries a session's stream table holds, in every run of two sessions: an entry goes when its handle has said
    that it is closed, and the handles that never say so leave theirs behind. */
module YamuxTable {
  import opened Common
  import opened YamuxFrame
  import opened YamuxStream
  import opened YamuxHandle
  import opened YamuxEnding
  import opened YamuxPast
  import opened YamuxPair
  import opened YamuxPairUse
  import opened YamuxOrder
  import opened YamuxSession
  import opened YamuxSystem
  import opened YamuxDistribute
  import opened YamuxTheorems

  // ---------------------------------------------------------------- one session

  /** A handle that has said it is closed has an entry only as long as the event waits; an entry that is gone belonged
      to a handle that said so or is dropped. */
  predicate TableInv(e: Endpoint) {
    && (forall id :: id in e.streams ==> id in e.handles && (e.handles[id].told ==> EventClosed(id) in e.events))
    && (forall id :: EventClosed(id) in e.events ==> id in e.handles && e.handles[id].told)
    && (forall id :: id in e.handles && id !in e.streams ==> e.handles[id].told || e.handles[id].dropped)
  }

  predicate HandlesInv(e: Endpoint) {
    forall id :: id in e.handles ==> AllPlain(e.handles[id].inbox) && PastInv(e.up, e.handles[id])
  }

  predicate PlainEvents(evs: seq<StreamEvent>) { forall ev :: ev in evs && ev.EventFrame? ==> Plain(ev.frame) }

  predicate PastEnd(e: Endpoint) {
    && AllPlain(e.writePending) && AllPlain(e.sink) && AllPlain(e.readPending) && PlainEvents(e.events)
    && HandlesInv(e) && (e.up ==> TableInv(e))
  }

  /** Only queues and flags changed. */
  lemma QueuesKeepPast(e: Endpoint, e': Endpoint)
    requires PastEnd(e) && e'.handles == e.handles && e'.streams == e.streams && e'.events == e.events && e'.up == e.up
    requires AllPlain(e'.writePending) && AllPlain(e'.sink) && AllPlain(e'.readPending)
    ensures PastEnd(e')
  {
  }

  lemma SendAllPast(e: Endpoint, ready: nat)
    requires PastEnd(e)
    ensures PastEnd(SendAll(e, ready))
  {
    hide Plain, HandlesInv, TableInv, PlainEvents;
    QueuesKeepPast(e, SendAll(e, ready));
  }

  lemma SendFramePast(e: Endpoint, f: Frame, ready: nat)
    requires PastEnd(e) && Plain(f)
    ensures PastEnd(SendFrame(e, f, ready)) && PastEnd(e.(writePending := e.writePending + [f]))
  {
    hide Plain, HandlesInv, TableInv, PlainEvents, SendAll;
    QueuesKeepPast(e, e.(writePending := e.writePending + [f]));
    SendAllPast(e.(writePending := e.writePending + [f]), ready);
  }

  lemma GoAwayPast(e: Endpoint, code: GoAwayCode, ready: nat)
    requires PastEnd(e)
    ensures PastEnd(SendGoAway(e, code, ready))
  {
    hide HandlesInv, TableInv, PlainEvents, SendGoAway;
    GoAwayShape(e, code, ready);
    QueuesKeepPast(e, SendGoAway(e, code, ready));
  }

  lemma HandleGoAwayPast(e: Endpoint, ready: nat)
    requires PastEnd(e)
    ensures PastEnd(HandleGoAway(e, ready))
  {
    hide HandlesInv, TableInv, PlainEvents, SendGoAway;
    var e1 := e.(remoteGoAway := true, writePending := []);
    QueuesKeepPast(e, e1);
    if !e.localGoAway { GoAwayPast(e1, Normal, ready); }
  }

  lemma ReceivePast(e: Endpoint, f: Frame, ready: nat)
    requires PastEnd(e) && Plain(f)
    ensures PastEnd(YamuxSession.HandleFrame(e, f, ready))
  {
    hide HandlesInv, TableInv, PlainEvents, SendFrame, HandleGoAway;
    match f.header.ty
    case Data | WindowUpdate => QueuesKeepPast(e, YamuxSession.HandleFrame(e, f, ready));
    case Ping => SendFramePast(e, NewPing(Only(Ack), f.header.length), ready);
    case GoAway => HandleGoAwayPast(e, ready);
  }

  lemma EventPast(e: Endpoint, ready: nat)
    requires PastEnd(e) && e.events != [] && e.up && e.events[0] != EventGoAway
    ensures PastEnd(HandleEvent(e, ready))
  {
    hide HandlesInv, SendFrame, Plain, AllPlain;
    var ev, e1 := e.events[0], e.(events := e.events[1..]);
    assert e.events == [ev] + e1.events;
    assert PlainEvents(e1.events);
    SameHandles(e, e1);
    if ev.EventFrame? {
      assert TableInv(e1);
      SendFramePast(e1, ev.frame, ready);
    } else {
      var e2 := e1.(streams := e1.streams - {ev.id});
      SameHandles(e, e2);
      assert TableInv(e2);
    }
  }

  lemma SameHandles(e: Endpoint, e': Endpoint)
    requires HandlesInv(e) && e'.handles == e.handles && (e'.up ==> e.up)
    ensures HandlesInv(e')
  {
  }

  lemma EndPast(e: Endpoint)
    requires PastEnd(e)
    ensures PastEnd(e.(up := false, streams := {}))
  {
    hide AllPlain, TableInv, PlainEvents;
    forall id | id in e.handles ensures PastInv(false, e.handles[id]) {}
  }

  lemma BornPast(opener: bool, id: StreamId, maxWindow: u32)
    requires INITIAL_STREAM_WINDOW <= maxWindow
    ensures var (h, evs) := Born(opener, id, maxWindow);
            PastInv(true, h) && !h.told && !h.dropped && h.inbox == [] && PlainEvents(evs)
                && forall ev :: ev in evs ==> ev.EventFrame?
  {
  }

  /** A new stream appears in the table. */
  lemma NewEntryPast(e: Endpoint, e': Endpoint, id: StreamId, h: Handle, evs: seq<StreamEvent>)
    requires PastEnd(e) && e.up && id !in e.handles
    requires PastInv(true, h) && !h.told && AllPlain(h.inbox) && PlainEvents(evs) && forall ev :: ev in evs ==>
             ev.EventFrame?
    requires e'.handles == e.handles[id := h] && e'.streams == e.streams + {id} && e'.events == e.events + evs && e'.up
    requires e'.writePending == e.writePending && e'.sink == e.sink && AllPlain(e'.readPending)
    ensures PastEnd(e')
  {
    hide PastInv, AllPlain, Plain;
    forall k | EventClosed(k) in e'.events ensures k in e'.handles
        && e'.handles[k].told { assert EventClosed(k) in e.events; }
  }

  lemma OpenPast(v: View)
    requires ViewInv(v) && v.me.up && PastEnd(v.me)
    ensures PastEnd(OpenStream(v.me))
  {
    hide ViewInv, Born, PastEnd, PastInv, PlainEvents;
    if CanOpen(v.me) {
      var e := v.me;
      NextIdIsFree(v);
      WindowConfigured(v);
      var (h, evs) := Born(true, e.nextStreamId, e.cfg.maxStreamWindow);
      BornPast(true, e.nextStreamId, e.cfg.maxStreamWindow);
      assert AllPlain(e.readPending) by { PlainQueue(e); }
      NewEntryPast(e, OpenStream(e), e.nextStreamId, h, evs);
    }
  }

  lemma PlainQueue(e: Endpoint)
    requires PastEnd(e)
    ensures AllPlain(e.readPending)
  {
  }

  /** A handle is used. */
  lemma UsePast(v: View, key: StreamId, op: Op)
    requires ViewInv(v) && PastEnd(v.me)
    ensures PastEnd(UseHandle(v.me, key, op))
  {
    hide ViewInv, Act, PastInv, Plain, AllPlain;
    if key in v.me.handles {
      var e, h := v.me, v.me.handles[key];
      ReadableHandle(v, key);
      ActKeepsPast(e.up, LetGo(e, key), h, op);
      var (h', evs) := Act(e.up, LetGo(e, key), h, op);
      UsedTable(e, UseHandle(e, key, op), key, h', evs);
    }
  }

  /** What the invariant of the system says about one handle. */
  lemma ReadableHandle(v: View, key: StreamId)
    requires ViewInv(v) && key in v.me.handles
    ensures var h := v.me.handles[key];
            && StreamFrames(h.inbox) && h.stream.id == key
            && (!h.dropped ==> !IsProtocolError(RecvFrames(LetGo(v.me, key), h.stream, h.inbox).2))
  {
    var p := Proj(v, key);
    assert PairInv(p);
    assert HalfInv(p.me) && HungUp(p.me) == LetGo(v.me, key);
    if !v.me.handles[key].dropped { TakeAllKeeps(p); }
  }

  lemma UsedTable(e: Endpoint, e': Endpoint, key: StreamId, h': Handle, evs: seq<StreamEvent>)
    requires PastEnd(e) && key in e.handles && PastInv(e.up, h') && AllPlain(h'.inbox)
    requires h'.told <==> e.handles[key].told || EventClosed(key) in evs
    requires e.handles[key].dropped ==> h' == e.handles[key]
    requires forall ev :: ev in evs ==> (ev.EventFrame? ==> Plain(ev.frame)) && (ev.EventClosed? ==> ev.id == key)
    requires e' == e.(handles := e.handles[key := h'], events := e.events + evs)
    ensures PastEnd(e')
  {
    hide PastInv, AllPlain, Plain;
    if e.up {
      forall k | EventClosed(k) in e'.events ensures k in e'.handles && e'.handles[k].told {
        assert EventClosed(k) in e.events || EventClosed(k) in evs;
      }
      forall k | k in e'.streams ensures k in e'.handles && (e'.handles[k].told ==> EventClosed(k) in e'.events) {}
    }
  }

  // ---------------------------------------------------------------- the distribution loop

  lemma PushPast(e: Endpoint, f: Frame, full: bool)
    requires PastEnd(e) && e.up && Plain(f)
    ensures PastEnd(PushFrame(e, f, full).0) && PushFrame(e, f, full).0.up
  {
    hide Plain;
    var id := f.header.streamId;
    if id in e.streams && id in e.handles {
      var h := e.handles[id];
      if h.dropped {
        SameHandles(e, e.(streams := e.streams - {id}));
      } else {
        var h' := h.(inbox := h.inbox + [f]);
        assert e.events + [] == e.events;
        UsedTable(e, e.(handles := e.handles[id := h']), id, h', []);
      }
    }
  }

  lemma AcceptPast(e: Endpoint, f: Frame)
    requires PastEnd(e) && e.up && Plain(f) && f.header.streamId !in e.handles
             && INITIAL_STREAM_WINDOW <= e.cfg.maxStreamWindow
    ensures PastEnd(Accepted(e, f))
  {
    hide Born;
    var id := f.header.streamId;
    var (h, evs) := Born(false, id, e.cfg.maxStreamWindow);
    BornPast(false, id, e.cfg.maxStreamWindow);
    NewEntryPast(e, Accepted(e, f), id, h.(inbox := [f]), evs);
  }

  /** One turn; the frame in front has not met its stream's channel before. */
  lemma TurnPast(v: View, e: Endpoint, kept: seq<Frame>, rest: seq<Frame>, full: bool, ready: nat)
    requires rest != [] && ViewInv(During(v, e, kept, rest)) && e.up && NoneOf(rest[0].header.streamId, kept)
    requires PastEnd(e) && Plain(rest[0])
    ensures PastEnd(DistributeOne(e, rest[0], full, ready).0)
  {
    hide ViewInv, NoneOf, PastEnd, Plain, SendFrame, PushFrame, CreateStream;
    var f, w := rest[0], During(v, e, kept, rest);
    var id := f.header.streamId;
    if !f.header.flags.syn {
      PushPast(e, f, full);
    } else {
      SynIsNew(v, e, kept, rest);
      if e.localGoAway {
        WindowUpdateIsPlain(Only(Rst), id);
        SendFramePast(e, NewWindowUpdate(Only(Rst), id, 0), ready);
      } else if |e.streams| < e.cfg.maxStreamCount && |e.pendingStreams| < e.cfg.acceptBacklog {
        AcceptedIs(e, f, full);
        WindowConfigured(w);
        AcceptPast(e, f);
      } else {
        var answer := NewWindowUpdate(AddFlag(Only(Ack), Rst), id, 0);
        WindowUpdateIsPlain(AddFlag(Only(Ack), Rst), id);
        SendFramePast(e, answer, ready);
        PushPast(e.(writePending := e.writePending + [answer]), f, full);
      }
    }
  }

  lemma WindowUpdateIsPlain(flags: Flags, id: StreamId)
    ensures Plain(NewWindowUpdate(flags, id, 0))
  {
  }

  lemma {:induction false} LoopPast(v: View, e: Endpoint, kept: seq<Frame>, rest: seq<Frame>, blocked: set<StreamId>,
                                    full: seq<bool>, ready: nat)
    requires |full| == |rest| && ViewInv(During(v, e, kept, rest)) && e.up
    requires forall f :: f in kept ==> f.header.streamId in blocked
    requires PastEnd(e) && AllPlain(kept) && AllPlain(rest)
    ensures PastEnd(DistributeLoop(e, kept, rest, blocked, full, ready))
    decreases |rest|
  {
    hide ViewInv, PastEnd, Plain, DistributeOne;
    if rest == [] {
      NewQueue(e, kept);
    } else {
      var f := rest[0];
      assert kept + [f] + rest[1..] == kept + rest;
      assert f in rest && AllPlain(rest[1..]) && AllPlain(kept + [f]);
      if f.header.streamId in blocked {
        LoopPast(v, e, kept + [f], rest[1..], blocked, full[1..], ready);
      } else {
        Turn(v, e, kept, rest, full[0], ready);
        TurnPast(v, e, kept, rest, full[0], ready);
        var (e', verdict) := DistributeOne(e, f, full[0], ready);
        match verdict
        case Done => LoopPast(v, e', kept, rest[1..], blocked, full[1..], ready);
        case Block => LoopPast(v, e', kept + [f], rest[1..], blocked + {f.header.streamId}, full[1..], ready);
        case Abort => NewQueue(e', kept);
      }
    }
  }

  lemma NewQueue(e: Endpoint, queue: seq<Frame>)
    requires PastEnd(e) && AllPlain(queue)
    ensures PastEnd(e.(readPending := queue))
  {
    QueuesKeepPast(e, e.(readPending := queue));
  }

  lemma DistributePast(v: View, answers: seq<bool>, ready: nat)
    requires ViewInv(v) && v.me.up && PastEnd(v.me)
    ensures PastEnd(Distribute(v.me, answers, ready))
  {
    hide ViewInv;
    var n := |v.me.readPending|;
    assert [] + v.me.readPending == v.me.readPending;
    LoopPast(v, v.me, [], v.me.readPending, {}, seq(n, k requires 0 <= k < n => k < |answers| && answers[k]), ready);
  }

  // ---------------------------------------------------------------- runs

  lemma StepPast(v: View, step: Step)
    requires ViewInv(v) && PastEnd(v.me) && PastEnd(v.peer)
    ensures PastEnd(Apply(v, step).me) && PastEnd(Apply(v, step).peer)
  {
    hide ViewInv, PastEnd, OpenStream, UseHandle, HandleEvent, SendAll, SendFrame, YamuxSession.HandleFrame,
        Distribute, SendGoAway;
    var me := v.me;
    if me.up || step.StepUse? {
      match step
      case StepOpen => OpenPast(v);
      case StepAccept => FlagsPast(me, Apply(v, step).me);
      case StepUse(id, op) => UsePast(v, id, op);
      case StepEvent(ready) => if me.events != [] { NoComplaint(v); EventPast(me, ready); }
      case StepFlush(ready) => SendAllPast(me, ready);
      case StepReceive(ready) => if v.peer.sink != [] { SinkLeaves(v.peer); ReceivePast(me, v.peer.sink[0], ready); }
      case StepDistribute(answers, ready) => DistributePast(v, answers, ready);
      case StepPing(pingId, ready) => SendFramePast(me, NewPing(Only(Syn), pingId), ready);
      case StepShutdown(ready) => GoAwayPast(me, Normal, ready);
      case StepTimeout => FlagsPast(me, Apply(v, step).me);
      case StepEof => FlagsPast(me, Apply(v, step).me);
      case StepEnd => EndPast(me);
    }
  }

  lemma FlagsPast(e: Endpoint, e': Endpoint)
    requires PastEnd(e)
    requires e' == e.(remoteGoAway := e'.remoteGoAway, eof := e'.eof, pendingStreams := e'.pendingStreams)
    ensures PastEnd(e')
  {
    QueuesKeepPast(e, e');
  }

  lemma SinkLeaves(e: Endpoint)
    requires PastEnd(e) && e.sink != []
    ensures PastEnd(e.(sink := e.sink[1..])) && Plain(e.sink[0])
  {
    QueuesKeepPast(e, e.(sink := e.sink[1..]));
  }

  lemma NoComplaint(v: View)
    requires ViewInv(v) && v.me.events != []
    ensures v.me.events[0] != EventGoAway
  {
    assert ValidEvent(v.me, v.me.events[0]);
  }

  lemma {:induction false} RunPast(client: Config, server: Config, moves: seq<Move>)
    requires ValidConfig(client) && ValidConfig(server)
    ensures PastEnd(Run(client, server, moves).a) && PastEnd(Run(client, server, moves).b)
    decreases |moves|
  {
    hide PastEnd, ViewInv;
    if moves == [] {
      StartPast(true, client);
      StartPast(false, server);
    } else {
      var s, m := Run(client, server, moves[..|moves| - 1]), moves[|moves| - 1];
      RunPast(client, server, moves[..|moves| - 1]);
      RunKeeps(client, server, moves[..|moves| - 1]);
      SwapKeeps(ViewOf(s));
      if m.byClient { StepPast(ViewOf(s), m.step); } else { StepPast(View(s.b, s.a), m.step); }
    }
  }

  lemma StartPast(client: bool, cfg: Config)
    ensures PastEnd(NewSession(client, cfg))
  {
  }

  function EndOf(s: System, client: bool): Endpoint { if client then s.a else s.b }

  function OtherEnd(s: System, client: bool): Endpoint { if client then s.b else s.a }

  /** What a reachable state says about either end. */
  lemma EndOfRun(client: Config, server: Config, moves: seq<Move>, who: bool)
    requires ValidConfig(client) && ValidConfig(server)
    ensures var s := Run(client, server, moves);
            ViewInv(View(EndOf(s, who), OtherEnd(s, who))) && PastEnd(EndOf(s, who))
  {
    hide ViewInv, PastEnd, Run;
    RunPast(client, server, moves);
    RunKeeps(client, server, moves);
    SwapKeeps(ViewOf(Run(client, server, moves)));
  }

  /** In every run, for every entry of a session's table whose handle was dropped: the event that will remove it is
      still queued, unless the handle took the other side's FIN after its only shutdown; then no such event was ever
      sent. And an entry is only missing if its handle has said that it is closed or was dropped. */
  predicate Accounted(e: Endpoint) {
    e.up ==>
      && (forall id :: id in e.streams ==>
            && id in e.handles
            && (e.handles[id].dropped ==> (EventClosed(id) in e.events <==> !ClosedSilently(e.handles[id]))))
      && (forall id :: id in e.handles && id !in e.streams ==> e.handles[id].told || e.handles[id].dropped)
  }

  lemma EntriesAreAccountedFor(client: Config, server: Config, moves: seq<Move>, who: bool)
    requires ValidConfig(client) && ValidConfig(server)
    ensures Accounted(EndOf(Run(client, server, moves), who))
  {
    hide ViewInv, Run;
    EndOfRun(client, server, moves, who);
  }

  /** In every run a read takes the branch meant to be unreachable exactly when bytes are left in the buffer of a handle
      that is Closed; such a handle was shut down twice. */
  lemma SilentReadsInRuns(client: Config, server: Config, moves: seq<Move>, who: bool, id: StreamId, capacity: nat)
    requires ValidConfig(client) && ValidConfig(server)
    requires var e := EndOf(Run(client, server, moves), who); id in e.handles && !e.handles[id].dropped
    ensures var e := EndOf(Run(client, server, moves), who);
            var h := e.handles[id];
            && (ReadsSilently(e.up, LetGo(e, id), h.stream, h.inbox, capacity) <==>
                  capacity > 0 && h.stream.readBuf != [] && h.stream.state.Closed?)
            && (h.stream.readBuf != [] && h.stream.state.Closed? ==> h.shutdowns >= 2)
  {
    hide ViewInv, Run, ReadsSilently, StopsAt;
    EndOfRun(client, server, moves, who);
    var s := Run(client, server, moves);
    var e := EndOf(s, who);
    var h := e.handles[id];
    ReadableHandle(View(e, OtherEnd(s, who)), id);
    ReadsSilentlyIff(e.up, LetGo(e, id), h.stream, h.inbox, capacity);
    assert AllPlain(h.inbox) && PastInv(e.up, h);
    PlainEndsWithoutBytes(h.stream, h.inbox);
  }

  /** Between two sessions running this code no entry goes early: in every run, while a session lives, a handle without
      an entry is Closed or dropped; and no handle of either side has data behind its FIN. */
  lemma NoEntryGoesEarly(client: Config, server: Config, moves: seq<Move>, who: bool, id: StreamId)
    requires ValidConfig(client) && ValidConfig(server) && id in EndOf(Run(client, server, moves), who).handles
    ensures var e := EndOf(Run(client, server, moves), who);
            var h := e.handles[id];
            && (e.up && id !in e.streams ==> h.stream.state.Closed? || h.dropped)
            && FinIsLast(h.sent)
  {
    hide Run, FinIsLast, PastEnd;
    EndOfRun(client, server, moves, who);
    var s := Run(client, server, moves);
    var v := View(EndOf(s, who), OtherEnd(s, who));
    assert PairInv(Proj(v, id)) && HalfInv(Proj(v, id).me);
  }
}
