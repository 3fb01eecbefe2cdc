/** `Session` as the source writes it, with its queues and table updated in place and its loops. Each method is proved
    to do what the function of the same purpose in `YamuxSession` says. */
module YamuxSessionObject {
  import opened Common
  import opened YamuxFrame
  import opened YamuxStream
  import opened YamuxHandle
  import opened YamuxSession
  import Spec = YamuxSession

  /** What `poll_ready` on the transport answers, and, when it is not ready, whether flushing helped. */
  datatype SinkAnswer = SinkReady | SinkFlushed | SinkPending

  /** How many frames a pattern of answers lets through before the session has to stop. */
  function LetThrough(answers: seq<SinkAnswer>): nat {
    if answers == [] || answers[0].SinkPending? then 0
    else (if answers[0].SinkReady? then 1 else 0) + LetThrough(answers[1..])
  }

  // ---------------------------------------------------------------- the loop does not look at the queue it refills

  lemma PushIgnoresQueue(e: Endpoint, q: seq<Frame>, f: Frame, full: bool)
    ensures Spec.PushFrame(e.(readPending := q), f, full)
         == (Spec.PushFrame(e, f, full).0.(readPending := q), Spec.PushFrame(e, f, full).1)
  {
    var id, e' := f.header.streamId, e.(readPending := q);
    if id in e.streams && id in e.handles {
      assert e'.handles[id] == e.handles[id];
      if !e.handles[id].dropped && full && e.handles[id].inbox != [] {
        assert Spec.PushFrame(e, f, full) == (e, Block) && Spec.PushFrame(e', f, full) == (e', Block);
      }
    } else {
      assert Spec.PushFrame(e, f, full) == (e, Done) && Spec.PushFrame(e', f, full) == (e', Done);
    }
  }

  lemma SendIgnoresQueue(e: Endpoint, q: seq<Frame>, f: Frame, ready: nat)
    ensures Spec.SendFrame(e.(readPending := q), f, ready) == Spec.SendFrame(e, f, ready).(readPending := q)
  {
  }

  lemma GoAwayIgnoresQueue(e: Endpoint, q: seq<Frame>, code: GoAwayCode, ready: nat)
    ensures SendGoAway(e.(readPending := q), code, ready) == SendGoAway(e, code, ready).(readPending := q)
  {
    SendIgnoresQueue(e.(writePending := []), q, NewGoAway(code), ready);
  }

  lemma CreateIgnoresQueue(e: Endpoint, q: seq<Frame>, id: StreamId)
    ensures match Spec.CreateStream(e, Some(id))
            case Created(e') => Spec.CreateStream(e.(readPending := q), Some(id)) == Created(e'.(readPending := q))
            case _ => !Spec.CreateStream(e.(readPending := q), Some(id)).Created?
  {
  }

  lemma OneIgnoresQueue(e: Endpoint, q: seq<Frame>, f: Frame, full: bool, ready: nat)
    ensures DistributeOne(e.(readPending := q), f, full, ready)
         == (DistributeOne(e, f, full, ready).0.(readPending := q), DistributeOne(e, f, full, ready).1)
  {
    var id := f.header.streamId;
    if f.header.flags.syn && e.localGoAway {
      SendIgnoresQueue(e, q, NewWindowUpdate(Only(Rst), id, 0), ready);
    } else if f.header.flags.syn && |e.streams| < e.cfg.maxStreamCount && |e.pendingStreams| < e.cfg.acceptBacklog {
      CreateIgnoresQueue(e, q, id);
      match Spec.CreateStream(e, Some(id))
      case Created(e') => PushIgnoresQueue(e'.(pendingStreams := e'.pendingStreams + [id]), q, f, full);
      case _ => GoAwayIgnoresQueue(e, q, ProtocolError, ready);
    } else if f.header.flags.syn {
      PushIgnoresQueue(e.(writePending := e.writePending + [NewWindowUpdate(AddFlag(Only(Ack), Rst), id, 0)]), q, f,
          full);
    } else {
      PushIgnoresQueue(e, q, f, full);
    }
  }

  lemma {:induction false} LoopIgnoresQueue(e: Endpoint, q: seq<Frame>, kept: seq<Frame>, rest: seq<Frame>,
                                            blocked: set<StreamId>, full: seq<bool>, ready: nat)
    requires |full| == |rest|
    ensures DistributeLoop(e.(readPending := q), kept, rest, blocked, full, ready)
         == DistributeLoop(e, kept, rest, blocked, full, ready)
    decreases |rest|
  {
    if rest != [] {
      if rest[0].header.streamId in blocked {
        LoopIgnoresQueue(e, q, kept + [rest[0]], rest[1..], blocked, full[1..], ready);
      } else {
        OneIgnoresQueue(e, q, rest[0], full[0], ready);
        var (e', verdict) := DistributeOne(e, rest[0], full[0], ready);
        match verdict
        case Done => LoopIgnoresQueue(e', q, kept, rest[1..], blocked, full[1..], ready);
        case Block => LoopIgnoresQueue(e', q, kept + [rest[0]], rest[1..], blocked + {rest[0].header.streamId},
            full[1..], ready);
        case Abort =>
      }
    }
  }

  lemma LoopSkips(e: Endpoint, kept: seq<Frame>, buf: seq<Frame>, i: nat, blocked: set<StreamId>, full: seq<bool>,
      ready: nat)
    requires i < |buf| == |full| && buf[i].header.streamId in blocked
    ensures DistributeLoop(e.(readPending := kept + [buf[i]]), kept + [buf[i]], buf[i + 1..], blocked, full[i + 1..],
            ready)
         == DistributeLoop(e, kept, buf[i..], blocked, full[i..], ready)
  {
    assert buf[i..][1..] == buf[i + 1..] && full[i..][1..] == full[i + 1..] && buf[i..][0] == buf[i];
    LoopIgnoresQueue(e, kept + [buf[i]], kept + [buf[i]], buf[i + 1..], blocked, full[i + 1..], ready);
  }

  lemma LoopTurns(e: Endpoint, kept: seq<Frame>, buf: seq<Frame>, i: nat, blocked: set<StreamId>, full: seq<bool>,
      ready: nat)
    requires i < |buf| == |full| && buf[i].header.streamId !in blocked
    ensures var e' := DistributeOne(e, buf[i], full[i], ready).0;
            DistributeLoop(e, kept, buf[i..], blocked, full[i..], ready) ==
            match DistributeOne(e, buf[i], full[i], ready).1
            case Done => DistributeLoop(e', kept, buf[i + 1..], blocked, full[i + 1..], ready)
            case Block => DistributeLoop(e'.(readPending := kept + [buf[i]]), kept + [buf[i]], buf[i + 1..],
                                         blocked + {buf[i].header.streamId}, full[i + 1..], ready)
            case Abort => e'.(readPending := kept)
  {
    assert buf[i..][1..] == buf[i + 1..] && full[i..][1..] == full[i + 1..] && buf[i..][0] == buf[i];
    var (e', verdict) := DistributeOne(e, buf[i], full[i], ready);
    if verdict == Block {
      LoopIgnoresQueue(e', kept + [buf[i]], kept + [buf[i]], buf[i + 1..], blocked + {buf[i].header.streamId},
                       full[i + 1..], ready);
    }
  }

  class Session {
    const client: bool
    const cfg: Config
    var nextStreamId: u32
    var streams: set<StreamId>
    var pendingStreams: seq<StreamId>
    var writePending: seq<Frame>
    var readPending: seq<Frame>
    var sink: seq<Frame>
    var events: seq<StreamEvent>
    var localGoAway: bool
    var remoteGoAway: bool
    var eof: bool
    var handles: map<StreamId, Handle>
    var synLog: seq<StreamId>

    function Value(): Endpoint
      reads this
    {
      Endpoint(client, cfg, nextStreamId, streams, pendingStreams, writePending, readPending, sink, events,
               localGoAway, remoteGoAway, eof, true, handles, synLog)
    }

    constructor (client: bool, cfg: Config)
      ensures Value() == NewSession(client, cfg)
    {
      this.client, this.cfg := client, cfg;
      nextStreamId := if client then 1 else 2;
      streams, pendingStreams, writePending, readPending, sink, events := {}, [], [], [], [], [];
      localGoAway, remoteGoAway, eof, handles, synLog := false, false, false, map[], [];
    }

    method PopFront()
      requires writePending != []
      modifies `writePending
      ensures Value() == old(Value()).(writePending := old(writePending)[1..])
    {
      writePending := writePending[1..];
    }

    /** `start_send` of the oldest waiting frame. */
    method StartSend()
      requires writePending != []
      modifies `writePending, `sink, `synLog
      ensures Value() == SentOne(old(Value()))
    {
      var frame := writePending[0];
      writePending := writePending[1..];
      sink := sink + [frame];
      synLog := synLog + if IsSyn(frame) then [frame.header.streamId] else [];
    }

    method SendAll(answers: seq<SinkAnswer>) returns (stopped: bool)
      modifies `writePending, `sink, `synLog
      ensures Value() == Spec.SendAll(old(Value()), LetThrough(answers))
    {
      hide Spec.SendAll, SentOne;
      ghost var goal := Spec.SendAll(Value(), LetThrough(answers));
      var k := 0;
      while writePending != []
        invariant k <= |answers| && (k == 0 || !IsDead(Value()))
        invariant Spec.SendAll(Value(), LetThrough(answers[k..])) == goal
        decreases |answers| - k
      {
        if IsDead(Value()) {
          SendDead(Value(), LetThrough(answers[k..]));
          PopFront();
          return false;
        }
        if k == |answers| || answers[k] == SinkPending {
          SendNone(Value());
          return true;
        }
        assert answers[k..][1..] == answers[k + 1..];
        if answers[k] == SinkReady {
          SendStep(Value(), LetThrough(answers[k + 1..]));
          StartSend();
        }
        k := k + 1;
      }
      SendEmpty(Value(), LetThrough(answers[k..]));
      stopped := false;
    }

    method SendFrame(f: Frame, answers: seq<SinkAnswer>)
      modifies `writePending, `sink, `synLog
      ensures Value() == Spec.SendFrame(old(Value()), f, LetThrough(answers))
    {
      writePending := writePending + [f];
      var _ := SendAll(answers);
    }

    method SendGoAwayWithCode(code: GoAwayCode, answers: seq<SinkAnswer>)
      modifies `writePending, `sink, `synLog, `localGoAway
      ensures Value() == SendGoAway(old(Value()), code, LetThrough(answers))
    {
      writePending := [];
      SendFrame(NewGoAway(code), answers);
      localGoAway := true;
    }

    method HandleGoAway(answers: seq<SinkAnswer>)
      modifies `writePending, `sink, `synLog, `localGoAway, `remoteGoAway
      ensures Value() == Spec.HandleGoAway(old(Value()), LetThrough(answers))
    {
      remoteGoAway := true;
      writePending := [];
      if !localGoAway {
        SendGoAwayWithCode(Normal, answers);
      }
    }

    method CreateStream(requested: Option<StreamId>) returns (ok: bool)
      modifies `nextStreamId, `streams, `handles, `events
      ensures match Spec.CreateStream(old(Value()), requested)
              case Created(e) => ok && Value() == e
              case DuplicateStream(e) => !ok && Value() == e
              case StreamsExhausted => !ok && Value() == old(Value())
    {
      var id;
      if requested.Some? {
        id := requested.value;
      } else {
        id := nextStreamId;
        if nextStreamId as int + 2 >= U32_SIZE { return false; }
        nextStreamId := nextStreamId as int + 2;
      }
      if id in streams { return false; }
      streams := streams + {id};
      var (h, evs) := Born(requested.None?, id, cfg.maxStreamWindow);
      handles := handles[id := h];
      events := events + evs;
      ok := true;
    }

    method OpenStream() returns (ok: bool)
      modifies `nextStreamId, `streams, `handles, `events
      ensures Value() == Spec.OpenStream(old(Value()))
    {
      if IsDead(Value()) || remoteGoAway { return false; }
      ok := CreateStream(None);
    }

    method HandleFrame(f: Frame, answers: seq<SinkAnswer>)
      modifies this
      ensures Value() == Spec.HandleFrame(old(Value()), f, LetThrough(answers))
    {
      match f.header.ty
      case Data | WindowUpdate => readPending := readPending + [f];
      case Ping =>
        if Contains(f.header.flags, Syn) {
          SendFrame(NewPing(Only(Ack), f.header.length), answers);
        }
      case GoAway => HandleGoAway(answers);
    }

    method HandleEvent(answers: seq<SinkAnswer>)
      requires events != []
      modifies `events, `writePending, `sink, `synLog, `streams, `localGoAway
      ensures Value() == Spec.HandleEvent(old(Value()), LetThrough(answers))
    {
      var ev := events[0];
      events := events[1..];
      match ev
      case EventFrame(f) => SendFrame(f, answers);
      case EventClosed(id) => streams := streams - {id};
      case EventGoAway => SendGoAwayWithCode(ProtocolError, answers);
    }

    /** The part of the loop body after a SYN has been dealt with. */
    method PushFrame(f: Frame, full: bool) returns (blocked: bool)
      modifies `streams, `handles
      ensures (Value(), if blocked then Block else Done) == Spec.PushFrame(old(Value()), f, full)
    {
      var id := f.header.streamId;
      if id !in streams || id !in handles { return false; }
      var h := handles[id];
      if h.dropped {
        streams := streams - {id};
        return false;
      }
      if full && h.inbox != [] { return true; }
      handles := handles[id := h.(inbox := h.inbox + [f])];
      blocked := false;
    }

    /** The body of the loop, for a frame whose stream is not blocked. */
    method DistributeFrame(frame: Frame, full: bool, answers: seq<SinkAnswer>) returns (verdict: Verdict)
      modifies this
      ensures (Value(), verdict) == DistributeOne(old(Value()), frame, full, LetThrough(answers))
      ensures readPending == old(readPending)
    {
      hide Spec.SendFrame, SendGoAway, Spec.PushFrame;
      var id := frame.header.streamId;
      if frame.header.flags.syn {
        if localGoAway {
          SendFrame(NewWindowUpdate(Only(Rst), id, 0), answers);
          return Abort;
        }
        if |streams| < cfg.maxStreamCount && |pendingStreams| < cfg.acceptBacklog {
          var ok := CreateStream(Some(id));
          if !ok {
            SendGoAwayWithCode(ProtocolError, answers);
            return Abort;
          }
          pendingStreams := pendingStreams + [id];
        } else {
          writePending := writePending + [NewWindowUpdate(AddFlag(Only(Ack), Rst), id, 0)];
        }
      }
      var blocked := PushFrame(frame, full);
      verdict := if blocked then Block else Done;
    }

    /** One turn of the loop: a frame of a blocked stream is put back, any other is dealt with. */
    method DistributeNext(buf: seq<Frame>, i: nat, blocked: set<StreamId>, full: seq<bool>, answers: seq<SinkAnswer>)
      returns (blocked': set<StreamId>, aborted: bool)
      requires i < |buf| == |full|
      modifies this
      ensures var ready := LetThrough(answers);
              DistributeLoop(old(Value()), old(readPending), buf[i..], blocked, full[i..], ready) ==
              if aborted then Value()
              else DistributeLoop(Value(), readPending, buf[i + 1..], blocked', full[i + 1..], ready)
    {
      var frame := buf[i];
      blocked', aborted := blocked, false;
      if frame.header.streamId in blocked {
        LoopSkips(Value(), readPending, buf, i, blocked, full, LetThrough(answers));
        readPending := readPending + [frame];
      } else {
        LoopTurns(Value(), readPending, buf, i, blocked, full, LetThrough(answers));
        var verdict := DistributeFrame(frame, full[i], answers);
        match verdict
        case Done =>
        case Abort => aborted := true;
        case Block =>
          blocked' := blocked + {frame.header.streamId};
          readPending := readPending + [frame];
      }
    }

    method DistributeToSubstream(full: seq<bool>, answers: seq<SinkAnswer>)
      requires |full| == |readPending|
      modifies this
      ensures Value() == DistributeLoop(old(Value()), [], old(readPending), {}, full, LetThrough(answers))
    {
      ghost var goal := DistributeLoop(Value(), [], readPending, {}, full, LetThrough(answers));
      LoopIgnoresQueue(Value(), [], [], readPending, {}, full, LetThrough(answers));
      var buf, blocked := readPending, {};
      readPending := [];
      var i := 0;
      while i < |buf|
        invariant i <= |buf| == |full|
        invariant DistributeLoop(Value(), readPending, buf[i..], blocked, full[i..], LetThrough(answers)) == goal
      {
        var aborted;
        blocked, aborted := DistributeNext(buf, i, blocked, full, answers);
        if aborted { return; }
        i := i + 1;
      }
    }
  }

  lemma SendEmpty(e: Endpoint, ready: nat)
    requires e.writePending == []
    ensures Spec.SendAll(e, ready) == e
  {
  }

  lemma SendDead(e: Endpoint, ready: nat)
    requires e.writePending != [] && IsDead(e)
    ensures Spec.SendAll(e, ready) == e.(writePending := e.writePending[1..])
  {
  }

  lemma SendNone(e: Endpoint)
    requires e.writePending != [] && !IsDead(e)
    ensures Spec.SendAll(e, 0) == e
  {
    assert e.writePending[0..] == e.writePending && e.sink + [] == e.sink && e.synLog + SynIds([]) == e.synLog;
    assert e.writePending[..0] == [];
  }

  function SentOne(e: Endpoint): Endpoint
    requires e.writePending != []
  {
    var f := e.writePending[0];
    e.(writePending := e.writePending[1..], sink := e.sink + [f],
       synLog := e.synLog + if IsSyn(f) then [f.header.streamId] else [])
  }

  lemma TakeOneMore(q: seq<Frame>, out: seq<Frame>, m: nat)
    requires q != []
    ensures var n := Min(m + 1, |q|);
            && n == Min(m, |q[1..]|) + 1 && q[n..] == q[1..][n - 1..]
            && out + q[..n] == (out + [q[0]]) + q[1..][..n - 1] && q[..n][1..] == q[1..][..n - 1]
  {
  }

  lemma LogOneMore(log: seq<StreamId>, taken: seq<Frame>)
    requires taken != []
    ensures log + SynIds(taken)
         == (log + if IsSyn(taken[0]) then [taken[0].header.streamId] else []) + SynIds(taken[1..])
  {
  }

  /** One ready answer moves one frame. */
  lemma SendStep(e: Endpoint, m: nat)
    requires e.writePending != [] && !IsDead(e)
    ensures !IsDead(SentOne(e)) && Spec.SendAll(SentOne(e), m) == Spec.SendAll(e, m + 1)
  {
    var q := e.writePending;
    TakeOneMore(q, e.sink, m);
    var n := Min(m + 1, |q|);
    LogOneMore(e.synLog, q[..n]);
    if |q| == 1 {
      assert q[1..][..0] == [] && q[1..] == [] && q[1..][0..] == [];
    }
  }
}
