/** Substream, session table and service as the source writes them, updated in place and with their loops; each method
    does what the function of the same purpose in `TentacleSession` says. */
module TentacleObjects {
  import opened TentacleBuffer
  import opened TentacleSession
  import opened TentacleProofs
  import Spec = TentacleSession

  // ---------------------------------------------------------------- the counter

  class SessionContext {
    var pendingDataSize: nat

    constructor ()
      ensures pendingDataSize == 0
    {
      pendingDataSize := 0;
    }

    /** The atomic subtraction must not wrap. */
    method Decr(size: nat)
      requires size <= pendingDataSize
      modifies this
      ensures pendingDataSize == old(pendingDataSize) - size
    {
      pendingDataSize := pendingDataSize - size;
    }
  }

  // ---------------------------------------------------------------- the substream

  /** How far a frame got: handed down, put back, put back with an error, lost with an error. */
  datatype Sent = Handed | Blocked | Stuck | Broken

  function Outcome(answer: SinkAnswer): Sent {
    match answer
    case Accepted => Handed
    case NotReady => Blocked
    case FlushFails => Stuck
    case ReadyFails | StartFails => Broken
  }

  predicate PutBack(r: Sent) { r == Blocked || r == Stuck }

  class Substream {
    const context: SessionContext
    var highWriteBuf: seq<Bytes>
    var writeBuf: seq<Bytes>
    var dead: bool
    /** Frames handed to the framed substream, and frames lost with an error. */
    var handed: seq<Bytes>
    var dropped: seq<Bytes>

    constructor (context: SessionContext)
      ensures this.context == context && highWriteBuf == writeBuf == [] && !dead && handed == dropped == []
    {
      this.context := context;
      highWriteBuf, writeBuf, dead, handed, dropped := [], [], false, [], [];
    }

    /** The counter covers what waits here. */
    predicate Covered()
      reads this, context
    {
      Lengths(highWriteBuf) + Lengths(writeBuf) <= context.pendingDataSize
    }

    method PushFront(high: bool, frame: Bytes)
      modifies `highWriteBuf, `writeBuf
      ensures highWriteBuf == (if high then [frame] else []) + old(highWriteBuf)
      ensures writeBuf == (if high then [] else [frame]) + old(writeBuf)
    {
      if high { highWriteBuf := [frame] + highWriteBuf; } else { writeBuf := [frame] + writeBuf; }
    }

    /** `send_inner`, for a frame that has just been taken off a buffer. */
    method SendInner(frame: Bytes, high: bool, answer: SinkAnswer) returns (r: Sent)
      requires |frame| <= context.pendingDataSize
      modifies this, context
      ensures dead == old(dead)
      ensures r == Outcome(answer)
      ensures r == Handed ==>
                && handed == old(handed) + [frame] && dropped == old(dropped)
                && context.pendingDataSize == old(context.pendingDataSize) - |frame|
      ensures r != Handed ==> handed == old(handed) && context.pendingDataSize == old(context.pendingDataSize)
      ensures dropped == old(dropped) + if r == Broken then [frame] else []
      ensures highWriteBuf == (if PutBack(r) && high then [frame] else []) + old(highWriteBuf)
      ensures writeBuf == (if PutBack(r) && !high then [frame] else []) + old(writeBuf)
    {
      match answer
      case Accepted =>
        handed := handed + [frame];
        context.Decr(|frame|);
        r := Handed;
      case NotReady | FlushFails =>
        PushFront(high, frame);
        r := if answer.FlushFails? then Stuck else Blocked;
      case ReadyFails | StartFails =>
        dropped := dropped + [frame];
        r := Broken;
    }

    /** One turn of a loop of `send_data`: the next frame is taken off its buffer and sent. */
    method SendNext(answer: SinkAnswer) returns (r: Sent)
      requires Covered() && (highWriteBuf != [] || writeBuf != [])
      modifies this, context
      ensures dead == old(dead) && Covered()
      ensures r == Outcome(answer)
      ensures var (frame, high, normal) := Next(old(highWriteBuf), old(writeBuf));
              && handed == old(handed) + (if r == Handed then [frame] else [])
              && dropped == old(dropped) + (if r == Broken then [frame] else [])
              && context.pendingDataSize == old(context.pendingDataSize) - (if r == Handed then |frame| else 0)
              && highWriteBuf == (if PutBack(r) then old(highWriteBuf) else high)
              && writeBuf == (if PutBack(r) then old(writeBuf) else normal)
    {
      ghost var h, n := highWriteBuf, writeBuf;
      if highWriteBuf != [] {
        var frame := highWriteBuf[0];
        highWriteBuf := highWriteBuf[1..];
        r := SendInner(frame, true, answer);
        assert [frame] + h[1..] == h && [] + h[1..] == h[1..] && [] + n == n;
        assert highWriteBuf == (if PutBack(r) then h else h[1..]) && writeBuf == n;
      } else {
        var frame := writeBuf[0];
        writeBuf := writeBuf[1..];
        r := SendInner(frame, false, answer);
        assert [frame] + n[1..] == n && [] + n[1..] == n[1..];
        assert writeBuf == (if PutBack(r) then n else n[1..]) && highWriteBuf == [];
      }
    }

    /** Messages queue up behind what waits already; Close throws the normal buffer away. */
    method HandleProtoEvent(event: ProtocolEvent, high: bool, answers: seq<SinkAnswer>)
      requires Lengths(highWriteBuf) + Lengths(writeBuf) + Weight(Item(high, event)) <= context.pendingDataSize
      modifies this, context
      ensures Covered()
      ensures event.Close? ==>
                && writeBuf == [] && dead && highWriteBuf == old(highWriteBuf) && handed == old(handed)
                && dropped == old(dropped) && context.pendingDataSize == old(context.pendingDataSize)
      ensures event.Message? ==>
                var hb := old(highWriteBuf) + if high then [event.data] else [];
                var wb := old(writeBuf) + if high then [] else [event.data];
                var o := Spec.SendData(hb, wb, answers);
                && handed == old(handed) + o.sent && highWriteBuf == o.high && writeBuf == o.normal
                && dropped == old(dropped) + o.dropped && dead == (old(dead) || o.failed)
                && context.pendingDataSize == old(context.pendingDataSize) - Lengths(o.sent)
    {
      match event
      case Message(data) =>
        LengthsConcat(highWriteBuf, if high then [data] else []);
        LengthsConcat(writeBuf, if high then [] else [data]);
        OneFrame(data);
        highWriteBuf := highWriteBuf + if high then [data] else [];
        writeBuf := writeBuf + if high then [] else [data];
        var ok := SendData(answers);
        if !ok { dead := true; }
      case Close(_, _) =>
        writeBuf := [];
        dead := true;
    }

    /** What is left to do from here completes `goal`, of which `handed` has been done. */
    ghost predicate OnCourse(goal: Output, start: seq<Bytes>, rest: seq<SinkAnswer>)
      reads this
    {
      var o := Spec.SendData(highWriteBuf, writeBuf, rest);
      start + goal.sent == handed + o.sent && goal.(sent := o.sent) == o
    }

    method SendData(answers: seq<SinkAnswer>) returns (ok: bool)
      requires Covered()
      modifies this, context
      ensures var o := Spec.SendData(old(highWriteBuf), old(writeBuf), answers);
              && handed == old(handed) + o.sent && highWriteBuf == o.high && writeBuf == o.normal
              && dropped == old(dropped) + o.dropped && ok == !o.failed && dead == old(dead)
              && context.pendingDataSize == old(context.pendingDataSize) - Lengths(o.sent)
      ensures Covered()
    {
      hide Spec.SendData, Lengths;
      ghost var o := Spec.SendData(highWriteBuf, writeBuf, answers);
      ghost var total := context.pendingDataSize + Lengths(handed);
      LengthsConcat(handed, o.sent);
      var k := 0;
      while highWriteBuf != []
        invariant k <= |answers| && Covered() && dead == old(dead) && dropped == old(dropped)
        invariant OnCourse(o, old(handed), answers[k..])
        invariant context.pendingDataSize + Lengths(handed) == total
        decreases |highWriteBuf|
      {
        SendDataAt(handed, highWriteBuf, writeBuf, answers, k);
        var r := SendNext(if k < |answers| then answers[k] else NotReady);
        match r
        case Handed => k := k + 1;
        case Blocked => return true;
        case Stuck | Broken => return false;
      }
      while writeBuf != []
        invariant k <= |answers| && highWriteBuf == [] && Covered() && dead == old(dead) && dropped == old(dropped)
        invariant OnCourse(o, old(handed), answers[k..])
        invariant context.pendingDataSize + Lengths(handed) == total
        decreases |writeBuf|
      {
        SendDataAt(handed, highWriteBuf, writeBuf, answers, k);
        var r := SendNext(if k < |answers| then answers[k] else NotReady);
        match r
        case Handed => k := k + 1;
        case Blocked => return true;
        case Stuck | Broken => return false;
      }
      SendDataDone(answers, k);
      assert handed + [] == handed;
      ok := !(k < |answers| && answers[k].FlushFails?);
    }
  }

  // ---------------------------------------------------------------- the session

  class Session {
    var state: SessionState
    var closed: bool
    var substreams: map<StreamId, Queue>
    var protoStreams: map<ProtocolId, StreamId>
    var tasks: seq<Task>
    var service: seq<Request>
    var pending: int
    var lost: nat
    var cleaned: bool

    function Value(): World
      reads this
    {
      World(state, closed, substreams, protoStreams, tasks, service, pending, lost, cleaned)
    }

    constructor ()
      ensures Value() == Start()
    {
      state, closed, substreams, protoStreams, tasks, service := Normal, false, map[], map[], [], [];
      pending, lost, cleaned := 0, 0, false;
    }

    method OpenProtocol(proto: ProtocolId)
      modifies `substreams, `protoStreams, `tasks
      ensures Value() == Spec.OpenProtocol(old(Value()), proto)
    {
      if proto in protoStreams { return; }
      var nextStream := |tasks|;
      substreams := substreams[nextStream := Queue([], [])];
      protoStreams := protoStreams[proto := nextStream];
      tasks := tasks + [Task(proto, [], [], [], false, false)];
    }

    /** The Close arm of `handle_stream_event`. */
    method HandleClose(id: StreamId, proto: ProtocolId)
      modifies `substreams, `protoStreams, `lost
      ensures Value() == Spec.HandleClose(old(Value()), id, proto)
    {
      if id in substreams {
        lost := lost + QueueWeight(substreams[id]);
        substreams := substreams - {id};
        protoStreams := protoStreams - {proto};
      }
    }

    method TrySend(id: StreamId, answers: seq<ChannelAnswer>)
      requires id in substreams && id < |tasks|
      modifies `substreams, `tasks, `lost
      ensures Value() == TrySendTo(old(Value()), id, answers)
    {
      var q, t := substreams[id], tasks[id];
      var s := Deliver(q.high, q.normal, if t.ended then [Gone] else answers);
      substreams := substreams[id := Queue(s.high, s.normal)];
      tasks := tasks[id := t.(channel := t.channel + s.sent)];
      lost := lost + Weights(s.dropped);
    }

    method PushAndSend(id: StreamId, it: Item, answers: seq<ChannelAnswer>)
      requires id in substreams && id < |tasks|
      modifies `substreams, `tasks, `lost
      ensures Value() == Spec.PushAndSend(old(Value()), id, it, answers)
    {
      hide TrySendTo;
      substreams := substreams[id := Push(substreams[id], it)];
      TrySend(id, answers);
    }

    /** The ProtocolMessage and ProtocolClose arms of `handle_session_event`. */
    method Route(it: Item, proto: ProtocolId, answers: seq<ChannelAnswer>)
      modifies `substreams, `tasks, `lost
      ensures Value() == Spec.Route(old(Value()), it, proto, answers)
    {
      hide Spec.PushAndSend;
      if proto in protoStreams && protoStreams[proto] in substreams && protoStreams[proto] < |tasks| {
        PushAndSend(protoStreams[proto], it, answers);
      } else {
        lost := lost + Weight(it);
      }
    }

    method Clean()
      modifies `substreams, `closed, `cleaned, `lost
      ensures Value() == Spec.Clean(old(Value()))
    {
      lost := lost + QueueWeights(substreams, |tasks|);
      substreams, closed, cleaned := map[], true, true;
    }

    method CloseAllProto(visits: seq<Visit>)
      modifies this
      ensures Value() == Spec.CloseAllProto(old(Value()), visits)
    {
      hide Spec.PushAndSend, Spec.Clean;
      if closed {
        Clean();
        return;
      }
      ghost var goal := CloseAll(Value(), visits);
      for i := 0 to |visits|
        invariant CloseAll(Value(), visits[i..]) == goal
      {
        var v := visits[i];
        assert visits[i..][0] == v && visits[i..][1..] == visits[i + 1..];
        if v.id in substreams && v.id < |tasks| {
          PushAndSend(v.id, Item(true, Close(v.id, 0)), v.answers);
        }
      }
      closed := true;
    }

    /** One buffer of `distribute_to_substream`. */
    method DistributeOne(v: Visit, limit: nat) returns (last: bool)
      modifies `state, `substreams, `tasks, `lost
      ensures (Value(), last) == Spec.DistributeOne(old(Value()), v, limit)
    {
      hide TrySendTo;
      if !(v.id in substreams && v.id < |tasks|) || substreams[v.id] == Queue([], []) { return false; }
      TrySendKeepsShape(Value(), v.id, v.answers);
      TrySend(v.id, v.answers);
      if substreams[v.id] == Queue([], []) { return false; }
      if pending > limit {
        state := Abnormal;
        lost := lost + QueueWeight(substreams[v.id]);
        substreams := substreams[v.id := Queue([], [])];
      }
      last := true;
    }

    method DistributeToSubstream(visits: seq<Visit>, limit: nat)
      modifies `state, `substreams, `tasks, `lost
      ensures Value() == Distribute(old(Value()), visits, limit)
    {
      hide Spec.DistributeOne;
      ghost var goal := Distribute(Value(), visits, limit);
      for i := 0 to |visits|
        invariant Distribute(Value(), visits[i..], limit) == goal
      {
        assert visits[i..][0] == visits[i] && visits[i..][1..] == visits[i + 1..];
        var last := DistributeOne(visits[i], limit);
        if last { return; }
      }
    }
  }

  // ---------------------------------------------------------------- the service

  /** A message to these sessions in turn; sessions that are not there are skipped. `accepted` answers for each
      sending. */
  function Broadcast(sessions: map<nat, World>, targets: seq<nat>, high: bool, proto: ProtocolId, data: Bytes,
                     accepted: nat -> bool): map<nat, World>
    decreases |targets|
  {
    if targets == [] then sessions
    else
      var id := targets[0];
      var sessions' :=
        if id in sessions then sessions[id := ServiceSends(sessions[id], high, proto, data, accepted(|targets|))]
            else sessions;
      Broadcast(sessions', targets[1..], high, proto, data, accepted)
  }

  function Occurrences(targets: seq<nat>, id: nat): nat {
    if targets == [] then 0 else (if targets[0] == id then 1 else 0) + Occurrences(targets[1..], id)
  }

  /** Every session is counted up once per mention and stays balanced; no session appears or disappears. */
  lemma {:induction false} BroadcastCounts(sessions: map<nat, World>, targets: seq<nat>, high: bool, proto: ProtocolId,
                                           data: Bytes, accepted: nat -> bool, id: nat)
    requires id in sessions
    ensures var after := Broadcast(sessions, targets, high, proto, data, accepted);
            && after.Keys == sessions.Keys
            && after[id].pending == sessions[id].pending + Occurrences(targets, id) * |data|
            && Balance(after[id]) == Balance(sessions[id])
    decreases |targets|
  {
    hide Balance;
    if targets != [] {
      var first := targets[0];
      var sessions' :=
        if first in sessions then sessions[first := ServiceSends(sessions[first], high, proto, data,
            accepted(|targets|))]
        else sessions;
      BroadcastCounts(sessions', targets[1..], high, proto, data, accepted, id);
      assert sessions'.Keys == sessions.Keys;
      if first == id {
        MessageBalances(sessions[id], high, proto, data, accepted(|targets|));
        OneMore(Occurrences(targets[1..], id), |data|);
      }
    }
  }

  lemma OneMore(n: nat, size: nat)
    ensures (1 + n) * size == size + n * size
  {
  }

  class Service {
    var sessions: map<nat, World>

    constructor ()
      ensures sessions == map[]
    {
      sessions := map[];
    }

    /** `handle_message`: the loops over one, several, filtered or all sessions differ only in the list of targets. */
    method HandleMessage(targets: seq<nat>, high: bool, proto: ProtocolId, data: Bytes, accepted: nat -> bool)
      modifies this
      ensures sessions == Broadcast(old(sessions), targets, high, proto, data, accepted)
    {
      ghost var goal := Broadcast(sessions, targets, high, proto, data, accepted);
      for i := 0 to |targets|
        invariant Broadcast(sessions, targets[i..], high, proto, data, accepted) == goal
      {
        var id := targets[i];
        assert targets[i..][0] == id && targets[i..][1..] == targets[i + 1..];
        if id in sessions {
          sessions := sessions[id := ServiceSends(sessions[id], high, proto, data, accepted(|targets| - i))];
        }
      }
    }
  }

  lemma SendDataDone(answers: seq<SinkAnswer>, k: nat)
    requires k <= |answers|
    ensures Spec.SendData([], [], answers[k..]) == Output([], [], [], [], k < |answers| && answers[k].FlushFails?)
  {
  }

  /** One step of the specification, with `handed` handed over before. */
  lemma SendDataAt(handed: seq<Bytes>, high: seq<Bytes>, normal: seq<Bytes>, answers: seq<SinkAnswer>, k: nat)
    requires (high != [] || normal != []) && k <= |answers|
    ensures var (frame, high', normal') := Next(high, normal);
            var o := Spec.SendData(high, normal, answers[k..]);
            match if k < |answers| then answers[k] else NotReady
            case NotReady => o == Output([], high, normal, [], false) && handed + [] == handed
            case FlushFails => o == Output([], high, normal, [], true) && handed + [] == handed
            case Accepted =>
              var o' := Spec.SendData(high', normal', answers[k + 1..]);
              && o == o'.(sent := [frame] + o'.sent) && handed + o.sent == (handed + [frame]) + o'.sent
              && Lengths(handed + [frame]) == Lengths(handed) + |frame|
            case _ => o == Output([], high', normal', [frame], true) && handed + [] == handed
  {
    LengthsConcat(handed, [Next(high, normal).0]);
    OneFrame(Next(high, normal).0);
    if k < |answers| { assert answers[k..][0] == answers[k] && answers[k..][1..] == answers[k + 1..]; }
    if k < |answers| && answers[k].Accepted? {
      var (frame, high', normal') := Next(high, normal);
      var o' := Spec.SendData(high', normal', answers[k + 1..]);
      assert handed + ([frame] + o'.sent) == (handed + [frame]) + o'.sent;
    }
  }
}
