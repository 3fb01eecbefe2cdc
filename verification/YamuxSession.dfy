/** A yamux session as a value: stream table, queues, id allocation and go-away flags
    (tentacle/yamux/src/session.rs). Every function here is one method of `Session`. */
module YamuxSession {
  import opened Common
  import opened YamuxFrame
  import opened YamuxStream
  import opened YamuxHandle

  datatype Config = Config(acceptBacklog: nat, maxStreamCount: nat, maxStreamWindow: u32)

  /** `sink` is what was handed to the framed transport and has not reached the other side; `handles` are the substream
      handles given out, with the receiving ends of their channels; `up` until the session itself is dropped;
      `synLog` records the ids whose SYN went out. */
  datatype Endpoint = Endpoint(
    client: bool, cfg: Config, nextStreamId: u32,
    streams: set<StreamId>, pendingStreams: seq<StreamId>,
    writePending: seq<Frame>, readPending: seq<Frame>, sink: seq<Frame>, events: seq<StreamEvent>,
    localGoAway: bool, remoteGoAway: bool, eof: bool, up: bool,
    handles: map<StreamId, Handle>, synLog: seq<StreamId>)

  function NewSession(client: bool, cfg: Config): Endpoint {
    Endpoint(client, cfg, if client then 1 else 2, {}, [], [], [], [], [], false, false, false, true, map[], [])
  }

  /** A session never changes sides nor its configuration. */
  predicate SameSide(e: Endpoint, e': Endpoint) { e'.cfg == e.cfg && e'.client == e.client }

  predicate IsDead(e: Endpoint) { (e.remoteGoAway && e.localGoAway) || e.eof }

  // ---------------------------------------------------------------- sending

  function SynIds(frames: seq<Frame>): seq<StreamId> {
    if frames == [] then []
    else (if IsSyn(frames[0]) then [frames[0].header.streamId] else []) + SynIds(frames[1..])
  }

  predicate IsSyn(f: Frame) { !f.header.ty.Ping? && f.header.flags.syn }

  /** `send_all` when the transport accepts `ready` frames before it makes the session stop. A dead session
      takes one frame off the queue and stops. */
  function SendAll(e: Endpoint, ready: nat): (r: Endpoint)
    ensures SameSide(e, r)
  {
    if e.writePending == [] then e
    else if IsDead(e) then e.(writePending := e.writePending[1..])
    else
      var n := Min(ready, |e.writePending|);
      e.(writePending := e.writePending[n..], sink := e.sink + e.writePending[..n],
         synLog := e.synLog + SynIds(e.writePending[..n]))
  }

  function SendFrame(e: Endpoint, f: Frame, ready: nat): (r: Endpoint)
    ensures SameSide(e, r)
  {
    SendAll(e.(writePending := e.writePending + [f]), ready)
  }

  function SendGoAway(e: Endpoint, code: GoAwayCode, ready: nat): (r: Endpoint)
    ensures SameSide(e, r)
  {
    SendFrame(e.(writePending := []), NewGoAway(code), ready).(localGoAway := true)
  }

  function Shutdown(e: Endpoint, ready: nat): (r: Endpoint)
    ensures SameSide(e, r)
  {
    if IsDead(e) then e else SendGoAway(e, Normal, ready)
  }

  // ---------------------------------------------------------------- creating streams

  datatype Creation = Created(endpoint: Endpoint) | StreamsExhausted | DuplicateStream(endpoint: Endpoint)

  /** `create_stream`: with no id given, the next one of this side's parity. */
  function CreateStream(e: Endpoint, requested: Option<StreamId>): (r: Creation)
    ensures !r.StreamsExhausted? ==> SameSide(e, r.endpoint)
  {
    if requested.None? && e.nextStreamId as int + 2 >= U32_SIZE then StreamsExhausted
    else
      var id := if requested.Some? then requested.value else e.nextStreamId;
      var e1 := if requested.None? then e.(nextStreamId := e.nextStreamId as int + 2) else e;
      if id in e.streams then DuplicateStream(e1)
      else
        var (h, evs) := Born(requested.None?, id, e.cfg.maxStreamWindow);
        Created(e1.(streams := e.streams + {id}, handles := e.handles[id := h], events := e.events + evs))
  }

  function OpenStream(e: Endpoint): (r: Endpoint)
    ensures SameSide(e, r)
  {
    if IsDead(e) || e.remoteGoAway then e
    else match CreateStream(e, None) case Created(e') => e' case DuplicateStream(e') => e' case StreamsExhausted => e
  }

  // ---------------------------------------------------------------- distributing received frames

  datatype Verdict = Done | Block | Abort

  /** One turn of the loop in `distribute_to_substream` for a frame whose stream is not blocked. `full` is the channel's
      answer; an empty channel always takes a frame, a dropped receiver always answers "disconnected". */
  function DistributeOne(e: Endpoint, f: Frame, full: bool, ready: nat): (r: (Endpoint, Verdict))
    ensures SameSide(e, r.0)
  {
    var id := f.header.streamId;
    if f.header.flags.syn && e.localGoAway then
      (SendFrame(e, NewWindowUpdate(Only(Rst), id, 0), ready), Abort)
    else if f.header.flags.syn && |e.streams| < e.cfg.maxStreamCount && |e.pendingStreams| < e.cfg.acceptBacklog then
      match CreateStream(e, Some(id))
      case Created(e') => PushFrame(e'.(pendingStreams := e'.pendingStreams + [id]), f, full)
      case _ => (SendGoAway(e, ProtocolError, ready), Abort)
    else if f.header.flags.syn then
      PushFrame(e.(writePending := e.writePending + [NewWindowUpdate(AddFlag(Only(Ack), Rst), id, 0)]), f, full)
    else PushFrame(e, f, full)
  }

  /** `poll_ready` and `try_send` on the stream's channel. */
  function PushFrame(e: Endpoint, f: Frame, full: bool): (r: (Endpoint, Verdict))
    ensures SameSide(e, r.0)
  {
    var id := f.header.streamId;
    if id !in e.streams || id !in e.handles then (e, Done)
    else
      var h := e.handles[id];
      if h.dropped then (e.(streams := e.streams - {id}), Done)
      else if full && h.inbox != [] then (e, Block)
      else (e.(handles := e.handles[id := h.(inbox := h.inbox + [f])]), Done)
  }

  /** The loop: `kept` are the frames put back so far, `rest` those still to be looked at, `blocked` the streams whose
      channel was full. `full[k]` answers for the k-th remaining frame. */
  function DistributeLoop(e: Endpoint, kept: seq<Frame>, rest: seq<Frame>, blocked: set<StreamId>,
                          full: seq<bool>, ready: nat): (r: Endpoint)
    requires |full| == |rest|
    ensures SameSide(e, r)
    decreases |rest|
  {
    if rest == [] then e.(readPending := kept)
    else if rest[0].header.streamId in blocked then
      DistributeLoop(e, kept + [rest[0]], rest[1..], blocked, full[1..], ready)
    else match DistributeOne(e, rest[0], full[0], ready)
      case (e', Done) => DistributeLoop(e', kept, rest[1..], blocked, full[1..], ready)
      case (e', Block) =>
        DistributeLoop(e', kept + [rest[0]], rest[1..], blocked + {rest[0].header.streamId}, full[1..], ready)
      case (e', Abort) => e'.(readPending := kept)
  }

  /** `distribute_to_substream`; missing channel answers mean "has room". */
  function Distribute(e: Endpoint, answers: seq<bool>, ready: nat): (r: Endpoint)
    ensures SameSide(e, r)
  {
    var n := |e.readPending|;
    DistributeLoop(e, [], e.readPending, {}, seq(n, k requires 0 <= k < n => k < |answers| && answers[k]), ready)
  }

  // ---------------------------------------------------------------- receiving

  function HandleGoAway(e: Endpoint, ready: nat): (r: Endpoint)
    ensures SameSide(e, r)
  {
    var e1 := e.(remoteGoAway := true, writePending := []);
    if e.localGoAway then e1 else SendGoAway(e1, Normal, ready)
  }

  /** A frame from the transport, up to the call of `distribute_to_substream`. */
  function HandleFrame(e: Endpoint, f: Frame, ready: nat): (r: Endpoint)
    ensures SameSide(e, r)
  {
    match f.header.ty
    case Data | WindowUpdate => e.(readPending := e.readPending + [f])
    case Ping => if f.header.flags.syn then SendFrame(e, NewPing(Only(Ack), f.header.length), ready) else e
    case GoAway => HandleGoAway(e, ready)
  }

  /** The oldest event of a substream is handled. */
  function HandleEvent(e: Endpoint, ready: nat): (r: Endpoint)
    requires e.events != []
    ensures SameSide(e, r)
  {
    var e1 := e.(events := e.events[1..]);
    match e.events[0]
    case EventFrame(f) => SendFrame(e1, f, ready)
    case EventClosed(id) => e1.(streams := e1.streams - {id})
    case EventGoAway => SendGoAway(e1, ProtocolError, ready)
  }

  /** The session no longer holds the sender of this stream's channel. */
  predicate LetGo(e: Endpoint, id: StreamId) { id !in e.streams }

  /** The owner of a handle uses it. */
  function UseHandle(e: Endpoint, id: StreamId, op: Op): (r: Endpoint)
    ensures SameSide(e, r)
  {
    if id !in e.handles then e
    else
      var (h, evs) := Act(e.up, LetGo(e, id), e.handles[id], op);
      e.(handles := e.handles[id := h], events := e.events + evs)
  }

  // ---------------------------------------------------------------- all steps of one side

  /** Everything that can happen at one side. `ready` and `answers` are the answers of transport and channels. */
  datatype Step =
    | StepOpen
    | StepAccept
    | StepUse(id: StreamId, op: Op)
    | StepEvent(ready: nat)
    | StepFlush(ready: nat)
    | StepReceive(ready: nat)
    | StepDistribute(answers: seq<bool>, ready: nat)
    | StepPing(pingId: u32, ready: nat)
    | StepShutdown(ready: nat)
    | StepTimeout
    | StepEof
    | StepEnd

  /** The two sides, `me` about to act. */
  datatype View = View(me: Endpoint, peer: Endpoint)

  function Apply(v: View, step: Step): (r: View)
    ensures SameSide(v.me, r.me) && SameSide(v.peer, r.peer)
  {
    var me := v.me;
    if !me.up && !step.StepUse? then v
    else match step
      case StepOpen => v.(me := OpenStream(me))
      case StepAccept => if me.pendingStreams == [] then v else v.(me := me.(pendingStreams := me.pendingStreams[1..]))
      case StepUse(id, op) => v.(me := UseHandle(me, id, op))
      case StepEvent(ready) => if me.events == [] then v else v.(me := HandleEvent(me, ready))
      case StepFlush(ready) => v.(me := SendAll(me, ready))
      case StepReceive(ready) =>
        if v.peer.sink == [] then v
        else View(HandleFrame(me, v.peer.sink[0], ready), v.peer.(sink := v.peer.sink[1..]))
      case StepDistribute(answers, ready) => v.(me := Distribute(me, answers, ready))
      case StepPing(pingId, ready) => v.(me := SendFrame(me, NewPing(Only(Syn), pingId), ready))
      case StepShutdown(ready) => v.(me := Shutdown(me, ready))
      case StepTimeout => if me.localGoAway then v.(me := me.(remoteGoAway := true)) else v
      case StepEof => v.(me := me.(eof := true))
      case StepEnd => v.(me := me.(up := false, streams := {}))
  }

  /** The client is `a`, the server `b`. */
  datatype System = System(a: Endpoint, b: Endpoint)

  datatype Move = Move(byClient: bool, step: Step)

  function Advance(s: System, m: Move): System {
    if m.byClient then
      var v := Apply(View(s.a, s.b), m.step);
      System(v.me, v.peer)
    else
      var v := Apply(View(s.b, s.a), m.step);
      System(v.peer, v.me)
  }

  /** Any interleaving of any steps of the two sides. */
  function Run(client: Config, server: Config, moves: seq<Move>): System
    decreases |moves|
  {
    if moves == [] then System(NewSession(true, client), NewSession(false, server))
    else Advance(Run(client, server, moves[..|moves| - 1]), moves[|moves| - 1])
  }
}
