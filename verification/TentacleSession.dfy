/** A tentacle session with its protocol table, the substream tasks it feeds and the counter of pending bytes
    (tentacle/tentacle/src/session.rs, substream.rs, service.rs, context.rs). */
module TentacleSession {
  import opened Common
  import opened TentacleBuffer

  type Bytes = seq<byte>
  type ProtocolId = nat
  type StreamId = nat

  datatype SessionState = RemoteClose | LocalClose | Normal | Abnormal

  datatype ProtocolEvent = Message(data: Bytes) | Close(id: StreamId, proto: ProtocolId)

  /** An event on its way to a substream, with its priority. */
  datatype Item = Item(high: bool, event: ProtocolEvent)

  /** The session's buffer for one substream. */
  datatype Queue = Queue(high: seq<Item>, normal: seq<Item>)

  /** A substream: what is in its channel, its two write buffers, whether it is dead, whether its task is over. */
  datatype Task = Task(proto: ProtocolId, channel: seq<Item>, highBuf: seq<Bytes>, writeBuf: seq<Bytes>, dead: bool,
      ended: bool)

  /** What the service asks of a session. */
  datatype Request =
    | ProtocolMessage(high: bool, proto: ProtocolId, data: Bytes)
    | ProtocolClose(proto: ProtocolId)
    | SessionClose
    | ChangeState(to: SessionState)

  /** `tasks[id]` is the substream `id`; ids are given out in order, so the next one is `|tasks|`. `pending` is the
      counter, `lost` the bytes that were dropped without being taken off it; `cleaned` once the session has closed its
      receivers. */
  datatype World = World(
    state: SessionState, closed: bool, substreams: map<StreamId, Queue>, protoStreams: map<ProtocolId, StreamId>,
    tasks: seq<Task>, service: seq<Request>, pending: int, lost: nat, cleaned: bool)

  function Start(): World { World(Normal, false, map[], map[], [], [], 0, 0, false) }

  // ---------------------------------------------------------------- weights

  function Weight(it: Item): nat { if it.event.Message? then |it.event.data| else 0 }

  function Weights(items: seq<Item>): nat { if items == [] then 0 else Weight(items[0]) + Weights(items[1..]) }

  function Lengths(frames: seq<Bytes>): nat { if frames == [] then 0 else |frames[0]| + Lengths(frames[1..]) }

  function QueueWeight(q: Queue): nat { Weights(q.high) + Weights(q.normal) }

  function TaskWeight(t: Task): nat { Weights(t.channel) + Lengths(t.highBuf) + Lengths(t.writeBuf) }

  function RequestWeight(r: Request): nat { if r.ProtocolMessage? then |r.data| else 0 }

  function RequestWeights(rs: seq<Request>): nat {
    if rs == [] then 0 else RequestWeight(rs[0]) + RequestWeights(rs[1..])
  }

  function TaskWeights(ts: seq<Task>): nat { if ts == [] then 0 else TaskWeight(ts[0]) + TaskWeights(ts[1..]) }

  /** The buffers of the substreams below `n`. */
  function QueueWeights(m: map<StreamId, Queue>, n: nat): nat {
    if n == 0 then 0 else QueueWeights(m, n - 1) + if n - 1 in m then QueueWeight(m[n - 1]) else 0
  }

  /** All message bytes that are still in some queue. */
  function Queued(w: World): nat {
    RequestWeights(w.service) + QueueWeights(w.substreams, |w.tasks|) + TaskWeights(w.tasks)
  }

  // ---------------------------------------------------------------- the substream

  /** What the framed substream does with a frame; with `FlushFails` it takes no frame and then fails to flush. */
  datatype SinkAnswer = Accepted | NotReady | ReadyFails | StartFails | FlushFails

  /** What `send_data` did: frames handed down, the buffers afterwards, the frame lost with an error, whether it
      failed. */
  datatype Output = Output(sent: seq<Bytes>, high: seq<Bytes>, normal: seq<Bytes>, dropped: seq<Bytes>, failed: bool)

  function SinkSays(answers: seq<SinkAnswer>): SinkAnswer { if answers == [] then NotReady else answers[0] }

  /** The next frame, and the buffers without it. */
  function Next(high: seq<Bytes>, normal: seq<Bytes>): (Bytes, seq<Bytes>, seq<Bytes>)
    requires high != [] || normal != []
  {
    if high != [] then (high[0], high[1..], normal) else (normal[0], [], normal[1..])
  }

  /** `send_data`: the high buffer first; an error loses the frame at hand, unless it comes from flushing. */
  function SendData(high: seq<Bytes>, normal: seq<Bytes>, answers: seq<SinkAnswer>): Output
    decreases |high| + |normal|
  {
    if high == [] && normal == [] then Output([], [], [], [], SinkSays(answers).FlushFails?)
    else
      var (frame, high', normal') := Next(high, normal);
      match SinkSays(answers)
      case NotReady => Output([], high, normal, [], false)
      case FlushFails => Output([], high, normal, [], true)
      case ReadyFails | StartFails => Output([], high', normal', [frame], true)
      case Accepted =>
        var o := SendData(high', normal', answers[1..]);
        o.(sent := [frame] + o.sent)
  }

  /** The buffers of a task are written out; the counter goes down by what was handed to the substream. */
  function TaskSends(w: World, id: StreamId, answers: seq<SinkAnswer>): World
    requires id < |w.tasks|
  {
    var t := w.tasks[id];
    var o := SendData(t.highBuf, t.writeBuf, answers);
    w.(tasks := w.tasks[id := t.(highBuf := o.high, writeBuf := o.normal, dead := t.dead || o.failed)],
       pending := w.pending - Lengths(o.sent), lost := w.lost + Lengths(o.dropped))
  }

  /** `handle_proto_event` for the k-th event in the channel; a dead substream takes none. */
  function TaskTakes(w: World, id: StreamId, k: nat, answers: seq<SinkAnswer>): World
    requires id < |w.tasks| && k < |w.tasks[id].channel|
  {
    var t := w.tasks[id];
    var it := t.channel[k];
    var t1 := t.(channel := t.channel[..k] + t.channel[k + 1..]);
    if t.dead then w
    else match it.event
      case Close(_, _) =>
        w.(tasks := w.tasks[id := t1.(writeBuf := [], dead := true)], lost := w.lost + Lengths(t.writeBuf))
      case Message(data) =>
        var t2 := if it.high then t1.(highBuf := t.highBuf + [data]) else t1.(writeBuf := t.writeBuf + [data]);
        TaskSends(w.(tasks := w.tasks[id := t2]), id, answers)
  }

  /** The task is over and everything it held is gone. */
  function TaskEnds(w: World, id: StreamId): World
    requires id < |w.tasks|
  {
    var t := w.tasks[id];
    w.(tasks := w.tasks[id := Task(t.proto, [], [], [], true, true)], lost := w.lost + TaskWeight(t))
  }

  // ---------------------------------------------------------------- the session

  /** `try_send` on one buffer; the channel of a task that is over is closed. */
  function TrySendTo(w: World, id: StreamId, answers: seq<ChannelAnswer>): World
    requires id in w.substreams && id < |w.tasks|
  {
    var q, t := w.substreams[id], w.tasks[id];
    var s := Deliver(q.high, q.normal, if t.ended then [Gone] else answers);
    w.(substreams := w.substreams[id := Queue(s.high, s.normal)],
       tasks := w.tasks[id := t.(channel := t.channel + s.sent)],
       lost := w.lost + Weights(s.dropped))
  }

  function Push(q: Queue, it: Item): Queue {
    if it.high then q.(high := q.high + [it]) else q.(normal := q.normal + [it])
  }

  /** `open_protocol` for a known name: a protocol that is open already is left alone. */
  function OpenProtocol(w: World, proto: ProtocolId): World {
    if proto in w.protoStreams then w
    else
      var id := |w.tasks|;
      w.(substreams := w.substreams[id := Queue([], [])], protoStreams := w.protoStreams[proto := id],
         tasks := w.tasks + [Task(proto, [], [], [], false, false)])
  }

  /** A Close event with this id and protocol reaches the session. */
  function HandleClose(w: World, id: StreamId, proto: ProtocolId): World {
    if id in w.substreams then
      w.(substreams := w.substreams - {id}, protoStreams := w.protoStreams - {proto},
         lost := w.lost + QueueWeight(w.substreams[id]))
    else w
  }

  /** `clean`: the table is cleared and both receivers take nothing new; what they hold can still be taken from them. */
  function Clean(w: World): World {
    w.(substreams := map[], closed := true, cleaned := true, lost := w.lost + QueueWeights(w.substreams, |w.tasks|))
  }

  /** The session itself is dropped, with everything it holds. */
  function SessionEnds(w: World): World {
    Clean(w).(state := LocalClose, service := [], lost := Clean(w).lost + RequestWeights(w.service))
  }

  /** A turn of a loop over the substreams, which come in any order: the substream, and what its channel answers. */
  datatype Visit = Visit(id: StreamId, answers: seq<ChannelAnswer>)

  function PushAndSend(w: World, id: StreamId, it: Item, answers: seq<ChannelAnswer>): World
    requires id in w.substreams && id < |w.tasks|
  {
    TrySendTo(w.(substreams := w.substreams[id := Push(w.substreams[id], it)]), id, answers)
  }

  function CloseOne(w: World, v: Visit): World {
    if v.id in w.substreams && v.id < |w.tasks| then PushAndSend(w, v.id, Item(true, Close(v.id, 0)), v.answers) else w
  }

  /** Every substream is told to close. */
  function CloseAll(w: World, visits: seq<Visit>): World
    decreases |visits|
  {
    if visits == [] then w else CloseAll(CloseOne(w, visits[0]), visits[1..])
  }

  function CloseAllProto(w: World, visits: seq<Visit>): World {
    if w.closed then Clean(w) else CloseAll(w, visits).(closed := true)
  }

  /** One buffer of `distribute_to_substream`, and whether the loop ends with it: a buffer that cannot be emptied is the
      last one, and is cleared if the session holds more than the limit. */
  function DistributeOne(w: World, v: Visit, limit: nat): (World, bool) {
    if !(v.id in w.substreams && v.id < |w.tasks|) || w.substreams[v.id] == Queue([], []) then (w, false)
    else
      var w1 := TrySendTo(w, v.id, v.answers);
      if w1.substreams[v.id] == Queue([], []) then (w1, false)
      else if w1.pending > limit then
        (w1.(state := Abnormal, substreams := w1.substreams[v.id := Queue([], [])],
             lost := w1.lost + QueueWeight(w1.substreams[v.id])), true)
      else (w1, true)
  }

  function Distribute(w: World, visits: seq<Visit>, limit: nat): World
    decreases |visits|
  {
    if visits == [] then w
    else
      var (w1, last) := DistributeOne(w, visits[0], limit);
      if last then w1 else Distribute(w1, visits[1..], limit)
  }

  /** A message for a protocol goes to the buffer of its substream, if the protocol is open. */
  function Route(w: World, it: Item, proto: ProtocolId, answers: seq<ChannelAnswer>): World {
    if proto in w.protoStreams && w.protoStreams[proto] in w.substreams && w.protoStreams[proto] < |w.tasks| then
      PushAndSend(w, w.protoStreams[proto], it, answers)
    else w.(lost := w.lost + Weight(it))
  }

  function CloseIdOf(w: World, proto: ProtocolId): StreamId {
    if proto in w.protoStreams then w.protoStreams[proto] else 0
  }

  /** The session takes the k-th request; unless it is in normal state it throws the request away. */
  function HandleRequest(w: World, k: nat, answers: seq<ChannelAnswer>, visits: seq<Visit>): World
    requires k < |w.service|
  {
    var r := w.service[k];
    var w1 := w.(service := w.service[..k] + w.service[k + 1..]);
    if w.state != Normal then w1.(lost := w.lost + RequestWeight(r))
    else match r
      case ProtocolMessage(high, proto, data) => Route(w1, Item(high, Message(data)), proto, answers)
      case ProtocolClose(proto) => Route(w1, Item(true, Close(CloseIdOf(w, proto), proto)), proto, answers)
      case SessionClose =>
        if w.substreams == map[] then Clean(w1) else CloseAllProto(w1.(state := LocalClose), visits)
      case ChangeState(to) => w1.(state := to)
  }

  /** The end of a poll: a session that is not in normal state winds down. */
  function Finish(w: World, visits: seq<Visit>): World {
    match w.state
    case LocalClose | Abnormal => Clean(w.(protoStreams := map[]))
    case RemoteClose => if w.protoStreams == map[] then Clean(w) else CloseAllProto(w, visits)
    case Normal => w
  }

  // ---------------------------------------------------------------- the service

  /** One session of `handle_message`: the counter goes up before the message is sent on, and sending may fail. */
  function ServiceSends(w: World, high: bool, proto: ProtocolId, data: Bytes, accepted: bool): World {
    var w1 := w.(pending := w.pending + |data|);
    if accepted && !w.cleaned then w1.(service := w.service + [ProtocolMessage(high, proto, data)])
    else w1.(lost := w.lost + |data|)
  }

  // ---------------------------------------------------------------- runs

  datatype Step =
    | StepSend(high: bool, proto: ProtocolId, data: Bytes, accepted: bool)
    | StepAsk(request: Request)
    | StepRequest(k: nat, answers: seq<ChannelAnswer>, visits: seq<Visit>)
    | StepOpen(proto: ProtocolId)
    | StepOpenUnknown
    | StepClosed(id: StreamId)
    | StepTimeout
    | StepFlush(visits: seq<Visit>, limit: nat)
    | StepServiceGone
    | StepSessionEnds
    | StepFinish(visits: seq<Visit>)
    | StepTake(id: StreamId, k: nat, sink: seq<SinkAnswer>)
    | StepWrite(id: StreamId, sink: seq<SinkAnswer>)
    | StepEnd(id: StreamId)

  /** Anything that can happen around one session. A substream may report its end at any time and any number of times;
      the session does not look at reports once it has closed itself. */
  function Apply(w: World, step: Step): World {
    match step
    case StepSend(high, proto, data, accepted) => ServiceSends(w, high, proto, data, accepted)
    case StepAsk(request) =>
      if request.ProtocolMessage? || w.cleaned then w else w.(service := w.service + [request])
    case StepRequest(k, answers, visits) => if k < |w.service| then HandleRequest(w, k, answers, visits) else w
    case StepOpen(proto) => if w.state == LocalClose then w else OpenProtocol(w, proto)
    case StepOpenUnknown => if w.state == LocalClose then w else w.(state := Abnormal)
    case StepClosed(id) =>
      if id < |w.tasks| && w.state != LocalClose then HandleClose(w, id, w.tasks[id].proto) else w
    case StepTimeout => if w.substreams == map[] && w.state != LocalClose then w.(state := LocalClose) else w
    case StepFlush(visits, limit) => Distribute(w, visits, limit)
    case StepServiceGone => Clean(w.(state := LocalClose))
    case StepSessionEnds => SessionEnds(w)
    case StepFinish(visits) => Finish(w, visits)
    case StepTake(id, k, sink) =>
      if id < |w.tasks| && k < |w.tasks[id].channel| then TaskTakes(w, id, k, sink) else w
    case StepWrite(id, sink) => if id < |w.tasks| && !w.tasks[id].ended then TaskSends(w, id, sink) else w
    case StepEnd(id) => if id < |w.tasks| then TaskEnds(w, id) else w
  }

  function Run(steps: seq<Step>): World
    decreases |steps|
  {
    if steps == [] then Start() else Apply(Run(steps[..|steps| - 1]), steps[|steps| - 1])
  }
}
