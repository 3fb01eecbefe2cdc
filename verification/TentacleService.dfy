/** What becomes of a message on its way through a session: in which order it leaves a buffer and a substream, how far
    the channel and the transport let it get, and which requests change the session
    (tentacle/tentacle/src/buffer.rs, session.rs, substream.rs). */
module TentacleService {
  import opened TentacleBuffer
  import opened TentacleSession
  import opened TentacleProofs
  import opened TentacleTheorems

  // ---------------------------------------------------------------- the buffer

  /** Items leave as long as the channel takes them; the first other answer ends it and is the answer given, and without
      one nothing is left. */
  lemma {:induction false} DeliverGoesOn<T>(high: seq<T>, normal: seq<T>, answers: seq<ChannelAnswer>)
    ensures var s := Deliver(high, normal, answers);
            var n, all := |s.sent|, |high| + |normal|;
            && n <= all && n <= |answers| && (forall i :: 0 <= i < n ==> answers[i].Taken?)
            && (s.result.SendOk? <==> n == all)
            && (s.result.SendPending? <==> n < all && Answer(answers[n..]).Full?)
            && (s.result.SendDisconnect? <==> n < all && Answer(answers[n..]).Gone?)
    decreases |high| + |normal|
  {
    if high == [] && normal == [] {
    } else if Answer(answers).Taken? {
      var rest := answers[1..];
      var s := Deliver(if high != [] then high[1..] else [], if high != [] then normal else normal[1..], rest);
      DeliverGoesOn(if high != [] then high[1..] else [], if high != [] then normal else normal[1..], rest);
      assert forall i :: 0 < i <= |s.sent| ==> answers[i] == rest[i - 1];
      assert rest[|s.sent|..] == answers[|s.sent| + 1..];
    } else {
      assert answers[0..] == answers;
    }
  }

  /** The order in which a buffer gives up its items once this one is in it: a high item goes behind the high ones and
      before every normal one, a normal one behind all. */
  function Line(q: Queue, it: Item): seq<Item> {
    if it.high then q.high + [it] + q.normal else q.high + q.normal + [it]
  }

  lemma PushedLeavesInLine(q: Queue, it: Item, answers: seq<ChannelAnswer>)
    ensures var s := Deliver(Push(q, it).high, Push(q, it).normal, answers);
            s.sent + s.high + s.normal + s.dropped == Line(q, it)
  {
    hide Deliver;
    DeliverKeepsOrder(Push(q, it).high, Push(q, it).normal, answers);
    assert q.high + (q.normal + [it]) == q.high + q.normal + [it];
  }

  /** A message for an open protocol joins the line of its substream and no other, and none in it is lost while the
      channel exists. */
  lemma RoutedInLine(w: World, it: Item, proto: ProtocolId, answers: seq<ChannelAnswer>)
    requires proto in w.protoStreams && Opened(w, proto) && Gone !in answers
    requires !w.tasks[w.protoStreams[proto]].ended
    ensures var w', id := Route(w, it, proto, answers), w.protoStreams[proto];
            && id in w'.substreams && |w'.tasks| == |w.tasks|
            && w'.tasks[id].channel + w'.substreams[id].high + w'.substreams[id].normal
            == w.tasks[id].channel + Line(w.substreams[id], it)
            && w'.substreams == w.substreams[id := w'.substreams[id]] && w'.tasks == w.tasks[id := w'.tasks[id]]
            && w'.lost == w.lost && w'.pending == w.pending
  {
    hide Deliver, Line, Weights;
    var id := w.protoStreams[proto];
    var q := Push(w.substreams[id], it);
    PushedLeavesInLine(w.substreams[id], it, answers);
    DropsOnlyIfGone(q.high, q.normal, answers);
    var s, channel := Deliver(q.high, q.normal, answers), w.tasks[id].channel;
    assert Weights([]) == 0 by { NoWeight(); }
    assert s.sent + s.high + s.normal + [] == s.sent + s.high + s.normal;
    assert (channel + s.sent) + s.high + s.normal == channel + (s.sent + s.high + s.normal);
  }

  lemma NoWeight()
    ensures Weights([]) == 0
  {
  }

  /** A message for a protocol that is not open is lost, and nothing else happens. */
  lemma UnroutedIsLost(w: World, it: Item, proto: ProtocolId, answers: seq<ChannelAnswer>)
    requires proto !in w.protoStreams
    ensures Route(w, it, proto, answers) == w.(lost := w.lost + Weight(it))
  {
  }

  /** A pass stops at the first buffer that it cannot empty; it clears that buffer and gives the session up exactly if
      more than the limit is pending. */
  lemma LimitClears(w: World, v: Visit, limit: nat)
    requires v.id in w.substreams && v.id < |w.tasks|
    ensures var sent := TrySendTo(w, v.id, v.answers);
            var (w', last) := DistributeOne(w, v, limit);
            var stuck := w.substreams[v.id] != Queue([], []) && sent.substreams[v.id] != Queue([], []);
            && (last <==> stuck)
            && (stuck && w.pending > limit <==> w'.substreams[v.id] != sent.substreams[v.id])
            && (stuck && w.pending > limit ==> w'.state == Abnormal && w'.substreams[v.id] == Queue([], []))
            && (!(stuck && w.pending > limit) ==> w'.state == w.state)
            && w'.tasks == (if w.substreams[v.id] == Queue([], []) then w.tasks else sent.tasks)
  {
    hide Deliver;
    var q := w.substreams[v.id];
    if q == Queue([], []) { NothingToSend(if w.tasks[v.id].ended then [Gone] else v.answers); }
  }

  lemma NothingToSend(answers: seq<ChannelAnswer>)
    ensures Deliver<Item>([], [], answers) == Sending([], [], [], [], SendOk)
  {
  }

  // ---------------------------------------------------------------- the substream

  /** Frames go down as long as the transport accepts them; the first other answer decides. An error on the way takes
      one frame with it, a failing flush none. */
  lemma {:induction false} SendGoesOn(high: seq<Bytes>, normal: seq<Bytes>, answers: seq<SinkAnswer>)
    ensures var o := SendData(high, normal, answers);
            var n, all := |o.sent|, high + normal;
            && n <= |all| && n <= |answers| && (forall i :: 0 <= i < n ==> answers[i].Accepted?)
            && var next := SinkSays(answers[n..]);
               if n == |all| then o.dropped == [] && (o.failed <==> next.FlushFails?)
               else && !next.Accepted? && (o.failed <==> !next.NotReady?)
                    && o.dropped == (if next.ReadyFails? || next.StartFails? then [all[n]] else [])
    decreases |high| + |normal|
  {
    if high == [] && normal == [] {
      assert answers[0..] == answers;
    } else {
      assert (high + normal)[0] == Next(high, normal).0;
      if SinkSays(answers).Accepted? {
        var (_, high', normal') := Next(high, normal);
        var rest := answers[1..];
        SendGoesOn(high', normal', rest);
        var n := |SendData(high', normal', rest).sent|;
        assert forall i :: 0 < i <= n ==> answers[i] == rest[i - 1];
        assert rest[n..] == answers[n + 1..];
        assert (high + normal)[1..] == high' + normal';
        assert n < |high' + normal'| ==> (high + normal)[n + 1] == (high' + normal')[n];
      } else {
        assert answers[0..] == answers;
      }
    }
  }

  /** The frames of a task in the order in which they leave it, once it has taken this event. */
  function Frames(t: Task, it: Item): seq<Bytes>
    requires it.event.Message?
  {
    if it.high then t.highBuf + [it.event.data] + t.writeBuf else t.highBuf + t.writeBuf + [it.event.data]
  }

  /** What is left of these frames after some were handed to the transport; an error may take one with it. */
  predicate LeftOf(all: seq<Bytes>, n: nat, t: Task) {
    && n <= |all|
    && (t.highBuf + t.writeBuf == all[n..] || (t.dead && n < |all| && t.highBuf + t.writeBuf == all[n + 1..]))
  }

  lemma SentIsFront(high: seq<Bytes>, normal: seq<Bytes>, answers: seq<SinkAnswer>, t: Task)
    requires var o := SendData(high, normal, answers);
             t.highBuf == o.high && t.writeBuf == o.normal && (o.failed ==> t.dead)
    ensures var n := |SendData(high, normal, answers).sent|;
            LeftOf(high + normal, n, t) && (high + normal)[..n] == SendData(high, normal, answers).sent
  {
    hide SendData;
    SendDataConserves(high, normal, answers);
    var o := SendData(high, normal, answers);
    Tail(high + normal, o.sent, o.dropped, o.high + o.normal);
    assert o.sent + o.dropped + o.high + o.normal == o.sent + o.dropped + (o.high + o.normal);
  }

  /** A live substream that takes a message keeps a tail of its frames, in order, and the counter goes down by those it
      handed to the transport; one that is told to close forgets the normal ones; a dead one takes nothing. */
  lemma TakenGoesDown(w: World, id: StreamId, k: nat, answers: seq<SinkAnswer>)
    requires id < |w.tasks| && k < |w.tasks[id].channel|
    ensures var w' := TaskTakes(w, id, k, answers);
            var t, it := w.tasks[id], w.tasks[id].channel[k];
            if t.dead then w' == w
            else
              && |w'.tasks| == |w.tasks|
              && var t' := w'.tasks[id];
                 && t'.channel == t.channel[..k] + t.channel[k + 1..]
                 && match it.event
                    case Close(_, _) => t'.dead && t'.writeBuf == [] && t'.highBuf == t.highBuf
                        && w'.pending == w.pending
                    case Message(_) =>
                      var all := Frames(t, it);
                      exists n: nat :: LeftOf(all, n, t') && w'.pending == w.pending - Lengths(all[..n])
  {
    hide SendData, Lengths, LeftOf;
    var t, it := w.tasks[id], w.tasks[id].channel[k];
    if !t.dead && it.event.Message? {
      var data := it.event.data;
      var high := if it.high then t.highBuf + [data] else t.highBuf;
      var normal := if it.high then t.writeBuf else t.writeBuf + [data];
      assert high + normal == Frames(t, it);
      SentIsFront(high, normal, answers, TaskTakes(w, id, k, answers).tasks[id]);
    }
  }

  lemma Tail(all: seq<Bytes>, sent: seq<Bytes>, dropped: seq<Bytes>, rest: seq<Bytes>)
    ensures all == sent + dropped + rest && |dropped| <= 1 ==>
              all[..|sent|] == sent && all[|sent| + |dropped|..] == rest
  {
  }

  // ---------------------------------------------------------------- requests

  /** In normal state a request does what it asks for; in any other it is thrown away. */
  lemma RequestIsServed(w: World, k: nat, answers: seq<ChannelAnswer>, visits: seq<Visit>)
    requires k < |w.service|
    ensures var w' := HandleRequest(w, k, answers, visits);
            && w'.service == w.service[..k] + w.service[k + 1..]
            && (w.state != Normal ==> w' == w.(service := w'.service, lost := w.lost + RequestWeight(w.service[k])))
            && (w.state == Normal ==>
                  match w.service[k]
                  case ChangeState(to) => w' == w.(service := w'.service, state := to)
                  case SessionClose =>
                    && w'.closed && (w.substreams == map[] || w.closed ==> w'.cleaned && w'.substreams == map[])
                    && (w.substreams != map[] ==> w'.state == LocalClose)
                  case _ => w'.state == Normal && w'.closed == w.closed && w'.protoStreams == w.protoStreams)
  {
    hide Deliver, Weights, QueueWeights;
    var w1 := w.(service := w.service[..k] + w.service[k + 1..], state := LocalClose);
    CloseAllLeaves(w1, visits);
  }

  /** What a request puts into the line of a protocol: its message with the priority asked for, or the order to close
      the substream, which is always high. */
  function Ordered(w: World, r: Request): Item
    requires r.ProtocolMessage? || r.ProtocolClose?
  {
    if r.ProtocolMessage? then Item(r.high, Message(r.data))
    else Item(true, Close(if r.proto in w.protoStreams then w.protoStreams[r.proto] else 0, r.proto))
  }

  lemma RequestJoinsLine(w: World, k: nat, answers: seq<ChannelAnswer>, visits: seq<Visit>)
    requires k < |w.service| && w.state == Normal && Gone !in answers
    requires w.service[k].ProtocolMessage? || w.service[k].ProtocolClose?
    requires w.service[k].proto in w.protoStreams && Opened(w, w.service[k].proto)
    requires !w.tasks[w.protoStreams[w.service[k].proto]].ended
    ensures var w', id := HandleRequest(w, k, answers, visits), w.protoStreams[w.service[k].proto];
            && id in w'.substreams && |w'.tasks| == |w.tasks|
            && w'.tasks[id].channel + w'.substreams[id].high + w'.substreams[id].normal
            == w.tasks[id].channel + Line(w.substreams[id], Ordered(w, w.service[k]))
            && w'.lost == w.lost && w'.pending == w.pending
  {
    hide Route, Line;
    var r := w.service[k];
    var w1 := w.(service := w.service[..k] + w.service[k + 1..]);
    RoutedInLine(w1, Ordered(w, r), r.proto, answers);
  }

  /** A protocol that is not open gets the next substream, live and empty; a session closed here opens none and looks at
      no reports. */
  lemma OpenedIsLive(w: World, proto: ProtocolId, id: StreamId)
    ensures w.state == LocalClose ==> Apply(w, StepOpen(proto)) == w && Apply(w, StepClosed(id)) == w
    ensures w.state != LocalClose && proto !in w.protoStreams ==>
              var w' := Apply(w, StepOpen(proto));
              && w'.tasks == w.tasks + [Task(proto, [], [], [], false, false)]
              && w'.protoStreams == w.protoStreams[proto := |w.tasks|]
              && w'.substreams == w.substreams[|w.tasks| := Queue([], [])]
  {
  }

  /** The timeout closes a session without substreams and leaves any other alone; an unknown protocol makes it give up;
      the end of the service, and its own end, clear it. */
  lemma OtherStepsEnd(w: World)
    ensures Apply(w, StepTimeout) == w.(state := if w.substreams == map[] then LocalClose else w.state)
    ensures Apply(w, StepOpenUnknown) == w.(state := if w.state == LocalClose then LocalClose else Abnormal)
    ensures var w' := Apply(w, StepServiceGone);
            w'.state == LocalClose && w'.closed && w'.cleaned && w'.substreams == map[] && w'.service == w.service
    ensures var w' := Apply(w, StepSessionEnds);
            w'.state == LocalClose && w'.closed && w'.cleaned && w'.substreams == map[] && w'.service == []
  {
    hide QueueWeights, RequestWeights;
  }

  lemma {:induction false} CloseAllLeaves(w: World, visits: seq<Visit>)
    ensures var w' := CloseAll(w, visits); w'.service == w.service && w'.state == w.state && w'.cleaned == w.cleaned
    decreases |visits|
  {
    hide Deliver, Weights;
    if visits != [] { CloseAllLeaves(CloseOne(w, visits[0]), visits[1..]); }
  }

  /** The end of a poll: a session that was closed here or gave up is cleared at once, one whose other side has closed
      first tells its substreams, and a normal one is left alone. */
  lemma FinishWindsDown(w: World, visits: seq<Visit>)
    ensures var w' := Finish(w, visits);
            match w.state
            case Normal => w' == w
            case RemoteClose =>
              && w'.closed && w'.protoStreams == w.protoStreams
              && (w.protoStreams == map[] || w.closed ==> w'.cleaned)
              && (w.protoStreams != map[] && !w.closed ==>
                    w'.cleaned == w.cleaned && w'.substreams.Keys == w.substreams.Keys)
            case _ => w'.cleaned && w'.closed && w'.substreams == map[] && w'.protoStreams == map[]
  {
    hide CloseAll, QueueWeights;
    CloseAllShape(w, visits);
  }

  /** A message that is accepted waits behind the others; one that is not only raises the counter. */
  lemma SendIsQueued(w: World, high: bool, proto: ProtocolId, data: Bytes, accepted: bool)
    ensures var w' := ServiceSends(w, high, proto, data, accepted);
            var queued := accepted && !w.cleaned;
            && w'.service == w.service + (if queued then [ProtocolMessage(high, proto, data)] else [])
            && w' == w.(service := w'.service, pending := w.pending + |data|, lost := w'.lost)
            && w'.lost == w.lost + (if queued then 0 else |data|)
  {
    assert w.service + [] == w.service;
  }
}
