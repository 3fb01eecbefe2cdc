/** The protocol table and the counter over whole runs. */
module TentacleTheorems {
  import opened TentacleBuffer
  import opened TentacleSession
  import opened TentacleProofs

  // ---------------------------------------------------------------- the table

  predicate Opened(w: World, p: ProtocolId)
    requires p in w.protoStreams
  {
    var id := w.protoStreams[p];
    id in w.substreams && id < |w.tasks| && w.tasks[id].proto == p
  }

  predicate Served(w: World, id: StreamId) {
    id < |w.tasks| && w.tasks[id].proto in w.protoStreams && w.protoStreams[w.tasks[id].proto] == id
  }

  /** Every substream in the table is the one of its protocol, and until the table is cleared an open protocol has its
      substream. */
  predicate Table(w: World) {
    && (forall id :: id in w.substreams ==> Served(w, id))
    && (!w.cleaned ==> forall p :: p in w.protoStreams ==> Opened(w, p))
  }

  /** Nothing the table depends on has changed. */
  predicate SameShape(w: World, w': World) {
    && w'.substreams.Keys == w.substreams.Keys && w'.protoStreams == w.protoStreams && w'.cleaned == w.cleaned
    && |w'.tasks| == |w.tasks| && forall k :: 0 <= k < |w.tasks| ==> w'.tasks[k].proto == w.tasks[k].proto
  }

  lemma ShapeKeepsTable(w: World, w': World)
    requires Table(w) && SameShape(w, w')
    ensures Table(w')
  {
    forall id | id in w'.substreams ensures Served(w', id) {
      assert id in w.substreams;
      assert Served(w, id);
    }
    if !w.cleaned {
      forall p | p in w'.protoStreams ensures Opened(w', p) { assert Opened(w, p); }
    }
  }

  lemma OpenKeepsTable(w: World, proto: ProtocolId)
    requires Table(w)
    ensures Table(OpenProtocol(w, proto))
    ensures proto in OpenProtocol(w, proto).protoStreams && OpenProtocol(OpenProtocol(w, proto), proto) ==
            OpenProtocol(w, proto)
  {
    var w' := OpenProtocol(w, proto);
    if proto !in w.protoStreams {
      if !w.cleaned {
        forall p | p in w'.protoStreams ensures Opened(w', p) { if p != proto { assert Opened(w, p); } }
      }
      forall id | id in w'.substreams ensures Served(w', id) { if id != |w.tasks| { assert Served(w, id); } }
    }
  }

  /** A report about a substream keeps the table in order exactly when it names that substream's own protocol. */
  lemma CloseKeepsTableIff(w: World, id: StreamId, proto: ProtocolId)
    requires Table(w) && id in w.substreams
    ensures !w.cleaned ==> (Table(HandleClose(w, id, proto)) <==> proto == w.tasks[id].proto)
    ensures proto == w.tasks[id].proto ==> Table(HandleClose(w, id, proto))
  {
    var w' := HandleClose(w, id, proto);
    assert Served(w, id);
    var own := w.tasks[id].proto;
    if proto == own {
      if !w.cleaned {
        forall p | p in w'.protoStreams ensures Opened(w', p) { assert Opened(w, p); }
      }
      forall k | k in w'.substreams ensures Served(w', k) { assert Served(w, k); }
    } else if !w.cleaned {
      assert own in w'.protoStreams && !Opened(w', own);
    }
  }

  lemma PushAndSendShape(w: World, id: StreamId, it: Item, answers: seq<ChannelAnswer>)
    requires id in w.substreams && id < |w.tasks|
    ensures SameShape(w, PushAndSend(w, id, it, answers))
  {
    hide TrySendTo;
    TrySendKeepsShape(w.(substreams := w.substreams[id := Push(w.substreams[id], it)]), id, answers);
  }

  lemma {:induction false} CloseAllShape(w: World, visits: seq<Visit>)
    ensures SameShape(w, CloseAll(w, visits))
    decreases |visits|
  {
    hide PushAndSend;
    if visits != [] {
      var v := visits[0];
      if v.id in w.substreams && v.id < |w.tasks| {
        PushAndSendShape(w, v.id, Item(true, Close(v.id, 0)), v.answers);
      }
      CloseAllShape(CloseOne(w, v), visits[1..]);
    }
  }

  lemma {:induction false} DistributeShape(w: World, visits: seq<Visit>, limit: nat)
    ensures SameShape(w, Distribute(w, visits, limit))
    decreases |visits|
  {
    hide TrySendTo;
    if visits != [] {
      var v := visits[0];
      if v.id in w.substreams && v.id < |w.tasks| { TrySendKeepsShape(w, v.id, v.answers); }
      var (w1, last) := DistributeOne(w, v, limit);
      assert SameShape(w, w1);
      if !last { DistributeShape(w1, visits[1..], limit); }
    }
  }

  lemma RouteShape(w: World, it: Item, proto: ProtocolId, answers: seq<ChannelAnswer>)
    ensures SameShape(w, Route(w, it, proto, answers))
  {
    hide PushAndSend;
    if proto in w.protoStreams && w.protoStreams[proto] in w.substreams && w.protoStreams[proto] < |w.tasks| {
      PushAndSendShape(w, w.protoStreams[proto], it, answers);
    }
  }

  // ---------------------------------------------------------------- every substream is told to close

  /** The order to close has reached the channel of the substream or waits in front of it. */
  predicate Told(w: World, id: StreamId) {
    && id in w.substreams && id < |w.tasks|
    && var it := Item(true, Close(id, 0));
       it in w.tasks[id].channel || it in w.substreams[id].high || it in w.substreams[id].normal
  }

  /** The channel of this substream turned out to be closed. */
  predicate GoneAt(w: World, visits: seq<Visit>, id: StreamId) {
    || (id < |w.tasks| && w.tasks[id].ended)
    || exists i :: 0 <= i < |visits| && visits[i].id == id && Gone in visits[i].answers
  }

  lemma {:induction false} DropsOnlyIfGone<T>(high: seq<T>, normal: seq<T>, answers: seq<ChannelAnswer>)
    ensures Deliver(high, normal, answers).dropped != [] ==> Gone in answers
    decreases |high| + |normal|
  {
    if (high != [] || normal != []) && Answer(answers).Taken? {
      if high != [] {
        DropsOnlyIfGone(high[1..], normal, answers[1..]);
      } else {
        DropsOnlyIfGone([], normal[1..], answers[1..]);
      }
    }
  }

  lemma DeliverKeepsItem<T>(high: seq<T>, normal: seq<T>, answers: seq<ChannelAnswer>, it: T)
    requires it in high || it in normal
    ensures var s := Deliver(high, normal, answers); it in s.sent || it in s.high || it in s.normal || Gone in answers
  {
    hide Deliver;
    DeliverKeepsOrder(high, normal, answers);
    DropsOnlyIfGone(high, normal, answers);
    var s := Deliver(high, normal, answers);
    assert it in high + normal;
    assert it in s.sent + s.high + s.normal + s.dropped;
  }

  /** A visit tells its substream, and takes the word from no one. */
  lemma VisitTells(w: World, v: Visit, id: StreamId)
    requires Told(w, id) || (v.id == id && id in w.substreams && id < |w.tasks|)
    ensures Told(CloseOne(w, v), id) || GoneAt(w, [v], id)
  {
    hide Deliver;
    assert [v][0] == v;
    if v.id == id {
      var it, q := Item(true, Close(id, 0)), Push(w.substreams[id], Item(true, Close(id, 0)));
      DeliverKeepsItem(q.high, q.normal, v.answers, it);
    }
  }

  lemma {:induction false} CloseAllTells(w: World, visits: seq<Visit>, id: StreamId)
    requires id in w.substreams && id < |w.tasks|
    requires Told(w, id) || exists i :: 0 <= i < |visits| && visits[i].id == id
    ensures Told(CloseAll(w, visits), id) || GoneAt(w, visits, id)
    decreases |visits|
  {
    hide CloseOne, Told;
    if visits != [] {
      var v, rest := visits[0], visits[1..];
      var w1 := CloseOne(w, v);
      VisitShape(w, v);
      if Told(w, id) || v.id == id { VisitTells(w, v, id); }
      if GoneAt(w, [v], id) {
        assert visits[0] == v;
      } else {
        if !Told(w1, id) {
          var i :| 0 <= i < |visits| && visits[i].id == id;
          assert rest[i - 1] == visits[i];
        }
        CloseAllTells(w1, rest, id);
        if GoneAt(w1, rest, id) && !w1.tasks[id].ended {
          var i :| 0 <= i < |rest| && rest[i].id == id && Gone in rest[i].answers;
          assert visits[i + 1] == rest[i];
        }
      }
    }
  }

  lemma VisitShape(w: World, v: Visit)
    ensures var w' := CloseOne(w, v);
            && w'.substreams.Keys == w.substreams.Keys && |w'.tasks| == |w.tasks|
            && forall k :: 0 <= k < |w.tasks| ==> w'.tasks[k].ended == w.tasks[k].ended
  {
    hide Deliver;
  }

  /** When the visits cover the table, every substream whose channel still exists is told to close. */
  lemma EveryoneIsTold(w: World, visits: seq<Visit>, id: StreamId)
    requires Table(w) && !w.closed && id in w.substreams
    requires forall k :: k in w.substreams ==> exists i :: 0 <= i < |visits| && visits[i].id == k
    ensures Told(CloseAllProto(w, visits), id) || GoneAt(w, visits, id)
  {
    hide CloseAll;
    assert Served(w, id);
    CloseAllTells(w, visits, id);
  }

  lemma CloseAllProtoKeepsTable(w: World, visits: seq<Visit>)
    requires Table(w)
    ensures Table(CloseAllProto(w, visits))
  {
    hide CloseAll;
    if !w.closed {
      CloseAllShape(w, visits);
      ShapeKeepsTable(w, CloseAll(w, visits).(closed := true));
    }
  }

  lemma RequestKeepsTable(w: World, k: nat, answers: seq<ChannelAnswer>, visits: seq<Visit>)
    requires Table(w) && k < |w.service|
    ensures Table(HandleRequest(w, k, answers, visits))
  {
    hide Route, CloseAllProto, Table;
    var r := w.service[k];
    var w1 := w.(service := w.service[..k] + w.service[k + 1..]);
    ShapeKeepsTable(w, w1);
    if w.state != Normal {
      ShapeKeepsTable(w, w1.(lost := w.lost + RequestWeight(r)));
    } else {
      match r
      case ProtocolMessage(high, proto, data) =>
        RouteShape(w1, Item(high, Message(data)), proto, answers);
        ShapeKeepsTable(w1, Route(w1, Item(high, Message(data)), proto, answers));
      case ProtocolClose(proto) =>
        var it := Item(true, Close(CloseIdOf(w, proto), proto));
        RouteShape(w1, it, proto, answers);
        ShapeKeepsTable(w1, Route(w1, it, proto, answers));
      case SessionClose =>
        CleanIsTable(w1);
        ShapeKeepsTable(w1, w1.(state := LocalClose));
        CloseAllProtoKeepsTable(w1.(state := LocalClose), visits);
      case ChangeState(to) => ShapeKeepsTable(w1, w1.(state := to));
    }
  }

  lemma CleanIsTable(w: World)
    ensures Table(Clean(w))
  {
  }

  lemma TaskShape(w: World, id: StreamId, k: nat, sink: seq<SinkAnswer>)
    requires id < |w.tasks|
    ensures SameShape(w, TaskSends(w, id, sink)) && SameShape(w, TaskEnds(w, id))
    ensures k < |w.tasks[id].channel| ==> SameShape(w, TaskTakes(w, id, k, sink))
  {
    hide SendData, Lengths, TaskWeight;
  }

  lemma FinishKeepsTable(w: World, visits: seq<Visit>)
    requires Table(w)
    ensures Table(Finish(w, visits))
  {
    hide CloseAllProto, Table;
    CleanIsTable(w);
    CleanIsTable(w.(protoStreams := map[]));
    CloseAllProtoKeepsTable(w, visits);
  }

  // ---------------------------------------------------------------- whole runs

  predicate Inv(w: World) { Table(w) && Balance(w) == 0 }

  lemma ServiceBalances(w: World, high: bool, proto: ProtocolId, data: Bytes, accepted: bool)
    ensures Balance(ServiceSends(w, high, proto, data, accepted)) == Balance(w)
    ensures SameShape(w, ServiceSends(w, high, proto, data, accepted))
  {
    hide Balance;
    MessageBalances(w, high, proto, data, accepted);
  }

  lemma AskBalances(w: World, r: Request)
    requires !r.ProtocolMessage?
    ensures Balance(w.(service := w.service + [r])) == Balance(w)
  {
    RequestsConcat(w.service, [r]);
    OneRequest(r);
  }

  lemma FreshId(w: World)
    requires Table(w)
    ensures |w.tasks| !in w.substreams
  {
  }

  lemma StepBalances(w: World, step: Step)
    requires Inv(w)
    ensures Balance(Apply(w, step)) == 0
  {
    hide Table, ServiceSends, HandleRequest, OpenProtocol, HandleClose, Distribute, Finish, TaskTakes, TaskSends,
        TaskEnds,
         Clean, QueueWeights, TaskWeights, RequestWeights;
    match step
    case StepSend(high, proto, data, accepted) => ServiceBalances(w, high, proto, data, accepted);
    case StepAsk(request) => if !request.ProtocolMessage? { AskBalances(w, request); }
    case StepRequest(k, answers, visits) => if k < |w.service| { RequestBalances(w, k, answers, visits); }
    case StepOpen(proto) => FreshId(w); OpenBalances(w, proto);
    case StepOpenUnknown =>
    case StepClosed(id) => if id < |w.tasks| { HandleCloseBalances(w, id, w.tasks[id].proto); }
    case StepTimeout =>
    case StepFlush(visits, limit) => DistributeBalances(w, visits, limit);
    case StepServiceGone => CleanBalances(w.(state := LocalClose));
    case StepSessionEnds => SessionEndsBalances(w);
    case StepFinish(visits) => FinishBalances(w, visits);
    case StepTake(id, k, sink) => if id < |w.tasks| && k < |w.tasks[id].channel| { TaskTakesBalances(w, id, k, sink); }
    case StepWrite(id, sink) => if id < |w.tasks| { TaskSendsBalances(w, id, sink); }
    case StepEnd(id) => if id < |w.tasks| { TaskEndsBalances(w, id); }
  }

  lemma StepKeepsTable(w: World, step: Step)
    requires Table(w)
    ensures Table(Apply(w, step))
  {
    hide Table, ServiceSends, HandleRequest, OpenProtocol, HandleClose, Distribute, Finish, TaskTakes, TaskSends,
        TaskEnds, Clean;
    match step
    case StepSend(high, proto, data, accepted) =>
      ServiceBalances(w, high, proto, data, accepted);
      ShapeKeepsTable(w, ServiceSends(w, high, proto, data, accepted));
    case StepAsk(request) => ShapeKeepsTable(w, Apply(w, step));
    case StepRequest(k, answers, visits) => if k < |w.service| { RequestKeepsTable(w, k, answers, visits); }
    case StepOpen(proto) => OpenKeepsTable(w, proto);
    case StepOpenUnknown => ShapeKeepsTable(w, Apply(w, step));
    case StepClosed(id) => if id < |w.tasks| { OwnCloseKeepsTable(w, id); }
    case StepTimeout => ShapeKeepsTable(w, Apply(w, step));
    case StepFlush(visits, limit) =>
      DistributeShape(w, visits, limit);
      ShapeKeepsTable(w, Distribute(w, visits, limit));
    case StepServiceGone => CleanIsTable(w.(state := LocalClose));
    case StepSessionEnds => CleanIsTable(w); ShapeKeepsTable(Clean(w), SessionEnds(w));
    case StepFinish(visits) => FinishKeepsTable(w, visits);
    case StepTake(id, k, sink) =>
      if id < |w.tasks| {
        TaskShape(w, id, k, sink);
        ShapeKeepsTable(w, Apply(w, step));
      }
    case StepWrite(id, sink) =>
      if id < |w.tasks| {
        TaskShape(w, id, 0, sink);
        ShapeKeepsTable(w, Apply(w, step));
      }
    case StepEnd(id) =>
      if id < |w.tasks| {
        TaskShape(w, id, 0, []);
        ShapeKeepsTable(w, Apply(w, step));
      }
  }

  lemma OwnCloseKeepsTable(w: World, id: StreamId)
    requires Table(w) && id < |w.tasks|
    ensures Table(HandleClose(w, id, w.tasks[id].proto))
  {
    if id in w.substreams { CloseKeepsTableIff(w, id, w.tasks[id].proto); }
  }

  /** The counter equals what is queued plus what was dropped, and the table is in order until it is cleared, in every
      run. */
  lemma {:induction false} RunKeeps(steps: seq<Step>)
    ensures Inv(Run(steps))
    decreases |steps|
  {
    hide Table, Balance, Apply;
    if steps == [] {
      StartIsGood();
    } else {
      var w := Run(steps[..|steps| - 1]);
      RunKeeps(steps[..|steps| - 1]);
      StepBalances(w, steps[|steps| - 1]);
      StepKeepsTable(w, steps[|steps| - 1]);
    }
  }

  lemma StartIsGood()
    ensures Inv(Start())
  {
  }

  /** The counter covers every queued byte: taking sent bytes off it never goes below zero. */
  lemma CounterNeverWraps(steps: seq<Step>)
    ensures var w := Run(steps); w.pending == Queued(w) + w.lost && 0 <= Queued(w) <= w.pending
  {
    hide Table, Queued;
    RunKeeps(steps);
  }

  lemma {:induction false} OneTaskOfMany(ts: seq<Task>, id: nat)
    requires id < |ts|
    ensures TaskWeight(ts[id]) <= TaskWeights(ts)
  {
    if id > 0 { OneTaskOfMany(ts[1..], id - 1); }
  }

  /** In every run and at every substream the counter covers what waits in its two buffers: what `Substream.SendData`
      asks for. */
  lemma CounterCoversBuffers(steps: seq<Step>, id: StreamId)
    requires id < |Run(steps).tasks|
    ensures var w := Run(steps); Lengths(w.tasks[id].highBuf) + Lengths(w.tasks[id].writeBuf) <= w.pending
  {
    hide Weights, Lengths, TaskWeights, QueueWeights, RequestWeights, Weight, Run;
    CounterNeverWraps(steps);
    OneTaskOfMany(Run(steps).tasks, id);
  }

  /** It covers them together with any one event in the channel: what `Substream.HandleProtoEvent` asks for. */
  lemma CounterCoversSubstream(steps: seq<Step>, id: StreamId, k: nat)
    requires var w := Run(steps); id < |w.tasks| && k < |w.tasks[id].channel|
    ensures var w := Run(steps);
            var t := w.tasks[id];
            Lengths(t.highBuf) + Lengths(t.writeBuf) + Weight(t.channel[k]) <= w.pending
  {
    hide Weights, Lengths, TaskWeights, QueueWeights, RequestWeights, Weight, Run;
    CounterNeverWraps(steps);
    var w := Run(steps);
    OneTaskOfMany(w.tasks, id);
    ItemRemoved(w.tasks[id].channel, k);
  }

  /** A report from a substream that is no longer in the table changes nothing; in particular it does not touch a later
      substream of the same protocol. */
  lemma StaleCloseIsHarmless(steps: seq<Step>, stale: StreamId, live: StreamId)
    requires var w := Run(steps); stale < |w.tasks| && live in w.substreams && live != stale
    ensures var w := Run(steps);
            var w' := Apply(w, StepClosed(stale));
            && live in w'.substreams && w'.substreams[live] == w.substreams[live]
            && live < |w.tasks| && w.tasks[live].proto in w'.protoStreams
               && w'.protoStreams[w.tasks[live].proto] == live
    ensures var w := Run(steps); stale !in w.substreams ==> Apply(w, StepClosed(stale)) == w
  {
    hide Balance;
    RunKeeps(steps);
    var w := Run(steps);
    assert Served(w, live);
    if stale in w.substreams { assert Served(w, stale); }
  }

  /** A message for an open protocol always finds a buffer, and that buffer is the one of the substream of this
      protocol. */
  lemma RoutedMessageFindsBuffer(steps: seq<Step>, it: Item, proto: ProtocolId)
    requires var w := Run(steps); !w.cleaned && proto in w.protoStreams
    ensures var w := Run(steps);
            var id := w.protoStreams[proto];
            && id in w.substreams && id < |w.tasks| && w.tasks[id].proto == proto
            && (!w.tasks[id].ended ==>
                  Route(w, it, proto, []) == w.(substreams := w.substreams[id := Push(w.substreams[id], it)]))
  {
    hide Balance;
    RunKeeps(steps);
    var w := Run(steps);
    assert Opened(w, proto);
    var id := w.protoStreams[proto];
    if !w.tasks[id].ended {
      var q := Push(w.substreams[id], it);
      NothingTaken(q);
      var w0 := w.(substreams := w.substreams[id := q]);
      assert w0.substreams[id := q] == w0.substreams;
      assert w.tasks[id].channel + [] == w.tasks[id].channel;
      assert w.tasks[id := w.tasks[id]] == w.tasks;
    }
  }

  lemma NothingTaken(q: Queue)
    requires q != Queue([], [])
    ensures var s := Deliver(q.high, q.normal, []);
            s.sent == [] && s.high == q.high && s.normal == q.normal && s.dropped == []
  {
  }
}
