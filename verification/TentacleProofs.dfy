/** What every run around a session keeps: protocols and substreams stay in bijection until the session is cleaned, and
    the counter is exactly the bytes still queued plus the bytes dropped. */
module TentacleProofs {
  import opened TentacleBuffer
  import opened TentacleSession

  // ---------------------------------------------------------------- sums

  lemma {:induction false} WeightsConcat(a: seq<Item>, b: seq<Item>)
    ensures Weights(a + b) == Weights(a) + Weights(b)
  {
    hide Weight;
    if a == [] {
      assert a + b == b;
    } else {
      WeightsConcat(a[1..], b);
      assert (a + b)[1..] == a[1..] + b && (a + b)[0] == a[0];
    }
  }

  lemma {:induction false} LengthsConcat(a: seq<Bytes>, b: seq<Bytes>)
    ensures Lengths(a + b) == Lengths(a) + Lengths(b)
  {
    if a == [] {
      assert a + b == b;
    } else {
      LengthsConcat(a[1..], b);
      assert (a + b)[1..] == a[1..] + b && (a + b)[0] == a[0];
    }
  }

  lemma {:induction false} RequestsConcat(a: seq<Request>, b: seq<Request>)
    ensures RequestWeights(a + b) == RequestWeights(a) + RequestWeights(b)
  {
    hide RequestWeight;
    if a == [] {
      assert a + b == b;
    } else {
      RequestsConcat(a[1..], b);
      assert (a + b)[1..] == a[1..] + b && (a + b)[0] == a[0];
    }
  }

  lemma {:induction false} TasksConcat(a: seq<Task>, b: seq<Task>)
    ensures TaskWeights(a + b) == TaskWeights(a) + TaskWeights(b)
  {
    hide TaskWeight;
    if a == [] {
      assert a + b == b;
    } else {
      TasksConcat(a[1..], b);
      assert (a + b)[1..] == a[1..] + b && (a + b)[0] == a[0];
    }
  }

  lemma OneItem(it: Item)
    ensures Weights([it]) == Weight(it)
  {
    assert [it][1..] == [];
  }

  lemma OneFrame(f: Bytes)
    ensures Lengths([f]) == |f|
  {
    assert [f][1..] == [];
  }

  lemma OneRequest(r: Request)
    ensures RequestWeights([r]) == RequestWeight(r)
  {
    assert [r][1..] == [];
  }

  lemma OneTask(t: Task)
    ensures TaskWeights([t]) == TaskWeight(t)
  {
    assert [t][1..] == [];
  }

  lemma ItemRemoved(items: seq<Item>, k: nat)
    requires k < |items|
    ensures Weights(items) == Weights(items[..k] + items[k + 1..]) + Weight(items[k])
  {
    hide Weights, Weight;
    assert items == items[..k] + ([items[k]] + items[k + 1..]);
    WeightsConcat(items[..k], [items[k]] + items[k + 1..]);
    WeightsConcat([items[k]], items[k + 1..]);
    WeightsConcat(items[..k], items[k + 1..]);
    OneItem(items[k]);
  }

  lemma RequestRemoved(rs: seq<Request>, k: nat)
    requires k < |rs|
    ensures RequestWeights(rs) == RequestWeights(rs[..k] + rs[k + 1..]) + RequestWeight(rs[k])
  {
    hide RequestWeights, RequestWeight;
    assert rs == rs[..k] + ([rs[k]] + rs[k + 1..]);
    RequestsConcat(rs[..k], [rs[k]] + rs[k + 1..]);
    RequestsConcat([rs[k]], rs[k + 1..]);
    RequestsConcat(rs[..k], rs[k + 1..]);
    OneRequest(rs[k]);
  }

  lemma TaskReplaced(ts: seq<Task>, id: nat, t: Task)
    requires id < |ts|
    ensures TaskWeights(ts[id := t]) == TaskWeights(ts) - TaskWeight(ts[id]) + TaskWeight(t)
  {
    assert ts == ts[..id] + ([ts[id]] + ts[id + 1..]);
    assert ts[id := t] == ts[..id] + ([t] + ts[id + 1..]);
    TasksConcat(ts[..id], [ts[id]] + ts[id + 1..]);
    TasksConcat(ts[..id], [t] + ts[id + 1..]);
    TasksConcat([ts[id]], ts[id + 1..]);
    TasksConcat([t], ts[id + 1..]);
    OneTask(ts[id]);
    OneTask(t);
  }

  lemma {:induction false} QueueReplaced(m: map<StreamId, Queue>, n: nat, id: StreamId, q: Queue)
    ensures QueueWeights(m[id := q], n) ==
            QueueWeights(m, n) + if id < n then QueueWeight(q) - (if id in m then QueueWeight(m[id]) else 0) else 0
  {
    hide QueueWeight;
    if n > 0 { QueueReplaced(m, n - 1, id, q); }
  }

  lemma {:induction false} QueueRemoved(m: map<StreamId, Queue>, n: nat, id: StreamId)
    requires id in m
    ensures QueueWeights(m - {id}, n) == QueueWeights(m, n) - if id < n then QueueWeight(m[id]) else 0
  {
    hide QueueWeight;
    if n > 0 { QueueRemoved(m, n - 1, id); }
  }

  lemma {:induction false} NoQueues(n: nat)
    ensures QueueWeights(map[], n) == 0
  {
    if n > 0 { NoQueues(n - 1); }
  }

  // ---------------------------------------------------------------- the counter

  /** Counted bytes that are neither queued nor dropped. */
  function Balance(w: World): int { w.pending - Queued(w) - w.lost }

  lemma NextIsFirst(high: seq<Bytes>, normal: seq<Bytes>)
    requires high != [] || normal != []
    ensures var (frame, high', normal') := Next(high, normal);
            high + normal == [frame] + (high' + normal') && |high'| + |normal'| < |high| + |normal|
  {
  }

  lemma Regroup(frame: Bytes, o: Output, all: seq<Bytes>)
    requires o.sent + o.dropped + o.high + o.normal == all
    ensures ([frame] + o.sent) + o.dropped + o.high + o.normal == [frame] + all
  {
  }

  lemma {:induction false} SendDataConserves(high: seq<Bytes>, normal: seq<Bytes>, answers: seq<SinkAnswer>)
    ensures var o := SendData(high, normal, answers);
            && o.sent + o.dropped + o.high + o.normal == high + normal
            && |o.dropped| <= 1 && (o.dropped != [] ==> o.failed) && (o.high != [] ==> o.normal == normal)
            && (!o.failed && (o.high != [] || o.normal != []) ==> NotReady in answers || |o.sent| >= |answers|)
    decreases |high| + |normal|
  {
    if high != [] || normal != [] {
      NextIsFirst(high, normal);
      var (frame, high', normal') := Next(high, normal);
      match SinkSays(answers)
      case Accepted =>
        SendDataConserves(high', normal', answers[1..]);
        Regroup(frame, SendData(high', normal', answers[1..]), high' + normal');
      case NotReady | FlushFails =>
      case ReadyFails => assert [frame] + high' + normal' == [frame] + (high' + normal');
      case StartFails => assert [frame] + high' + normal' == [frame] + (high' + normal');
    }
  }

  lemma SendDataWeighs(high: seq<Bytes>, normal: seq<Bytes>, answers: seq<SinkAnswer>)
    ensures var o := SendData(high, normal, answers);
            Lengths(high) + Lengths(normal) == Lengths(o.sent) + Lengths(o.dropped) + Lengths(o.high)
                + Lengths(o.normal)
  {
    hide SendData;
    var o := SendData(high, normal, answers);
    SendDataConserves(high, normal, answers);
    LengthsConcat(high, normal);
    LengthsConcat(o.sent + o.dropped + o.high, o.normal);
    LengthsConcat(o.sent + o.dropped, o.high);
    LengthsConcat(o.sent, o.dropped);
  }

  lemma TaskSendsBalances(w: World, id: StreamId, answers: seq<SinkAnswer>)
    requires id < |w.tasks|
    ensures Balance(TaskSends(w, id, answers)) == Balance(w)
  {
    hide SendData;
    var t := w.tasks[id];
    SendDataWeighs(t.highBuf, t.writeBuf, answers);
    TaskReplaced(w.tasks, id, TaskSends(w, id, answers).tasks[id]);
  }

  lemma TaskTakesBalances(w: World, id: StreamId, k: nat, answers: seq<SinkAnswer>)
    requires id < |w.tasks| && k < |w.tasks[id].channel|
    ensures Balance(TaskTakes(w, id, k, answers)) == Balance(w)
  {
    hide TaskSends, Weights, QueueWeights, TaskWeights, RequestWeights;
    var t := w.tasks[id];
    if !t.dead {
      var it := t.channel[k];
      var t1 := t.(channel := t.channel[..k] + t.channel[k + 1..]);
      ItemRemoved(t.channel, k);
      match it.event
      case Close(_, _) => TaskReplaced(w.tasks, id, t1.(writeBuf := [], dead := true));
      case Message(data) =>
        OneFrame(data);
        LengthsConcat(t.highBuf, [data]);
        LengthsConcat(t.writeBuf, [data]);
        var t2 := if it.high then t1.(highBuf := t.highBuf + [data]) else t1.(writeBuf := t.writeBuf + [data]);
        TaskReplaced(w.tasks, id, t2);
        TaskSendsBalances(w.(tasks := w.tasks[id := t2]), id, answers);
    }
  }

  lemma TaskEndsBalances(w: World, id: StreamId)
    requires id < |w.tasks|
    ensures Balance(TaskEnds(w, id)) == Balance(w)
  {
    TaskReplaced(w.tasks, id, Task(w.tasks[id].proto, [], [], [], true, true));
  }

  lemma DeliverWeighs(high: seq<Item>, normal: seq<Item>, answers: seq<ChannelAnswer>)
    ensures var s := Deliver(high, normal, answers);
            Weights(high) + Weights(normal) == Weights(s.sent) + Weights(s.high) + Weights(s.normal)
                + Weights(s.dropped)
  {
    hide Deliver;
    var s := Deliver(high, normal, answers);
    DeliverKeepsOrder(high, normal, answers);
    WeightsConcat(high, normal);
    WeightsConcat(s.sent + s.high + s.normal, s.dropped);
    WeightsConcat(s.sent + s.high, s.normal);
    WeightsConcat(s.sent, s.high);
  }

  lemma TrySendBalances(w: World, id: StreamId, answers: seq<ChannelAnswer>)
    requires id in w.substreams && id < |w.tasks|
    ensures Balance(TrySendTo(w, id, answers)) == Balance(w)
  {
    hide Deliver, Weights;
    var q, t := w.substreams[id], w.tasks[id];
    var given := if t.ended then [Gone] else answers;
    var s := Deliver(q.high, q.normal, given);
    DeliverWeighs(q.high, q.normal, given);
    WeightsConcat(t.channel, s.sent);
    QueueReplaced(w.substreams, |w.tasks|, id, Queue(s.high, s.normal));
    TaskReplaced(w.tasks, id, t.(channel := t.channel + s.sent));
  }

  lemma PushWeighs(q: Queue, it: Item)
    ensures QueueWeight(Push(q, it)) == QueueWeight(q) + Weight(it)
  {
    OneItem(it);
    WeightsConcat(q.high, [it]);
    WeightsConcat(q.normal, [it]);
  }

  lemma PushBalances(w: World, id: StreamId, it: Item)
    requires id in w.substreams && id < |w.tasks|
    ensures Balance(w.(substreams := w.substreams[id := Push(w.substreams[id], it)])) == Balance(w) - Weight(it)
  {
    hide Push, Weight, QueueWeight;
    PushWeighs(w.substreams[id], it);
    QueueReplaced(w.substreams, |w.tasks|, id, Push(w.substreams[id], it));
  }

  lemma PushAndSendBalances(w: World, id: StreamId, it: Item, answers: seq<ChannelAnswer>)
    requires id in w.substreams && id < |w.tasks|
    ensures Balance(PushAndSend(w, id, it, answers)) == Balance(w) - Weight(it)
  {
    hide TrySendTo, Push, Weight, Balance;
    PushBalances(w, id, it);
    TrySendBalances(w.(substreams := w.substreams[id := Push(w.substreams[id], it)]), id, answers);
  }

  lemma RouteBalances(w: World, it: Item, proto: ProtocolId, answers: seq<ChannelAnswer>)
    ensures Balance(Route(w, it, proto, answers)) == Balance(w) - Weight(it)
  {
    hide PushAndSend, Weight;
    if proto in w.protoStreams && w.protoStreams[proto] in w.substreams && w.protoStreams[proto] < |w.tasks| {
      PushAndSendBalances(w, w.protoStreams[proto], it, answers);
    }
  }

  lemma MessageBalances(w: World, high: bool, proto: ProtocolId, data: Bytes, accepted: bool)
    ensures Balance(ServiceSends(w, high, proto, data, accepted)) == Balance(w)
    ensures ServiceSends(w, high, proto, data, accepted).pending == w.pending + |data|
  {
    hide QueueWeights, TaskWeights;
    RequestsConcat(w.service, [ProtocolMessage(high, proto, data)]);
    OneRequest(ProtocolMessage(high, proto, data));
  }

  lemma HandleCloseBalances(w: World, id: StreamId, proto: ProtocolId)
    requires id in w.substreams ==> id < |w.tasks|
    ensures Balance(HandleClose(w, id, proto)) == Balance(w)
  {
    hide QueueWeight;
    if id in w.substreams { QueueRemoved(w.substreams, |w.tasks|, id); }
  }

  lemma OpenBalances(w: World, proto: ProtocolId)
    requires |w.tasks| !in w.substreams
    ensures Balance(OpenProtocol(w, proto)) == Balance(w)
  {
    if proto !in w.protoStreams {
      var n := |w.tasks|;
      var t := Task(proto, [], [], [], false, false);
      TasksConcat(w.tasks, [t]);
      OneTask(t);
      QueueReplaced(w.substreams, n, n, Queue([], []));
      QueueReplaced(w.substreams, n + 1, n, Queue([], []));
    }
  }

  lemma CleanBalances(w: World)
    ensures Balance(Clean(w)) == Balance(w)
  {
    NoQueues(|w.tasks|);
  }

  lemma SessionEndsBalances(w: World)
    ensures Balance(SessionEnds(w)) == Balance(w)
  {
    hide QueueWeights, TaskWeights;
    CleanBalances(w);
  }

  lemma {:induction false} CloseAllBalances(w: World, visits: seq<Visit>)
    ensures Balance(CloseAll(w, visits)) == Balance(w)
    decreases |visits|
  {
    hide PushAndSend, Balance;
    if visits != [] {
      var v := visits[0];
      if v.id in w.substreams && v.id < |w.tasks| {
        PushAndSendBalances(w, v.id, Item(true, Close(v.id, 0)), v.answers);
      }
      CloseAllBalances(CloseOne(w, v), visits[1..]);
    }
  }

  lemma DistributeOneBalances(w: World, v: Visit, limit: nat)
    ensures Balance(DistributeOne(w, v, limit).0) == Balance(w)
  {
    hide TrySendTo, QueueWeights, TaskWeights, RequestWeights;
    if v.id in w.substreams && v.id < |w.tasks| {
      var w1 := TrySendTo(w, v.id, v.answers);
      TrySendBalances(w, v.id, v.answers);
      TrySendKeepsShape(w, v.id, v.answers);
      QueueReplaced(w1.substreams, |w1.tasks|, v.id, Queue([], []));
    }
  }

  lemma {:induction false} DistributeBalances(w: World, visits: seq<Visit>, limit: nat)
    ensures Balance(Distribute(w, visits, limit)) == Balance(w)
    decreases |visits|
  {
    hide DistributeOne, Balance;
    if visits != [] {
      DistributeOneBalances(w, visits[0], limit);
      var (w1, last) := DistributeOne(w, visits[0], limit);
      if !last { DistributeBalances(w1, visits[1..], limit); }
    }
  }

  lemma TrySendKeepsShape(w: World, id: StreamId, answers: seq<ChannelAnswer>)
    requires id in w.substreams && id < |w.tasks|
    ensures var w' := TrySendTo(w, id, answers);
            && w'.substreams.Keys == w.substreams.Keys && w'.protoStreams == w.protoStreams && |w'.tasks| == |w.tasks|
            && w'.cleaned == w.cleaned && (forall k :: 0 <= k < |w.tasks| ==> w'.tasks[k].proto == w.tasks[k].proto)
  {
    hide Deliver;
  }

  lemma RequestBalances(w: World, k: nat, answers: seq<ChannelAnswer>, visits: seq<Visit>)
    requires k < |w.service|
    ensures Balance(HandleRequest(w, k, answers, visits)) == Balance(w)
  {
    hide Route, CloseAll, QueueWeights, TaskWeights;
    var r := w.service[k];
    var w1 := w.(service := w.service[..k] + w.service[k + 1..]);
    RequestRemoved(w.service, k);
    if w.state == Normal {
      match r
      case ProtocolMessage(high, proto, data) => RouteBalances(w1, Item(high, Message(data)), proto, answers);
      case ProtocolClose(proto) => RouteBalances(w1, Item(true, Close(CloseIdOf(w, proto), proto)), proto, answers);
      case SessionClose =>
        CleanBalances(w1);
        CloseAllProtoBalances(w1.(state := LocalClose), visits);
      case ChangeState(_) =>
    }
  }

  lemma CloseAllProtoBalances(w: World, visits: seq<Visit>)
    ensures Balance(CloseAllProto(w, visits)) == Balance(w)
  {
    hide CloseAll, QueueWeights, TaskWeights, RequestWeights;
    CleanBalances(w);
    CloseAllBalances(w, visits);
  }

  lemma FinishBalances(w: World, visits: seq<Visit>)
    ensures Balance(Finish(w, visits)) == Balance(w)
  {
    hide CloseAllProto, Clean, QueueWeights, TaskWeights, RequestWeights;
    CleanBalances(w);
    CleanBalances(w.(protoStreams := map[]));
    CloseAllProtoBalances(w, visits);
  }
}
