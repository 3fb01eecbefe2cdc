/** What one call of `distribute_to_substream` does with the frames waiting for a stream, whatever the peer sent and
    whatever the channels answer. */
module YamuxDelivery {
  import opened Common
  import opened YamuxFrame
  import opened YamuxSession

  /** The waiting frames of one stream, in order. */
  function ById(id: StreamId, frames: seq<Frame>): seq<Frame> {
    if frames == [] then []
    else (if frames[0].header.streamId == id then [frames[0]] else []) + ById(id, frames[1..])
  }

  lemma {:induction false} ByIdConcat(id: StreamId, a: seq<Frame>, b: seq<Frame>)
    ensures ById(id, a + b) == ById(id, a) + ById(id, b)
  {
    if a == [] {
      assert a + b == b;
    } else {
      var c := a + b;
      assert c[0] == a[0] && c[1..] == a[1..] + b;
      ByIdConcat(id, a[1..], b);
      var one, rest := if a[0].header.streamId == id then [a[0]] else [], ById(id, a[1..]);
      assert ById(id, a) == one + rest && ById(id, c) == one + ById(id, c[1..]);
      assert one + (rest + ById(id, b)) == (one + rest) + ById(id, b);
    }
  }

  lemma {:induction false} ByIdNone(id: StreamId, frames: seq<Frame>)
    requires forall f :: f in frames ==> f.header.streamId != id
    ensures ById(id, frames) == []
  {
    if frames != [] {
      assert frames[0] in frames;
      ByIdNone(id, frames[1..]);
    }
  }

  /** The stream is in the table and somebody still holds its handle. */
  predicate Connected(e: Endpoint, id: StreamId) {
    id in e.streams && id in e.handles && !e.handles[id].dropped
  }

  /** The loop leaves by one of its early go-away returns. */
  predicate Aborts(e: Endpoint, rest: seq<Frame>, blocked: set<StreamId>, full: seq<bool>, ready: nat)
    requires |full| == |rest|
    decreases |rest|
  {
    if rest == [] then false
    else if rest[0].header.streamId in blocked then Aborts(e, rest[1..], blocked, full[1..], ready)
    else match DistributeOne(e, rest[0], full[0], ready)
      case (e', Done) => Aborts(e', rest[1..], blocked, full[1..], ready)
      case (e', Block) => Aborts(e', rest[1..], blocked + {rest[0].header.streamId}, full[1..], ready)
      case (_, Abort) => true
  }

  lemma PushDelivers(e: Endpoint, f: Frame, full: bool, id: StreamId)
    requires Connected(e, id)
    ensures var (e', verdict) := PushFrame(e, f, full);
            && Connected(e', id) && !verdict.Abort?
            && e'.handles[id].inbox == e.handles[id].inbox + if verdict.Done? && f.header.streamId == id then [f]
               else []
  {
    assert e.handles[id].inbox + [] == e.handles[id].inbox;
  }

  lemma CreationLeaves(e: Endpoint, other: StreamId, id: StreamId)
    requires Connected(e, id)
    ensures other == id ==> CreateStream(e, Some(other)).DuplicateStream?
    ensures CreateStream(e, Some(other)).Created? ==>
              var e' := CreateStream(e, Some(other)).endpoint; Connected(e', id) && e'.handles[id] == e.handles[id]
  {
  }

  lemma SendingLeaves(e: Endpoint, f: Frame, ready: nat)
    ensures var e' := SendFrame(e, f, ready); e'.handles == e.handles && e'.streams == e.streams
    ensures var e' := SendGoAway(e, ProtocolError, ready); e'.handles == e.handles && e'.streams == e.streams
  {
  }

  /** One turn: the frame of another stream leaves this one alone; a frame of this one goes behind the others in its
      channel, or stays. */
  lemma TurnDelivers(e: Endpoint, f: Frame, full: bool, ready: nat, id: StreamId)
    requires Connected(e, id)
    ensures var (e', verdict) := DistributeOne(e, f, full, ready);
            && Connected(e', id)
            && e'.handles[id].inbox == e.handles[id].inbox + if verdict.Done? && f.header.streamId == id then [f]
               else []
  {
    hide SendFrame, SendGoAway;
    var other := f.header.streamId;
    assert e.handles[id].inbox + [] == e.handles[id].inbox;
    if f.header.flags.syn && e.localGoAway {
      SendingLeaves(e, NewWindowUpdate(Only(Rst), other, 0), ready);
    } else if f.header.flags.syn && |e.streams| < e.cfg.maxStreamCount && |e.pendingStreams| < e.cfg.acceptBacklog {
      CreationLeaves(e, other, id);
      SendingLeaves(e, f, ready);
      var c := CreateStream(e, Some(other));
      if c.Created? { PushDelivers(c.endpoint.(pendingStreams := c.endpoint.pendingStreams + [other]), f, full, id); }
    } else if f.header.flags.syn {
      PushDelivers(e.(writePending := e.writePending + [NewWindowUpdate(AddFlag(Only(Ack), Rst), other, 0)]), f, full,
          id);
    } else {
      PushDelivers(e, f, full, id);
    }
  }

  /** The frames in a stream's channel and those waiting in front of it. */
  function Waiting(e: Endpoint, pending: seq<Frame>, id: StreamId): seq<Frame> {
    (if id in e.handles then e.handles[id].inbox else []) + ById(id, pending)
  }

  /** A frame with none of its stream in front goes into the channel: the order is the same. */
  lemma DeliveryKeepsOrder(inbox: seq<Frame>, kept: seq<Frame>, rest: seq<Frame>, id: StreamId)
    requires rest != [] && forall f :: f in kept ==> f.header.streamId != rest[0].header.streamId
    ensures inbox + (if rest[0].header.streamId == id then [rest[0]] else []) + ById(id, kept + rest[1..])
         == inbox + ById(id, kept + rest)
  {
    var one := if rest[0].header.streamId == id then [rest[0]] else [];
    var k, r := ById(id, kept), ById(id, rest[1..]);
    assert ById(id, rest) == one + r;
    ByIdConcat(id, kept, rest);
    ByIdConcat(id, kept, rest[1..]);
    if one != [] { ByIdNone(id, kept); }
    assert one + k == k + one;
    calc {
      inbox + one + (k + r);
      inbox + (one + k) + r;
      inbox + (k + one) + r;
      inbox + (k + (one + r));
    }
  }

  lemma AbortLosesATail(inbox: seq<Frame>, kept: seq<Frame>, rest: seq<Frame>, id: StreamId)
    ensures inbox + ById(id, kept) <= inbox + ById(id, kept + rest)
  {
    ByIdConcat(id, kept, rest);
    assert inbox + (ById(id, kept) + ById(id, rest)) == (inbox + ById(id, kept)) + ById(id, rest);
  }

  lemma PutBack(kept: seq<Frame>, rest: seq<Frame>)
    requires rest != []
    ensures kept + [rest[0]] + rest[1..] == kept + rest
  {
  }

  lemma {:induction false} LoopKeepsConnected(e: Endpoint, kept: seq<Frame>, rest: seq<Frame>, blocked: set<StreamId>,
                                              full: seq<bool>, ready: nat, id: StreamId)
    requires |full| == |rest| && Connected(e, id)
    ensures var e' := DistributeLoop(e, kept, rest, blocked, full, ready);
            Connected(e', id) && e.handles[id].inbox <= e'.handles[id].inbox
    decreases |rest|
  {
    if rest != [] {
      if rest[0].header.streamId in blocked {
        LoopKeepsConnected(e, kept + [rest[0]], rest[1..], blocked, full[1..], ready, id);
      } else {
        TurnDelivers(e, rest[0], full[0], ready, id);
        var (e', verdict) := DistributeOne(e, rest[0], full[0], ready);
        if verdict.Done? { LoopKeepsConnected(e', kept, rest[1..], blocked, full[1..], ready, id); }
        if verdict.Block? {
          LoopKeepsConnected(e', kept + [rest[0]], rest[1..], blocked + {rest[0].header.streamId}, full[1..], ready,
              id);
        }
      }
    }
  }

  lemma TurnConserves(e: Endpoint, kept: seq<Frame>, rest: seq<Frame>, full: bool, ready: nat, id: StreamId)
    requires rest != [] && Connected(e, id)
    requires forall f :: f in kept ==> f.header.streamId != rest[0].header.streamId
    ensures var (e', verdict) := DistributeOne(e, rest[0], full, ready);
            && Connected(e', id)
            && (verdict.Done? ==> Waiting(e', kept + rest[1..], id) == Waiting(e, kept + rest, id))
            && (verdict.Block? ==> Waiting(e', kept + rest, id) == Waiting(e, kept + rest, id))
            && (verdict.Abort? ==> Waiting(e', kept, id) <= Waiting(e, kept + rest, id))
  {
    TurnDelivers(e, rest[0], full, ready, id);
    var inbox := e.handles[id].inbox;
    assert inbox + [] == inbox;
    DeliveryKeepsOrder(inbox, kept, rest, id);
    AbortLosesATail(inbox, kept, rest, id);
  }

  /** The loop hands a connected stream a prefix of its waiting frames and keeps the rest in order; what it loses, on an
      early return, is a tail of them. */
  lemma {:induction false} LoopDelivers(e: Endpoint, kept: seq<Frame>, rest: seq<Frame>, blocked: set<StreamId>,
                                        full: seq<bool>, ready: nat, id: StreamId)
    requires |full| == |rest| && Connected(e, id)
    requires forall f :: f in kept ==> f.header.streamId in blocked
    ensures var e' := DistributeLoop(e, kept, rest, blocked, full, ready);
            if Aborts(e, rest, blocked, full, ready)
            then Waiting(e', e'.readPending, id) <= Waiting(e, kept + rest, id)
            else Waiting(e', e'.readPending, id) == Waiting(e, kept + rest, id)
    decreases |rest|
  {
    if rest == [] {
      assert kept + rest == kept;
    } else {
      var f := rest[0];
      PutBack(kept, rest);
      if f.header.streamId in blocked {
        LoopDelivers(e, kept + [f], rest[1..], blocked, full[1..], ready, id);
      } else {
        TurnConserves(e, kept, rest, full[0], ready, id);
        var (e', verdict) := DistributeOne(e, f, full[0], ready);
        if verdict.Done? {
          LoopDelivers(e', kept, rest[1..], blocked, full[1..], ready, id);
        } else if verdict.Block? {
          LoopDelivers(e', kept + [f], rest[1..], blocked + {f.header.streamId}, full[1..], ready, id);
        }
      }
    }
  }

  function Answers(e: Endpoint, answers: seq<bool>): (full: seq<bool>)
    ensures |full| == |e.readPending|
  {
    var n := |e.readPending|;
    seq(n, k requires 0 <= k < n => k < |answers| && answers[k])
  }

  /** The whole call, for a stream that is connected when it starts: it stays connected, its channel grows by a prefix
      of its waiting frames, the others keep waiting in order, and none is lost unless the call returns early. */
  lemma DistributeDelivers(e: Endpoint, answers: seq<bool>, ready: nat, id: StreamId)
    requires Connected(e, id)
    ensures var e' := Distribute(e, answers, ready);
            && Connected(e', id) && e.handles[id].inbox <= e'.handles[id].inbox
            && (if Aborts(e, e.readPending, {}, Answers(e, answers), ready)
                then Waiting(e', e'.readPending, id) <= Waiting(e, e.readPending, id)
                else Waiting(e', e'.readPending, id) == Waiting(e, e.readPending, id))
  {
    LoopKeepsConnected(e, [], e.readPending, {}, Answers(e, answers), ready, id);
    LoopDelivers(e, [], e.readPending, {}, Answers(e, answers), ready, id);
    assert [] + e.readPending == e.readPending;
  }

  lemma NewChannelHolds(e: Endpoint, syn: Frame, full: bool, ready: nat)
    requires syn.header.flags.syn && !e.localGoAway && syn.header.streamId !in e.streams
    requires |e.streams| < e.cfg.maxStreamCount && |e.pendingStreams| < e.cfg.acceptBacklog
    ensures var (e', verdict) := DistributeOne(e, syn, full, ready);
            && verdict.Done? && Connected(e', syn.header.streamId)
            && e'.handles[syn.header.streamId].inbox == [syn]
  {
    assert [] + [syn] == [syn];
  }

  /** At any turn of the loop, a SYN that is accepted becomes the first frame of the new channel and is not put back;
      the other frames of the stream follow it there or wait behind it, in order. */
  lemma SynStartsItsChannel(e: Endpoint, kept: seq<Frame>, rest: seq<Frame>, blocked: set<StreamId>, full: seq<bool>,
                            ready: nat)
    requires |full| == |rest| && rest != [] && rest[0].header.flags.syn && !e.localGoAway
    requires rest[0].header.streamId !in blocked && rest[0].header.streamId !in e.streams
    requires |e.streams| < e.cfg.maxStreamCount && |e.pendingStreams| < e.cfg.acceptBacklog
    requires forall f :: f in kept ==> f.header.streamId in blocked
    ensures var syn, e' := rest[0], DistributeLoop(e, kept, rest, blocked, full, ready);
            var id := syn.header.streamId;
            && Connected(e', id) && [syn] <= e'.handles[id].inbox
            && (if Aborts(e, rest, blocked, full, ready)
                then Waiting(e', e'.readPending, id) <= ById(id, rest)
                else Waiting(e', e'.readPending, id) == ById(id, rest))
  {
    hide DistributeOne;
    var syn, id := rest[0], rest[0].header.streamId;
    var (e1, verdict) := DistributeOne(e, syn, full[0], ready);
    NewChannelHolds(e, syn, full[0], ready);
    LoopKeepsConnected(e1, kept, rest[1..], blocked, full[1..], ready, id);
    LoopDelivers(e1, kept, rest[1..], blocked, full[1..], ready, id);
    ByIdConcat(id, kept, rest[1..]);
    ByIdNone(id, kept);
    assert ById(id, rest) == [syn] + ById(id, rest[1..]);
    assert [] + ById(id, rest[1..]) == ById(id, rest[1..]);
  }
}
