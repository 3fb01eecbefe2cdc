/** The queues in front of a bounded channel (tentacle/tentacle/src/buffer.rs). */
module TentacleBuffer {

  /** What the channel does with the item at the front: `poll_ready` and `try_send` together. */
  datatype ChannelAnswer = Taken | Full | Gone

  datatype SendResult = SendOk | SendPending | SendDisconnect

  /** What `try_send` did: the items handed to the channel, in order, the queues afterwards, and what was thrown
      away. */
  datatype Sending<T> = Sending(sent: seq<T>, high: seq<T>, normal: seq<T>, dropped: seq<T>, result: SendResult)

  function Answer(answers: seq<ChannelAnswer>): ChannelAnswer { if answers == [] then Full else answers[0] }

  /** `PriorityBuffer::try_send`: high items first; a full channel stops it, a closed one empties both queues. */
  function Deliver<T>(high: seq<T>, normal: seq<T>, answers: seq<ChannelAnswer>): Sending<T>
    decreases |high| + |normal|
  {
    if high == [] && normal == [] then Sending([], [], [], [], SendOk)
    else match Answer(answers)
      case Full => Sending([], high, normal, [], SendPending)
      case Gone => Sending([], [], [], high + normal, SendDisconnect)
      case Taken =>
        var item := if high != [] then high[0] else normal[0];
        var s := if high != [] then Deliver(high[1..], normal, answers[1..])
            else Deliver([], normal[1..], answers[1..]);
        s.(sent := [item] + s.sent)
  }

  /** Nothing is lost or reordered unless the channel is gone: what was sent is the front of the high items followed by
      the normal ones, and a normal item is sent only after every high one. */
  lemma {:induction false} DeliverKeepsOrder<T>(high: seq<T>, normal: seq<T>, answers: seq<ChannelAnswer>)
    ensures var s := Deliver(high, normal, answers);
            && s.sent + s.high + s.normal + s.dropped == high + normal
            && (s.dropped != [] ==> s.result.SendDisconnect?)
            && (s.result.SendDisconnect? ==> s.high == [] && s.normal == [])
            && (s.result.SendOk? ==> s.high == [] && s.normal == [])
            && (s.high != [] ==> s.normal == normal)
    decreases |high| + |normal|
  {
    if (high != [] || normal != []) && Answer(answers).Taken? {
      if high != [] {
        DeliverKeepsOrder(high[1..], normal, answers[1..]);
        Prepended(high[0], Deliver(high[1..], normal, answers[1..]), high[1..] + normal);
        assert high + normal == [high[0]] + (high[1..] + normal);
      } else {
        DeliverKeepsOrder([], normal[1..], answers[1..]);
        Prepended(normal[0], Deliver([], normal[1..], answers[1..]), [] + normal[1..]);
        assert high + normal == [normal[0]] + ([] + normal[1..]);
      }
    }
  }

  lemma Prepended<T>(item: T, s: Sending<T>, all: seq<T>)
    requires s.sent + s.high + s.normal + s.dropped == all
    ensures ([item] + s.sent) + s.high + s.normal + s.dropped == [item] + all
  {
  }

  class PriorityBuffer<T> {
    var high: seq<T>
    var normal: seq<T>
    /** The receiving end of the channel, as far as this sender filled it. */
    var channel: seq<T>

    constructor ()
      ensures high == [] && normal == [] && channel == []
    {
      high, normal, channel := [], [], [];
    }

    method Clear()
      modifies `high, `normal
      ensures high == [] && normal == []
    {
      high, normal := [], [];
    }

    method TrySend(answers: seq<ChannelAnswer>) returns (result: SendResult)
      modifies this
      ensures var s := Deliver(old(high), old(normal), answers);
              high == s.high && normal == s.normal && result == s.result && channel == old(channel) + s.sent
    {
      ghost var goal := Deliver(high, normal, answers);
      ghost var start := channel;
      var k := 0;
      ghost var sent := [];
      while high != []
        invariant k <= |answers| && channel == start + sent
        invariant var s := Deliver(high, normal, answers[k..]); goal == s.(sent := sent + s.sent)
        decreases |high|
      {
        var event := high[0];
        match if k == |answers| then Full else answers[k]
        case Taken =>
          Advance(sent, high[0], high[1..], normal, answers, k);
          high := high[1..];
          channel := channel + [event];
          sent := sent + [event];
          k := k + 1;
        case Full =>
          return SendPending;
        case Gone =>
          Clear();
          return SendDisconnect;
      }
      while normal != []
        invariant high == [] && k <= |answers| && channel == start + sent
        invariant var s := Deliver([], normal, answers[k..]); goal == s.(sent := sent + s.sent)
        decreases |normal|
      {
        var event := normal[0];
        match if k == |answers| then Full else answers[k]
        case Taken =>
          AdvanceNormal(sent, normal[0], normal[1..], answers, k);
          normal := normal[1..];
          channel := channel + [event];
          sent := sent + [event];
          k := k + 1;
        case Full =>
          return SendPending;
        case Gone =>
          Clear();
          return SendDisconnect;
      }
      result := SendOk;
    }
  }

  lemma Advance<T>(sent: seq<T>, item: T, high: seq<T>, normal: seq<T>, answers: seq<ChannelAnswer>, k: nat)
    requires k < |answers| && answers[k].Taken?
    ensures var s, s' := Deliver([item] + high, normal, answers[k..]), Deliver(high, normal, answers[k + 1..]);
            s.(sent := sent + s.sent) == s'.(sent := (sent + [item]) + s'.sent)
  {
    assert answers[k..][1..] == answers[k + 1..] && ([item] + high)[1..] == high;
    var s' := Deliver(high, normal, answers[k + 1..]);
    assert sent + ([item] + s'.sent) == (sent + [item]) + s'.sent;
  }

  lemma AdvanceNormal<T>(sent: seq<T>, item: T, normal: seq<T>, answers: seq<ChannelAnswer>, k: nat)
    requires k < |answers| && answers[k].Taken?
    ensures var s, s' := Deliver([], [item] + normal, answers[k..]), Deliver([], normal, answers[k + 1..]);
            s.(sent := sent + s.sent) == s'.(sent := (sent + [item]) + s'.sent)
  {
    assert answers[k..][1..] == answers[k + 1..] && ([item] + normal)[1..] == normal;
    var s' := Deliver([], normal, answers[k + 1..]);
    assert sent + ([item] + s'.sent) == (sent + [item]) + s'.sent;
  }
}
