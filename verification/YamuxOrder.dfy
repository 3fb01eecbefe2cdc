/** Order survives everything: whatever is lost when sessions go away or handles are dropped, what a stream hands out is
    what was written with pieces left out, never reordered, repeated or invented. The full invariant of a pair. */
module YamuxOrder {
  import opened Common
  import opened YamuxFrame
  import opened YamuxStream
  import opened YamuxHandle
  import opened YamuxPair
  import opened YamuxPairUse

  // ---------------------------------------------------------------- subsequences

  /** `a` is `b` with some elements left out. */
  predicate Woven(a: seq<byte>, b: seq<byte>)
    decreases |b|
  {
    if a == [] then true
    else if b == [] then false
    else
      var m, n := |a| - 1, |b| - 1;
      (a[m] == b[n] && Woven(a[..m], b[..n])) || Woven(a, b[..n])
  }

  lemma {:induction false} WovenSame(a: seq<byte>)
    ensures Woven(a, a)
  {
    if a != [] { WovenSame(a[..|a| - 1]); }
  }

  lemma {:induction false} WovenExtend(a: seq<byte>, b: seq<byte>, c: seq<byte>)
    requires Woven(a, b)
    ensures Woven(a, b + c)
    decreases |c|
  {
    if c == [] {
      assert b + c == b;
    } else {
      WovenExtend(a, b, c[..|c| - 1]);
      assert (b + c)[..|b + c| - 1] == b + c[..|c| - 1];
    }
  }

  lemma {:induction false} WovenAppend(a: seq<byte>, b: seq<byte>, c: seq<byte>)
    requires Woven(a, b)
    ensures Woven(a + c, b + c)
    decreases |c|
  {
    if c == [] {
      assert a + c == a && b + c == b;
    } else {
      var d := c[..|c| - 1];
      WovenAppend(a, b, d);
      assert (a + c)[..|a + c| - 1] == a + d && (b + c)[..|b + c| - 1] == b + d;
      assert (a + c)[|a + c| - 1] == c[|c| - 1] == (b + c)[|b + c| - 1];
    }
  }

  lemma {:induction false} WovenTrans(a: seq<byte>, b: seq<byte>, c: seq<byte>)
    requires Woven(a, b) && Woven(b, c)
    ensures Woven(a, c)
    decreases |c|
  {
    if a != [] {
      var l, m, n := |a| - 1, |b| - 1, |c| - 1;
      if Woven(b, c[..n]) {
        WovenTrans(a, b, c[..n]);
      } else if a[l] == b[m] && Woven(a[..l], b[..m]) {
        WovenTrans(a[..l], b[..m], c[..n]);
      } else {
        WovenTrans(a, b[..m], c[..n]);
      }
    }
  }

  /** A stretch in the middle is left out. */
  lemma WovenCut(x: seq<byte>, y: seq<byte>, z: seq<byte>)
    ensures Woven(x + z, x + y + z)
  {
    WovenSame(x);
    WovenExtend(x, x, y);
    WovenAppend(x, x + y, z);
  }

  // ---------------------------------------------------------------- the invariant

  /** What `r` has received and what is still on its way, taken together, are woven from what `s` has written. */
  predicate OrderInv(s: Half, r: Half, up: seq<Frame>) {
    Woven(ReceivedBy(r) + Bodies(Path(r, up)), WrittenBy(s))
  }

  predicate PairInv(p: Pair) {
    CoreInv(p) && OrderInv(p.me, p.peer, p.out) && OrderInv(p.peer, p.me, p.inn)
  }

  /** The way to `r` shortened or rearranged by loss only. */
  lemma OrderShrinks(s: Half, r: Half, up: seq<Frame>, s': Half, r': Half, up': seq<Frame>)
    requires OrderInv(s, r, up) && WrittenBy(s') == WrittenBy(s)
    requires Woven(ReceivedBy(r') + Bodies(Path(r', up')), ReceivedBy(r) + Bodies(Path(r, up)))
    ensures OrderInv(s', r', up')
  {
    WovenTrans(ReceivedBy(r') + Bodies(Path(r', up')), ReceivedBy(r) + Bodies(Path(r, up)), WrittenBy(s));
  }

  lemma OrderStays(s: Half, r: Half, up: seq<Frame>, s': Half, r': Half, up': seq<Frame>)
    requires OrderInv(s, r, up) && WrittenBy(s') == WrittenBy(s)
    requires ReceivedBy(r') + Bodies(Path(r', up')) == ReceivedBy(r) + Bodies(Path(r, up))
    ensures OrderInv(s', r', up')
  {
  }

  // ---------------------------------------------------------------- steps of a session

  lemma NoBody(a: seq<Frame>, f: Frame)
    requires f.body.None?
    ensures Bodies(a + [f]) == Bodies(a)
  {
    Append(a, f);
    assert Bodies(a) + [] == Bodies(a);
  }

  lemma BodiesLose(got: seq<byte>, a: seq<Frame>, b: seq<Frame>, c: seq<Frame>)
    ensures Woven(got + Bodies(a + c), got + Bodies(a + b + c))
  {
    BodiesConcat(a, c);
    BodiesConcat(a + b, c);
    BodiesConcat(a, b);
    var x, y, z := Bodies(a), Bodies(b), Bodies(c);
    WovenCut(got + x, y, z);
    assert got + (x + z) == (got + x) + z && got + (x + y + z) == (got + x) + y + z;
  }

  lemma OpenHolds(p: Pair, id: StreamId)
    requires PairInv(p)
    requires p.me.handle.None? && p.peer.handle.None? && p.out == [] && p.inn == [] && p.me.up
    ensures PairInv(Open(p, id))
  {
    hide CoreInv, Woven;
    assert CoreInv(Open(p, id)) by { OpenKeeps(p, id); }
    var p' := Open(p, id);
    OpenedIsBlank(p, id);
    WovenSame([]);
  }

  lemma OpenedIsBlank(p: Pair, id: StreamId)
    requires CoreInv(p) && p.me.handle.None? && p.peer.handle.None? && p.out == [] && p.inn == [] && p.me.up
    ensures var p' := Open(p, id);
            && ReceivedBy(p'.peer) == [] && Bodies(Path(p'.peer, p'.out)) == [] && WrittenBy(p'.me) == []
            && ReceivedBy(p'.me) == [] && Bodies(Path(p'.me, p'.inn)) == [] && WrittenBy(p'.peer) == []
  {
    BornInv(true, id, p.me.maxWindow);
    var syn := Born(true, id, p.me.maxWindow).0.sent[0];
    NoBody([], syn);
    assert p.out + [syn] == [] + [syn] == [syn];
    assert Path(p.peer, [syn]) == [syn];
  }

  lemma AcceptHolds(p: Pair, id: StreamId)
    requires PairInv(p)
    requires p.me.handle.None? && p.me.up && p.inn != [] && Contains(p.inn[0].header.flags, Syn)
    ensures PairInv(Accept(p, id))
  {
    hide CoreInv, Woven;
    assert CoreInv(Accept(p, id)) by { AcceptKeeps(p, id); }
    AcceptedIsSame(p, id);
    var p' := Accept(p, id);
    OrderStays(p.me, p.peer, p.out, p'.me, p'.peer, p'.out);
    OrderStays(p.peer, p.me, p.inn, p'.peer, p'.me, p'.inn);
  }

  lemma AcceptedIsSame(p: Pair, id: StreamId)
    requires CoreInv(p) && p.me.handle.None? && p.inn != []
    ensures var p' := Accept(p, id);
            && WrittenBy(p'.me) == WrittenBy(p.me) && WrittenBy(p'.peer) == WrittenBy(p.peer)
            && ReceivedBy(p'.peer) + Bodies(Path(p'.peer, p'.out)) == ReceivedBy(p.peer) + Bodies(Path(p.peer, p.out))
            && ReceivedBy(p'.me) + Bodies(Path(p'.me, p'.inn)) == ReceivedBy(p.me) + Bodies(Path(p.me, p.inn))
  {
    BornInv(false, id, p.me.maxWindow);
    var (h, evs) := Born(false, id, p.me.maxWindow);
    var ack := evs[0].frame;
    NoBody(Path(p.peer, p.out), ack);
    assert Path(p.peer, p.out + [ack]) == Path(p.peer, p.out) + [ack];
    assert [p.inn[0]] + p.inn[1..] == p.inn && [] + p.inn == p.inn;
  }

  lemma RefuseHolds(p: Pair, answer: Frame)
    requires PairInv(p)
    requires p.me.handle.None? && p.inn != [] && Contains(p.inn[0].header.flags, Syn)
    requires Refusal(answer) && StreamFrame(answer)
    ensures PairInv(Refuse(p, answer))
  {
    hide CoreInv, Woven, StreamFrame;
    assert CoreInv(Refuse(p, answer)) by { RefuseKeeps(p, answer); }
    var p' := Refuse(p, answer);
    NoBody(Path(p.peer, p.out), answer);
    assert Path(p.peer, p.out + [answer]) == Path(p.peer, p.out) + [answer];
    OrderStays(p.me, p.peer, p.out, p'.me, p'.peer, p'.out);
    HeadIsLost(p);
  }

  /** The frame at the head of what is coming is thrown away. */
  lemma HeadIsLost(p: Pair)
    requires p.inn != [] && OrderInv(p.peer, p.me, p.inn)
    ensures OrderInv(p.peer, p.me, p.inn[1..])
  {
    hide Woven, Bodies;
    var i, rest := Inbox(p.me), p.inn[1..];
    BodiesLose(ReceivedBy(p.me), i, [p.inn[0]], rest);
    assert i + [p.inn[0]] + rest == Path(p.me, p.inn) by { assert p.inn == [p.inn[0]] + rest; }
    OrderShrinks(p.peer, p.me, p.inn, p.peer, p.me, rest);
  }

  lemma DeliverHolds(p: Pair)
    requires PairInv(p)
    requires p.me.held && p.me.handle.Some? && !p.me.handle.value.dropped && p.inn != []
    ensures PairInv(Deliver(p))
  {
    hide CoreInv, Woven, Bodies;
    assert CoreInv(Deliver(p)) by { DeliverKeeps(p); }
    var p' := Deliver(p);
    assert Path(p'.me, p'.inn) == Path(p.me, p.inn) by { assert p.inn == [p.inn[0]] + p.inn[1..]; }
    OrderStays(p.peer, p.me, p.inn, p'.peer, p'.me, p'.inn);
  }

  lemma DiscardHolds(p: Pair)
    requires PairInv(p)
    requires p.me.up && !p.me.held && p.inn != [] && !Contains(p.inn[0].header.flags, Syn)
    ensures PairInv(Discard(p))
  {
    hide CoreInv, Woven, Bodies;
    assert CoreInv(Discard(p)) by { DiscardKeeps(p); }
    HeadIsLost(p);
  }

  lemma DisconnectHolds(p: Pair)
    requires PairInv(p)
    requires p.me.held && p.me.handle.Some? && p.me.handle.value.dropped && p.inn != []
    ensures PairInv(Disconnect(p))
  {
    hide CoreInv, Woven, Bodies;
    assert CoreInv(Disconnect(p)) by { DisconnectKeeps(p); }
    HeadIsLost(p);
  }

  lemma ForgetHolds(p: Pair)
    requires PairInv(p)
    requires p.me.handle.Some? && (p.me.handle.value.stream.state.Closed? || p.me.handle.value.dropped)
    ensures PairInv(Forget(p))
  {
    hide CoreInv, Woven, Bodies;
    assert CoreInv(Forget(p)) by { ForgetKeeps(p); }
  }

  lemma SoilHolds(p: Pair)
    requires PairInv(p)
    ensures PairInv(Soil(p))
  {
    hide CoreInv, Woven, Bodies;
    assert CoreInv(Soil(p)) by { SoilKeeps(p); }
  }

  lemma EndHolds(p: Pair)
    requires PairInv(p)
    ensures PairInv(End(p))
  {
    hide CoreInv, Woven, Bodies;
    assert CoreInv(End(p)) by { EndKeeps(p); }
  }

  lemma LoseOutHolds(p: Pair, a: seq<Frame>, b: seq<Frame>, c: seq<Frame>)
    requires PairInv(p) && !p.clean && p.out == a + b + c
    ensures PairInv(p.(out := a + c))
  {
    hide CoreInv, Woven, Bodies, OrderInv;
    assert CoreInv(p.(out := a + c)) by { LoseOutKeeps(p, a, b, c); }
    StretchIsLost(p.me, p.peer, a, b, c);
    SameOrder(p, p.(out := a + c));
  }

  lemma SameOrder(p: Pair, p': Pair)
    requires OrderInv(p.peer, p.me, p.inn) && p'.me == p.me && p'.peer == p.peer && p'.inn == p.inn
    ensures OrderInv(p'.peer, p'.me, p'.inn)
  {
  }

  lemma StretchIsLost(s: Half, r: Half, a: seq<Frame>, b: seq<Frame>, c: seq<Frame>)
    requires OrderInv(s, r, a + b + c)
    ensures OrderInv(s, r, a + c)
  {
    hide Woven, Bodies, Inbox;
    var i := Inbox(r);
    BodiesLose(ReceivedBy(r), i + a, b, c);
    assert (i + a) + b + c == i + (a + b + c);
    assert (i + a) + c == i + (a + c);
    OrderShrinks(s, r, a + b + c, s, r, a + c);
  }

  // ---------------------------------------------------------------- the owner acts

  /** Exactly the bytes written leave in data frames. */
  lemma ActWrites(up: bool, hungUp: bool, h: Handle, op: Op)
    requires HandleInv(up, h)
    ensures var (h', evs) := Act(up, hungUp, h, op); h'.written == h.written + Bodies(EventFrames(evs))
  {
    if h.dropped {
      assert h.written + [] == h.written;
    } else {
      match op
      case OpRead(capacity) => ReadWritesNothing(up, hungUp, h, capacity);
      case OpWrite(buf) => WriteWrites(up, h.stream, buf); assert h.written + [] == h.written;
      case OpClose => CloseWritesNothing(up, h.stream); assert h.written + [] == h.written;
      case OpDrop => DropWritesNothing(up, h.stream); assert h.written + [] == h.written;
    }
  }

  lemma {:induction false} Bodiless(evs: seq<StreamEvent>)
    requires forall ev :: ev in evs && ev.EventFrame? ==> ev.frame.body.None?
    ensures Bodies(EventFrames(evs)) == []
  {
    if evs != [] {
      assert evs[0] in evs;
      Bodiless(evs[1..]);
      if evs[0].EventFrame? {
        NoBodyFirst(evs[0].frame, EventFrames(evs[1..]));
      } else {
        assert [] + EventFrames(evs[1..]) == EventFrames(evs[1..]);
      }
    }
  }

  lemma NoBodyFirst(f: Frame, rest: seq<Frame>)
    requires f.body.None?
    ensures Bodies([f] + rest) == Bodies(rest)
  {
    assert ([f] + rest)[1..] == rest && [] + Bodies(rest) == Bodies(rest);
  }

  lemma ReadWritesNothing(up: bool, hungUp: bool, h: Handle, capacity: nat)
    ensures var (h', evs) := Act(up, hungUp, h, OpRead(capacity));
            h'.written == h.written && Bodies(EventFrames(evs)) == []
                && h.written + Bodies(EventFrames(evs)) == h.written
  {
    hide RecvFrames;
    Bodiless(Act(up, hungUp, h, OpRead(capacity)).1);
  }

  lemma CloseWritesNothing(up: bool, s: Stream)
    ensures Bodies(EventFrames(Close(up, s).1)) == []
  {
    Bodiless(Close(up, s).1);
  }

  lemma DropWritesNothing(up: bool, s: Stream)
    ensures Bodies(EventFrames(Dropping(up, s).1)) == []
  {
    Bodiless(Dropping(up, s).1);
  }

  lemma WriteWrites(up: bool, s: Stream, buf: seq<byte>)
    ensures var (s', evs, r) := PollWrite(up, s, buf);
            Bodies(EventFrames(evs)) == if r.Written? && r.n <= |buf| then buf[..r.n] else []
  {
    var (s', evs, r) := PollWrite(up, s, buf);
    if evs != [] {
      var f := evs[0].frame;
      assert evs == [EventFrame(f)] + [];
      OneFrame(f, []);
      Append([], f);
      assert [] + [f] == [f] && Bodies([]) == [];
    }
  }

  /** A use of a handle hands out what was buffered or waiting, in order; it may lose some of it. */
  lemma ActReads(p: Pair, op: Op)
    requires CoreInv(p) && p.me.handle.Some?
    ensures var h, h' := p.me.handle.value, Act(p.me.up, HungUp(p.me), p.me.handle.value, op).0;
            Woven(h'.read + h'.stream.readBuf + Bodies(h'.inbox), h.read + h.stream.readBuf + Bodies(h.inbox))
  {
    hide CoreInv, Woven, Bodies;
    var h := p.me.handle.value;
    var h' := Act(p.me.up, HungUp(p.me), h, op).0;
    var got, wait := h.read + h.stream.readBuf, Bodies(h.inbox);
    if h.dropped || op.OpWrite? || op.OpClose? {
      KeepsBuffer(p.me.up, HungUp(p.me), h, op);
      WovenSame(got + wait);
    } else if op.OpDrop? {
      KeepsBuffer(p.me.up, HungUp(p.me), h, op);
      WovenCut(got, wait, []);
      assert got + [] == got && got + wait + [] == got + wait;
      NoBodies();
    } else {
      ReadReads(p, op.capacity);
    }
  }

  lemma NoBodies()
    ensures Bodies([]) == []
  {
  }

  lemma KeepsBuffer(up: bool, hungUp: bool, h: Handle, op: Op)
    requires h.dropped || !op.OpRead?
    ensures var h' := Act(up, hungUp, h, op).0;
            && h'.read == h.read && h'.stream.readBuf == h.stream.readBuf
            && h'.inbox == if !h.dropped && op.OpDrop? then [] else h.inbox
  {
  }

  lemma ReadReads(p: Pair, capacity: nat)
    requires CoreInv(p) && p.me.handle.Some? && !p.me.handle.value.dropped
    ensures var h, h' := p.me.handle.value, Act(p.me.up, HungUp(p.me), p.me.handle.value, OpRead(capacity)).0;
            Woven(h'.read + h'.stream.readBuf + Bodies(h'.inbox), h.read + h.stream.readBuf + Bodies(h.inbox))
  {
    hide CoreInv, Woven, Bodies, RecvFrames, CopyOut, Consumed;
    var h, up, hungUp := p.me.handle.value, p.me.up, HungUp(p.me);
    var h' := Act(up, hungUp, h, OpRead(capacity)).0;
    var all := h.read + h.stream.readBuf + Bodies(h.inbox);
    WovenSame(all);
    if CheckSelfState(h.stream).Some? {
      assert h.read + [] == h.read;
    } else {
      TakeAllKeeps(p);
      TakeConserves(p);
      var (s1, inbox1, e) := RecvFrames(hungUp, h.stream, h.inbox);
      assert h.read + s1.readBuf + Bodies(inbox1) == all;
      if CheckSelfState(s1).Some? {
        assert h.read + [] == h.read;
      } else {
        CopyReads(up, h.read, s1, inbox1, capacity);
      }
    }
  }

  lemma TakeConserves(p: Pair)
    requires CoreInv(p) && p.me.handle.Some? && !IsProtocolError(TakeError(p))
    ensures var h := p.me.handle.value;
            var (s, inbox, e) := RecvFrames(HungUp(p.me), h.stream, h.inbox);
            h.read + s.readBuf + Bodies(inbox) == h.read + h.stream.readBuf + Bodies(h.inbox)
  {
    hide RecvFrames, Bodies, DirInv;
    var h := p.me.handle.value;
    RecvFramesConserves(HungUp(p.me), h.stream, h.inbox);
    var (s, inbox, e) := RecvFrames(HungUp(p.me), h.stream, h.inbox);
    assert h.read + (s.readBuf + Bodies(inbox)) == h.read + (h.stream.readBuf + Bodies(h.inbox));
    assert h.read + (s.readBuf + Bodies(inbox)) == h.read + s.readBuf + Bodies(inbox);
    assert h.read + (h.stream.readBuf + Bodies(h.inbox)) == h.read + h.stream.readBuf + Bodies(h.inbox);
  }

  /** Copying hands out the front of the buffer, or loses it when the session is gone. */
  lemma CopyReads(up: bool, read: seq<byte>, s: Stream, inbox: seq<Frame>, capacity: nat)
    ensures var r := CopyOut(up, s, inbox, capacity);
            var read' := read + if r.result.ReadBytes? then r.result.data else [];
            r.inbox == inbox && Woven(read' + r.stream.readBuf + Bodies(r.inbox), read + s.readBuf + Bodies(inbox))
  {
    hide Woven, Bodies, SendWindowUpdate;
    var r := CopyOut(up, s, inbox, capacity);
    var n := Min(capacity, |s.readBuf|);
    var data, left, wait := s.readBuf[..n], s.readBuf[n..], Bodies(inbox);
    WovenSame(read + s.readBuf + wait);
    assert read + [] == read;
    if n > 0 {
      assert s.readBuf == data + left;
      UpdateKeepsBuffer(up, s.(readBuf := left));
      assert (read + data) + left + wait == read + s.readBuf + wait;
      WovenCut(read, data, left + wait);
      assert read + data + (left + wait) == read + s.readBuf + wait && read + (left + wait) == read + left + wait;
    }
  }

  lemma UpdateKeepsBuffer(up: bool, s: Stream)
    ensures SendWindowUpdate(up, s).0.readBuf == s.readBuf
  {
  }

  lemma UseHolds(p: Pair, op: Op)
    requires PairInv(p) && p.me.handle.Some?
    ensures PairInv(Use(p, op))
    ensures EventGoAway !in Act(p.me.up, HungUp(p.me), p.me.handle.value, op).1
  {
    hide CoreInv, Woven, Bodies, Act;
    UseKeeps(p, op);
    UseOrderOut(p, op);
    UseOrderIn(p, op);
  }

  lemma UseOrderOut(p: Pair, op: Op)
    requires PairInv(p) && p.me.handle.Some?
    ensures OrderInv(Use(p, op).me, p.peer, Use(p, op).out)
  {
    hide Woven, Bodies, Act, DirInv;
    var h := p.me.handle.value;
    var (h', evs) := Act(p.me.up, HungUp(p.me), h, op);
    ActWrites(p.me.up, HungUp(p.me), h, op);
    var new' := EventFrames(evs);
    var path := Path(p.peer, p.out);
    assert Path(p.peer, p.out + new') == path + new';
    BodiesConcat(path, new');
    var got := ReceivedBy(p.peer);
    assert got + (Bodies(path) + Bodies(new')) == (got + Bodies(path)) + Bodies(new');
    WovenAppend(got + Bodies(path), h.written, Bodies(new'));
  }

  lemma UseOrderIn(p: Pair, op: Op)
    requires PairInv(p) && p.me.handle.Some?
    ensures OrderInv(p.peer, Use(p, op).me, p.inn)
  {
    hide Woven, Bodies, Act, CoreInv;
    var h := p.me.handle.value;
    var h' := Act(p.me.up, HungUp(p.me), h, op).0;
    ActReads(p, op);
    var a, b, wait := h'.read + h'.stream.readBuf, h.read + h.stream.readBuf, Bodies(p.inn);
    BodiesConcat(h'.inbox, p.inn);
    BodiesConcat(h.inbox, p.inn);
    WovenAppend(a + Bodies(h'.inbox), b + Bodies(h.inbox), wait);
    assert a + Bodies(h'.inbox) + wait == a + (Bodies(h'.inbox) + wait);
    assert b + Bodies(h.inbox) + wait == b + (Bodies(h.inbox) + wait);
    OrderShrinks(p.peer, p.me, p.inn, p.peer, Use(p, op).me, p.inn);
  }
}
