/** The owner of a handle reads, writes, closes or drops it: both directions of the pair keep their invariant. */
module YamuxPairUse {
  import opened Common
  import opened YamuxFrame
  import opened YamuxStream
  import opened YamuxHandle
  import opened YamuxPair

  /** `me`'s owner performs `op`; the frames it causes join the outgoing ones. */
  function Use(p: Pair, op: Op): Pair
    requires p.me.handle.Some?
  {
    var (h, evs) := Act(p.me.up, HungUp(p.me), p.me.handle.value, op);
    p.(me := p.me.(handle := Some(h)), out := p.out + EventFrames(evs))
  }

  // ---------------------------------------------------------------- one end changes, the paths do not

  /** The sender's state moved on without touching its window, its channel or what it has written. */
  lemma SenderMoves(s: Half, r: Half, up: seq<Frame>, back: seq<Frame>, clean: bool, s': Half)
    requires DirInv(s, r, up, back, clean)
    requires s.handle.Some? && s'.handle.Some?
    requires SendWindow(s') == SendWindow(s) && WrittenBy(s') == WrittenBy(s)
    requires Inbox(s') == Inbox(s) || (Inbox(s') == [] && s'.handle.value.dropped)
    requires Live(s', back) ==> Live(s, back)
    requires clean && DoneWriting(s) ==> DoneWriting(s')
    ensures DirInv(s', r, up, back, clean)
  {
    assert Credit(Path(s', back)) <= Credit(Path(s, back)) by {
      if Inbox(s') == [] {
        CreditConcat(Inbox(s), back);
        assert [] + back == back;
      }
    }
  }

  /** The receiver's state moved on without touching its window or what it has received. */
  lemma ReceiverMoves(s: Half, r: Half, up: seq<Frame>, back: seq<Frame>, clean: bool, r': Half)
    requires DirInv(s, r, up, back, clean)
    requires r.handle.Some? && r'.handle.Some?
    requires RecvWindow(r') == RecvWindow(r) && ReceivedBy(r') == ReceivedBy(r)
    requires Inbox(r') == Inbox(r) || (Inbox(r') == [] && r'.handle.value.dropped)
    requires Live(r', up) ==> Live(r, up)
    requires r'.handle.value.sawFin == r.handle.value.sawFin
    requires r'.handle.value.stream.state.RemoteClosing? ==> r.handle.value.stream.state.RemoteClosing? || !clean
    ensures DirInv(s, r', up, back, clean)
  {
    if Inbox(r') == [] { Unboxed(Inbox(r), up); }
  }

  lemma Unboxed(inbox: seq<Frame>, up: seq<Frame>)
    ensures DataBytes([] + up) <= DataBytes(inbox + up)
    ensures FinIsLast(inbox + up) ==> FinIsLast([] + up)
    ensures HasFlag([] + up, Fin) ==> HasFlag(inbox + up, Fin)
    ensures forall f :: f in [] + up ==> f in inbox + up
  {
    DataBytesConcat(inbox, up);
    assert [] + up == up;
    var all := inbox + up;
    assert forall k :: 0 <= k < |up| ==> up[k] == all[k + |inbox|];
    if HasFlag(up, Fin) {
      var k :| 0 <= k < |up| && Contains(up[k].header.flags, Fin);
      assert Contains(all[k + |inbox|].header.flags, Fin);
    }
    if FinIsLast(all) {
      forall j, k | 0 <= j <= k < |up| && Contains(up[j].header.flags, Fin) ensures !up[k].header.ty.Data? {
        assert Contains(all[j + |inbox|].header.flags, Fin);
      }
    }
  }

  // ---------------------------------------------------------------- the paths grow

  /** A window update joins the way to `r`; if it carries FIN the sender is done. */
  lemma UpdateJoins(s: Half, r: Half, up: seq<Frame>, back: seq<Frame>, clean: bool, f: Frame)
    requires DirInv(s, r, up, back, clean) && s.handle.Some?
    requires StreamFrame(f) && f.header.ty.WindowUpdate? && !Contains(f.header.flags, Syn)
    requires Contains(f.header.flags, Fin) ==> DoneWriting(s)
    ensures DirInv(s, r, up + [f], back, clean)
  {
    var path := Path(r, up);
    assert Path(r, up + [f]) == path + [f];
    Append(path, f);
    AppendFlag(up, f, Syn);
    if clean {
      AppendFlag(path, f, Fin);
      FinStaysLast(path, f);
    }
  }

  lemma FinStaysLast(path: seq<Frame>, f: Frame)
    requires FinIsLast(path)
    requires f.header.ty.Data? ==> !HasFlag(path, Fin) && !Contains(f.header.flags, Fin)
    ensures FinIsLast(path + [f])
  {
    var all := path + [f];
    forall j, k | 0 <= j <= k < |all| && Contains(all[j].header.flags, Fin) ensures !all[k].header.ty.Data? {
      if k == |path| { assert j < |path| ==> HasFlag(path, Fin); }
    }
  }

  /** Bytes move from the sender's window onto the way. */
  lemma DataJoins(s: Half, r: Half, up: seq<Frame>, back: seq<Frame>, clean: bool, s': Half, f: Frame)
    requires DirInv(s, r, up, back, clean) && s.handle.Some? && s'.handle.Some?
    requires StreamFrame(f) && f.header.ty.Data? && !Contains(f.header.flags, Syn) && !Contains(f.header.flags, Fin)
    requires SendWindow(s') == SendWindow(s) - f.header.length as int
    requires WrittenBy(s') == WrittenBy(s) + f.body.value
    requires Inbox(s') == Inbox(s) && (Live(s', back) ==> Live(s, back)) && !DoneWriting(s)
    ensures DirInv(s', r, up + [f], back, clean)
  {
    var path := Path(r, up);
    assert Path(r, up + [f]) == path + [f];
    Append(path, f);
    AppendFlag(up, f, Syn);
    if clean {
      AppendFlag(path, f, Fin);
      FinStaysLast(path, f);
      assert ReceivedBy(r) + (Bodies(path) + f.body.value) == (ReceivedBy(r) + Bodies(path)) + f.body.value;
    }
  }

  /** The receiver enlarges its window and the credit joins the way back. */
  lemma CreditJoins(s: Half, r: Half, up: seq<Frame>, back: seq<Frame>, clean: bool, r': Half, f: Frame)
    requires DirInv(s, r, up, back, clean)
    requires r.handle.Some? && r'.handle.Some?
    requires f.header.ty.WindowUpdate? && !Contains(f.header.flags, Syn)
    requires RecvWindow(r') == RecvWindow(r) + f.header.length as int
    requires ReceivedBy(r') == ReceivedBy(r) && Inbox(r') == Inbox(r) && (Live(r', up) ==> Live(r, up))
    requires r'.handle.value.sawFin == r.handle.value.sawFin
    requires !r'.handle.value.stream.state.RemoteClosing?
    ensures DirInv(s, r', up, back + [f], clean)
  {
    assert Path(s, back + [f]) == Path(s, back) + [f];
    assert Credit(Path(s, back + [f])) == Credit(Path(s, back)) + f.header.length as int by {
      Append(Path(s, back), f);
    }
    assert HasFlag(back + [f], Syn) == HasFlag(back, Syn) by { AppendFlag(back, f, Syn); }
    assert Path(r', up) == Path(r, up);
  }

  // ---------------------------------------------------------------- writing, closing, dropping

  lemma HalfAfter(p: Pair, op: Op)
    requires CoreInv(p) && p.me.handle.Some?
    ensures HalfInv(Use(p, op).me)
  {
    var h := p.me.handle.value;
    ActKeepsHandle(true, p.me.up, HungUp(p.me), h, op);
    if h.stream.state.Closed? || h.dropped { ClosedStays(p.me.up, HungUp(p.me), h, op); }
    KeepsMax(p.me.up, HungUp(p.me), h, op);
  }

  lemma CopyOutKeepsMax(up: bool, s: Stream, inbox: seq<Frame>, capacity: nat)
    ensures CopyOut(up, s, inbox, capacity).stream.maxRecvWindow == s.maxRecvWindow
  {
  }

  lemma ReadKeepsMax(up: bool, hungUp: bool, s: Stream, inbox: seq<Frame>, capacity: nat)
    requires StreamFrames(inbox) && WindowInv(s)
    ensures PollRead(up, hungUp, s, inbox, capacity).stream.maxRecvWindow == s.maxRecvWindow
  {
    RecvFramesConserves(hungUp, s, inbox);
    var (s1, inbox1, _) := RecvFrames(hungUp, s, inbox);
    CopyOutKeepsMax(up, s1, inbox1, capacity);
  }

  lemma KeepsMax(up: bool, hungUp: bool, h: Handle, op: Op)
    requires HandleInv(up, h)
    ensures Act(up, hungUp, h, op).0.stream.maxRecvWindow == h.stream.maxRecvWindow
  {
    if op.OpRead? { ReadKeepsMax(up, hungUp, h.stream, h.inbox, op.capacity); }
  }

  lemma WriteShape(up: bool, s: Stream, buf: seq<byte>)
    requires !s.state.Init?
    ensures var (s', evs, r) := PollWrite(up, s, buf);
            && (Receiving(s') ==> Receiving(s)) && (s'.state.RemoteClosing? ==> s.state.RemoteClosing?)
            && (ClosedForWriting(s) ==> ClosedForWriting(s') && evs == [])
            && s' == s.(state := s'.state, sendWindow := s'.sendWindow)
            && if evs == [] then s'.sendWindow == s.sendWindow && !(r.Written? && r.n <= |buf|)
               else && r.Written? && r.n <= |buf|
                    && evs == [EventFrame(NewData(TakeFlags(s).1, s.id, buf[..r.n]))]
                    && TakeFlags(s).1 in {NO_FLAGS, Only(Ack)}
                    && s'.sendWindow as int == s.sendWindow as int - r.n && r.n < U32_SIZE
  {
  }

  lemma WriteKeeps(p: Pair, buf: seq<byte>)
    requires CoreInv(p) && p.me.handle.Some? && !p.me.handle.value.dropped
    ensures CoreInv(Use(p, OpWrite(buf)))
  {
    hide DirInv, PollWrite;
    var h := p.me.handle.value;
    var me := Use(p, OpWrite(buf)).me;
    HalfAfter(p, OpWrite(buf));
    WriteShape(p.me.up, h.stream, buf);
    var (s, evs, r) := PollWrite(p.me.up, h.stream, buf);
    assert me.handle.value == h.(stream := s, sent := me.handle.value.sent,
                                 written := h.written + if evs == [] then [] else buf[..r.n]);
    ReceiverMoves(p.peer, p.me, p.inn, p.out, p.clean, me);
    if evs == [] {
      assert p.out + EventFrames(evs) == p.out;
      assert h.written + [] == h.written;
      SenderMoves(p.me, p.peer, p.out, p.inn, p.clean, me);
    } else {
      var f := evs[0].frame;
      OneFrame(f, []);
      assert evs == [EventFrame(f)] + [];
      DataJoins(p.me, p.peer, p.out, p.inn, p.clean, me, f);
      GrowBack(p.peer, me, p.inn, p.out, p.clean, f);
    }
  }

  lemma CloseShape(up: bool, s: Stream)
    ensures var (s', evs) := Close(up, s);
            && s' == s.(state := s'.state) && (s'.state.LocalClosing? || s'.state.Closed?)
            && (forall k :: 0 < k < |evs| ==> !evs[k].EventFrame?)
            && (evs != [] && evs[0].EventFrame? ==> evs[0].frame == NewWindowUpdate(Only(Fin), s.id, 0))
            && (Receiving(s') ==> Receiving(s))
  {
  }

  lemma CloseKeeps(p: Pair)
    requires CoreInv(p) && p.me.handle.Some? && !p.me.handle.value.dropped
    ensures CoreInv(Use(p, OpClose))
  {
    hide EventFrames, HalfInv, Close;
    var p' := Use(p, OpClose);
    HalfAfter(p, OpClose);
    CloseShape(p.me.up, p.me.handle.value.stream);
    var (s, evs) := Close(p.me.up, p.me.handle.value.stream);
    var me := p'.me;
    assert me.handle == Some(p.me.handle.value.(stream := s, sent := me.handle.value.sent,
                                                shutdowns := me.handle.value.shutdowns, told := me.handle.value.told));
    SenderMoves(p.me, p.peer, p.out, p.inn, p.clean, me);
    ReceiverMoves(p.peer, p.me, p.inn, p.out, p.clean, me);
    EventsJoin(p.(me := me), evs);
  }

  /** The events of a closing or dropped handle: at most one frame, without credit. */
  lemma EventsJoin(p: Pair, evs: seq<StreamEvent>)
    requires DirInv(p.me, p.peer, p.out, p.inn, p.clean) && DirInv(p.peer, p.me, p.inn, p.out, p.clean)
    requires p.me.handle.Some?
    requires forall k :: 0 < k < |evs| ==> !evs[k].EventFrame?
    requires evs != [] && evs[0].EventFrame? ==>
               && StreamFrame(evs[0].frame) && evs[0].frame.header.ty.WindowUpdate? && evs[0].frame.header.length == 0
               && !Contains(evs[0].frame.header.flags, Syn)
               && (Contains(evs[0].frame.header.flags, Fin) ==> DoneWriting(p.me))
    ensures DirInv(p.me, p.peer, p.out + EventFrames(evs), p.inn, p.clean)
    ensures DirInv(p.peer, p.me, p.inn, p.out + EventFrames(evs), p.clean)
  {
    if evs != [] && evs[0].EventFrame? {
      var f := evs[0].frame;
      OneFrame(f, evs[1..]);
      assert evs == [evs[0]] + evs[1..];
      UpdateJoins(p.me, p.peer, p.out, p.inn, p.clean, f);
      GrowBack(p.peer, p.me, p.inn, p.out, p.clean, f);
    } else {
      NoFrames(evs);
      assert p.out + [] == p.out;
    }
  }

  lemma DropShape(up: bool, s: Stream)
    requires !s.state.Init?
    ensures var (s', evs) := Dropping(up, s);
            && s' == s.(state := s'.state)
            && (s'.state.RemoteClosing? ==> s.state.RemoteClosing?)
            && (forall k :: 0 < k < |evs| ==> !evs[k].EventFrame?)
            && (evs != [] && evs[0].EventFrame? ==>
                  evs[0].frame == NewWindowUpdate(AddFlag(TakeFlags(s).1, Rst), s.id, 0)
                      && TakeFlags(s).1 in {NO_FLAGS, Only(Ack)})
  {
  }

  lemma DropKeeps(p: Pair)
    requires CoreInv(p) && p.me.handle.Some? && !p.me.handle.value.dropped
    ensures CoreInv(Use(p, OpDrop))
  {
    var p' := Use(p, OpDrop);
    HalfAfter(p, OpDrop);
    var h := p.me.handle.value;
    DropShape(p.me.up, h.stream);
    var (s, evs) := Dropping(p.me.up, h.stream);
    var me := p'.me;
    assert me.handle == Some(h.(stream := s, sent := me.handle.value.sent, dropped := true, inbox := [],
                                told := me.handle.value.told));
    SenderMoves(p.me, p.peer, p.out, p.inn, p.clean, me);
    ReceiverMoves(p.peer, p.me, p.inn, p.out, p.clean, me);
    EventsJoin(p.(me := me), evs);
  }

  // ---------------------------------------------------------------- reading

  /** The handle takes the first frame out of its channel. */
  function TakeOne(p: Pair): Pair
    requires p.me.handle.Some? && Inbox(p.me) != []
  {
    var h := p.me.handle.value;
    p.(me := p.me.(handle := Some(h.(stream := HandleFrame(h.stream, h.inbox[0]).0, inbox := h.inbox[1..],
                                     sawFin := h.sawFin || Contains(h.inbox[0].header.flags, Fin)))))
  }

  lemma FitsIn(s: Stream, f: Frame)
    requires Receiving(s) && StreamFrame(f)
    requires f.header.ty.Data? ==> f.header.length <= s.recvWindow
    requires f.header.ty.WindowUpdate? ==> s.sendWindow as int + f.header.length as int < U32_SIZE
    ensures HandleFrame(s, f).1.None?
  {
  }

  lemma FirstCounts(f: Frame, rest: seq<Frame>)
    ensures f.header.ty.Data? ==> f.header.length as int <= DataBytes([f] + rest)
    ensures f.header.ty.WindowUpdate? ==> f.header.length as int <= Credit([f] + rest)
  {
    assert ([f] + rest)[0] == f;
  }

  /** A frame in a handle's channel never breaks the protocol: its data fit the receive window and its credit
      does not overflow the send window. */
  lemma NoProtocolError(p: Pair)
    requires CoreInv(p) && p.me.handle.Some? && Inbox(p.me) != []
    requires Receiving(p.me.handle.value.stream)
    ensures HandleFrame(p.me.handle.value.stream, Inbox(p.me)[0]).1.None?
  {
    var h := p.me.handle.value;
    var f := h.inbox[0];
    assert StreamFrame(f) by { assert f in h.inbox; }
    var rest := Path(p.me, p.inn)[1..];
    assert Path(p.me, p.inn) == [f] + rest;
    FirstCounts(f, rest);
    assert f.header.ty.WindowUpdate? ==> SendWindow(p.me) + f.header.length as int <= RecvWindow(p.peer);
    assert RecvWindow(p.peer) <= p.peer.maxWindow as int;
    FitsIn(h.stream, f);
  }

  lemma TakeOutwardSafe(s: Half, r: Half, up: seq<Frame>, back: seq<Frame>, s': Half, f: Frame)
    requires SafeDir(s, r, up, back) && s.handle.Some? && s'.handle.Some? && Inbox(s) == [f] + Inbox(s')
    requires SendWindow(s') == SendWindow(s) + if f.header.ty.WindowUpdate? then f.header.length else 0
    ensures SafeDir(s', r, up, back) && Outstanding(s', r, up, back) == Outstanding(s, r, up, back)
  {
    hide StreamFrames, DataBytes;
    var path := Path(s, back);
    assert path[0] == f && path[1..] == Path(s', back);
  }

  lemma TakeOutward(s: Half, r: Half, up: seq<Frame>, back: seq<Frame>, clean: bool, s': Half, f: Frame)
    requires DirInv(s, r, up, back, clean) && s.handle.Some? && s'.handle.Some?
    requires Inbox(s) == [f] + Inbox(s')
    requires SendWindow(s') == SendWindow(s) + if f.header.ty.WindowUpdate? then f.header.length else 0
    requires WrittenBy(s') == WrittenBy(s)
    requires (Live(s', back) ==> Live(s, back)) && (DoneWriting(s) ==> DoneWriting(s'))
    ensures DirInv(s', r, up, back, clean)
  {
    hide SafeDir, Outstanding, Live, DoneWriting, WrittenBy;
    TakeOutwardSafe(s, r, up, back, s', f);
  }

  lemma {:induction false} NoDataNoBodies(a: seq<Frame>)
    requires StreamFrames(a) && forall f :: f in a ==> !f.header.ty.Data?
    ensures Bodies(a) == []
  {
    if a != [] {
      assert a[0] in a;
      assert forall f :: f in a[1..] ==> f in a;
      NoDataNoBodies(a[1..]);
    }
  }

  lemma TakeInward(s: Half, r: Half, up: seq<Frame>, back: seq<Frame>, clean: bool, r': Half, f: Frame)
    requires DirInv(s, r, up, back, clean) && r.handle.Some? && r'.handle.Some?
    requires StreamFrames(Inbox(r)) && Inbox(r) == [f] + Inbox(r')
    requires Live(r, up) && (Live(r', up) ==> !Contains(f.header.flags, Fin))
    requires RecvWindow(r') == RecvWindow(r) - if f.header.ty.Data? then f.header.length else 0
    requires ReceivedBy(r') == ReceivedBy(r) + if f.body.Some? then f.body.value else []
    requires r'.handle.value.sawFin == (r.handle.value.sawFin || Contains(f.header.flags, Fin))
    requires r'.handle.value.stream.state.RemoteClosing? ==> Contains(f.header.flags, Fin)
    ensures DirInv(s, r', up, back, clean)
  {
    var path := Path(r, up);
    assert path[0] == f && path[1..] == Path(r', up);
    assert f in path;
    assert forall g :: g in path[1..] ==> g in path;
    if clean { TakeInwardClean(s, r, up, back, r', f); }
  }

  /** Behind a FIN, and behind a FIN already taken, there are no bytes. */
  lemma NothingBehindFin(path: seq<Frame>)
    requires path != [] && StreamFrames(path)
    requires (Contains(path[0].header.flags, Fin) && FinIsLast(path)) || forall g :: g in path ==> !g.header.ty.Data?
    ensures Bodies(path[1..]) == [] && forall g :: g in path[1..] ==> !g.header.ty.Data?
  {
    forall g | g in path[1..] ensures !g.header.ty.Data? {
      var k :| 0 <= k < |path[1..]| && path[1..][k] == g;
      assert path[k + 1] == g && g in path;
    }
    assert StreamFrames(path[1..]);
    NoDataNoBodies(path[1..]);
  }

  lemma TakeInwardClean(s: Half, r: Half, up: seq<Frame>, back: seq<Frame>, r': Half, f: Frame)
    requires DirInv(s, r, up, back, true) && r.handle.Some? && r'.handle.Some?
    requires StreamFrames(Inbox(r)) && Inbox(r) == [f] + Inbox(r') && Live(r, up)
    requires ReceivedBy(r') == ReceivedBy(r) + if f.body.Some? then f.body.value else []
    requires r'.handle.value.sawFin == (r.handle.value.sawFin || Contains(f.header.flags, Fin))
    requires r'.handle.value.stream.state.RemoteClosing? ==> Contains(f.header.flags, Fin)
    ensures BytesInv(s, r', up) && FinInv(s, r', up)
  {
    var path, rest := Path(r, up), Path(r', up);
    assert path == [f] + rest;
    assert path[1..] == rest;
    var body := if f.body.Some? then f.body.value else [];
    assert WrittenBy(s) == ReceivedBy(r') + Bodies(rest) by {
      assert Bodies(path) == body + Bodies(rest);
      assert ReceivedBy(r) + (body + Bodies(rest)) == (ReceivedBy(r) + body) + Bodies(rest);
    }
    assert ReceivedBy(r') <= WrittenBy(s);
    Behead(path);
    if Contains(f.header.flags, Fin) {
      assert HasFlag(path, Fin) by { assert Contains(path[0].header.flags, Fin); }
    }
    if Contains(f.header.flags, Fin) || r.handle.value.sawFin {
      assert StreamFrames(path);
      NothingBehindFin(path);
      assert ReceivedBy(r') + [] == ReceivedBy(r');
    }
  }

  lemma TakeOneKeepsHandle(up: bool, h: Handle, h': Handle)
    requires HandleInv(up, h) && h.inbox != [] && Receiving(h.stream) && h.stream.readBuf == []
    requires h' == h.(stream := HandleFrame(h.stream, h.inbox[0]).0, inbox := h.inbox[1..], sawFin := h'.sawFin)
    ensures HandleInv(up, h') && h'.stream.maxRecvWindow == h.stream.maxRecvWindow
  {
    assert h.inbox[0] in h.inbox;
    assert StreamFrames(h.inbox[1..]);
    HandleFrameConserves(h.stream, h.inbox[0]);
    LogStays(true, up, h, h'.stream);
  }

  /** What one frame does to a stream that takes it without error. */
  lemma HandleFrameShape(s: Stream, f: Frame)
    requires Receiving(s) && StreamFrame(f) && s.readBuf == [] && HandleFrame(s, f).1.None?
    ensures var s' := HandleFrame(s, f).0;
            && s'.sendWindow as int == s.sendWindow as int + (if f.header.ty.WindowUpdate? then f.header.length else 0)
            && s'.recvWindow as int == s.recvWindow as int - (if f.header.ty.Data? then f.header.length else 0)
            && s'.readBuf == (if f.body.Some? then f.body.value else [])
            && (Receiving(s') ==> !Contains(f.header.flags, Fin))
            && (s'.state.RemoteClosing? ==> Contains(f.header.flags, Fin))
            && (ClosedForWriting(s) ==> ClosedForWriting(s'))
  {
  }

  lemma TakeOneKeeps(p: Pair)
    requires CoreInv(p) && p.me.handle.Some? && Inbox(p.me) != []
    requires !p.me.handle.value.dropped && Receiving(p.me.handle.value.stream) && p.me.handle.value.stream.readBuf == []
    ensures CoreInv(TakeOne(p)) && HandleFrame(p.me.handle.value.stream, Inbox(p.me)[0]).1.None?
  {
    NoProtocolError(p);
    var h := p.me.handle.value;
    var f, s := h.inbox[0], HandleFrame(h.stream, h.inbox[0]).0;
    assert StreamFrame(f) by { assert f in h.inbox; }
    HandleFrameShape(h.stream, f);
    var h' := TakeOne(p).me.handle.value;
    TakeOneKeepsHandle(p.me.up, h, h');
    TakeOneDirections(p, f, s, h');
  }

  lemma TakeOneDirections(p: Pair, f: Frame, s: Stream, h': Handle)
    requires CoreInv(p) && p.me.handle.Some?
    requires var h := p.me.handle.value;
             && !h.dropped && Receiving(h.stream) && h.stream.readBuf == [] && h.inbox != [] && h.inbox[0] == f
             && h' == h.(stream := s, inbox := h.inbox[1..], sawFin := h.sawFin || Contains(f.header.flags, Fin))
             && s.sendWindow as int == h.stream.sendWindow as int
                + (if f.header.ty.WindowUpdate? then f.header.length else 0)
             && s.recvWindow as int == h.stream.recvWindow as int - (if f.header.ty.Data? then f.header.length else 0)
             && s.readBuf == (if f.body.Some? then f.body.value else [])
             && (Receiving(s) ==> !Contains(f.header.flags, Fin))
             && (s.state.RemoteClosing? ==> Contains(f.header.flags, Fin))
             && (ClosedForWriting(h.stream) ==> ClosedForWriting(s))
    ensures DirInv(p.me.(handle := Some(h')), p.peer, p.out, p.inn, p.clean)
    ensures DirInv(p.peer, p.me.(handle := Some(h')), p.inn, p.out, p.clean)
  {
    var h := p.me.handle.value;
    var me := p.me.(handle := Some(h'));
    assert Inbox(p.me) == [f] + Inbox(me);
    assert h.read + [] == h.read;
    TakeOutward(p.me, p.peer, p.out, p.inn, p.clean, me, f);
    TakeInward(p.peer, p.me, p.inn, p.out, p.clean, me, f);
  }

  /** The whole of `recv_frames` on one end of a pair. */
  function TakeAll(p: Pair): Pair
    requires p.me.handle.Some?
  {
    var h := p.me.handle.value;
    var (s, inbox, _) := RecvFrames(HungUp(p.me), h.stream, h.inbox);
    p.(me := p.me.(handle := Some(h.(stream := s, inbox := inbox,
                                     sawFin := h.sawFin || HasFlag(Consumed(h.inbox, inbox), Fin)))))
  }

  lemma {:induction false} TakeAllKeeps(p: Pair)
    requires CoreInv(p) && p.me.handle.Some? && !p.me.handle.value.dropped
    ensures CoreInv(TakeAll(p))
    ensures !IsProtocolError(TakeError(p))
    decreases |Inbox(p.me)|
  {
    var h := p.me.handle.value;
    if Receiving(h.stream) && h.stream.readBuf == [] && h.inbox != [] {
      TakeOneKeeps(p);
      TakeAllUnfolds(p);
      TakeAllKeeps(TakeOne(p));
    } else {
      TakeNoneKeeps(p);
    }
  }

  function TakeError(p: Pair): Option<StreamError>
    requires p.me.handle.Some?
  {
    RecvFrames(HungUp(p.me), p.me.handle.value.stream, p.me.handle.value.inbox).2
  }

  lemma TakeNoneKeeps(p: Pair)
    requires CoreInv(p) && p.me.handle.Some? && !p.me.handle.value.dropped
    requires var h := p.me.handle.value; !(Receiving(h.stream) && h.stream.readBuf == [] && h.inbox != [])
    ensures CoreInv(TakeAll(p)) && !IsProtocolError(TakeError(p))
  {
    hide DirInv, HalfInv;
    var h := p.me.handle.value;
    NothingConsumed(h.inbox);
    if Receiving(h.stream) && h.stream.readBuf == [] && !p.me.held { HangUpKeeps(p); } else { assert TakeAll(p) == p; }
  }

  lemma NothingConsumed(inbox: seq<Frame>)
    ensures !HasFlag(Consumed(inbox, inbox), Fin)
  {
  }

  /** The channel ended because the session is gone. */
  lemma HangUpKeeps(p: Pair)
    requires CoreInv(p) && p.me.handle.Some? && !p.me.handle.value.dropped
    requires !p.me.held && Receiving(p.me.handle.value.stream)
    ensures CoreInv(p.(me := p.me.(handle := Some(p.me.handle.value.(stream :=
            p.me.handle.value.stream.(state := RemoteClosing))))))
  {
    var h := p.me.handle.value;
    assert !p.me.up;
    var s := h.stream.(state := RemoteClosing);
    LogStays(true, false, h, s);
    var me := p.me.(handle := Some(h.(stream := s)));
    SenderMoves(p.me, p.peer, p.out, p.inn, p.clean, me);
    ReceiverMoves(p.peer, p.me, p.inn, p.out, p.clean, me);
  }

  lemma TakeAllUnfolds(p: Pair)
    requires p.me.handle.Some? && Inbox(p.me) != []
    requires Receiving(p.me.handle.value.stream) && p.me.handle.value.stream.readBuf == []
    requires HandleFrame(p.me.handle.value.stream, Inbox(p.me)[0]).1.None?
    ensures TakeAll(p) == TakeAll(TakeOne(p)) && TakeError(p) == TakeError(TakeOne(p))
  {
    var h := p.me.handle.value;
    var s1 := HandleFrame(h.stream, h.inbox[0]).0;
    RecvFramesShrinks(HungUp(p.me), s1, h.inbox[1..]);
    var rest := RecvFrames(HungUp(p.me), s1, h.inbox[1..]);
    assert RecvFrames(HungUp(p.me), h.stream, h.inbox) == rest;
    ConsumedUnfolds(h.inbox, rest.1);
  }

  lemma ConsumedUnfolds(inbox: seq<Frame>, left: seq<Frame>)
    requires inbox != [] && |left| < |inbox|
    ensures HasFlag(Consumed(inbox, left), Fin)
       <==> Contains(inbox[0].header.flags, Fin) || HasFlag(Consumed(inbox[1..], left), Fin)
  {
    var all, tail := Consumed(inbox, left), Consumed(inbox[1..], left);
    assert all == [inbox[0]] + tail;
    if HasFlag(tail, Fin) {
      var k :| 0 <= k < |tail| && Contains(tail[k].header.flags, Fin);
      assert all[k + 1] == tail[k];
    }
    if HasFlag(all, Fin) {
      var k :| 0 <= k < |all| && Contains(all[k].header.flags, Fin);
      assert k > 0 ==> all[k] == tail[k - 1];
    }
  }

  lemma {:induction false} RecvFramesShrinks(hungUp: bool, s: Stream, inbox: seq<Frame>)
    ensures |RecvFrames(hungUp, s, inbox).1| <= |inbox|
    decreases |inbox|
  {
    if Receiving(s) && s.readBuf == [] && inbox != [] {
      RecvFramesShrinks(hungUp, HandleFrame(s, inbox[0]).0, inbox[1..]);
    }
  }

  /** The copying half of a read. */
  lemma CopyKeeps(p: Pair, h': Handle, evs: seq<StreamEvent>, capacity: nat)
    requires CoreInv(p) && p.me.handle.Some? && !p.me.handle.value.dropped
    requires var h := p.me.handle.value;
             var r := CopyOut(p.me.up, h.stream, h.inbox, capacity);
             && evs == r.events
             && h' == h.(stream := r.stream, read := h.read + (if r.result.ReadBytes? then r.result.data else []),
                         sent := h'.sent, answered := h'.answered)
    ensures DirInv(p.me.(handle := Some(h')), p.peer, p.out + EventFrames(evs), p.inn, p.clean)
    ensures DirInv(p.peer, p.me.(handle := Some(h')), p.inn, p.out + EventFrames(evs), p.clean)
  {
    hide DirInv, HalfInv, SendWindowUpdate, HasFlag, WindowInv;
    var h := p.me.handle.value;
    var me := p.me.(handle := Some(h'));
    var n := Min(capacity, |h.stream.readBuf|);
    var data, left := h.stream.readBuf[..n], h.stream.readBuf[n..];
    assert h.stream.readBuf == data + left;
    assert h.read + (data + left) == (h.read + data) + left;
    if n == 0 || !Receiving(h.stream) {
      assert EventFrames(evs) == [] && p.out + [] == p.out;
      assert ReceivedBy(me) == ReceivedBy(p.me);
      SenderMoves(p.me, p.peer, p.out, p.inn, p.clean, me);
      ReceiverMoves(p.peer, p.me, p.inn, p.out, p.clean, me);
    } else {
      UpdatePath(p, h', evs, data, left);
    }
  }

  lemma UpdateShape(up: bool, s: Stream)
    requires WindowInv(s) && !s.state.Init? && Receiving(s)
    ensures var (s', evs, ok) := SendWindowUpdate(up, s);
            && Receiving(s') && (ClosedForWriting(s) ==> ClosedForWriting(s'))
            && s' == s.(state := s'.state, recvWindow := s'.recvWindow) && s'.recvWindow >= s.recvWindow
            && (up ==> ok)
            && (up && evs == [] ==> s'.recvWindow == s.recvWindow)
            && (evs != [] ==> up && evs == [EventFrame(NewWindowUpdate(TakeFlags(s).1, s.id,
               s'.recvWindow as int - s.recvWindow as int))]
                              && TakeFlags(s).1 in {NO_FLAGS, Only(Ack)})
  {
    UpdateIsExact(up, s);
  }

  lemma UpdatePath(p: Pair, h': Handle, evs: seq<StreamEvent>, data: seq<byte>, left: seq<byte>)
    requires CoreInv(p) && p.me.handle.Some? && !p.me.handle.value.dropped && Receiving(p.me.handle.value.stream)
    requires p.me.handle.value.stream.readBuf == data + left
    requires var h := p.me.handle.value;
             var (s, evs', ok) := SendWindowUpdate(p.me.up, h.stream.(readBuf := left));
             && evs == evs'
             && h' == h.(stream := s, read := h.read + (if ok then data else []), sent := h'.sent,
                answered := h'.answered)
    ensures DirInv(p.me.(handle := Some(h')), p.peer, p.out + EventFrames(evs), p.inn, p.clean)
    ensures DirInv(p.peer, p.me.(handle := Some(h')), p.inn, p.out + EventFrames(evs), p.clean)
  {
    hide DirInv, SendWindowUpdate;
    var h := p.me.handle.value;
    var me := p.me.(handle := Some(h'));
    UpdateShape(p.me.up, h.stream.(readBuf := left));
    assert h.read + (data + left) == (h.read + data) + left;
    SenderMoves(p.me, p.peer, p.out, p.inn, p.clean, me);
    if evs != [] {
      var f := evs[0].frame;
      OneFrame(f, []);
      assert evs == [EventFrame(f)] + [];
      UpdateJoins(me, p.peer, p.out, p.inn, p.clean, f);
      CreditJoins(p.peer, p.me, p.inn, p.out, p.clean, me, f);
    } else {
      assert p.out + EventFrames(evs) == p.out;
      if p.me.up {
        ReceiverMoves(p.peer, p.me, p.inn, p.out, p.clean, me);
      } else {
        ReceiverEnlarges(p.peer, p.me, p.inn, p.out, me);
      }
    }
  }

  lemma ReceiverEnlarges(s: Half, r: Half, up: seq<Frame>, back: seq<Frame>, r': Half)
    requires DirInv(s, r, up, back, false) && r.handle.Some? && r'.handle.Some?
    requires RecvWindow(r') >= RecvWindow(r) && Inbox(r') == Inbox(r)
    requires ReceivedBy(r) == [] ==> ReceivedBy(r') == []
    ensures DirInv(s, r', up, back, false)
  {
  }

  /** A read that gets past the first look takes frames, looks again and copies. */
  lemma ReadUnfolds(up: bool, hungUp: bool, h: Handle, h1: Handle, capacity: nat)
    requires !h.dropped && CheckSelfState(h.stream).None?
    requires var (s, inbox, e) := RecvFrames(hungUp, h.stream, h.inbox);
             && !IsProtocolError(e)
             && h1 == h.(stream := s, inbox := inbox, sawFin := h.sawFin || HasFlag(Consumed(h.inbox, inbox), Fin))
    ensures var (h', evs) := Act(up, hungUp, h, OpRead(capacity));
            if CheckSelfState(h1.stream).Some? then
              h' == h1.(read := h1.read + [], sent := h'.sent, answered := h'.answered) && evs == []
            else
              var r := CopyOut(up, h1.stream, h1.inbox, capacity);
              && evs == r.events
              && h' == h1.(stream := r.stream, sent := h'.sent, answered := h'.answered,
                           read := h1.read + (if r.result.ReadBytes? then r.result.data else []))
  {
    var (s, inbox, _) := RecvFrames(hungUp, h.stream, h.inbox);
    assert CopyOut(up, s, inbox, capacity).inbox == inbox;
  }

  lemma CopyOutIsQuiet(up: bool, s: Stream, inbox: seq<Frame>, capacity: nat)
    ensures EventGoAway !in CopyOut(up, s, inbox, capacity).events
  {
  }

  lemma ReadKeeps(p: Pair, capacity: nat)
    requires CoreInv(p) && p.me.handle.Some? && !p.me.handle.value.dropped
    ensures CoreInv(Use(p, OpRead(capacity)))
    ensures EventGoAway !in Act(p.me.up, HungUp(p.me), p.me.handle.value, OpRead(capacity)).1
  {
    hide DirInv, HalfInv, RecvFrames, CopyOut;
    var h := p.me.handle.value;
    HalfAfter(p, OpRead(capacity));
    var p' := Use(p, OpRead(capacity));
    if CheckSelfState(h.stream).Some? {
      NothingConsumed(h.inbox);
      ReadNothing(p, p');
    } else {
      TakeAllKeeps(p);
      var q := TakeAll(p);
      var h1 := q.me.handle.value;
      ReadUnfolds(p.me.up, HungUp(p.me), h, h1, capacity);
      if CheckSelfState(h1.stream).Some? {
        ReadNothing(q, p');
      } else {
        CopyOutIsQuiet(q.me.up, h1.stream, h1.inbox, capacity);
        CopyKeeps(q, p'.me.handle.value, CopyOut(q.me.up, h1.stream, h1.inbox, capacity).events, capacity);
      }
    }
  }

  /** A read that only looked at the state. */
  lemma ReadNothing(p: Pair, p': Pair)
    requires CoreInv(p) && p.me.handle.Some? && p'.me.handle.Some? && HalfInv(p'.me)
    requires p'.me.handle.value == p.me.handle.value.(read := p.me.handle.value.read + [],
                                                      sent := p'.me.handle.value.sent,
                                                          answered := p'.me.handle.value.answered)
    requires p' == p.(me := p.me.(handle := p'.me.handle), out := p.out + [])
    ensures CoreInv(p')
  {
    assert p.me.handle.value.read + [] == p.me.handle.value.read;
    assert p.out + [] == p.out;
    SenderMoves(p.me, p.peer, p.out, p.inn, p.clean, p'.me);
    ReceiverMoves(p.peer, p.me, p.inn, p.out, p.clean, p'.me);
  }

  lemma OnlyReadsComplain(up: bool, hungUp: bool, h: Handle, op: Op)
    requires !op.OpRead?
    ensures EventGoAway !in Act(up, hungUp, h, op).1
  {
  }

  /** Any use of a handle keeps the pair, and never makes it report a protocol error. */
  lemma UseKeeps(p: Pair, op: Op)
    requires CoreInv(p) && p.me.handle.Some?
    ensures CoreInv(Use(p, op))
    ensures EventGoAway !in Act(p.me.up, HungUp(p.me), p.me.handle.value, op).1
  {
    if p.me.handle.value.dropped {
      assert p.out + EventFrames([]) == p.out;
      assert p.me.(handle := Some(p.me.handle.value)) == p.me;
    } else if op.OpRead? {
      ReadKeeps(p, op.capacity);
    } else {
      OnlyReadsComplain(p.me.up, HungUp(p.me), p.me.handle.value, op);
      if op.OpWrite? { WriteKeeps(p, op.buf); } else if op.OpClose? { CloseKeeps(p); } else { DropKeeps(p); }
    }
  }
}
