/** A substream handle together with its channel and the history of its use, driven by its owner, its session
    and an arbitrary peer. */
module YamuxHandle {
  import opened Common
  import opened YamuxFrame
  import opened YamuxStream

  /** `inbox` is the content of the handle's channel; the last eight fields record the past and are never read back:
      whether we opened it, bytes accepted for writing, bytes handed out, frames emitted, whether a FIN was taken, how
      often the owner shut it down, whether a read turned LocalClosing into Closed, and whether it told its session that
      it is closed. */
  datatype Handle = Handle(
    stream: Stream, inbox: seq<Frame>, dropped: bool,
    opener: bool, written: seq<byte>, read: seq<byte>, sent: seq<Frame>, sawFin: bool, shutdowns: nat, answered: bool,
    told: bool)

  /** A new stream and the window update `create_stream` makes it send at once. */
  function Born(opener: bool, id: StreamId, maxWindow: u32): (Handle, seq<StreamEvent>) {
    var (s, evs, _) := SendWindowUpdate(true, NewStream(id, if opener then Init else SynReceived, maxWindow));
    (Handle(s, [], false, opener, [], [], EventFrames(evs), false, 0, false, false), evs)
  }

  /** What the owner of a handle can do: `poll_read`, `poll_write`, `poll_shutdown`, and dropping it. */
  datatype Op = OpRead(capacity: nat) | OpWrite(buf: seq<byte>) | OpClose | OpDrop

  function Act(up: bool, hungUp: bool, h: Handle, op: Op): (Handle, seq<StreamEvent>) {
    if h.dropped then (h, [])
    else match op
      case OpRead(capacity) =>
        var r := PollRead(up, hungUp, h.stream, h.inbox, capacity);
        (h.(stream := r.stream, inbox := r.inbox, sent := h.sent + EventFrames(r.events),
            read := h.read + (if r.result.ReadBytes? then r.result.data else []),
            sawFin := h.sawFin || HasFlag(Consumed(h.inbox, r.inbox), Fin),
            answered := h.answered || (h.stream.state.LocalClosing? && r.stream.state.Closed?)), r.events)
      case OpWrite(buf) =>
        var (s, evs, r) := PollWrite(up, h.stream, buf);
        (h.(stream := s, sent := h.sent + EventFrames(evs),
            written := h.written + (if r.Written? && r.n <= |buf| then buf[..r.n] else [])), evs)
      case OpClose =>
        var (s, evs) := Close(up, h.stream);
        (h.(stream := s, sent := h.sent + EventFrames(evs), shutdowns := h.shutdowns + 1,
            told := h.told || EventClosed(s.id) in evs), evs)
      case OpDrop =>
        var (s, evs) := Dropping(up, h.stream);
        (h.(stream := s, dropped := true, inbox := [], sent := h.sent + EventFrames(evs),
            told := h.told || EventClosed(s.id) in evs), evs)
  }

  /** The frames that went out of a channel. */
  function Consumed(before: seq<Frame>, after: seq<Frame>): seq<Frame> {
    if |after| <= |before| then before[..|before| - |after|] else []
  }

  // ---------------------------------------------------------------- what the log of sent frames looks like

  predicate ClosedForWriting(s: Stream) { s.state.LocalClosing? || s.state.Closed? || s.state.Reset? }

  predicate OnlyFirstIsSyn(opener: bool, sent: seq<Frame>) {
    && (opener ==> |sent| > 0)
    && forall k :: 0 <= k < |sent| ==> (Contains(sent[k].header.flags, Syn) <==> opener && k == 0)
  }

  predicate AtMostOneAck(sent: seq<Frame>) {
    forall j, k :: 0 <= j < k < |sent| && Contains(sent[j].header.flags, Ack) ==> !Contains(sent[k].header.flags, Ack)
  }

  /** No data follow a FIN, and none will: the handle has stopped writing. */
  predicate FinHolds(up: bool, h: Handle) {
    FinIsLast(h.sent) && (HasFlag(h.sent, Fin) && up && !h.dropped ==> ClosedForWriting(h.stream))
  }

  /** What holds of the log; about FIN only if `strict`. */
  predicate LogInv(strict: bool, up: bool, h: Handle) {
    && OnlyFirstIsSyn(h.opener, h.sent) && AtMostOneAck(h.sent) && StreamFrames(h.sent)
    && !h.stream.state.Init?
    && (HasFlag(h.sent, Ack) ==> !h.stream.state.SynSent? && !h.stream.state.SynReceived?)
    && (forall f :: f in h.sent ==> f.header.streamId == h.stream.id)
    && (strict ==> FinHolds(up, h))
  }

  predicate LooseInv(strict: bool, up: bool, h: Handle) {
    WindowInv(h.stream) && HalfWindowInv(h.stream) && StreamFrames(h.inbox) && LogInv(strict, up, h)
  }

  predicate HandleInv(up: bool, h: Handle) { LooseInv(true, up, h) }

  lemma BornInv(opener: bool, id: StreamId, maxWindow: u32)
    requires INITIAL_STREAM_WINDOW <= maxWindow
    ensures var (h, evs) := Born(opener, id, maxWindow);
            && HandleInv(true, h) && Receiving(h.stream) && h.stream.recvWindow == maxWindow
            && h.stream.sendWindow == INITIAL_STREAM_WINDOW && h.stream.id == id && h.stream.maxRecvWindow == maxWindow
            && evs == [EventFrame(NewWindowUpdate(Only(if opener then Syn else Ack), id,
               maxWindow as int - INITIAL_STREAM_WINDOW as int))]
            && h.sent == [evs[0].frame]
  {
    var s := NewStream(id, if opener then Init else SynReceived, maxWindow);
    UpdateIsExact(true, s);
    var (h, evs) := Born(opener, id, maxWindow);
    assert EventFrames(evs) == [evs[0].frame] + EventFrames(evs[1..]);
  }

  /** Appending one frame to the log. */
  lemma LogGrows(strict: bool, up: bool, h: Handle, h': Handle, f: Frame)
    requires LogInv(strict, up, h)
    requires h' == h.(stream := h'.stream, sent := h.sent + [f], written := h'.written, read := h'.read,
                      inbox := h'.inbox, sawFin := h'.sawFin, dropped := h'.dropped, shutdowns := h'.shutdowns,
                      answered := h'.answered, told := h'.told)
    requires h'.stream.id == h.stream.id && !h'.stream.state.Init?
    requires StreamFrame(f) && f.header.streamId == h.stream.id
    requires !Contains(f.header.flags, Syn)
    requires !HasFlag(h'.sent, Ack) || (!h'.stream.state.SynSent? && !h'.stream.state.SynReceived?)
    requires Contains(f.header.flags, Ack) ==> h.stream.state.SynReceived?
    requires strict && f.header.ty.Data? ==> !HasFlag(h.sent, Fin) && !Contains(f.header.flags, Fin)
    requires strict && (HasFlag(h.sent, Fin) || Contains(f.header.flags, Fin)) ==>
               ClosedForWriting(h'.stream) || !up || h'.dropped
    ensures LogInv(strict, up, h')
  {
    assert forall k :: 0 <= k < |h'.sent| ==> h'.sent[k] == if k < |h.sent| then h.sent[k] else f;
    if HasFlag(h'.sent, Fin) {
      var k :| 0 <= k < |h'.sent| && Contains(h'.sent[k].header.flags, Fin);
      assert k < |h.sent| ==> HasFlag(h.sent, Fin);
    }
  }

  /** The same log under a new stream state. */
  lemma LogStays(strict: bool, up: bool, h: Handle, s: Stream)
    requires LogInv(strict, up, h) && s.id == h.stream.id
    requires !s.state.Init?
    requires s.state.SynSent? || s.state.SynReceived? ==> h.stream.state.SynSent? || h.stream.state.SynReceived?
    requires strict && up && !h.dropped && ClosedForWriting(h.stream) ==> ClosedForWriting(s)
    ensures LogInv(strict, up, h.(stream := s))
  {
  }

  /** Taking frames never reopens a stream: no way back into the opening states, nor out of a local close. */
  lemma {:induction false} RecvFramesMovesForward(hungUp: bool, s: Stream, inbox: seq<Frame>)
    requires !s.state.Init?
    ensures var s' := RecvFrames(hungUp, s, inbox).0;
            && s'.id == s.id && !s'.state.Init?
            && (s'.state.SynSent? || s'.state.SynReceived? ==> s.state.SynSent? || s.state.SynReceived?)
            && (ClosedForWriting(s) && (!hungUp || !Receiving(s)) ==> ClosedForWriting(s'))
    decreases |inbox|
  {
    if Receiving(s) && s.readBuf == [] && inbox != [] {
      RecvFramesMovesForward(hungUp, HandleFrame(s, inbox[0]).0, inbox[1..]);
    }
  }

  lemma OneFrame(f: Frame, rest: seq<StreamEvent>)
    requires forall e :: e in rest ==> !e.EventFrame?
    ensures EventFrames([EventFrame(f)] + rest) == [f] && EventFrames(rest) == []
  {
    NoFrames(rest);
    assert ([EventFrame(f)] + rest)[1..] == rest;
  }

  lemma {:induction false} NoFrames(evs: seq<StreamEvent>)
    requires forall e :: e in evs ==> !e.EventFrame?
    ensures EventFrames(evs) == []
  {
    if evs != [] { NoFrames(evs[1..]); }
  }

  lemma UpdateKeepsHandle(strict: bool, up: bool, h: Handle)
    requires WindowInv(h.stream) && StreamFrames(h.inbox) && LogInv(strict, up, h)
    ensures var (s, evs, _) := SendWindowUpdate(up, h.stream);
            LooseInv(strict, up, h.(stream := s, sent := h.sent + EventFrames(evs)))
  {
    hide SendWindowUpdate, WindowInv, HalfWindowInv, FinIsLast;
    UpdateIsExact(up, h.stream);
    UpdateKeepsWindow(up, h.stream);
    var (s, evs, _) := SendWindowUpdate(up, h.stream);
    if evs == [] {
      assert h.sent + EventFrames(evs) == h.sent;
      LogStays(strict, up, h, s);
    } else {
      OneFrame(evs[0].frame, []);
      assert evs == [evs[0]] + [];
      LogGrows(strict, up, h, h.(stream := s, sent := h.sent + [evs[0].frame]), evs[0].frame);
    }
  }

  lemma CopyKeepsHandle(strict: bool, up: bool, h: Handle, capacity: nat)
    requires LooseInv(strict, up, h)
    ensures var r := CopyOut(up, h.stream, h.inbox, capacity);
            LooseInv(strict, up, h.(stream := r.stream, sent := h.sent + EventFrames(r.events)))
  {
    hide SendWindowUpdate, FinIsLast, StreamFrame, OnlyFirstIsSyn, AtMostOneAck, HasFlag;
    var n := Min(capacity, |h.stream.readBuf|);
    var s := h.stream.(readBuf := h.stream.readBuf[n..]);
    LogStays(strict, up, h, s);
    if n == 0 || !Receiving(h.stream) {
      assert h.sent + EventFrames([]) == h.sent;
    } else {
      UpdateKeepsHandle(strict, up, h.(stream := s));
    }
  }

  /** After `recv_frames`, and after giving up on a stream that broke the protocol. */
  lemma RecvKeepsHandle(strict: bool, up: bool, hungUp: bool, h: Handle)
    requires LooseInv(strict, up, h) && !h.dropped
    requires strict && up && hungUp ==> !Receiving(h.stream)
    ensures var (s, inbox, e) := RecvFrames(hungUp, h.stream, h.inbox);
            && LooseInv(strict, up, h.(stream := s, inbox := inbox))
            && (IsProtocolError(e) ==> LooseInv(strict, up, h.(stream := s.(state := LocalClosing), inbox := inbox)))
  {
    var (s, inbox, e) := RecvFrames(hungUp, h.stream, h.inbox);
    RecvFramesConserves(hungUp, h.stream, h.inbox);
    RecvFramesMovesForward(hungUp, h.stream, h.inbox);
    LogStays(strict, up, h, s);
    LogStays(strict, up, h, s.(state := LocalClosing));
  }

  lemma HistoryIsFree(strict: bool, up: bool, h: Handle, read: seq<byte>, sawFin: bool, answered: bool)
    requires LooseInv(strict, up, h)
    ensures LooseInv(strict, up, h.(read := read, sawFin := sawFin, answered := answered))
  {
  }

  lemma ReadKeepsHandle(strict: bool, up: bool, hungUp: bool, h: Handle, capacity: nat)
    requires LooseInv(strict, up, h) && !h.dropped
    requires strict && up && hungUp ==> !Receiving(h.stream)
    ensures LooseInv(strict, up, Act(up, hungUp, h, OpRead(capacity)).0)
  {
    hide RecvFrames;
    var r := PollRead(up, hungUp, h.stream, h.inbox, capacity);
    var h' := h.(stream := r.stream, inbox := r.inbox, sent := h.sent + EventFrames(r.events));
    assert LooseInv(strict, up, h') by {
      assert h.sent + [] == h.sent;
      NoFrames(Emit(up, EventGoAway));
      if CheckSelfState(h.stream).None? {
        RecvKeepsHandle(strict, up, hungUp, h);
        var (s1, inbox1, e) := RecvFrames(hungUp, h.stream, h.inbox);
        CopyKeepsHandle(strict, up, h.(stream := s1, inbox := inbox1), capacity);
      }
    }
    var a := Act(up, hungUp, h, OpRead(capacity)).0;
    HistoryIsFree(strict, up, h', a.read, a.sawFin, a.answered);
  }

  lemma WriteKeepsHandle(strict: bool, up: bool, hungUp: bool, h: Handle, buf: seq<byte>)
    requires LooseInv(strict, up, h) && !h.dropped
    ensures LooseInv(strict, up, Act(up, hungUp, h, OpWrite(buf)).0)
  {
    var (s, evs, r) := PollWrite(up, h.stream, buf);
    var h' := Act(up, hungUp, h, OpWrite(buf)).0;
    if evs == [] {
      assert h.sent + EventFrames(evs) == h.sent;
      LogStays(strict, up, h, s);
    } else {
      OneFrame(evs[0].frame, []);
      assert evs == [evs[0]] + [];
      LogGrows(strict, up, h, h', evs[0].frame);
    }
  }

  /** Whatever the state, `close` stops the writing half and sends at most a FIN, before anything else. */
  lemma CloseShape(up: bool, s: Stream)
    ensures var (s', evs) := Close(up, s);
            && s' == s.(state := s'.state) && (s'.state.LocalClosing? || s'.state.Closed?)
            && (s'.state.LocalClosing? ==> Receiving(s))
            && (forall k :: 0 < k < |evs| ==> !evs[k].EventFrame?)
            && (evs != [] && evs[0].EventFrame? ==> evs[0].frame == NewWindowUpdate(Only(Fin), s.id, 0))
  {
  }

  lemma CloseKeepsHandle(strict: bool, up: bool, hungUp: bool, h: Handle)
    requires LooseInv(strict, up, h) && !h.dropped
    ensures LooseInv(strict, up, Act(up, hungUp, h, OpClose).0)
  {
    hide Close, FinIsLast, OnlyFirstIsSyn, AtMostOneAck;
    CloseShape(up, h.stream);
    var (s, evs) := Close(up, h.stream);
    var h' := Act(up, hungUp, h, OpClose).0;
    if evs != [] && evs[0].EventFrame? {
      OneFrame(evs[0].frame, evs[1..]);
      assert evs == [evs[0]] + evs[1..];
      LogGrows(strict, up, h, h', evs[0].frame);
    } else {
      NoFrames(evs);
      assert h.sent + [] == h.sent;
      LogStays(strict, up, h, s);
    }
  }

  lemma DropKeepsHandle(strict: bool, up: bool, hungUp: bool, h: Handle)
    requires LooseInv(strict, up, h) && !h.dropped
    ensures LooseInv(strict, up, Act(up, hungUp, h, OpDrop).0)
  {
    var (s, evs) := Dropping(up, h.stream);
    if evs != [] && evs[0].EventFrame? {
      OneFrame(evs[0].frame, evs[1..]);
      assert evs == [evs[0]] + evs[1..];
      LogGrows(strict, up, h, Act(up, hungUp, h, OpDrop).0, evs[0].frame);
    } else {
      NoFrames(evs);
      assert h.sent + [] == h.sent;
    }
  }

  lemma ActKeepsHandle(strict: bool, up: bool, hungUp: bool, h: Handle, op: Op)
    requires LooseInv(strict, up, h)
    requires strict && up && hungUp ==> !Receiving(h.stream) || h.dropped
    ensures LooseInv(strict, up, Act(up, hungUp, h, op).0)
  {
    if !h.dropped {
      match op
      case OpRead(capacity) => ReadKeepsHandle(strict, up, hungUp, h, capacity);
      case OpWrite(buf) => WriteKeepsHandle(strict, up, hungUp, h, buf);
      case OpClose => CloseKeepsHandle(strict, up, hungUp, h);
      case OpDrop => DropKeepsHandle(strict, up, hungUp, h);
    }
  }

  // ---------------------------------------------------------------- whole lives against an arbitrary peer

  /** A handle, whether its session still listens, whether the session has let go of the channel's sender, and whether
      it did so while the handle was still receiving. */
  datatype World = World(handle: Handle, up: bool, hungUp: bool, early: bool)

  /** What can happen to a handle; when the session itself is dropped both channels end. */
  datatype Happening = Arrive(frame: Frame) | Does(op: Op) | EntryRemoved | SessionEnds

  function Happen(w: World, e: Happening): World {
    match e
    case Arrive(f) =>
      if w.hungUp || w.handle.dropped then w else w.(handle := w.handle.(inbox := w.handle.inbox + [f]))
    case Does(op) => w.(handle := Act(w.up, w.hungUp, w.handle, op).0)
    case EntryRemoved =>
      w.(hungUp := true, early := w.early || (w.up && Receiving(w.handle.stream) && !w.handle.dropped))
    case SessionEnds => w.(up := false, hungUp := true)
  }

  function Life(w: World, es: seq<Happening>): World
    decreases |es|
  {
    if es == [] then w else Happen(Life(w, es[..|es| - 1]), es[|es| - 1])
  }

  function Birth(opener: bool, id: StreamId, maxWindow: u32): World {
    World(Born(opener, id, maxWindow).0, true, false, false)
  }

  predicate WorldInv(w: World) {
    && LooseInv(!w.early, w.up, w.handle)
    && (!w.early && w.up && w.hungUp ==> !Receiving(w.handle.stream) || w.handle.dropped)
  }

  lemma ClosedStays(up: bool, hungUp: bool, h: Handle, op: Op)
    requires h.stream.state.Closed? || h.dropped
    ensures var h' := Act(up, hungUp, h, op).0; h'.stream.state.Closed? || h'.dropped
  {
  }

  lemma StoppedStays(up: bool, hungUp: bool, h: Handle, op: Op)
    requires !Receiving(h.stream) || h.dropped
    ensures var h' := Act(up, hungUp, h, op).0; !Receiving(h'.stream) || h'.dropped
  {
  }

  lemma HappenKeepsWorld(w: World, e: Happening)
    requires WorldInv(w) && (e.Arrive? ==> StreamFrame(e.frame))
    ensures WorldInv(Happen(w, e)) && Happen(w, e).handle.opener == w.handle.opener
  {
    if e.Does? {
      ActKeepsHandle(!w.early, w.up, w.hungUp, w.handle, e.op);
      if !Receiving(w.handle.stream) || w.handle.dropped { StoppedStays(w.up, w.hungUp, w.handle, e.op); }
    }
  }

  lemma BornBy(opener: bool, id: StreamId, maxWindow: u32)
    ensures Born(opener, id, maxWindow).0.opener == opener
  {
  }

  /** Whatever the peer sends and the owner does, in any order: the receive window never exceeds the free buffer space
      and suppressed updates stay below half of it; SYN is sent first and once by the opener and never by the acceptor,
      ACK at most once, and, unless the session removes the entry of a handle that still receives, no data after FIN. */
  lemma {:induction false} LifeIsOrderly(opener: bool, id: StreamId, maxWindow: u32, es: seq<Happening>)
    requires INITIAL_STREAM_WINDOW <= maxWindow
    requires forall e :: e in es && e.Arrive? ==> StreamFrame(e.frame)
    ensures var w := Life(Birth(opener, id, maxWindow), es);
            && WorldInv(w) && WindowInv(w.handle.stream) && HalfWindowInv(w.handle.stream)
            && OnlyFirstIsSyn(opener, w.handle.sent) && AtMostOneAck(w.handle.sent)
            && (!w.early ==> FinIsLast(w.handle.sent))
            && w.handle.opener == opener
    decreases |es|
  {
    hide WindowInv, HalfWindowInv, StreamFrame, Happen, Born, OnlyFirstIsSyn, AtMostOneAck, FinIsLast, HasFlag;
    BornInv(opener, id, maxWindow);
    assert Birth(opener, id, maxWindow).handle.opener == opener by { BornBy(opener, id, maxWindow); }
    if es != [] {
      var init := es[..|es| - 1];
      assert forall e :: e in init ==> e in es;
      LifeIsOrderly(opener, id, maxWindow, init);
      HappenKeepsWorld(Life(Birth(opener, id, maxWindow), init), es[|es| - 1]);
    }
  }

  lemma LifeOneMore(w: World, es: seq<Happening>, e: Happening)
    ensures Life(w, es + [e]) == Happen(Life(w, es), e) && Life(w, []) == w
  {
    assert (es + [e])[..|es|] == es;
  }
}
