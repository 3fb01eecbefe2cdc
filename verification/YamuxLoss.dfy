/** Reads that lose bytes: the handle takes them from its buffer, fails to announce the room they leave, and hands them
    to nobody. */
module YamuxLoss {
  import opened Common
  import opened YamuxFrame
  import opened YamuxStream
  import opened YamuxHandle
  import opened YamuxEnding
  import opened YamuxOrder

  // ---------------------------------------------------------------- the frame a read gets its bytes from

  /** Frame `k` brings bytes and no end, and is reached. */
  predicate BringsBytes(s: Stream, inbox: seq<Frame>, k: nat) {
    k < |inbox| && StopsAt(s, inbox, k) && !Ends(inbox[k])
  }

  /** The handle is to acknowledge the stream once it has taken these frames. */
  predicate AckIsDue(s: Stream, frames: seq<Frame>) {
    s.state.SynReceived? || s.state.Init? || (s.state.SynSent? && HasFlag(frames, Ack))
  }

  lemma AckUnfolds(s: Stream, s1: Stream, inbox: seq<Frame>, k: nat)
    requires k < |inbox| && Receiving(s) && s.readBuf == [] && StreamFrame(inbox[0]) && Passes(inbox[0])
    requires HandleFrame(s, inbox[0]) == (s1, None) && 0 < k
    ensures AckIsDue(s, inbox[..k + 1]) <==> AckIsDue(s1, inbox[1..][..k])
  {
    var all, tail := inbox[..k + 1], inbox[1..][..k];
    assert all[0] == inbox[0] && forall i :: 0 <= i < |tail| ==> tail[i] == all[i + 1];
    if HasFlag(tail, Ack) {
      var i :| 0 <= i < |tail| && Contains(tail[i].header.flags, Ack);
      assert Contains(all[i + 1].header.flags, Ack);
    }
    if HasFlag(all, Ack) && !Contains(all[0].header.flags, Ack) {
      var i :| 0 <= i < |all| && Contains(all[i].header.flags, Ack);
      assert Contains(tail[i - 1].header.flags, Ack);
    }
    assert Contains(all[0].header.flags, Ack) ==> HasFlag(all, Ack);
  }

  lemma AckOfOne(s: Stream, s1: Stream, inbox: seq<Frame>)
    requires inbox != [] && Receiving(s) && s.readBuf == [] && StreamFrame(inbox[0]) && !Ends(inbox[0])
    requires HandleFrame(s, inbox[0]) == (s1, None)
    ensures AckIsDue(s, inbox[..1]) <==> s1.state.SynReceived? || s1.state.Init?
  {
    var all := inbox[..1];
    assert all[0] == inbox[0];
    assert Contains(all[0].header.flags, Ack) <==> HasFlag(all, Ack);
  }

  /** `recv_frames` gets to such a frame and stops there with its bytes in the buffer. */
  lemma {:induction false} RecvGetsBytes(hungUp: bool, s: Stream, inbox: seq<Frame>, k: nat)
    requires StreamFrames(inbox) && Receiving(s) && s.readBuf == [] && BringsBytes(s, inbox, k)
    ensures var (s', _, e) := RecvFrames(hungUp, s, inbox);
            && e.None? && Receiving(s') && inbox[k].body.Some? && s'.readBuf == inbox[k].body.value != []
            && (AckIsDue(s, inbox[..k + 1]) <==> s'.state.SynReceived? || s'.state.Init?)
    decreases |inbox|
  {
    hide StopsAt, HandleFrame, Passes, AckIsDue, Ends;
    StopIsReal(s, inbox, k);
    var f, rest := inbox[0], inbox[1..];
    assert f in inbox && StreamFrames(rest);
    FirstFrame(s, f);
    var (s1, e1) := HandleFrame(s, f);
    if e1.Some? { BrokenFirst(s, inbox, k); }
    if k == 0 {
      StopsHere(s, s1, inbox);
      HasItsBytes(f);
      AckOfOne(s, s1, inbox);
      RecvStaysStopped(hungUp, s1, rest);
      GotBytes(hungUp, s1, rest);
    } else {
      PassesOn(s, s1, inbox);
      assert rest[k - 1] == inbox[k];
      RecvGetsBytes(hungUp, s1, rest, k - 1);
      AckUnfolds(s, s1, inbox, k);
    }
  }

  lemma StopIsReal(s: Stream, inbox: seq<Frame>, k: nat)
    requires StopsAt(s, inbox, k)
    ensures k < |inbox| && (k > 0 ==> Passes(inbox[0])) && !Passes(inbox[k])
  {
  }

  lemma HasItsBytes(f: Frame)
    requires StreamFrame(f) && !Passes(f) && !Ends(f)
    ensures f.header.ty.Data? && f.body.Some? && f.body.value != []
  {
  }

  lemma GotBytes(hungUp: bool, s: Stream, inbox: seq<Frame>)
    requires Receiving(s) && s.readBuf != []
    ensures RecvFrames(hungUp, s, inbox).2.None?
  {
  }

  /** Bytes in the buffer of a stream that still receives were brought by such a frame. */
  lemma {:induction false} BytesWereBrought(hungUp: bool, s: Stream, inbox: seq<Frame>)
    requires StreamFrames(inbox) && Receiving(s) && s.readBuf == []
    requires var (s', _, e) := RecvFrames(hungUp, s, inbox); !IsProtocolError(e) && Receiving(s') && s'.readBuf != []
    ensures exists k: nat :: BringsBytes(s, inbox, k)
    decreases |inbox|
  {
    hide StopsAt, HandleFrame, Passes, Ends;
    var f, rest := inbox[0], inbox[1..];
    assert f in inbox && StreamFrames(rest);
    FirstFrame(s, f);
    var (s1, e1) := HandleFrame(s, f);
    if Passes(f) {
      PassesOn(s, s1, inbox);
      BytesWereBrought(hungUp, s1, rest);
      var k: nat :| BringsBytes(s1, rest, k);
      StopIsReal(s1, rest, k);
      assert BringsBytes(s, inbox, k + 1);
    } else {
      StopsHere(s, s1, inbox);
      RecvStaysStopped(hungUp, s1, rest);
      assert BringsBytes(s, inbox, 0);
    }
  }

  // ---------------------------------------------------------------- losing bytes

  /** Reading so many of these bytes makes a window update due. */
  predicate UpdateIsDue(s: Stream, bytes: seq<byte>, capacity: nat, ack: bool) {
    Owed(s) + Min(capacity, |bytes|) >= s.maxRecvWindow as int / 2 || ack
  }

  /** Reading so many of the bytes that frame `k` brings does. */
  predicate UpdateIsDueAt(s: Stream, inbox: seq<Frame>, k: nat, capacity: nat) {
    && BringsBytes(s, inbox, k) && inbox[k].body.Some?
    && UpdateIsDue(s, inbox[k].body.value, capacity, AckIsDue(s, inbox[..k + 1]))
  }

  /** The copying half loses bytes exactly when the session is gone and an update is due. */
  lemma CopyLosesIff(up: bool, s: Stream, inbox: seq<Frame>, capacity: nat)
    requires WindowInv(s)
    ensures CopyOut(up, s, inbox, capacity).result == ReadBrokenPipe <==>
            && !up && capacity > 0 && s.readBuf != [] && Receiving(s)
            && UpdateIsDue(s, s.readBuf, capacity, s.state.SynReceived? || s.state.Init?)
    ensures CopyOut(up, s, inbox, capacity).stream.readBuf == s.readBuf[Min(capacity, |s.readBuf|)..]
  {
    hide SendWindowUpdate;
    var n := Min(capacity, |s.readBuf|);
    var left := s.(readBuf := s.readBuf[n..]);
    assert WindowInv(left) && Owed(left) == Owed(s) + n;
    UpdateIsExact(up, left);
    UpdateKeepsBuffer(up, left);
  }

  /** For every state, channel and capacity: a read takes bytes and hands them to nobody exactly when the session is
      gone, and the bytes at hand, those in the buffer or else those of the next frame that brings some, make an update
      due. */
  lemma ReadLosesIff(up: bool, hungUp: bool, s: Stream, inbox: seq<Frame>, capacity: nat)
    requires WindowInv(s) && StreamFrames(inbox)
    ensures PollRead(up, hungUp, s, inbox, capacity).result == ReadBrokenPipe <==>
            && !up && capacity > 0 && Receiving(s)
            && if s.readBuf != [] then UpdateIsDue(s, s.readBuf, capacity, AckIsDue(s, []))
               else exists k: nat :: UpdateIsDueAt(s, inbox, k, capacity)
  {
    hide RecvFrames, CopyOut, StopsAt, UpdateIsDue, HasFlag;
    var (s1, inbox1, e) := RecvFrames(hungUp, s, inbox);
    if !Receiving(s) || s.readBuf != [] {
      RecvStaysStopped(hungUp, s, inbox);
      CopyLosesIff(up, s, inbox1, capacity);
      assert !HasFlag([], Ack) by { NoFlags(); }
    } else {
      RecvFramesConserves(hungUp, s, inbox);
      CopyLosesIff(up, s1, inbox1, capacity);
      EmptyBufferLosesIff(hungUp, s, inbox, capacity);
    }
  }

  lemma NoFlags()
    ensures !HasFlag([], Ack)
  {
  }

  /** The frame a read stops at is the only one that can bring its bytes. */
  lemma EmptyBufferLosesIff(hungUp: bool, s: Stream, inbox: seq<Frame>, capacity: nat)
    requires WindowInv(s) && StreamFrames(inbox) && Receiving(s) && s.readBuf == []
    ensures var (s1, _, e) := RecvFrames(hungUp, s, inbox);
            (&& !IsProtocolError(e) && s1.readBuf != [] && Receiving(s1)
             && UpdateIsDue(s1, s1.readBuf, capacity, s1.state.SynReceived? || s1.state.Init?)) <==>
            exists k: nat :: UpdateIsDueAt(s, inbox, k, capacity)
  {
    hide RecvFrames, StopsAt, HasFlag, WindowInv, AckIsDue, Ends;
    var (s1, _, e) := RecvFrames(hungUp, s, inbox);
    RecvFramesConserves(hungUp, s, inbox);
    if !IsProtocolError(e) && s1.readBuf != [] && Receiving(s1) {
      BytesWereBrought(hungUp, s, inbox);
      var k: nat :| BringsBytes(s, inbox, k);
      RecvGetsBytes(hungUp, s, inbox, k);
      var due := UpdateIsDue(s1, s1.readBuf, capacity, s1.state.SynReceived? || s1.state.Init?);
      forall j: nat | BringsBytes(s, inbox, j) ensures UpdateIsDueAt(s, inbox, j, capacity) == due {
        RecvGetsBytes(hungUp, s, inbox, j);
      }
    } else {
      forall k: nat ensures !BringsBytes(s, inbox, k) {
        if BringsBytes(s, inbox, k) { RecvGetsBytes(hungUp, s, inbox, k); }
      }
    }
  }

  // ---------------------------------------------------------------- a life that skips bytes

  /** A frame arrives, the session is dropped, and two reads follow: whatever the bytes, as long as the first read takes
      half the window or more, the owner gets only what follows. */
  lemma DroppedSessionSkips(id: StreamId, maxWindow: u32, a: seq<byte>, c: seq<byte>)
    requires INITIAL_STREAM_WINDOW <= maxWindow && |a| + |c| <= maxWindow as int
    requires 0 < |c| < maxWindow as int / 2 <= |a|
    ensures var es := [Arrive(NewData(NO_FLAGS, id, a + c)), SessionEnds, Does(OpRead(|a|)), Does(OpRead(|c|))];
            Life(Birth(false, id, maxWindow), es).handle.read == c
  {
    hide Happen;
    var w := Birth(false, id, maxWindow);
    var e1, e3, e4 := Arrive(NewData(NO_FLAGS, id, a + c)), Does(OpRead(|a|)), Does(OpRead(|c|));
    LifeOneMore(w, [], e1);
    LifeOneMore(w, [e1], SessionEnds);
    LifeOneMore(w, [e1, SessionEnds], e3);
    LifeOneMore(w, [e1, SessionEnds, e3], e4);
    assert [] + [e1] == [e1] && [e1] + [SessionEnds] == [e1, SessionEnds];
    assert [e1, SessionEnds] + [e3] == [e1, SessionEnds, e3];
    assert [e1, SessionEnds, e3] + [e4] == [e1, SessionEnds, e3, e4];
    var f := NewData(NO_FLAGS, id, a + c);
    BornEmpty(id, maxWindow);
    var w2 := Happen(Happen(w, e1), SessionEnds);
    assert w2 == w.(handle := w.handle.(inbox := [f]), up := false, hungUp := true) by { TwoHappenings(w, f); }
    TwoReads(w2.handle, f, a, c);
    ReadsHappen(w2, |a|, |c|);
  }

  lemma BornEmpty(id: StreamId, maxWindow: u32)
    requires INITIAL_STREAM_WINDOW <= maxWindow
    ensures var w := Birth(false, id, maxWindow);
            && w.up && !w.hungUp && w.handle.inbox == [] && !w.handle.dropped && w.handle.read == []
            && w.handle.stream.state.Established? && w.handle.stream.readBuf == [] && w.handle.stream.id == id
            && w.handle.stream.recvWindow == w.handle.stream.maxRecvWindow == maxWindow
  {
    UpdateIsExact(true, NewStream(id, SynReceived, maxWindow));
    BornInv(false, id, maxWindow);
  }

  lemma TwoHappenings(w: World, f: Frame)
    requires w.up && !w.hungUp && w.handle.inbox == [] && !w.handle.dropped
    ensures Happen(Happen(w, Arrive(f)), SessionEnds) ==
            w.(handle := w.handle.(inbox := [f]), up := false, hungUp := true)
  {
    assert [] + [f] == [f];
  }

  lemma ReadsHappen(w: World, m: nat, n: nat)
    requires !w.up && w.hungUp
    ensures var h1 := Act(false, true, w.handle, OpRead(m)).0;
            Happen(Happen(w, Does(OpRead(m))), Does(OpRead(n))).handle == Act(false, true, h1, OpRead(n)).0
  {
    hide Act;
  }

  /** What the frame leaves in the stream. */
  lemma TakesFrame(s: Stream, f: Frame)
    requires s.state.Established? && s.readBuf == [] && f.body.Some? && f == NewData(NO_FLAGS, s.id, f.body.value)
    requires 0 < |f.body.value| <= s.recvWindow as int
    ensures RecvFrames(true, s, [f]) ==
            (s.(readBuf := f.body.value, recvWindow := s.recvWindow as int - |f.body.value|), [], None)
  {
    var s1 := s.(readBuf := f.body.value, recvWindow := s.recvWindow as int - |f.body.value|);
    assert [f][1..] == [];
    assert f.header.length == |f.body.value|;
    assert HandleFrame(s, f) == (s1, None);
    assert RecvFrames(true, s1, []) == (s1, [], None);
  }

  lemma TwoReads(h: Handle, f: Frame, a: seq<byte>, c: seq<byte>)
    requires !h.dropped && h.stream.state.Established? && h.stream.readBuf == [] && h.inbox == [f] && h.read == []
    requires f == NewData(NO_FLAGS, h.stream.id, a + c) && h.stream.recvWindow == h.stream.maxRecvWindow
    requires INITIAL_STREAM_WINDOW <= h.stream.maxRecvWindow && |a| + |c| <= h.stream.maxRecvWindow as int
    requires 0 < |c| < h.stream.maxRecvWindow as int / 2 <= |a|
    ensures Act(false, true, Act(false, true, h, OpRead(|a|)).0, OpRead(|c|)).0.read == c
  {
    hide RecvFrames, CopyOut;
    var s := h.stream;
    TakesFrame(s, f);
    var s1 := s.(readBuf := a + c, recvWindow := s.recvWindow as int - |a + c|);
    assert (a + c)[|a|..] == c && c[..|c|] == c && [] + c == c;
    FailsAndRestores(s1, [], |a|);
    var h1 := Act(false, true, h, OpRead(|a|)).0;
    assert h1.read == [] + [] == [] && h1.inbox == [] && !h1.dropped && h1.stream.readBuf == c;
    RecvStaysStopped(true, h1.stream, []);
    GotBytes(true, h1.stream, []);
    HandsOut(h1.stream, RecvFrames(true, h1.stream, []).1, |c|);
  }

  /** A failed update has raised the window all the same. */
  lemma FailsAndRestores(s: Stream, inbox: seq<Frame>, capacity: nat)
    requires WindowInv(s) && s.state.Established? && 0 < capacity <= |s.readBuf|
    requires Owed(s) + capacity >= s.maxRecvWindow as int / 2
    ensures var r := CopyOut(false, s, inbox, capacity);
            && r.result == ReadBrokenPipe && r.inbox == inbox && r.stream.readBuf == s.readBuf[capacity..]
            && r.stream.state.Established? && WindowInv(r.stream) && Owed(r.stream) == 0
            && r.stream.maxRecvWindow == s.maxRecvWindow
  {
    hide SendWindowUpdate;
    var left := s.(readBuf := s.readBuf[capacity..]);
    assert WindowInv(left) && Owed(left) == Owed(s) + capacity;
    UpdateIsExact(false, left);
  }

  lemma HandsOut(s: Stream, inbox: seq<Frame>, capacity: nat)
    requires WindowInv(s) && s.state.Established? && capacity == |s.readBuf| > 0
    requires Owed(s) + capacity < s.maxRecvWindow as int / 2
    ensures CopyOut(false, s, inbox, capacity).result == ReadBytes(s.readBuf)
  {
    hide SendWindowUpdate;
    var left := s.(readBuf := s.readBuf[capacity..]);
    assert WindowInv(left) && Owed(left) == Owed(s) + capacity && s.readBuf[..capacity] == s.readBuf;
    UpdateIsExact(false, left);
  }
}
