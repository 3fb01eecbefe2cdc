/** How a handle reaches its end, frame by frame: when a read meets the branch of `poll_read` that is meant to be
    unreachable, and when a handle becomes Closed without telling its session. */
module YamuxEnding {
  import opened Common
  import opened YamuxFrame
  import opened YamuxStream
  import opened YamuxHandle

  predicate Ends(f: Frame) { Contains(f.header.flags, Fin) || Contains(f.header.flags, Rst) }

  /** Neither bytes nor an end: `recv_frames` goes on to the next frame. */
  predicate Passes(f: Frame) { !Ends(f) && (f.header.ty.Data? ==> f.header.length == 0) }

  /** Frame `k` is the first one that does not pass, and neither it nor one before it breaks the protocol. */
  predicate StopsAt(s: Stream, inbox: seq<Frame>, k: nat) {
    && k < |inbox| && !Passes(inbox[k])
    && (forall j :: 0 <= j < k ==> Passes(inbox[j]))
    && (inbox[k].header.ty.Data? ==> inbox[k].header.length <= s.recvWindow)
    && s.sendWindow as int + Credit(inbox[..k + 1]) < U32_SIZE
  }

  /** The frame that ends the other direction carries bytes of its own. */
  predicate EndArrivesWithBytes(s: Stream, inbox: seq<Frame>) {
    exists k :: 0 <= k < |inbox| && StopsAt(s, inbox, k) && Ends(inbox[k]) && inbox[k].header.ty.Data?
        && inbox[k].header.length > 0
  }

  /** The frame at which the stream stops carries FIN and no RST. */
  predicate FinArrives(s: Stream, inbox: seq<Frame>) {
    exists k :: 0 <= k < |inbox| && StopsAt(s, inbox, k) && Contains(inbox[k].header.flags, Fin)
                && !Contains(inbox[k].header.flags, Rst)
  }

  /** What the first frame does to a stream that takes it. */
  lemma FirstFrame(s: Stream, f: Frame)
    requires Receiving(s) && s.readBuf == [] && StreamFrame(f)
    ensures var (s1, e) := HandleFrame(s, f);
            && (e.None? <==>
                  && (f.header.ty.Data? ==> f.header.length <= s.recvWindow)
                  && s.sendWindow as int + Credit([f]) < U32_SIZE)
            && (e.Some? ==> IsProtocolError(e))
            && (e.None? ==>
                  && s1.readBuf == (if f.header.ty.Data? then f.body.value else [])
                  && s1.recvWindow as int == s.recvWindow as int - DataBytes([f])
                  && s1.sendWindow as int == s.sendWindow as int + Credit([f])
                  && (Receiving(s1) <==> !Ends(f))
                  && (s1.state.Closed? <==>
                        s.state.LocalClosing? && Contains(f.header.flags, Fin) && !Contains(f.header.flags, Rst))
                  && (!Ends(f) ==> (s1.state.LocalClosing? <==> s.state.LocalClosing?)))
            && (s.state.LocalClosing? ==> ClosedForWriting(s1))
  {
    assert [f][1..] == [];
  }

  lemma CreditFront(inbox: seq<Frame>, k: nat)
    requires 0 < k <= |inbox|
    ensures Credit(inbox[..k]) == Credit([inbox[0]]) + Credit(inbox[1..][..k - 1])
  {
    assert inbox[..k] == [inbox[0]] + inbox[1..][..k - 1];
    CreditConcat([inbox[0]], inbox[1..][..k - 1]);
  }

  /** A passing frame moves the stopping place by one. */
  lemma StopShifts(s: Stream, s1: Stream, inbox: seq<Frame>, k: nat)
    requires inbox != [] && Passes(inbox[0]) && s1.recvWindow == s.recvWindow
    requires s1.sendWindow as int == s.sendWindow as int + Credit([inbox[0]])
    ensures StopsAt(s1, inbox[1..], k) <==> StopsAt(s, inbox, k + 1)
  {
    if k < |inbox[1..]| {
      CreditFront(inbox, k + 2);
      assert inbox[1..][k] == inbox[k + 1];
      assert forall j :: 0 <= j < k ==> inbox[1..][j] == inbox[j + 1];
      assert forall j :: 0 < j < k + 1 ==> inbox[j] == inbox[1..][j - 1];
    }
  }

  lemma StopsAtFirst(s: Stream, inbox: seq<Frame>)
    requires inbox != []
    ensures StopsAt(s, inbox, 0) <==>
            && !Passes(inbox[0]) && (inbox[0].header.ty.Data? ==> inbox[0].header.length <= s.recvWindow)
            && s.sendWindow as int + Credit([inbox[0]]) < U32_SIZE
  {
    assert inbox[..1] == [inbox[0]];
  }

  /** Overflowing credit keeps every later frame from being reached. */
  lemma BrokenFirst(s: Stream, inbox: seq<Frame>, k: nat)
    requires StreamFrames(inbox) && inbox != [] && Receiving(s) && s.readBuf == [] && HandleFrame(s, inbox[0]).1.Some?
    ensures !StopsAt(s, inbox, k)
  {
    assert inbox[0] in inbox;
    FirstFrame(s, inbox[0]);
    StopsAtFirst(s, inbox);
    if 0 < k < |inbox| { CreditFront(inbox, k + 1); }
  }

  /** `recv_frames` stops at a frame exactly where `StopsAt` says, in the state that frame leaves. */
  lemma {:induction false} RecvStopsIff(hungUp: bool, s: Stream, inbox: seq<Frame>)
    requires StreamFrames(inbox) && Receiving(s) && s.readBuf == []
    ensures var (s', _, e) := RecvFrames(hungUp, s, inbox);
            && (!IsProtocolError(e) && !Receiving(s') && s'.readBuf != [] <==> EndArrivesWithBytes(s, inbox))
            && (!IsProtocolError(e) && s'.state.Closed? <==> s.state.LocalClosing? && FinArrives(s, inbox))
    decreases |inbox|
  {
    hide StopsAt, HandleFrame, Passes, Ends;
    if inbox != [] {
      var f, rest := inbox[0], inbox[1..];
      assert f in inbox && StreamFrames(rest);
      FirstFrame(s, f);
      var (s1, e1) := HandleFrame(s, f);
      if e1.Some? {
        forall k: nat ensures !StopsAt(s, inbox, k) { BrokenFirst(s, inbox, k); }
      } else if Passes(f) {
        PassesOn(s, s1, inbox);
        LaterStops(s, s1, inbox);
        RecvStopsIff(hungUp, s1, rest);
      } else {
        StopsHere(s, s1, inbox);
        OnlyStop(s, inbox);
        RecvStaysStopped(hungUp, s1, rest);
      }
    } else {
      forall k: nat ensures !StopsAt(s, inbox, k) { NoneToStopAt(s, k); }
    }
  }

  lemma LaterStops(s: Stream, s1: Stream, inbox: seq<Frame>)
    requires inbox != [] && !StopsAt(s, inbox, 0)
    requires forall k: nat :: StopsAt(s1, inbox[1..], k) ==> StopsAt(s, inbox, k + 1)
    requires forall k: nat :: k > 0 && StopsAt(s, inbox, k) ==> StopsAt(s1, inbox[1..], k - 1)
    ensures EndArrivesWithBytes(s, inbox) <==> EndArrivesWithBytes(s1, inbox[1..])
    ensures FinArrives(s, inbox) <==> FinArrives(s1, inbox[1..])
  {
    hide StopsAt;
    var rest := inbox[1..];
    assert forall k :: 0 <= k < |rest| ==> rest[k] == inbox[k + 1];
    if EndArrivesWithBytes(s, inbox) {
      var k :| 0 <= k < |inbox| && StopsAt(s, inbox, k) && Ends(inbox[k]) && inbox[k].header.ty.Data?
          && inbox[k].header.length > 0;
      assert StopsAt(s1, rest, k - 1) && rest[k - 1] == inbox[k];
    }
    if EndArrivesWithBytes(s1, rest) {
      var k :| 0 <= k < |rest| && StopsAt(s1, rest, k) && Ends(rest[k]) && rest[k].header.ty.Data?
          && rest[k].header.length > 0;
      assert StopsAt(s, inbox, k + 1);
    }
    if FinArrives(s, inbox) {
      var k :| 0 <= k < |inbox| && StopsAt(s, inbox, k) && Contains(inbox[k].header.flags, Fin)
          && !Contains(inbox[k].header.flags, Rst);
      assert StopsAt(s1, rest, k - 1) && rest[k - 1] == inbox[k];
    }
    if FinArrives(s1, rest) {
      var k :| 0 <= k < |rest| && StopsAt(s1, rest, k) && Contains(rest[k].header.flags, Fin)
          && !Contains(rest[k].header.flags, Rst);
      assert StopsAt(s, inbox, k + 1);
    }
  }

  lemma OnlyStop(s: Stream, inbox: seq<Frame>)
    requires inbox != [] && StopsAt(s, inbox, 0) && forall k: nat :: k != 0 ==> !StopsAt(s, inbox, k)
    ensures EndArrivesWithBytes(s, inbox) <==> Ends(inbox[0]) && inbox[0].header.ty.Data? && inbox[0].header.length > 0
    ensures FinArrives(s, inbox) <==> Contains(inbox[0].header.flags, Fin) && !Contains(inbox[0].header.flags, Rst)
  {
    hide StopsAt;
  }

  lemma NoneToStopAt(s: Stream, k: nat)
    ensures !StopsAt(s, [], k)
  {
  }

  /** A stream that has stopped takes no more frames. */
  lemma RecvStaysStopped(hungUp: bool, s: Stream, inbox: seq<Frame>)
    requires !Receiving(s) || s.readBuf != []
    ensures RecvFrames(hungUp, s, inbox).0 == s && !IsProtocolError(RecvFrames(hungUp, s, inbox).2)
  {
  }

  lemma StopsHere(s: Stream, s1: Stream, inbox: seq<Frame>)
    requires StreamFrames(inbox) && inbox != [] && Receiving(s) && s.readBuf == []
    requires HandleFrame(s, inbox[0]) == (s1, None) && !Passes(inbox[0])
    ensures !Receiving(s1) || s1.readBuf != []
    ensures StopsAt(s, inbox, 0) && forall k: nat :: k != 0 ==> !StopsAt(s, inbox, k)
  {
    hide HandleFrame;
    assert inbox[0] in inbox;
    FirstFrame(s, inbox[0]);
    StopsAtFirst(s, inbox);
  }

  lemma PassesOn(s: Stream, s1: Stream, inbox: seq<Frame>)
    requires StreamFrames(inbox) && inbox != [] && Receiving(s) && s.readBuf == []
    requires HandleFrame(s, inbox[0]) == (s1, None) && Passes(inbox[0])
    ensures Receiving(s1) && s1.readBuf == [] && (s1.state.LocalClosing? <==> s.state.LocalClosing?)
    ensures !StopsAt(s, inbox, 0) && forall k: nat :: StopsAt(s1, inbox[1..], k) <==> StopsAt(s, inbox, k + 1)
    ensures forall k: nat :: k > 0 && StopsAt(s, inbox, k) ==> StopsAt(s1, inbox[1..], k - 1)
  {
    hide HandleFrame;
    var f := inbox[0];
    assert f in inbox;
    FirstFrame(s, f);
    assert [f][1..] == [];
    assert DataBytes([f]) == 0;
    forall k: nat ensures StopsAt(s1, inbox[1..], k) <==> StopsAt(s, inbox, k + 1) { StopShifts(s, s1, inbox, k); }
    forall k: nat | k > 0 && StopsAt(s, inbox, k) ensures StopsAt(s1, inbox[1..], k - 1) {
      StopShifts(s, s1, inbox, k - 1);
    }
  }

  // ---------------------------------------------------------------- bytes in a state without updates

  /** The read handed out bytes in a state that sends no window updates: the branch meant to be unreachable. */
  predicate ReadsSilently(up: bool, hungUp: bool, s: Stream, inbox: seq<Frame>, capacity: nat) {
    var r := PollRead(up, hungUp, s, inbox, capacity);
    r.result.ReadBytes? && !Receiving(r.stream)
  }

  lemma CopiesSilentlyIff(up: bool, s: Stream, inbox: seq<Frame>, capacity: nat)
    ensures var r := CopyOut(up, s, inbox, capacity);
            r.result.ReadBytes? && !Receiving(r.stream) <==> capacity > 0 && s.readBuf != [] && !Receiving(s)
  {
  }

  /** The branch is taken exactly in two situations: bytes are left in the buffer of a stream that has stopped
      receiving, or the frame that ends the other direction carries bytes of its own. */
  lemma ReadsSilentlyIff(up: bool, hungUp: bool, s: Stream, inbox: seq<Frame>, capacity: nat)
    requires StreamFrames(inbox)
    ensures ReadsSilently(up, hungUp, s, inbox, capacity) <==>
            && capacity > 0
            && (if s.readBuf != [] then !Receiving(s)
                else Receiving(s) && EndArrivesWithBytes(s, inbox))
  {
    hide StopsAt, EndArrivesWithBytes, FinArrives, CopyOut;
    if Receiving(s) && s.readBuf == [] { RecvStopsIff(hungUp, s, inbox); }
    if !Receiving(s) || s.readBuf != [] { RecvStaysStopped(hungUp, s, inbox); }
    var (s1, inbox1, _) := RecvFrames(hungUp, s, inbox);
    CopiesSilentlyIff(up, s1, inbox1, capacity);
  }

  /** Both situations arise in the life of a handle: a data frame with FIN, and a second shutdown with bytes
      buffered. */
  lemma ReadsSilentlyInALife(id: StreamId, maxWindow: u32)
    requires INITIAL_STREAM_WINDOW <= maxWindow
    ensures var born := Birth(false, id, maxWindow);
            var w := Life(born, [Arrive(NewData(Only(Fin), id, [7]))]);
            ReadsSilently(w.up, w.hungUp, w.handle.stream, w.handle.inbox, 1)
    ensures var born := Birth(false, id, maxWindow);
            var w := Life(born, [Arrive(NewData(NO_FLAGS, id, [7, 8])), Does(OpRead(1)), Does(OpClose), Does(OpClose)]);
            ReadsSilently(w.up, w.hungUp, w.handle.stream, w.handle.inbox, 1)
  {
    hide Happen, ReadsSilently;
    var born := Birth(false, id, maxWindow);
    BornInv(false, id, maxWindow);
    var fin := Arrive(NewData(Only(Fin), id, [7]));
    LifeOneMore(born, [], fin);
    assert [] + [fin] == [fin];
    FinWithBytes(born, id);
    var a, b, c := Arrive(NewData(NO_FLAGS, id, [7, 8])), Does(OpRead(1)), Does(OpClose);
    LifeOneMore(born, [], a);
    LifeOneMore(born, [a], b);
    LifeOneMore(born, [a, b], c);
    LifeOneMore(born, [a, b, c], c);
    assert [] + [a] == [a] && [a] + [b] == [a, b] && [a, b] + [c] == [a, b, c] && [a, b, c] + [c] == [a, b, c, c];
    SecondShutdown(born, id);
  }

  /** A fresh stream of the accepting side. */
  predicate Fresh(w: World, id: StreamId) {
    && w.up && !w.hungUp && !w.handle.dropped && w.handle.inbox == []
    && w.handle.stream.state.Established? && w.handle.stream.id == id && w.handle.stream.readBuf == []
    && 2 <= w.handle.stream.recvWindow && w.handle.stream.sendWindow == INITIAL_STREAM_WINDOW
  }

  lemma FinWithBytes(w: World, id: StreamId)
    requires Fresh(w, id)
    ensures var w' := Happen(w, Arrive(NewData(Only(Fin), id, [7])));
            ReadsSilently(w'.up, w'.hungUp, w'.handle.stream, w'.handle.inbox, 1)
  {
    hide ReadsSilently, Receiving, HandleFrame;
    var f := NewData(Only(Fin), id, [7]);
    var w' := Happen(w, Arrive(f));
    assert w'.handle.inbox == [f] && [f][1..] == [];
    StopsAtFirst(w'.handle.stream, [f]);
    assert [f][0] == f;
    assert StopsAt(w'.handle.stream, w'.handle.inbox, 0) && Ends(w'.handle.inbox[0]);
    assert EndArrivesWithBytes(w'.handle.stream, w'.handle.inbox);
    assert Receiving(w'.handle.stream) by { OpenReceives(w'.handle.stream); }
    ReadsSilentlyIff(w'.up, w'.hungUp, w'.handle.stream, w'.handle.inbox, 1);
  }

  lemma OpenReceives(s: Stream)
    requires s.state.Established?
    ensures Receiving(s)
  {
  }

  lemma SecondShutdown(w: World, id: StreamId)
    requires Fresh(w, id)
    ensures var w1 := Happen(w, Arrive(NewData(NO_FLAGS, id, [7, 8])));
            var w4 := Happen(Happen(Happen(w1, Does(OpRead(1))), Does(OpClose)), Does(OpClose));
            ReadsSilently(w4.up, w4.hungUp, w4.handle.stream, w4.handle.inbox, 1)
  {
    hide ReadsSilently, PollRead, Close;
    var f := NewData(NO_FLAGS, id, [7, 8]);
    var w1 := Happen(w, Arrive(f));
    assert w1.handle.inbox == [f];
    OneOfTwo(w.handle.stream, f);
    var w2 := Happen(w1, Does(OpRead(1)));
    ClosesTwice(w2.handle.stream);
    var w4 := Happen(Happen(w2, Does(OpClose)), Does(OpClose));
    ReadsSilentlyIff(w4.up, w4.hungUp, w4.handle.stream, w4.handle.inbox, 1);
  }

  lemma OneOfTwo(s: Stream, f: Frame)
    requires s.state.Established? && s.readBuf == [] && 2 <= s.recvWindow && f == NewData(NO_FLAGS, s.id, [7, 8])
    ensures var r := PollRead(true, false, s, [f], 1);
            r.stream.state.Established? && r.stream.readBuf == [8] && r.inbox == []
  {
    hide HandleFrame, SendWindowUpdate, RecvFrames;
    var s1 := s.(readBuf := [7, 8], recvWindow := s.recvWindow as int - 2);
    TakesTwo(s, f);
    assert [7, 8][1..] == [8];
    UpdateKeepsOpen(s1.(readBuf := [8]));
  }

  lemma TakesTwo(s: Stream, f: Frame)
    requires s.state.Established? && s.readBuf == [] && 2 <= s.recvWindow && f == NewData(NO_FLAGS, s.id, [7, 8])
    ensures RecvFrames(false, s, [f]) == (s.(readBuf := [7, 8], recvWindow := s.recvWindow as int - 2), [], None)
  {
    var s1 := s.(readBuf := [7, 8], recvWindow := s.recvWindow as int - 2);
    assert [f][1..] == [];
    assert HandleFrame(s, f) == (s1, None);
    assert RecvFrames(false, s1, []) == (s1, [], None);
  }

  lemma UpdateKeepsOpen(s: Stream)
    requires s.state.Established?
    ensures var s' := SendWindowUpdate(true, s).0; s'.state.Established? && s'.readBuf == s.readBuf
  {
  }

  lemma ClosesTwice(s: Stream)
    requires s.state.Established?
    ensures var s2 := Close(true, Close(true, s).0).0; s2.state.Closed? && s2.readBuf == s.readBuf
  {
  }

  // ---------------------------------------------------------------- closing without a word

  /** A handle that has shut down its own direction becomes Closed by reading exactly when its buffer is empty and the
      frame it stops at carries FIN and no RST; and it says nothing to its session. */
  lemma FinClosesIff(up: bool, hungUp: bool, s: Stream, inbox: seq<Frame>, capacity: nat)
    requires StreamFrames(inbox) && s.state.LocalClosing?
    ensures PollRead(up, hungUp, s, inbox, capacity).stream.state.Closed? <==>
            s.readBuf == [] && FinArrives(s, inbox)
    ensures PollRead(up, hungUp, s, inbox, capacity).stream.state.Closed? ==>
              PollRead(up, hungUp, s, inbox, capacity).events == []
  {
    hide EndArrivesWithBytes, FinArrives;
    if s.readBuf == [] { RecvStopsIff(hungUp, s, inbox); }
  }

  /** A dropped handle tells its session exactly when it was not Closed before. */
  lemma DropTellsIff(s: Stream)
    ensures EventClosed(s.id) in Dropping(true, s).1 <==> !s.state.Closed?
  {
  }
}
