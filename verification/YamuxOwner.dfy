/** What the owner of a handle is told, and what the handle sends for it: the answers of `poll_read` and `poll_write`
    from the state of the handle and the content of its channel, and the frames of `close` and `drop`. */
module YamuxOwner {
  import opened Common
  import opened YamuxFrame
  import opened YamuxStream
  import opened YamuxHandle
  import opened YamuxEnding
  import opened YamuxReopen

  // ---------------------------------------------------------------- what the channel brings

  /** Frame `k` is reached and breaks the protocol: more data than the window allows, or credit beyond 32 bits. */
  predicate BreaksAt(s: Stream, inbox: seq<Frame>, k: nat) {
    && k < |inbox| && (forall j :: 0 <= j < k ==> Passes(inbox[j]))
    && s.sendWindow as int + Credit(inbox[..k]) < U32_SIZE
    && ((inbox[k].header.ty.Data? && inbox[k].header.length > s.recvWindow)
        || s.sendWindow as int + Credit(inbox[..k + 1]) >= U32_SIZE)
  }

  /** Every frame passes: the channel is read to its end. */
  predicate RunsDry(s: Stream, inbox: seq<Frame>) {
    AllPass(inbox) && s.sendWindow as int + Credit(inbox) < U32_SIZE
  }

  predicate CarriesBytes(f: Frame) { f.header.ty.Data? && f.header.length > 0 }

  /** The next frame that does not pass carries bytes. */
  predicate BytesArrive(s: Stream, inbox: seq<Frame>) {
    exists k :: 0 <= k < |inbox| && StopsAt(s, inbox, k) && CarriesBytes(inbox[k])
  }

  /** The next frame that does not pass ends the stream and carries no bytes; with RST, or with FIN alone. */
  predicate EndArrives(s: Stream, inbox: seq<Frame>, reset: bool) {
    exists k :: 0 <= k < |inbox| && StopsAt(s, inbox, k) && !CarriesBytes(inbox[k])
                && (Contains(inbox[k].header.flags, Rst) <==> reset)
  }

  predicate ProtocolBreaks(s: Stream, inbox: seq<Frame>) {
    exists k :: 0 <= k < |inbox| && BreaksAt(s, inbox, k)
  }

  // ---------------------------------------------------------------- what `recv_frames` makes of it

  /** The stream after the frame at which it stops. */
  predicate StoppedBy(s': Stream, f: Frame) {
    && (if CarriesBytes(f) then f.body.Some? && s'.readBuf == f.body.value != [] else s'.readBuf == [])
    && (Contains(f.header.flags, Rst) ==> s'.state.Reset?)
    && (Contains(f.header.flags, Fin) && !Contains(f.header.flags, Rst) ==> s'.state.RemoteClosing? || s'.state.Closed?)
    && (!Ends(f) ==> Receiving(s'))
  }

  lemma StoppingFrame(s: Stream, f: Frame)
    requires Receiving(s) && s.readBuf == [] && StreamFrame(f) && HandleFrame(s, f).1.None?
    ensures StoppedBy(HandleFrame(s, f).0, f)
  {
  }

  lemma {:induction false} RecvStops(hungUp: bool, s: Stream, inbox: seq<Frame>, k: nat)
    requires StreamFrames(inbox) && Receiving(s) && s.readBuf == [] && StopsAt(s, inbox, k)
    ensures var (s', inbox', e) := RecvFrames(hungUp, s, inbox);
            !IsProtocolError(e) && StoppedBy(s', inbox[k]) && inbox' == inbox[k + 1..]
    decreases |inbox|
  {
    hide HandleFrame, Passes, Ends, StoppedBy;
    var f, rest := inbox[0], inbox[1..];
    assert f in inbox && StreamFrames(rest);
    FirstFrame(s, f);
    var (s1, e1) := HandleFrame(s, f);
    if e1.Some? { BrokenFirst(s, inbox, k); }
    if k == 0 {
      StopsHere(s, s1, inbox);
      StoppingFrame(s, f);
      RecvStaysStopped(hungUp, s1, rest);
      ChannelStays(hungUp, s1, rest);
    } else {
      PassesOn(s, s1, inbox);
      RecvStops(hungUp, s1, rest, k - 1);
      assert rest[k - 1] == inbox[k] && rest[k..] == inbox[k + 1..];
    }
  }

  lemma ChannelStays(hungUp: bool, s: Stream, inbox: seq<Frame>)
    requires !Receiving(s) || s.readBuf != []
    ensures RecvFrames(hungUp, s, inbox).1 == inbox
  {
  }

  lemma {:induction false} RecvBreaks(hungUp: bool, s: Stream, inbox: seq<Frame>, k: nat)
    requires StreamFrames(inbox) && Receiving(s) && s.readBuf == [] && BreaksAt(s, inbox, k)
    ensures IsProtocolError(RecvFrames(hungUp, s, inbox).2)
    decreases |inbox|
  {
    hide HandleFrame, Passes, Ends, StopsAt;
    var f, rest := inbox[0], inbox[1..];
    assert f in inbox && StreamFrames(rest);
    FirstFrame(s, f);
    var (s1, e1) := HandleFrame(s, f);
    if e1.None? {
      assert inbox[..1] == [f] && inbox[..0] == [];
      assert k > 0;
      PassesOn(s, s1, inbox);
      NoDataPassed(s, f);
      CreditFront(inbox, k);
      CreditFront(inbox, k + 1);
      assert rest[k - 1] == inbox[k] && forall j :: 0 <= j < k - 1 ==> rest[j] == inbox[j + 1];
      RecvBreaks(hungUp, s1, rest, k - 1);
    }
  }

  lemma NoDataPassed(s: Stream, f: Frame)
    requires Receiving(s) && s.readBuf == [] && StreamFrame(f) && Passes(f) && HandleFrame(s, f).1.None?
    ensures HandleFrame(s, f).0.recvWindow == s.recvWindow
  {
    FirstFrame(s, f);
    assert [f][1..] == [];
  }

  lemma {:induction false} RecvRunsDry(hungUp: bool, s: Stream, inbox: seq<Frame>)
    requires StreamFrames(inbox) && Receiving(s) && s.readBuf == [] && RunsDry(s, inbox)
    ensures var (s', inbox', e) := RecvFrames(hungUp, s, inbox);
            && !IsProtocolError(e) && s'.readBuf == [] && inbox' == []
            && if hungUp then s'.state.RemoteClosing? else Receiving(s')
    decreases |inbox|
  {
    hide HandleFrame, Passes, Ends, StopsAt;
    if inbox != [] {
      var f, rest := inbox[0], inbox[1..];
      assert f in inbox && StreamFrames(rest) && AllPass(rest);
      CreditFront(inbox, |inbox|);
      assert inbox[..|inbox|] == inbox && rest[..|rest|] == rest;
      CreditIsPositive(rest);
      PassingIsTaken(s, f);
      var s1 := HandleFrame(s, f).0;
      PassesOn(s, s1, inbox);
      RecvRunsDry(hungUp, s1, rest);
    }
  }

  lemma PassingIsTaken(s: Stream, f: Frame)
    requires Receiving(s) && s.readBuf == [] && StreamFrame(f) && Passes(f)
    requires s.sendWindow as int + Credit([f]) < U32_SIZE
    ensures var (s1, e) := HandleFrame(s, f); e.None? && s1.sendWindow as int == s.sendWindow as int + Credit([f])
  {
    FirstFrame(s, f);
  }

  /** There is no fourth case. */
  lemma {:induction false} OneOfThree(s: Stream, inbox: seq<Frame>, n: nat)
    requires n <= |inbox| && (forall j :: 0 <= j < n ==> Passes(inbox[j]))
    requires s.sendWindow as int + Credit(inbox[..n]) < U32_SIZE
    ensures || (exists k :: 0 <= k < |inbox| && StopsAt(s, inbox, k)) || ProtocolBreaks(s, inbox) || RunsDry(s, inbox)
    decreases |inbox| - n
  {
    hide Passes;
    if n == |inbox| {
      assert inbox[..n] == inbox;
    } else if !BreaksAt(s, inbox, n) {
      if Passes(inbox[n]) { OneOfThree(s, inbox, n + 1); } else { assert StopsAt(s, inbox, n); }
    }
  }

  // ---------------------------------------------------------------- the answer

  predicate HasBytes(s: Stream, inbox: seq<Frame>) {
    s.readBuf != [] || (Receiving(s) && BytesArrive(s, inbox))
  }

  /** These are the bytes a read finds: those in the buffer, or else those of the frame at which it stops. */
  predicate AtHand(s: Stream, inbox: seq<Frame>, bytes: seq<byte>) {
    if s.readBuf != [] then bytes == s.readBuf
    else exists k :: 0 <= k < |inbox| && StopsAt(s, inbox, k) && CarriesBytes(inbox[k])
                     && inbox[k].body == Some(bytes)
  }

  /** The five kinds of answer and when each is given. */
  ghost predicate Answers(hungUp: bool, s: Stream, inbox: seq<Frame>, capacity: nat, r: ReadResult) {
    var waits := Receiving(s) && s.readBuf == [];
    && (r == Eof <==>
          s.readBuf == [] && (|| s.state.RemoteClosing? || s.state.Closed?
                              || (waits && (EndArrives(s, inbox, false) || (hungUp && RunsDry(s, inbox))))))
    && (r == ConnectionReset <==> s.readBuf == [] && (s.state.Reset? || (waits && EndArrives(s, inbox, true))))
    && (r == InvalidData <==> waits && ProtocolBreaks(s, inbox))
    && (r == ReadPending <==>
          (capacity == 0 && HasBytes(s, inbox)) || (waits && !hungUp && RunsDry(s, inbox)))
    && (r.ReadBytes? || r == ReadBrokenPipe <==> capacity > 0 && HasBytes(s, inbox))
    && (r.ReadBytes? ==> exists bytes :: AtHand(s, inbox, bytes) && r.data == bytes[..Min(capacity, |bytes|)])
  }

  lemma CopyAnswers(up: bool, s: Stream, inbox: seq<Frame>, capacity: nat)
    ensures var r := CopyOut(up, s, inbox, capacity).result;
            && r != Eof && r != ConnectionReset && r != InvalidData
            && (r == ReadPending <==> capacity == 0 || s.readBuf == [])
            && (r.ReadBytes? ==> r.data == s.readBuf[..Min(capacity, |s.readBuf|)])
            && (up && capacity > 0 && s.readBuf != [] ==> r.ReadBytes?)
  {
  }

  /** What a stream that takes frames meets. */
  lemma RecvMeets(hungUp: bool, s: Stream, inbox: seq<Frame>)
    requires StreamFrames(inbox) && Receiving(s) && s.readBuf == []
    ensures var (s', _, e) := RecvFrames(hungUp, s, inbox);
            && (forall k :: 0 <= k < |inbox| && StopsAt(s, inbox, k) ==> !IsProtocolError(e) && StoppedBy(s', inbox[k]))
            && (ProtocolBreaks(s, inbox) ==> IsProtocolError(e))
            && (RunsDry(s, inbox) ==>
                  && !IsProtocolError(e) && s'.readBuf == []
                  && if hungUp then s'.state.RemoteClosing? else Receiving(s'))
            && ((exists k :: 0 <= k < |inbox| && StopsAt(s, inbox, k)) || ProtocolBreaks(s, inbox) || RunsDry(s, inbox))
  {
    hide RecvFrames, StopsAt, BreaksAt, RunsDry, StoppedBy, IsProtocolError;
    forall k | 0 <= k < |inbox| && StopsAt(s, inbox, k)
      ensures !IsProtocolError(RecvFrames(hungUp, s, inbox).2)
      ensures StoppedBy(RecvFrames(hungUp, s, inbox).0, inbox[k])
    {
      RecvStops(hungUp, s, inbox, k);
    }
    forall k | 0 <= k < |inbox| && BreaksAt(s, inbox, k) ensures IsProtocolError(RecvFrames(hungUp, s, inbox).2) {
      RecvBreaks(hungUp, s, inbox, k);
    }
    if RunsDry(s, inbox) { RecvRunsDry(hungUp, s, inbox); }
    assert inbox[..0] == [];
    OneOfThree(s, inbox, 0);
  }

  /** A stopping frame without an end carries bytes. */
  lemma StopsForBytes(s: Stream, inbox: seq<Frame>, k: nat)
    requires k < |inbox| && StopsAt(s, inbox, k)
    ensures Ends(inbox[k]) || CarriesBytes(inbox[k])
  {
  }

  lemma TakenOrNot(hungUp: bool, s: Stream, inbox: seq<Frame>)
    requires StreamFrames(inbox) && Receiving(s) && s.readBuf == []
    ensures var (s', _, e) := RecvFrames(hungUp, s, inbox);
            && (IsProtocolError(e) <==> ProtocolBreaks(s, inbox))
            && (!IsProtocolError(e) ==>
                  && (s'.readBuf != [] <==> BytesArrive(s, inbox))
                  && (s'.readBuf != [] ==> AtHand(s, inbox, s'.readBuf))
                  && (s'.readBuf == [] && s'.state.Reset? <==> EndArrives(s, inbox, true))
                  && (s'.readBuf == [] && (s'.state.RemoteClosing? || s'.state.Closed?) <==>
                        EndArrives(s, inbox, false) || (hungUp && RunsDry(s, inbox)))
                  && (s'.readBuf == [] && Receiving(s') <==> !hungUp && RunsDry(s, inbox)))
            && (IsProtocolError(e) ==>
                  !BytesArrive(s, inbox) && !EndArrives(s, inbox, true) && !EndArrives(s, inbox, false)
                      && !RunsDry(s, inbox))
  {
    hide RecvFrames, StopsAt, RunsDry, IsProtocolError, CarriesBytes, ProtocolBreaks;
    RecvMeets(hungUp, s, inbox);
    forall k | 0 <= k < |inbox| && StopsAt(s, inbox, k) ensures Ends(inbox[k]) || CarriesBytes(inbox[k]) {
      StopsForBytes(s, inbox, k);
    }
  }

  /** For every state, channel and capacity. */
  lemma ReadAnswers(up: bool, hungUp: bool, s: Stream, inbox: seq<Frame>, capacity: nat)
    requires StreamFrames(inbox)
    ensures Answers(hungUp, s, inbox, capacity, PollRead(up, hungUp, s, inbox, capacity).result)
  {
    hide RecvFrames, CopyOut, RunsDry, BytesArrive, EndArrives, ProtocolBreaks;
    var (s1, inbox1, e) := RecvFrames(hungUp, s, inbox);
    CopyAnswers(up, s1, inbox1, capacity);
    if Receiving(s) && s.readBuf == [] {
      TakenOrNot(hungUp, s, inbox);
    } else {
      RecvStaysStopped(hungUp, s, inbox);
    }
    var r := PollRead(up, hungUp, s, inbox, capacity).result;
    if r.ReadBytes? { assert AtHand(s, inbox, s1.readBuf); }
  }

  /** A read asks for the session to go away exactly when a frame broke the protocol; the handle then stops writing. */
  lemma ReadReports(up: bool, hungUp: bool, s: Stream, inbox: seq<Frame>, capacity: nat)
    ensures var r := PollRead(up, hungUp, s, inbox, capacity);
            && (r.result == InvalidData ==> r.stream.state.LocalClosing? && r.events == if up then [EventGoAway]
               else [])
            && (r.result != InvalidData ==> EventGoAway !in r.events)
  {
    hide RecvFrames;
    var (s1, inbox1, _) := RecvFrames(hungUp, s, inbox);
    CopyAnswers(up, s1, inbox1, capacity);
    CopyAsksNothing(up, s1, inbox1, capacity);
  }

  lemma CopyAsksNothing(up: bool, s: Stream, inbox: seq<Frame>, capacity: nat)
    ensures EventGoAway !in CopyOut(up, s, inbox, capacity).events
  {
  }

  // ---------------------------------------------------------------- writing, closing, dropping

  /** A write fails on a stream closed for writing or without its session, waits for credit, and otherwise sends as much
      as the credit allows in one data frame and says how much that was. */
  lemma WriteAnswers(up: bool, s: Stream, buf: seq<byte>)
    ensures var (s', evs, r) := PollWrite(up, s, buf);
            && (r == WritePending <==> !ClosedForWriting(s) && s.sendWindow == 0)
            && (r == WriteBrokenPipe <==> ClosedForWriting(s) || (s.sendWindow > 0 && !up))
            && (!r.Written? ==> evs == [] && s'.sendWindow == s.sendWindow)
            && (r.Written? ==>
                  && r.n == Min(s.sendWindow, |buf|) && s'.sendWindow as int == s.sendWindow as int - r.n
                  && |evs| == 1 && evs[0].EventFrame?
                  && var f := evs[0].frame;
                     f.header.ty.Data? && f.header.streamId == s.id && f.body == Some(buf[..r.n]) && !Ends(f))
  {
  }

  /** Closing says FIN once, and reports the stream closed unless the other side has still to finish. */
  lemma CloseSends(s: Stream)
    ensures var (s', evs) := Close(true, s);
            var closing := !ClosedForWriting(s) && !s.state.RemoteClosing?;
            var fin := Bare(WindowUpdate, Flags(false, false, true, false, 0), s.id, 0);
            && s' == s.(state := if closing then LocalClosing else Closed)
            && evs == (if ClosedForWriting(s) then [] else [EventFrame(fin)])
               + (if closing then [] else [EventClosed(s.id)])
  {
  }

  /** Dropping resets the stream unless it is closed for writing, and reports it closed unless it is Closed. */
  lemma DropSends(s: Stream)
    ensures var evs := Dropping(true, s).1;
            var syn, ack := s.state.Init?, s.state.SynReceived?;
            var rst := Bare(WindowUpdate, Flags(syn, ack, false, true, 0), s.id, 0);
            evs == (if ClosedForWriting(s) then [] else [EventFrame(rst)])
               + (if s.state.Closed? then [] else [EventClosed(s.id)])
  {
  }
}
