/** What a handle has done and said, as far as its state tells: how often it was shut down, whether it took a FIN, and
    whether it told its session that it is closed. */
module YamuxPast {
  import opened YamuxFrame
  import opened YamuxStream
  import opened YamuxHandle
  import opened YamuxEnding
  import opened YamuxPairUse

  /** Sessions put FIN and RST on window updates only. */
  predicate Plain(f: Frame) { f.header.ty.Data? ==> !Ends(f) }

  predicate AllPlain(frames: seq<Frame>) { forall f :: f in frames ==> Plain(f) }

  // ---------------------------------------------------------------- the past of one handle

  predicate Opening(s: Stream) { s.state.SynSent? || s.state.SynReceived? || s.state.Established? }

  /** How state, shutdowns and the Closed event of a handle hang together. */
  predicate PastInv(up: bool, h: Handle) {
    var s := h.stream;
    && !s.state.Init?
    && (Opening(s) ==> h.shutdowns == 0) && (s.state.LocalClosing? ==> h.shutdowns == 1)
    && (s.readBuf != [] && !Receiving(s) ==> s.state.Closed? && h.shutdowns >= 2)
    && (h.sawFin ==> !Receiving(s))
    && (h.told ==> s.state.Closed? || h.dropped)
    && (h.answered ==> s.state.Closed? && h.sawFin && h.shutdowns >= 1)
    && (up && s.state.Closed? ==> (h.told <==> !ClosedSilently(h)))
    && (up && h.dropped && !h.told ==> s.state.Closed?)
  }

  /** The handle was shut down, then took the FIN of the other side, and was not shut down again. */
  predicate ClosedSilently(h: Handle) { h.answered && h.shutdowns == 1 }

  /** Taking frames that put no end on data never leaves bytes in a stream that has stopped. */
  lemma {:induction false} RecvKeepsPast(hungUp: bool, s: Stream, inbox: seq<Frame>)
    requires AllPlain(inbox) && StreamFrames(inbox) && !s.state.Init?
    ensures var (s', inbox', e) := RecvFrames(hungUp, s, inbox);
            !IsProtocolError(e) ==>
              && (s'.readBuf != [] && !Receiving(s') ==> s' == s) && (s.state.Closed? ==> s' == s)
              && !s'.state.Init? && (Opening(s') ==> Opening(s)) && (s'.state.LocalClosing? ==> s.state.LocalClosing?)
              && (HasFlag(Consumed(inbox, inbox'), Fin) ==> !Receiving(s')) && (!Receiving(s) ==> s' == s)
              && (s'.state.Closed? ==>
                    s.state.Closed? || (s.state.LocalClosing? && HasFlag(Consumed(inbox, inbox'), Fin)))
    decreases |inbox|
  {
    hide HandleFrame, Consumed;
    if Receiving(s) && s.readBuf == [] && inbox != [] {
      var f, rest := inbox[0], inbox[1..];
      assert f in inbox && StreamFrames(rest) && AllPlain(rest);
      FirstFrame(s, f);
      FirstMovesForward(s, f);
      var (s1, e) := HandleFrame(s, f);
      if e.None? {
        RecvKeepsPast(hungUp, s1, rest);
        RecvFramesShrinks(hungUp, s1, rest);
        ConsumedUnfolds(inbox, RecvFrames(hungUp, s1, rest).1);
      }
    } else {
      NothingConsumed(inbox);
    }
  }

  lemma FirstMovesForward(s: Stream, f: Frame)
    requires Receiving(s) && !s.state.Init? && StreamFrame(f)
    ensures var s1 := HandleFrame(s, f).0;
            && !s1.state.Init? && (Opening(s1) ==> Opening(s))
            && (s1.state.LocalClosing? ==> s.state.LocalClosing?)
  {
  }

  lemma {:induction false} RecvKeepsPlain(hungUp: bool, s: Stream, inbox: seq<Frame>)
    requires AllPlain(inbox)
    ensures AllPlain(RecvFrames(hungUp, s, inbox).1)
    decreases |inbox|
  {
    if Receiving(s) && s.readBuf == [] && inbox != [] {
      assert AllPlain(inbox[1..]);
      RecvKeepsPlain(hungUp, HandleFrame(s, inbox[0]).0, inbox[1..]);
    }
  }

  lemma CopyKeepsState(up: bool, s: Stream, inbox: seq<Frame>, capacity: nat)
    requires !s.state.Init?
    ensures var r := CopyOut(up, s, inbox, capacity);
            && r.inbox == inbox && r.stream.id == s.id
            && (r.stream.state == s.state || (Opening(s) && Opening(r.stream)))
            && (r.stream.readBuf != [] ==> s.readBuf != [])
            && forall ev :: ev in r.events ==> ev.EventFrame? && Plain(ev.frame)
  {
  }

  lemma ReadKeepsPast(up: bool, hungUp: bool, h: Handle, capacity: nat)
    requires PastInv(up, h) && AllPlain(h.inbox) && StreamFrames(h.inbox) && !h.dropped
    requires !IsProtocolError(RecvFrames(hungUp, h.stream, h.inbox).2)
    ensures var (h', evs) := Act(up, hungUp, h, OpRead(capacity));
            && PastInv(up, h') && AllPlain(h'.inbox) && h'.told == h.told
            && forall ev :: ev in evs ==> ev.EventFrame? && Plain(ev.frame)
  {
    hide RecvFrames, CopyOut, HasFlag, Plain;
    var (h', evs) := Act(up, hungUp, h, OpRead(capacity));
    if CheckSelfState(h.stream).None? {
      RecvKeepsPast(hungUp, h.stream, h.inbox);
      RecvKeepsPlain(hungUp, h.stream, h.inbox);
      var (s, inbox, _) := RecvFrames(hungUp, h.stream, h.inbox);
      var h1 := h.(stream := s, inbox := inbox, sawFin := h.sawFin || HasFlag(Consumed(h.inbox, inbox), Fin));
      assert PastInv(up, h1.(answered := h.answered || (h.stream.state.LocalClosing? && s.state.Closed?)));
      ReadUnfolds(up, hungUp, h, h1, capacity);
      CopyKeepsState(up, s, inbox, capacity);
    } else {
      NothingConsumed(h.inbox);
      assert h'.stream == h.stream && h'.inbox == h.inbox && evs == [];
    }
  }

  lemma PlainEndsWithoutBytes(s: Stream, inbox: seq<Frame>)
    requires AllPlain(inbox)
    ensures !EndArrivesWithBytes(s, inbox)
  {
    hide StopsAt, Ends;
    forall k | 0 <= k < |inbox| && inbox[k].header.ty.Data? ensures !Ends(inbox[k]) { assert Plain(inbox[k]); }
  }

  lemma OtherKeepsPast(up: bool, hungUp: bool, h: Handle, op: Op)
    requires PastInv(up, h) && AllPlain(h.inbox) && !h.dropped && !op.OpRead?
    ensures var (h', evs) := Act(up, hungUp, h, op);
            && PastInv(up, h') && AllPlain(h'.inbox)
            && (h'.told <==> h.told || EventClosed(h.stream.id) in evs)
            && forall ev :: ev in evs ==>
                 (ev.EventFrame? ==> Plain(ev.frame)) && (ev.EventClosed? ==> ev.id == h.stream.id)
  {
  }

  /** Any use of a handle keeps its past, and `told` records the Closed event. */
  lemma ActKeepsPast(up: bool, hungUp: bool, h: Handle, op: Op)
    requires PastInv(up, h) && AllPlain(h.inbox) && StreamFrames(h.inbox)
    requires !h.dropped ==> !IsProtocolError(RecvFrames(hungUp, h.stream, h.inbox).2)
    ensures var (h', evs) := Act(up, hungUp, h, op);
            && PastInv(up, h') && AllPlain(h'.inbox)
            && (h'.told <==> h.told || EventClosed(h.stream.id) in evs)
            && (h.dropped ==> h' == h)
            && forall ev :: ev in evs ==>
                 (ev.EventFrame? ==> Plain(ev.frame)) && (ev.EventClosed? ==> ev.id == h.stream.id)
  {
    hide PastInv, AllPlain, Plain;
    if !h.dropped {
      if op.OpRead? { ReadKeepsPast(up, hungUp, h, op.capacity); } else { OtherKeepsPast(up, hungUp, h, op); }
    }
  }
}
