/** Data behind a FIN: the exact moments, in any life of a handle, at which it sends them, and how a handle that has
    stopped writing comes to write again. */
module YamuxReopen {
  import opened Common
  import opened YamuxFrame
  import opened YamuxStream
  import opened YamuxHandle
  import opened YamuxEnding

  // ---------------------------------------------------------------- sending data behind a FIN

  /** The owner writes through a handle that has sent FIN, has not stopped writing and has credit. */
  predicate BehindFin(w: World, e: Happening) {
    && e.Does? && e.op.OpWrite? && w.up && !w.handle.dropped
    && HasFlag(w.handle.sent, Fin) && !ClosedForWriting(w.handle.stream) && w.handle.stream.sendWindow > 0
  }

  lemma AppendKeepsFinIff(sent: seq<Frame>, f: Frame)
    requires !Contains(f.header.flags, Fin) || !f.header.ty.Data?
    ensures FinIsLast(sent + [f]) <==> FinIsLast(sent) && !(HasFlag(sent, Fin) && f.header.ty.Data?)
  {
    var all := sent + [f];
    assert forall k :: 0 <= k < |sent| ==> all[k] == sent[k];
    assert all[|sent|] == f;
    if FinIsLast(all) {
      assert FinIsLast(sent) by {
        forall j, k | 0 <= j <= k < |sent| && Contains(sent[j].header.flags, Fin) ensures !sent[k].header.ty.Data? {
          assert Contains(all[j].header.flags, Fin) && all[k] == sent[k];
        }
      }
      if HasFlag(sent, Fin) {
        var j :| 0 <= j < |sent| && Contains(sent[j].header.flags, Fin);
        assert Contains(all[j].header.flags, Fin);
      }
    }
  }

  lemma {:induction false} QuietKeepsFin(sent: seq<Frame>, more: seq<Frame>)
    requires forall f :: f in more ==> !f.header.ty.Data?
    ensures FinIsLast(sent + more) <==> FinIsLast(sent)
    decreases |more|
  {
    if more == [] {
      assert sent + more == sent;
    } else {
      assert more[0] in more && forall f :: f in more[1..] ==> f in more;
      assert sent + more == (sent + [more[0]]) + more[1..];
      QuietKeepsFin(sent + [more[0]], more[1..]);
      AppendKeepsFinIff(sent, more[0]);
    }
  }

  /** What a handle emits joins its log, and only a write emits data. */
  lemma OnlyWritesSendData(up: bool, hungUp: bool, h: Handle, op: Op)
    ensures var (h', evs) := Act(up, hungUp, h, op);
            && h'.sent == h.sent + EventFrames(evs)
            && (!op.OpWrite? ==> forall f :: f in EventFrames(evs) ==> !f.header.ty.Data?)
  {
    assert h.sent + EventFrames([]) == h.sent;
    var evs := Act(up, hungUp, h, op).1;
    if !op.OpWrite? {
      UpdatesOnly(up, hungUp, h, op);
      forall f | f in EventFrames(evs) ensures !f.header.ty.Data? { FromEventFrames(evs, f); }
    }
  }

  lemma UpdatesOnly(up: bool, hungUp: bool, h: Handle, op: Op)
    requires !op.OpWrite?
    ensures forall ev :: ev in Act(up, hungUp, h, op).1 && ev.EventFrame? ==> ev.frame.header.ty.WindowUpdate?
  {
    if op.OpRead? {
      var (s, inbox, _) := RecvFrames(hungUp, h.stream, h.inbox);
      CopyUpdatesOnly(up, s, inbox, op.capacity);
    }
  }

  lemma CopyUpdatesOnly(up: bool, s: Stream, inbox: seq<Frame>, capacity: nat)
    ensures forall ev :: ev in CopyOut(up, s, inbox, capacity).events && ev.EventFrame? ==>
            ev.frame.header.ty.WindowUpdate?
  {
  }

  /** A write sends one data frame without FIN, or nothing. */
  lemma WriteSends(up: bool, hungUp: bool, h: Handle, buf: seq<byte>)
    requires !h.dropped
    ensures var (h', evs) := Act(up, hungUp, h, OpWrite(buf));
            if up && !ClosedForWriting(h.stream) && h.stream.sendWindow > 0
            then |evs| == 1 && evs[0].EventFrame? && EventFrames(evs) == [evs[0].frame]
                 && evs[0].frame.header.ty.Data? && !Contains(evs[0].frame.header.flags, Fin)
            else evs == []
  {
    var evs := Act(up, hungUp, h, OpWrite(buf)).1;
    if evs != [] {
      OneFrame(evs[0].frame, []);
      assert evs == [evs[0]] + [];
    }
  }

  lemma HappenBreaksIff(w: World, e: Happening)
    ensures FinIsLast(Happen(w, e).handle.sent) <==> FinIsLast(w.handle.sent) && !BehindFin(w, e)
  {
    hide FinIsLast, Act;
    if e.Does? {
      var (h', evs) := Act(w.up, w.hungUp, w.handle, e.op);
      OnlyWritesSendData(w.up, w.hungUp, w.handle, e.op);
      if !e.op.OpWrite? {
        QuietKeepsFin(w.handle.sent, EventFrames(evs));
      } else if w.handle.dropped {
        DroppedIsStill(w.up, w.hungUp, w.handle, e.op);
      } else {
        WriteSends(w.up, w.hungUp, w.handle, e.op.buf);
        if evs == [] {
          assert w.handle.sent + EventFrames(evs) == w.handle.sent;
        } else {
          AppendKeepsFinIff(w.handle.sent, evs[0].frame);
        }
      }
    }
  }

  lemma DroppedIsStill(up: bool, hungUp: bool, h: Handle, op: Op)
    requires h.dropped
    ensures Act(up, hungUp, h, op) == (h, [])
  {
  }

  /** At some moment of this life the owner wrote behind the FIN. */
  predicate WroteBehindFin(w: World, es: seq<Happening>) {
    exists i :: 0 <= i < |es| && BehindFin(Life(w, es[..i]), es[i])
  }

  lemma WroteUnfolds(w: World, es: seq<Happening>)
    requires es != []
    ensures var n := |es| - 1;
            WroteBehindFin(w, es) <==> WroteBehindFin(w, es[..n]) || BehindFin(Life(w, es[..n]), es[n])
  {
    hide Life, BehindFin;
    var n := |es| - 1;
    var init := es[..n];
    assert forall i :: 0 <= i < n ==> init[..i] == es[..i] && init[i] == es[i];
    if WroteBehindFin(w, init) {
      var i :| 0 <= i < n && BehindFin(Life(w, init[..i]), init[i]);
      assert BehindFin(Life(w, es[..i]), es[i]);
    }
    if WroteBehindFin(w, es) {
      var i :| 0 <= i < |es| && BehindFin(Life(w, es[..i]), es[i]);
      if i < n { assert BehindFin(Life(w, init[..i]), init[i]); }
    }
  }

  /** In any life: data stand behind a FIN in the log exactly when at some moment the owner wrote behind it. */
  lemma {:induction false} DataFollowFinIff(w: World, es: seq<Happening>)
    requires FinIsLast(w.handle.sent)
    ensures !FinIsLast(Life(w, es).handle.sent) <==> WroteBehindFin(w, es)
    decreases |es|
  {
    hide FinIsLast, Happen, BehindFin, WroteBehindFin;
    if es == [] {
      NothingWritten(w);
    } else {
      var n := |es| - 1;
      DataFollowFinIff(w, es[..n]);
      HappenBreaksIff(Life(w, es[..n]), es[n]);
      WroteUnfolds(w, es);
    }
  }

  lemma NothingWritten(w: World)
    ensures !WroteBehindFin(w, [])
  {
  }

  // ---------------------------------------------------------------- writing again

  predicate AllPass(frames: seq<Frame>) { forall f :: f in frames ==> Passes(f) }

  /** The owner reads to the end of a channel the session has let go of, in state LocalClosing and with an empty buffer;
      no frame on the way carries bytes or an end or breaks the protocol. */
  predicate Reopens(w: World, e: Happening) {
    var s := w.handle.stream;
    && e.Does? && e.op.OpRead? && w.hungUp && !w.handle.dropped && s.state.LocalClosing? && s.readBuf == []
    && AllPass(w.handle.inbox) && s.sendWindow as int + Credit(w.handle.inbox) < U32_SIZE
  }

  lemma {:induction false} RecvReopensIff(hungUp: bool, s: Stream, inbox: seq<Frame>)
    requires StreamFrames(inbox) && s.state.LocalClosing? && s.readBuf == []
    ensures var (s', _, e) := RecvFrames(hungUp, s, inbox);
            && (!ClosedForWriting(s') <==> hungUp && AllPass(inbox) && s.sendWindow as int + Credit(inbox) < U32_SIZE)
            && (!ClosedForWriting(s') ==> s'.state.RemoteClosing? && s'.readBuf == [] && !IsProtocolError(e))
    decreases |inbox|
  {
    hide HandleFrame, Passes, Ends;
    if inbox != [] {
      var f, rest := inbox[0], inbox[1..];
      assert f in inbox && StreamFrames(rest);
      assert AllPass(inbox) <==> Passes(f) && AllPass(rest) by {
        assert inbox == [f] + rest;
        assert forall g :: g in inbox <==> g == f || g in rest;
      }
      CreditFront(inbox, |inbox|);
      assert inbox[..|inbox|] == inbox && rest[..|rest|] == rest;
      FirstFrame(s, f);
      var (s1, e1) := HandleFrame(s, f);
      if e1.None? {
        if Passes(f) {
          PassesIsOpen(s, s1, f);
          RecvReopensIff(hungUp, s1, rest);
        } else {
          StopsForGood(s, s1, f);
          RecvStaysStopped(hungUp, s1, rest);
        }
      } else if Passes(f) {
        CreditIsPositive(rest);
        TooMuchCredit(s, f);
      }
    }
  }

  lemma CreditIsPositive(frames: seq<Frame>)
    ensures Credit(frames) >= 0
  {
  }

  lemma TooMuchCredit(s: Stream, f: Frame)
    requires Receiving(s) && s.readBuf == [] && StreamFrame(f) && Passes(f) && HandleFrame(s, f).1.Some?
    ensures s.sendWindow as int + Credit([f]) >= U32_SIZE
  {
    FirstFrame(s, f);
  }

  lemma PassesIsOpen(s: Stream, s1: Stream, f: Frame)
    requires s.state.LocalClosing? && s.readBuf == [] && StreamFrame(f) && Passes(f) && HandleFrame(s, f) == (s1, None)
    ensures s1.state.LocalClosing? && s1.readBuf == []
  {
    hide HandleFrame;
    FirstFrame(s, f);
  }

  lemma StopsForGood(s: Stream, s1: Stream, f: Frame)
    requires s.state.LocalClosing? && s.readBuf == [] && StreamFrame(f) && !Passes(f) && HandleFrame(s, f) == (s1, None)
    ensures !Receiving(s1) || s1.readBuf != []
  {
    hide HandleFrame;
    FirstFrame(s, f);
  }

  lemma ReadReopensIff(up: bool, hungUp: bool, s: Stream, inbox: seq<Frame>, capacity: nat)
    requires StreamFrames(inbox) && ClosedForWriting(s)
    ensures !ClosedForWriting(PollRead(up, hungUp, s, inbox, capacity).stream) <==>
            && hungUp && s.state.LocalClosing? && s.readBuf == []
            && AllPass(inbox) && s.sendWindow as int + Credit(inbox) < U32_SIZE
  {
    hide RecvFrames, CopyOut, AllPass;
    if s.state.LocalClosing? && s.readBuf == [] {
      RecvReopensIff(hungUp, s, inbox);
    } else {
      RecvStaysStopped(hungUp, s, inbox);
    }
    var (s1, inbox1, _) := RecvFrames(hungUp, s, inbox);
    if ClosedForWriting(s1) { CopyStaysClosed(up, s1, inbox1, capacity); }
  }

  lemma CopyStaysClosed(up: bool, s: Stream, inbox: seq<Frame>, capacity: nat)
    requires ClosedForWriting(s)
    ensures ClosedForWriting(CopyOut(up, s, inbox, capacity).stream)
  {
  }

  /** A handle that has stopped writing is able to write again exactly by such a read. */
  lemma WritesAgainIff(w: World, e: Happening)
    requires StreamFrames(w.handle.inbox) && ClosedForWriting(w.handle.stream)
    ensures !ClosedForWriting(Happen(w, e).handle.stream) <==> Reopens(w, e)
  {
    hide Act, AllPass;
    if e.Does? {
      if e.op.OpRead? && !w.handle.dropped {
        ReadReopensIff(w.up, w.hungUp, w.handle.stream, w.handle.inbox, e.op.capacity);
        ReadLeaves(w.up, w.hungUp, w.handle, e.op.capacity);
      } else {
        OthersStayClosed(w.up, w.hungUp, w.handle, e.op);
      }
    }
  }

  lemma ReadLeaves(up: bool, hungUp: bool, h: Handle, capacity: nat)
    requires !h.dropped
    ensures Act(up, hungUp, h, OpRead(capacity)).0.stream == PollRead(up, hungUp, h.stream, h.inbox, capacity).stream
  {
  }

  lemma OthersStayClosed(up: bool, hungUp: bool, h: Handle, op: Op)
    requires ClosedForWriting(h.stream) && (h.dropped || !op.OpRead?)
    ensures ClosedForWriting(Act(up, hungUp, h, op).0.stream)
  {
  }

  /** A FIN leaves the handle only in states that have stopped writing. */
  lemma FinStopsWriting(w: World, e: Happening)
    requires !HasFlag(w.handle.sent, Fin) && HasFlag(Happen(w, e).handle.sent, Fin)
    ensures ClosedForWriting(Happen(w, e).handle.stream) || Happen(w, e).handle.dropped
  {
    hide HasFlag, Act;
    if e.Does? && (e.op.OpClose? || e.op.OpDrop?) {
      EndsClosed(w.up, w.hungUp, w.handle, e.op);
    } else if e.Does? {
      var evs := Act(w.up, w.hungUp, w.handle, e.op).1;
      NoFinEmitted(w.up, w.hungUp, w.handle, e.op);
      OnlyWritesSendData(w.up, w.hungUp, w.handle, e.op);
      forall f | f in EventFrames(evs) ensures !Contains(f.header.flags, Fin) { FromEventFrames(evs, f); }
      NoNewFin(w.handle.sent, EventFrames(evs));
    }
  }

  lemma EndsClosed(up: bool, hungUp: bool, h: Handle, op: Op)
    requires op.OpClose? || op.OpDrop?
    ensures var h' := Act(up, hungUp, h, op).0; ClosedForWriting(h'.stream) || h'.dropped
  {
  }

  lemma NoNewFin(sent: seq<Frame>, more: seq<Frame>)
    requires forall f :: f in more ==> !Contains(f.header.flags, Fin)
    ensures HasFlag(sent + more, Fin) ==> HasFlag(sent, Fin)
  {
    var all := sent + more;
    assert forall k :: 0 <= k < |more| ==> more[k] in more && all[|sent| + k] == more[k];
  }

  lemma NoFinEmitted(up: bool, hungUp: bool, h: Handle, op: Op)
    requires op.OpRead? || op.OpWrite?
    ensures forall ev :: ev in Act(up, hungUp, h, op).1 && ev.EventFrame? ==> !Contains(ev.frame.header.flags, Fin)
  {
    if op.OpRead? {
      var (s, inbox, _) := RecvFrames(hungUp, h.stream, h.inbox);
      CopyEmitsNoFin(up, s, inbox, op.capacity);
    }
  }

  lemma CopyEmitsNoFin(up: bool, s: Stream, inbox: seq<Frame>, capacity: nat)
    ensures forall ev :: ev in CopyOut(up, s, inbox, capacity).events && ev.EventFrame? ==>
              !Contains(ev.frame.header.flags, Fin)
  {
  }

  /** A handle that has sent FIN and has not stopped writing was opened again at some moment of its life. */
  lemma {:induction false} OpenAfterFin(w: World, es: seq<Happening>)
    requires !HasFlag(w.handle.sent, Fin)
    requires forall i :: 0 <= i <= |es| ==> StreamFrames(Life(w, es[..i]).handle.inbox)
    requires var h := Life(w, es).handle; HasFlag(h.sent, Fin) && !h.dropped && !ClosedForWriting(h.stream)
    ensures exists i :: 0 <= i < |es| && Reopens(Life(w, es[..i]), es[i])
    decreases |es|
  {
    hide HasFlag, Happen, Reopens, StreamFrames;
    assert es != [];
    var n := |es| - 1;
    var init, before := es[..n], Life(w, es[..n]);
    assert forall i :: 0 <= i <= n ==> init[..i] == es[..i];
    UndroppedBefore(before, es[n]);
    if !HasFlag(before.handle.sent, Fin) {
      FinStopsWriting(before, es[n]);
      assert false;
    } else if ClosedForWriting(before.handle.stream) {
      WritesAgainIff(before, es[n]);
      assert Reopens(Life(w, es[..n]), es[n]);
    } else {
      OpenAfterFin(w, init);
      var i :| 0 <= i < |init| && Reopens(Life(w, init[..i]), init[i]);
      assert Reopens(Life(w, es[..i]), es[i]);
    }
  }

  lemma UndroppedBefore(w: World, e: Happening)
    requires !Happen(w, e).handle.dropped
    ensures !w.handle.dropped
  {
  }

  /** Whatever peer, owner and session do: if data stand behind the FIN of a handle, the handle was opened again at some
      moment, and later the owner wrote. */
  lemma DataBehindFinWasReopened(opener: bool, id: StreamId, maxWindow: u32, es: seq<Happening>)
    requires INITIAL_STREAM_WINDOW <= maxWindow
    requires forall e :: e in es && e.Arrive? ==> StreamFrame(e.frame)
    requires !FinIsLast(Life(Birth(opener, id, maxWindow), es).handle.sent)
    ensures exists i, j :: 0 <= i < j < |es| && Reopens(Life(Birth(opener, id, maxWindow), es[..i]), es[i])
                           && BehindFin(Life(Birth(opener, id, maxWindow), es[..j]), es[j])
  {
    hide FinIsLast, Happen, BehindFin, Reopens, StreamFrame, Birth, Life, HasFlag;
    var w := Birth(opener, id, maxWindow);
    NewbornHasNoFin(opener, id, maxWindow);
    DataFollowFinIff(w, es);
    var j :| 0 <= j < |es| && BehindFin(Life(w, es[..j]), es[j]);
    var past := es[..j];
    forall i | 0 <= i <= |past| ensures StreamFrames(Life(w, past[..i]).handle.inbox) {
      InboxInALife(opener, id, maxWindow, past[..i]);
    }
    BehindFinIsOpen(Life(w, past), es[j]);
    OpenAfterFin(w, past);
    var i :| 0 <= i < |past| && Reopens(Life(w, past[..i]), past[i]);
    assert past[..i] == es[..i] && past[i] == es[i];
  }

  lemma BehindFinIsOpen(w: World, e: Happening)
    requires BehindFin(w, e)
    ensures HasFlag(w.handle.sent, Fin) && !w.handle.dropped && !ClosedForWriting(w.handle.stream)
  {
  }

  lemma InboxInALife(opener: bool, id: StreamId, maxWindow: u32, es: seq<Happening>)
    requires INITIAL_STREAM_WINDOW <= maxWindow
    requires forall e :: e in es && e.Arrive? ==> StreamFrame(e.frame)
    ensures StreamFrames(Life(Birth(opener, id, maxWindow), es).handle.inbox)
  {
    hide Birth, Life;
    LifeIsOrderly(opener, id, maxWindow, es);
  }

  lemma NewbornHasNoFin(opener: bool, id: StreamId, maxWindow: u32)
    requires INITIAL_STREAM_WINDOW <= maxWindow
    ensures var sent := Birth(opener, id, maxWindow).handle.sent; FinIsLast(sent) && !HasFlag(sent, Fin)
  {
    hide Born;
    BornInv(opener, id, maxWindow);
  }
}
