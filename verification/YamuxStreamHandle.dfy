/** `StreamHandle` as the source writes it: an object whose methods update its fields step by step. Each method is
    proved to do what the function of the same purpose in `YamuxStream` says. */
module YamuxStreamHandle {
  import opened Common
  import opened YamuxFrame
  import opened YamuxStream
  import Spec = YamuxStream

  class StreamHandle {
    const id: StreamId
    const maxRecvWindow: u32
    var state: StreamState
    var recvWindow: u32
    var sendWindow: u32
    var readBuf: seq<byte>
    /** What is queued in the channel from the session, and whether the session has dropped its sender. */
    var inbox: seq<Frame>
    var hungUp: bool
    /** Whether the session still receives events, and the events sent so far. */
    var sessionUp: bool
    var events: seq<StreamEvent>

    function Value(): Stream
      reads this
    {
      Stream(id, state, maxRecvWindow, recvWindow, sendWindow, readBuf)
    }

    constructor (id: StreamId, state: StreamState, maxWindow: u32)
      requires state.Init? || state.SynReceived?
      ensures Value() == NewStream(id, state, maxWindow)
      ensures inbox == [] && !hungUp && sessionUp && events == []
    {
      this.id, this.state, maxRecvWindow := id, state, maxWindow;
      recvWindow, sendWindow, readBuf := INITIAL_STREAM_WINDOW, INITIAL_STREAM_WINDOW, [];
      inbox, hungUp, sessionUp, events := [], false, true, [];
    }

    method SendEvent(ev: StreamEvent) returns (ok: bool)
      modifies `events
      ensures events == old(events) + Emit(sessionUp, ev) && ok == sessionUp
    {
      if sessionUp { events := events + [ev]; }
      ok := sessionUp;
    }

    method GetFlags() returns (flags: Flags)
      modifies `state
      ensures (Value(), flags) == TakeFlags(old(Value()))
    {
      flags := NO_FLAGS;
      if state == Init {
        state, flags := SynSent, Only(Syn);
      } else if state == SynReceived {
        state, flags := Established, Only(Ack);
      }
    }

    method SendWindowUpdate() returns (ok: bool)
      modifies `state, `recvWindow, `events
      ensures var (s, evs, r) := Spec.SendWindowUpdate(sessionUp, old(Value()));
              Value() == s && events == old(events) + evs && ok == r
    {
      var bufLen := |readBuf| % U32_SIZE;
      var delta := Sub32(Sub32(maxRecvWindow, bufLen), recvWindow);
      var flags := GetFlags();
      if delta < maxRecvWindow / 2 && flags == NO_FLAGS {
        return true;
      }
      recvWindow := Add32(recvWindow, delta);
      ok := SendEvent(EventFrame(NewWindowUpdate(flags, id, delta)));
    }

    method SendClose() returns (ok: bool)
      modifies `state, `events
      ensures var (s, evs) := Spec.SendClose(sessionUp, old(Value()));
              Value() == s && events == old(events) + evs && ok == sessionUp
    {
      var flags := GetFlags();
      ok := SendEvent(EventFrame(NewWindowUpdate(AddFlag(flags, Fin), id, 0)));
    }

    method Close() returns (ok: bool)
      modifies `state, `events
      ensures var (s, evs) := Spec.Close(sessionUp, old(Value()));
              Value() == s && events == old(events) + evs && ok == sessionUp
    {
      match state
      case SynSent | SynReceived | Established | Init =>
        state := LocalClosing;
        ok := SendClose();
      case RemoteClosing =>
        state := Closed;
        ok := SendClose();
        if ok { ok := SendEvent(EventClosed(id)); }
      case Reset | Closed | LocalClosing =>
        state := Closed;
        ok := SendEvent(EventClosed(id));
    }

    method ProcessFlags(flags: Flags) returns (ok: bool)
      modifies `state
      ensures (Value(), ok) == Spec.ProcessFlags(old(Value()), flags)
    {
      if Contains(flags, Ack) && state == SynSent {
        state := SynReceived;
      }
      if Contains(flags, Fin) {
        match state
        case Init | SynSent | SynReceived | Established => state := RemoteClosing;
        case LocalClosing => state := Closed;
        case _ => return false;
      }
      if Contains(flags, Rst) {
        state := Reset;
      }
      ok := true;
    }

    method HandleWindowUpdate(f: Frame) returns (e: Option<StreamError>)
      modifies `state, `sendWindow
      ensures (Value(), e) == Spec.HandleWindowUpdate(old(Value()), f)
    {
      var ok := ProcessFlags(f.header.flags);
      if !ok { return Some(UnexpectedFlag); }
      if sendWindow as int + f.header.length as int >= U32_SIZE { return Some(InvalidMsgType); }
      sendWindow := sendWindow as int + f.header.length as int;
      e := None;
    }

    method HandleData(f: Frame) returns (e: Option<StreamError>)
      modifies `state, `recvWindow, `readBuf
      ensures (Value(), e) == Spec.HandleData(old(Value()), f)
    {
      var ok := ProcessFlags(f.header.flags);
      if !ok { return Some(UnexpectedFlag); }
      if f.header.length > recvWindow { return Some(RecvWindowExceeded); }
      if f.body.Some? {
        readBuf := f.body.value;
      }
      recvWindow := recvWindow as int - f.header.length as int;
      e := None;
    }

    method HandleFrame(f: Frame) returns (e: Option<StreamError>)
      modifies `state, `recvWindow, `sendWindow, `readBuf
      ensures (Value(), e) == Spec.HandleFrame(old(Value()), f)
    {
      match f.header.ty
      case WindowUpdate => e := HandleWindowUpdate(f);
      case Data => e := HandleData(f);
      case _ => e := Some(InvalidMsgType);
    }

    method RecvFrames() returns (e: Option<StreamError>)
      modifies `state, `recvWindow, `sendWindow, `readBuf, `inbox
      ensures (Value(), inbox, e) == Spec.RecvFrames(hungUp, old(Value()), old(inbox))
    {
      while true
        invariant Spec.RecvFrames(hungUp, Value(), inbox) == Spec.RecvFrames(hungUp, old(Value()), old(inbox))
        decreases |inbox|
      {
        if state == RemoteClosing { return Some(SubStreamRemoteClosing); }
        if state == Reset || state == Closed { return Some(SessionShutdown); }
        if readBuf != [] { break; }
        if inbox == [] {
          if hungUp {
            state := RemoteClosing;
            return Some(SessionShutdown);
          }
          break;
        }
        var f := inbox[0];
        inbox := inbox[1..];
        var err := HandleFrame(f);
        if err.Some? { return err; }
      }
      e := None;
    }

    method PollRead(capacity: nat) returns (r: ReadResult)
      modifies `state, `recvWindow, `sendWindow, `readBuf, `inbox, `events
      ensures var o := Spec.PollRead(sessionUp, hungUp, old(Value()), old(inbox), capacity);
              Value() == o.stream && inbox == o.inbox && events == old(events) + o.events && r == o.result
    {
      if CheckSelfState(Value()).Some? { return CheckSelfState(Value()).value; }
      var e := RecvFrames();
      if IsProtocolError(e) {
        state := LocalClosing;
        var _ := SendEvent(EventGoAway);
        return InvalidData;
      }
      if CheckSelfState(Value()).Some? { return CheckSelfState(Value()).value; }
      var n := Min(capacity, |readBuf|);
      if n == 0 { return ReadPending; }
      var data := readBuf[..n];
      readBuf := readBuf[n..];
      if state != RemoteClosing && state != Closed && state != Reset {
        var ok := SendWindowUpdate();
        if !ok { return ReadBrokenPipe; }
      }
      r := ReadBytes(data);
    }

    method PollWrite(buf: seq<byte>) returns (r: WriteResult)
      modifies `state, `sendWindow, `events
      ensures var (s, evs, result) := Spec.PollWrite(sessionUp, old(Value()), buf);
              Value() == s && events == old(events) + evs && r == result
    {
      if state == Reset || state == LocalClosing || state == Closed { return WriteBrokenPipe; }
      if sendWindow == 0 { return WritePending; }
      var n := Min(sendWindow, |buf|);
      var flags := GetFlags();
      var ok := SendEvent(EventFrame(NewData(flags, id, buf[..n])));
      if ok {
        sendWindow := Sub32(sendWindow, n);
        r := Written(n);
      } else {
        r := WriteBrokenPipe;
      }
    }

    method Drop()
      modifies `state, `events
      ensures var (s, evs) := Dropping(sessionUp, old(Value())); Value() == s && events == old(events) + evs
    {
      if sessionUp && state != Closed {
        if state != LocalClosing && state != Reset {
          var flags := GetFlags();
          var _ := SendEvent(EventFrame(NewWindowUpdate(AddFlag(flags, Rst), id, 0)));
        }
        var _ := SendEvent(EventClosed(id));
      }
    }
  }
}
