/** One yamux substream as a value: its state machine, its two credit windows and its read buffer
    (tentacle/yamux/src/stream.rs). Every function here is one method of `StreamHandle`. */
module YamuxStream {
  import opened Common
  import opened YamuxFrame

  datatype StreamState =
    | Init | SynSent | SynReceived | Established | LocalClosing | RemoteClosing | Closed | Reset

  /** What a handle tells its session over the unbounded event channel. */
  datatype StreamEvent = EventFrame(frame: Frame) | EventClosed(id: StreamId) | EventGoAway

  datatype StreamError = UnexpectedFlag | RecvWindowExceeded | InvalidMsgType | SubStreamRemoteClosing | SessionShutdown

  datatype Stream = Stream(
    id: StreamId, state: StreamState, maxRecvWindow: u32, recvWindow: u32, sendWindow: u32, readBuf: seq<byte>)

  function NewStream(id: StreamId, state: StreamState, maxWindow: u32): Stream {
    Stream(id, state, maxWindow, INITIAL_STREAM_WINDOW, INITIAL_STREAM_WINDOW, [])
  }

  // ---------------------------------------------------------------- sending

  /** `unbounded_send`: fails, and sends nothing, once the session has dropped its receiver. */
  function Emit(up: bool, ev: StreamEvent): seq<StreamEvent> { if up then [ev] else [] }

  /** `get_flags`: the first frame of an opened stream carries SYN, the first one of an acknowledged stream ACK. */
  function TakeFlags(s: Stream): (Stream, Flags) {
    match s.state
    case Init => (s.(state := SynSent), Only(Syn))
    case SynReceived => (s.(state := Established), Only(Ack))
    case _ => (s, NO_FLAGS)
  }

  function SendWindowUpdate(up: bool, s: Stream): (Stream, seq<StreamEvent>, bool) {
    var delta := Sub32(Sub32(s.maxRecvWindow, |s.readBuf| % U32_SIZE), s.recvWindow);
    var (s1, flags) := TakeFlags(s);
    if delta < s.maxRecvWindow / 2 && flags == NO_FLAGS then (s1, [], true)
    else (s1.(recvWindow := Add32(s.recvWindow, delta)),
          Emit(up, EventFrame(NewWindowUpdate(flags, s.id, delta))), up)
  }

  function SendClose(up: bool, s: Stream): (Stream, seq<StreamEvent>) {
    var (s1, flags) := TakeFlags(s);
    (s1, Emit(up, EventFrame(NewWindowUpdate(AddFlag(flags, Fin), s.id, 0))))
  }

  /** `close`; it fails exactly when the session is gone. */
  function Close(up: bool, s: Stream): (Stream, seq<StreamEvent>) {
    match s.state
    case SynSent | SynReceived | Established | Init => SendClose(up, s.(state := LocalClosing))
    case RemoteClosing =>
      var (s1, evs) := SendClose(up, s.(state := Closed));
      (s1, evs + Emit(up, EventClosed(s.id)))
    case Reset | Closed | LocalClosing => (s.(state := Closed), Emit(up, EventClosed(s.id)))
  }

  datatype WriteResult = WriteBrokenPipe | WritePending | Written(n: nat)

  function PollWrite(up: bool, s: Stream, buf: seq<byte>): (Stream, seq<StreamEvent>, WriteResult) {
    if s.state.Reset? || s.state.LocalClosing? || s.state.Closed? then (s, [], WriteBrokenPipe)
    else if s.sendWindow == 0 then (s, [], WritePending)
    else
      var n := Min(s.sendWindow, |buf|);
      var (s1, flags) := TakeFlags(s);
      var evs := Emit(up, EventFrame(NewData(flags, s.id, buf[..n])));
      if up then (s1.(sendWindow := Sub32(s.sendWindow, n)), evs, Written(n))
      else (s1, evs, WriteBrokenPipe)
  }

  /** `drop`: a reset unless our end is already closed, then the Closed event; silent in state Closed. */
  function Dropping(up: bool, s: Stream): (Stream, seq<StreamEvent>) {
    if !up || s.state.Closed? then (s, [])
    else if s.state.LocalClosing? || s.state.Reset? then (s, [EventClosed(s.id)])
    else
      var (s1, flags) := TakeFlags(s);
      (s1, [EventFrame(NewWindowUpdate(AddFlag(flags, Rst), s.id, 0)), EventClosed(s.id)])
  }

  // ---------------------------------------------------------------- receiving

  function ProcessFlags(s: Stream, flags: Flags): (Stream, bool) {
    var s1 := if Contains(flags, Ack) && s.state.SynSent? then s.(state := SynReceived) else s;
    if Contains(flags, Fin) && (s1.state.RemoteClosing? || s1.state.Closed? || s1.state.Reset?) then (s1, false)
    else
      var s2 := if !Contains(flags, Fin) then s1
                else if s1.state.LocalClosing? then s1.(state := Closed)
                else s1.(state := RemoteClosing);
      (if Contains(flags, Rst) then s2.(state := Reset) else s2, true)
  }

  function HandleWindowUpdate(s: Stream, f: Frame): (Stream, Option<StreamError>) {
    var (s1, ok) := ProcessFlags(s, f.header.flags);
    if !ok then (s1, Some(UnexpectedFlag))
    else if s1.sendWindow as int + f.header.length as int >= U32_SIZE then (s1, Some(InvalidMsgType))
    else (s1.(sendWindow := s1.sendWindow as int + f.header.length as int), None)
  }

  function HandleData(s: Stream, f: Frame): (Stream, Option<StreamError>) {
    var (s1, ok) := ProcessFlags(s, f.header.flags);
    if !ok then (s1, Some(UnexpectedFlag))
    else if f.header.length > s1.recvWindow then (s1, Some(RecvWindowExceeded))
    else
      var s2 := if f.body.Some? then s1.(readBuf := f.body.value) else s1;
      (s2.(recvWindow := s1.recvWindow as int - f.header.length as int), None)
  }

  function HandleFrame(s: Stream, f: Frame): (Stream, Option<StreamError>) {
    match f.header.ty
    case WindowUpdate => HandleWindowUpdate(s, f)
    case Data => HandleData(s, f)
    case _ => (s, Some(InvalidMsgType))
  }

  /** The states in which `recv_frames` still takes frames from its channel. */
  predicate Receiving(s: Stream) { !s.state.RemoteClosing? && !s.state.Reset? && !s.state.Closed? }

  /** `recv_frames` on the channel content at the time of the poll; `hungUp` when the session dropped its sender. */
  function RecvFrames(hungUp: bool, s: Stream, inbox: seq<Frame>): (Stream, seq<Frame>, Option<StreamError>)
    decreases |inbox|
  {
    if s.state.RemoteClosing? then (s, inbox, Some(SubStreamRemoteClosing))
    else if s.state.Reset? || s.state.Closed? then (s, inbox, Some(SessionShutdown))
    else if s.readBuf != [] then (s, inbox, None)
    else if inbox == [] then
      if hungUp then (s.(state := RemoteClosing), inbox, Some(SessionShutdown)) else (s, inbox, None)
    else
      var (s1, e) := HandleFrame(s, inbox[0]);
      if e.Some? then (s1, inbox[1..], e) else RecvFrames(hungUp, s1, inbox[1..])
  }

  datatype ReadResult = Eof | ConnectionReset | InvalidData | ReadBrokenPipe | ReadPending | ReadBytes(data: seq<byte>)

  /** `check_self_state`: None means go on. */
  function CheckSelfState(s: Stream): Option<ReadResult> {
    if s.readBuf != [] then None
    else match s.state
      case RemoteClosing | Closed => Some(Eof)
      case Reset => Some(ConnectionReset)
      case _ => None
  }

  predicate IsProtocolError(e: Option<StreamError>) {
    e == Some(UnexpectedFlag) || e == Some(RecvWindowExceeded) || e == Some(InvalidMsgType)
  }

  datatype ReadOutcome = ReadOutcome(stream: Stream, inbox: seq<Frame>, events: seq<StreamEvent>, result: ReadResult)

  /** The copying half of `poll_read`: hand out at most `capacity` buffered bytes, then maybe update the window. */
  function CopyOut(up: bool, s: Stream, inbox: seq<Frame>, capacity: nat): ReadOutcome {
    var n := Min(capacity, |s.readBuf|);
    if n == 0 then ReadOutcome(s, inbox, [], ReadPending)
    else
      var data := s.readBuf[..n];
      var s1 := s.(readBuf := s.readBuf[n..]);
      if !Receiving(s) then ReadOutcome(s1, inbox, [], ReadBytes(data))
      else
        var (s2, evs, ok) := SendWindowUpdate(up, s1);
        ReadOutcome(s2, inbox, evs, if ok then ReadBytes(data) else ReadBrokenPipe)
  }

  function PollRead(up: bool, hungUp: bool, s: Stream, inbox: seq<Frame>, capacity: nat): ReadOutcome {
    if CheckSelfState(s).Some? then ReadOutcome(s, inbox, [], CheckSelfState(s).value)
    else
      var (s1, inbox1, e) := RecvFrames(hungUp, s, inbox);
      if IsProtocolError(e) then
        ReadOutcome(s1.(state := LocalClosing), inbox1, Emit(up, EventGoAway), InvalidData)
      else if CheckSelfState(s1).Some? then ReadOutcome(s1, inbox1, [], CheckSelfState(s1).value)
      else CopyOut(up, s1, inbox1, capacity)
  }

  // ---------------------------------------------------------------- sequences of frames

  predicate HasFlag(frames: seq<Frame>, flag: Flag)
  {
    exists k :: 0 <= k < |frames| && Contains(frames[k].header.flags, flag)
  }

  /** Bytes of data a sequence of frames carries. */
  function DataBytes(frames: seq<Frame>): nat {
    if frames == [] then 0
    else (if frames[0].header.ty.Data? then frames[0].header.length else 0) + DataBytes(frames[1..])
  }

  /** Window credit a sequence of frames carries. */
  function Credit(frames: seq<Frame>): nat {
    if frames == [] then 0
    else (if frames[0].header.ty.WindowUpdate? then frames[0].header.length else 0) + Credit(frames[1..])
  }

  function Bodies(frames: seq<Frame>): seq<byte> {
    if frames == [] then []
    else (if frames[0].body.Some? then frames[0].body.value else []) + Bodies(frames[1..])
  }

  /** A FIN rides on no data frame, and no data frame stands behind it. */
  predicate FinIsLast(frames: seq<Frame>) {
    forall j, k :: 0 <= j <= k < |frames| && Contains(frames[j].header.flags, Fin) ==> !frames[k].header.ty.Data?
  }

  lemma {:induction false} DataBytesConcat(a: seq<Frame>, b: seq<Frame>)
    ensures DataBytes(a + b) == DataBytes(a) + DataBytes(b)
  {
    if a == [] {
      assert a + b == b;
    } else {
      DataBytesConcat(a[1..], b);
      assert (a + b)[1..] == a[1..] + b;
    }
  }

  lemma {:induction false} CreditConcat(a: seq<Frame>, b: seq<Frame>)
    ensures Credit(a + b) == Credit(a) + Credit(b)
  {
    if a == [] {
      assert a + b == b;
    } else {
      CreditConcat(a[1..], b);
      assert (a + b)[1..] == a[1..] + b;
    }
  }

  lemma {:induction false} BodiesConcat(a: seq<Frame>, b: seq<Frame>)
    ensures Bodies(a + b) == Bodies(a) + Bodies(b)
  {
    if a == [] {
      assert a + b == b;
    } else {
      BodiesConcat(a[1..], b);
      assert (a + b)[1..] == a[1..] + b;
    }
  }

  /** A stream frame: data or window update, as the constructors build them. */
  predicate StreamFrame(f: Frame) {
    WellFormed(f) && (f.header.ty.Data? || f.header.ty.WindowUpdate?)
  }

  predicate StreamFrames(frames: seq<Frame>) { forall f :: f in frames ==> StreamFrame(f) }

  function EventFrames(evs: seq<StreamEvent>): seq<Frame> {
    if evs == [] then []
    else (if evs[0].EventFrame? then [evs[0].frame] else []) + EventFrames(evs[1..])
  }

  lemma {:induction false} EventFramesConcat(a: seq<StreamEvent>, b: seq<StreamEvent>)
    ensures EventFrames(a + b) == EventFrames(a) + EventFrames(b)
  {
    if a == [] {
      assert a + b == b;
    } else {
      var c := a + b;
      assert c[0] == a[0] && c[1..] == a[1..] + b;
      EventFramesConcat(a[1..], b);
      var one, rest := if a[0].EventFrame? then [a[0].frame] else [], EventFrames(a[1..]);
      assert EventFrames(a) == one + rest && EventFrames(c) == one + EventFrames(c[1..]);
      assert one + (rest + EventFrames(b)) == (one + rest) + EventFrames(b);
    }
  }

  lemma {:induction false} FromEventFrames(evs: seq<StreamEvent>, f: Frame)
    requires f in EventFrames(evs)
    ensures EventFrame(f) in evs
  {
    if evs != [] && !(evs[0].EventFrame? && evs[0].frame == f) { FromEventFrames(evs[1..], f); }
  }

  // ---------------------------------------------------------------- against an arbitrary peer

  /** The receive window never promises more than the buffer has room for. */
  predicate WindowInv(s: Stream) {
    INITIAL_STREAM_WINDOW <= s.maxRecvWindow && s.recvWindow as int + |s.readBuf| <= s.maxRecvWindow as int
  }

  /** Suppressed updates withhold less than half the maximum. */
  predicate HalfWindowInv(s: Stream) {
    Receiving(s) ==> s.maxRecvWindow as int - s.recvWindow as int - |s.readBuf| < s.maxRecvWindow as int / 2
  }

  /** What `send_window_update` announces, with no wrap-around. */
  function Owed(s: Stream): int { s.maxRecvWindow as int - |s.readBuf| - s.recvWindow as int }

  /** While the window bound holds, the two `u32` subtractions do not wrap and neither does the addition. */
  lemma UpdateIsExact(up: bool, s: Stream)
    requires WindowInv(s)
    ensures Sub32(Sub32(s.maxRecvWindow, |s.readBuf| % U32_SIZE), s.recvWindow) == Owed(s)
    ensures var (s', evs, ok) := SendWindowUpdate(up, s);
            if Owed(s) < s.maxRecvWindow as int / 2 && TakeFlags(s).1 == NO_FLAGS
            then (s', evs, ok) == (s, [], true)
            else && s' == TakeFlags(s).0.(recvWindow := s.recvWindow as int + Owed(s))
                 && evs == Emit(up, EventFrame(NewWindowUpdate(TakeFlags(s).1, s.id, Owed(s)))) && ok == up
  {
    assert |s.readBuf| % U32_SIZE == |s.readBuf|;
  }

  /** Afterwards the window is full, or short by less than half. */
  lemma UpdateKeepsWindow(up: bool, s: Stream)
    requires WindowInv(s)
    ensures WindowInv(SendWindowUpdate(up, s).0) && HalfWindowInv(SendWindowUpdate(up, s).0)
  {
    UpdateIsExact(up, s);
  }

  /** No peer can make a handle answer UnexpectedFlag: a second FIN is never looked at. */
  lemma {:induction false} FlagsNeverUnexpected(hungUp: bool, s: Stream, inbox: seq<Frame>)
    ensures RecvFrames(hungUp, s, inbox).2 != Some(UnexpectedFlag)
    decreases |inbox|
  {
    if Receiving(s) && s.readBuf == [] && inbox != [] {
      FlagsNeverUnexpected(hungUp, HandleFrame(s, inbox[0]).0, inbox[1..]);
    }
  }

  lemma HandleFrameConserves(s: Stream, f: Frame)
    requires StreamFrame(f) && WindowInv(s) && Receiving(s) && s.readBuf == []
    ensures var (s', e) := HandleFrame(s, f);
            && WindowInv(s') && Owed(s') == Owed(s) && s'.id == s.id && s'.maxRecvWindow == s.maxRecvWindow
            && (e.None? ==> s'.readBuf == Bodies([f]))
            && (e.Some? ==> IsProtocolError(e))
  {
    assert [f][1..] == [];
    var s1 := ProcessFlags(s, f.header.flags).0;
    assert s1 == s.(state := s1.state);
  }

  /** Taking frames off the channel loses no byte and keeps the window bound, whatever the peer sent;
      only a frame that breaks the protocol is thrown away. */
  lemma {:induction false} RecvFramesConserves(hungUp: bool, s: Stream, inbox: seq<Frame>)
    requires StreamFrames(inbox)
    requires WindowInv(s)
    ensures var (s', inbox', e) := RecvFrames(hungUp, s, inbox);
            && WindowInv(s') && Owed(s') == Owed(s) && s'.id == s.id && s'.maxRecvWindow == s.maxRecvWindow
            && StreamFrames(inbox') && |inbox'| <= |inbox| && inbox' == inbox[|inbox| - |inbox'|..]
            && (!IsProtocolError(e) ==> s.readBuf + Bodies(inbox) == s'.readBuf + Bodies(inbox'))
    decreases |inbox|
  {
    hide HandleFrame, StreamFrame;
    if Receiving(s) && s.readBuf == [] && inbox != [] {
      assert inbox[0] in inbox;
      assert StreamFrames(inbox[1..]);
      HandleFrameConserves(s, inbox[0]);
      var (s1, e) := HandleFrame(s, inbox[0]);
      if e.None? {
        RecvFramesConserves(hungUp, s1, inbox[1..]);
        assert [inbox[0]] + inbox[1..] == inbox;
        BodiesConcat([inbox[0]], inbox[1..]);
      }
    }
  }
}
