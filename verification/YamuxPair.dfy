/** One substream seen from both ends: the two handles and the frames on their way between them.
    The two sessions of `YamuxSystem` run many of these side by side. */
module YamuxPair {
  import opened Common
  import opened YamuxFrame
  import opened YamuxStream
  import opened YamuxHandle

  /** One end: the handle if this end ever created it, whether the session's table still holds its channel,
      whether the session is alive, and the configured window. */
  datatype Half = Half(handle: Option<Handle>, held: bool, up: bool, maxWindow: u32)

  /** `out` and `inn` are the frames sent by `me` and by `peer` that have not reached the other's channel yet.
      `clean` while neither session has sent or received a GoAway, seen the end of the connection or been dropped. */
  datatype Pair = Pair(me: Half, peer: Half, out: seq<Frame>, inn: seq<Frame>, clean: bool)

  /** The channel's sender is gone. */
  predicate HungUp(x: Half) { !x.held }

  function Flip(p: Pair): Pair { Pair(p.peer, p.me, p.inn, p.out, p.clean) }

  function Inbox(x: Half): seq<Frame> { if x.handle.Some? then x.handle.value.inbox else [] }

  /** Everything still to be processed by `x`, oldest first. */
  function Path(x: Half, coming: seq<Frame>): seq<Frame> { Inbox(x) + coming }

  function SendWindow(x: Half): int {
    if x.handle.Some? then x.handle.value.stream.sendWindow else INITIAL_STREAM_WINDOW
  }

  function RecvWindow(x: Half): int {
    if x.handle.Some? then x.handle.value.stream.recvWindow else INITIAL_STREAM_WINDOW
  }

  function WrittenBy(x: Half): seq<byte> { if x.handle.Some? then x.handle.value.written else [] }

  /** Bytes handed to the reader, then bytes buffered for it. */
  function ReceivedBy(x: Half): seq<byte> {
    if x.handle.Some? then x.handle.value.read + x.handle.value.stream.readBuf else []
  }

  /** This end processes what is sent to it: it takes frames, or the SYN that will create it is on its way. */
  predicate Live(x: Half, coming: seq<Frame>) {
    if x.handle.Some? then !x.handle.value.dropped && Receiving(x.handle.value.stream) else HasFlag(coming, Syn)
  }

  /** This end will never write again. */
  predicate DoneWriting(x: Half) {
    x.handle.Some? && (x.handle.value.dropped || ClosedForWriting(x.handle.value.stream))
  }

  // ---------------------------------------------------------------- the invariant

  predicate HalfInv(x: Half) {
    && INITIAL_STREAM_WINDOW <= x.maxWindow
    && (x.held ==> x.handle.Some? && x.up)
    && (x.handle.Some? ==>
          var h := x.handle.value;
          && HandleInv(x.up, h) && h.stream.maxRecvWindow == x.maxWindow
          && (x.up && !x.held ==> h.stream.state.Closed? || h.dropped))
  }

  /** Credit the sender holds, bytes on the way to the receiver, and credit on the way back. */
  function Outstanding(s: Half, r: Half, up: seq<Frame>, back: seq<Frame>): int {
    SendWindow(s) + DataBytes(Path(r, up)) + Credit(Path(s, back))
  }

  /** A SYN is the first frame of its direction, sent by the opener to an end that does not exist yet. */
  predicate SynInv(s: Half, r: Half, up: seq<Frame>) {
    && (forall k :: 0 < k < |up| ==> !Contains(up[k].header.flags, Syn))
    && (HasFlag(up, Syn) ==> r.handle.None? && s.handle.Some?)
  }

  /** What a session answers for a stream it does not create. */
  predicate Refusal(f: Frame) {
    f.header.ty.WindowUpdate? && f.header.length == 0 && f.body.None?
    && !Contains(f.header.flags, Syn) && !Contains(f.header.flags, Fin)
  }

  predicate QuietInv(s: Half, r: Half, up: seq<Frame>) {
    s.handle.None? ==> ReceivedBy(r) == [] && forall f :: f in Path(r, up) ==> Refusal(f)
  }

  /** The byte stream: what was written is what was received followed by what is on its way. */
  predicate BytesInv(s: Half, r: Half, up: seq<Frame>) {
    && (Live(r, up) ==> WrittenBy(s) == ReceivedBy(r) + Bodies(Path(r, up)))
    && ReceivedBy(r) <= WrittenBy(s)
  }

  /** A FIN, sent or taken, means the writer is done; once it is taken, everything written has been received. */
  predicate FinInv(s: Half, r: Half, up: seq<Frame>) {
    && FinIsLast(Path(r, up))
    && (HasFlag(Path(r, up), Fin) ==> DoneWriting(s))
    && (r.handle.Some? && r.handle.value.sawFin ==>
          DoneWriting(s) && ReceivedBy(r) == WrittenBy(s) && forall f :: f in Path(r, up) ==> !f.header.ty.Data?)
    && (r.handle.Some? && r.handle.value.stream.state.RemoteClosing? ==> r.handle.value.sawFin)
  }

  /** What holds of the direction from `s` to `r` whatever happens. */
  predicate SafeDir(s: Half, r: Half, up: seq<Frame>, back: seq<Frame>) {
    && StreamFrames(up)
    && Outstanding(s, r, up, back) <= RecvWindow(r)
    && SynInv(s, r, up)
    && QuietInv(s, r, up)
  }

  /** What holds of it besides while no session has gone away. */
  predicate CleanDir(s: Half, r: Half, up: seq<Frame>, back: seq<Frame>) {
    && (Live(s, back) && Live(r, up) ==> Outstanding(s, r, up, back) == RecvWindow(r))
    && BytesInv(s, r, up)
    && FinInv(s, r, up)
  }

  predicate DirInv(s: Half, r: Half, up: seq<Frame>, back: seq<Frame>, clean: bool) {
    SafeDir(s, r, up, back) && (clean ==> CleanDir(s, r, up, back))
  }

  predicate CoreInv(p: Pair) {
    && HalfInv(p.me) && HalfInv(p.peer)
    && (p.clean ==> p.me.up && p.peer.up)
    && DirInv(p.me, p.peer, p.out, p.inn, p.clean)
    && DirInv(p.peer, p.me, p.inn, p.out, p.clean)
  }

  // ---------------------------------------------------------------- sums over a growing or shrinking path

  lemma Append(a: seq<Frame>, f: Frame)
    ensures DataBytes(a + [f]) == DataBytes(a) + if f.header.ty.Data? then f.header.length else 0
    ensures Credit(a + [f]) == Credit(a) + if f.header.ty.WindowUpdate? then f.header.length else 0
    ensures Bodies(a + [f]) == Bodies(a) + if f.body.Some? then f.body.value else []
    ensures forall g :: g in a + [f] <==> g in a || g == f
  {
    DataBytesConcat(a, [f]);
    CreditConcat(a, [f]);
    BodiesConcat(a, [f]);
    assert [f][1..] == [];
    assert Bodies([f]) == (if f.body.Some? then f.body.value else []) + [];
  }

  lemma AppendFlag(a: seq<Frame>, f: Frame, flag: Flag)
    ensures HasFlag(a + [f], flag) <==> HasFlag(a, flag) || Contains(f.header.flags, flag)
  {
    var b := a + [f];
    if HasFlag(a, flag) {
      var k :| 0 <= k < |a| && Contains(a[k].header.flags, flag);
      assert Contains(b[k].header.flags, flag);
    }
    assert b[|a|] == f;
  }

  lemma Behead(a: seq<Frame>)
    requires a != []
    ensures DataBytes(a[1..]) <= DataBytes(a) && Credit(a[1..]) <= Credit(a)
    ensures FinIsLast(a) ==> FinIsLast(a[1..])
    ensures HasFlag(a[1..], Fin) ==> HasFlag(a, Fin)
    ensures HasFlag(a[1..], Syn) ==> exists k :: 0 < k < |a| && Contains(a[k].header.flags, Syn)
  {
    var b := a[1..];
    assert forall k :: 0 <= k < |b| ==> b[k] == a[k + 1];
    if HasFlag(b, Fin) {
      var k :| 0 <= k < |b| && Contains(b[k].header.flags, Fin);
      assert Contains(a[k + 1].header.flags, Fin);
    }
    if HasFlag(b, Syn) {
      var k :| 0 <= k < |b| && Contains(b[k].header.flags, Syn);
      assert Contains(a[k + 1].header.flags, Syn);
    }
  }

  // ---------------------------------------------------------------- steps of a session on one stream

  /** `create_stream(None)`: a fresh id is opened. */
  function Open(p: Pair, id: StreamId): Pair {
    var (h, evs) := Born(true, id, p.me.maxWindow);
    p.(me := p.me.(handle := Some(h), held := true), out := p.out + EventFrames(evs))
  }

  /** `create_stream(Some(id))` on a SYN, which then goes into the fresh channel. */
  function Accept(p: Pair, id: StreamId): Pair
    requires p.inn != []
  {
    var (h, evs) := Born(false, id, p.me.maxWindow);
    p.(me := p.me.(handle := Some(h.(inbox := [p.inn[0]])), held := true),
       inn := p.inn[1..], out := p.out + EventFrames(evs))
  }

  /** A SYN is turned down with a reset. */
  function Refuse(p: Pair, answer: Frame): Pair
    requires p.inn != []
  {
    p.(inn := p.inn[1..], out := p.out + [answer])
  }

  /** A frame goes into the channel. */
  function Deliver(p: Pair): Pair
    requires p.inn != [] && p.me.handle.Some?
  {
    var h := p.me.handle.value;
    p.(me := p.me.(handle := Some(h.(inbox := h.inbox + [p.inn[0]]))), inn := p.inn[1..])
  }

  /** A frame for a stream that is not in the table is thrown away. */
  function Discard(p: Pair): Pair
    requires p.inn != []
  {
    p.(inn := p.inn[1..])
  }

  lemma OpenKeeps(p: Pair, id: StreamId)
    requires CoreInv(p)
    requires p.me.handle.None? && p.peer.handle.None? && p.out == [] && p.inn == [] && p.me.up
    ensures CoreInv(Open(p, id))
  {
    BornInv(true, id, p.me.maxWindow);
    var syn := Born(true, id, p.me.maxWindow).0.sent[0];
    Append([], syn);
    AppendFlag([], syn, Syn);
    AppendFlag([], syn, Fin);
    assert p.out + [syn] == [] + [syn] == [syn];
    assert Path(p.peer, [syn]) == [syn];
  }

  /** The acceptor's direction after its birth: nothing written, the SYN's credit in its channel. */
  lemma AcceptOutward(s: Half, r: Half, up: seq<Frame>, back: seq<Frame>, clean: bool, s': Half, ack: Frame)
    requires DirInv(s, r, up, back, clean)
    requires s.handle.None? && back != [] && HasFlag(back, Syn)
    requires s'.handle.Some? && Inbox(s') == [back[0]]
    requires SendWindow(s') == SendWindow(s) && WrittenBy(s') == [] && StreamFrame(ack) && ack.header.flags == Only(Ack)
    requires ack.header.ty.WindowUpdate?
    ensures DirInv(s', r, up + [ack], back[1..], clean)
  {
    hide SafeDir, CleanDir;
    AcceptOutwardSafe(s, r, up, back, s', ack);
    if clean { AcceptOutwardClean(s, r, up, back, s', ack); }
  }

  lemma AcceptOutwardSafe(s: Half, r: Half, up: seq<Frame>, back: seq<Frame>, s': Half, ack: Frame)
    requires SafeDir(s, r, up, back) && s.handle.None? && back != [] && s'.handle.Some? && Inbox(s') == [back[0]]
    requires SendWindow(s') == SendWindow(s) && StreamFrame(ack) && ack.header.flags == Only(Ack)
    requires ack.header.ty.WindowUpdate?
    ensures SafeDir(s', r, up + [ack], back[1..])
    ensures Outstanding(s', r, up + [ack], back[1..]) == Outstanding(s, r, up, back)
  {
    hide Bodies, FinIsLast, Credit;
    AcceptedPath(Path(r, up), ack);
    assert Path(r, up + [ack]) == Path(r, up) + [ack];
    assert Path(s', back[1..]) == back == Path(s, back);
    AppendFlag(up, ack, Syn);
    assert forall f :: f in up + [ack] ==> f in up || f == ack;
  }

  lemma AcceptOutwardClean(s: Half, r: Half, up: seq<Frame>, back: seq<Frame>, s': Half, ack: Frame)
    requires SafeDir(s, r, up, back) && CleanDir(s, r, up, back)
    requires s.handle.None? && back != [] && HasFlag(back, Syn) && s'.handle.Some? && Inbox(s') == [back[0]]
    requires SendWindow(s') == SendWindow(s) && WrittenBy(s') == [] && StreamFrame(ack) && ack.header.flags == Only(Ack)
    requires ack.header.ty.WindowUpdate?
    ensures CleanDir(s', r, up + [ack], back[1..])
  {
    hide Outstanding, SynInv, StreamFrames, DataBytes, Credit, FinIsLast, StreamFrame, Bodies;
    AcceptOutwardSafe(s, r, up, back, s', ack);
    AcceptedPath(Path(r, up), ack);
    assert Path(r, up + [ack]) == Path(r, up) + [ack];
    AppendFlag(up, ack, Syn);
  }

  lemma AcceptedPath(path: seq<Frame>, ack: Frame)
    requires forall f :: f in path ==> Refusal(f)
    requires ack.header.ty.WindowUpdate? && ack.header.flags == Only(Ack) && StreamFrame(ack)
    ensures DataBytes(path) == DataBytes(path + [ack]) == 0 && Bodies(path) == Bodies(path + [ack]) == []
    ensures FinIsLast(path + [ack]) && !HasFlag(path + [ack], Fin)
  {
    RefusalsCarryNothing(path);
    Append(path, ack);
    AppendFlag(path, ack, Fin);
    NoFin(path + [ack]);
  }

  lemma NoFin(a: seq<Frame>)
    requires !HasFlag(a, Fin)
    ensures FinIsLast(a)
  {
  }

  lemma AcceptInward(s: Half, r: Half, up: seq<Frame>, back: seq<Frame>, clean: bool, r': Half, ack: Frame)
    requires DirInv(s, r, up, back, clean)
    requires r.handle.None? && up != [] && HasFlag(up, Syn)
    requires r'.handle.Some? && Inbox(r') == [up[0]] && ReceivedBy(r') == []
    requires !r'.handle.value.sawFin && r'.handle.value.stream.state.Established?
    requires ack.header.ty.WindowUpdate? && ack.header.length as int == RecvWindow(r') - RecvWindow(r)
    requires ack.header.flags == Only(Ack)
    ensures DirInv(s, r', up[1..], back + [ack], clean)
  {
    Behead(up);
    assert Path(r', up[1..]) == up == Path(r, up);
    assert Path(s, back + [ack]) == Path(s, back) + [ack];
    Append(Path(s, back), ack);
    AppendFlag(back, ack, Syn);
    assert forall f :: f in up[1..] ==> f in up;
    assert s.handle.Some?;
  }

  lemma AcceptKeeps(p: Pair, id: StreamId)
    requires CoreInv(p)
    requires p.me.handle.None? && p.me.up && p.inn != [] && Contains(p.inn[0].header.flags, Syn)
    ensures CoreInv(Accept(p, id))
  {
    BornInv(false, id, p.me.maxWindow);
    var (h, evs) := Born(false, id, p.me.maxWindow);
    var ack := evs[0].frame;
    var p' := Accept(p, id);
    assert HasFlag(p.inn, Syn);
    AcceptOutward(p.me, p.peer, p.out, p.inn, p.clean, p'.me, ack);
    AcceptInward(p.peer, p.me, p.inn, p.out, p.clean, p'.me, ack);
  }

  lemma RefuseKeeps(p: Pair, answer: Frame)
    requires CoreInv(p)
    requires p.me.handle.None? && p.inn != [] && Contains(p.inn[0].header.flags, Syn)
    requires Refusal(answer) && StreamFrame(answer)
    ensures CoreInv(Refuse(p, answer))
  {
    RefuseOutward(p.me, p.peer, p.out, p.inn, p.clean, answer);
    DiscardInward(p.peer, p.me, p.inn, p.out, p.clean, p.me);
    GrowBack(p.peer, p.me, p.inn[1..], p.out, p.clean, answer);
  }

  lemma RefuseOutwardSafe(s: Half, r: Half, up: seq<Frame>, back: seq<Frame>, answer: Frame)
    requires SafeDir(s, r, up, back) && s.handle.None? && back != [] && Refusal(answer) && StreamFrame(answer)
    ensures SafeDir(s, r, up + [answer], back[1..])
  {
    hide Bodies, HasFlag, FinIsLast;
    Behead(back);
    assert Path(s, back) == back && Path(s, back[1..]) == back[1..];
    assert Path(r, up + [answer]) == Path(r, up) + [answer];
    Append(Path(r, up), answer);
    AppendFlag(up, answer, Syn);
    assert forall f :: f in up + [answer] ==> f in up || f == answer;
  }

  lemma RefuseOutwardClean(s: Half, r: Half, up: seq<Frame>, back: seq<Frame>, answer: Frame)
    requires SafeDir(s, r, up, back) && CleanDir(s, r, up, back) && s.handle.None? && back != []
    requires forall k :: 0 < k < |back| ==> !Contains(back[k].header.flags, Syn)
    requires Refusal(answer) && StreamFrame(answer)
    ensures CleanDir(s, r, up + [answer], back[1..])
  {
    hide Outstanding, SynInv, StreamFrames;
    assert !Live(s, back[1..]);
    assert Path(r, up + [answer]) == Path(r, up) + [answer];
    Append(Path(r, up), answer);
    AppendFlag(Path(r, up), answer, Fin);
    AppendFlag(up, answer, Syn);
    RefusalsCarryNothing(Path(r, up));
  }

  lemma RefuseOutward(s: Half, r: Half, up: seq<Frame>, back: seq<Frame>, clean: bool, answer: Frame)
    requires DirInv(s, r, up, back, clean) && s.handle.None? && back != []
    requires forall k :: 0 < k < |back| ==> !Contains(back[k].header.flags, Syn)
    requires Refusal(answer) && StreamFrame(answer)
    ensures DirInv(s, r, up + [answer], back[1..], clean)
  {
    hide SafeDir, CleanDir;
    RefuseOutwardSafe(s, r, up, back, answer);
    if clean { RefuseOutwardClean(s, r, up, back, answer); }
  }

  /** The head of what is coming to an end that does not process it is thrown away. */
  lemma DiscardInward(s: Half, r: Half, up: seq<Frame>, back: seq<Frame>, clean: bool, r': Half)
    requires DirInv(s, r, up, back, clean)
    requires up != [] && (r.handle.Some? ==> !Live(r, up)) && r'.handle == r.handle
    ensures DirInv(s, r', up[1..], back, clean)
  {
    Behead(up);
    ShortenPath(Inbox(r), up);
    assert forall f :: f in up[1..] ==> f in up;
    assert forall f :: f in Path(r, up[1..]) ==> f in Path(r, up);
  }

  lemma ShortenPath(a: seq<Frame>, b: seq<Frame>)
    requires b != []
    ensures DataBytes(a + b[1..]) <= DataBytes(a + b) && Credit(a + b[1..]) <= Credit(a + b)
    ensures FinIsLast(a + b) ==> FinIsLast(a + b[1..])
    ensures HasFlag(a + b[1..], Fin) ==> HasFlag(a + b, Fin)
  {
    DataBytesConcat(a, b);
    DataBytesConcat(a, b[1..]);
    CreditConcat(a, b);
    CreditConcat(a, b[1..]);
    var c, d := a + b, a + b[1..];
    assert forall k :: 0 <= k < |d| ==> d[k] == c[if k < |a| then k else k + 1];
    if HasFlag(d, Fin) {
      var k :| 0 <= k < |d| && Contains(d[k].header.flags, Fin);
      assert Contains(c[if k < |a| then k else k + 1].header.flags, Fin);
    }
    if FinIsLast(c) {
      forall j, k | 0 <= j <= k < |d| && Contains(d[j].header.flags, Fin) ensures !d[k].header.ty.Data? {
        var j', k' := if j < |a| then j else j + 1, if k < |a| then k else k + 1;
        assert c[j'] == d[j] && c[k'] == d[k];
      }
    }
  }

  /** A frame without credit joins the way back. */
  lemma GrowBack(s: Half, r: Half, up: seq<Frame>, back: seq<Frame>, clean: bool, f: Frame)
    requires DirInv(s, r, up, back, clean)
    requires f.header.ty.WindowUpdate? ==> f.header.length == 0
    requires !Contains(f.header.flags, Syn)
    ensures DirInv(s, r, up, back + [f], clean)
  {
    assert Path(s, back + [f]) == Path(s, back) + [f];
    Append(Path(s, back), f);
    AppendFlag(back, f, Syn);
  }

  lemma DiscardKeeps(p: Pair)
    requires CoreInv(p)
    requires p.me.up && !p.me.held && p.inn != [] && !Contains(p.inn[0].header.flags, Syn)
    ensures CoreInv(Discard(p))
  {
    DiscardInward(p.peer, p.me, p.inn, p.out, p.clean, p.me);
    LoseBack(p.me, p.peer, p.out, p.inn, p.clean, p.me);
  }

  /** The head of what is coming back to a sender that does not process it is thrown away. */
  lemma LoseBack(s: Half, r: Half, up: seq<Frame>, back: seq<Frame>, clean: bool, s': Half)
    requires DirInv(s, r, up, back, clean)
    requires back != [] && s'.handle == s.handle
    requires if s.handle.Some? then !Live(s, back)
             else forall k :: 0 <= k < |back| ==> !Contains(back[k].header.flags, Syn)
    ensures DirInv(s', r, up, back[1..], clean)
  {
    Behead(back);
    ShortenPath(Inbox(s), back);
  }

  lemma InboxGrows(up: bool, h: Handle, f: Frame)
    requires HandleInv(up, h) && StreamFrame(f)
    ensures HandleInv(up, h.(inbox := h.inbox + [f]))
  {
  }

  /** A frame moves from the way to `r` into its channel. */
  lemma DeliverInward(s: Half, r: Half, up: seq<Frame>, back: seq<Frame>, clean: bool, r': Half)
    requires DirInv(s, r, up, back, clean) && up != []
    requires r.handle.Some? && r'.handle == Some(r.handle.value.(inbox := r.handle.value.inbox + [up[0]]))
    ensures DirInv(s, r', up[1..], back, clean)
  {
    hide DataBytes, Credit, Bodies, FinIsLast, StreamFrame;
    assert Path(r', up[1..]) == Path(r, up);
    Behead(up);
    assert forall f :: f in up[1..] ==> f in up;
    assert !HasFlag(up[1..], Syn);
  }

  lemma DeliverOutward(s: Half, r: Half, up: seq<Frame>, back: seq<Frame>, clean: bool, s': Half)
    requires DirInv(s, r, up, back, clean) && back != []
    requires s.handle.Some? && s'.handle == Some(s.handle.value.(inbox := s.handle.value.inbox + [back[0]]))
    ensures DirInv(s', r, up, back[1..], clean)
  {
    assert Path(s', back[1..]) == Path(s, back);
  }

  lemma DeliverKeeps(p: Pair)
    requires CoreInv(p)
    requires p.me.held && !p.me.handle.value.dropped && p.inn != []
    ensures CoreInv(Deliver(p))
  {
    assert p.inn[0] in p.inn;
    InboxGrows(p.me.up, p.me.handle.value, p.inn[0]);
    DeliverInward(p.peer, p.me, p.inn, p.out, p.clean, Deliver(p).me);
    DeliverOutward(p.me, p.peer, p.out, p.inn, p.clean, Deliver(p).me);
  }

  /** The sender's end of a dropped handle's channel answers "disconnected": the frame is lost, the entry removed. */
  function Disconnect(p: Pair): Pair
    requires p.inn != []
  {
    p.(me := p.me.(held := false), inn := p.inn[1..])
  }

  lemma DisconnectKeeps(p: Pair)
    requires CoreInv(p)
    requires p.me.held && p.me.handle.value.dropped && p.inn != []
    ensures CoreInv(Disconnect(p))
  {
    DiscardInward(p.peer, p.me, p.inn, p.out, p.clean, Disconnect(p).me);
    LoseBack(p.me, p.peer, p.out, p.inn, p.clean, Disconnect(p).me);
  }

  /** The Closed event of the handle removes its entry. */
  function Forget(p: Pair): Pair { p.(me := p.me.(held := false)) }

  lemma ForgetKeeps(p: Pair)
    requires CoreInv(p)
    requires p.me.handle.Some? && (p.me.handle.value.stream.state.Closed? || p.me.handle.value.dropped)
    ensures CoreInv(Forget(p))
  {
  }

  /** From now on nothing is claimed but safety. */
  function Soil(p: Pair): Pair { p.(clean := false) }

  lemma SoilKeeps(p: Pair)
    requires CoreInv(p)
    ensures CoreInv(Soil(p))
  {
  }

  /** A stretch of the outgoing frames is thrown away, as when GoAway clears the write queue. */
  lemma LoseOutKeeps(p: Pair, a: seq<Frame>, b: seq<Frame>, c: seq<Frame>)
    requires CoreInv(p) && !p.clean && p.out == a + b + c
    ensures CoreInv(p.(out := a + c))
  {
    LoseStretch(p.me, p.peer, p.inn, a, b, c);
    LoseStretchBack(p.peer, p.me, p.inn, a, b, c);
  }

  lemma LoseStretch(s: Half, r: Half, back: seq<Frame>, a: seq<Frame>, b: seq<Frame>, c: seq<Frame>)
    requires DirInv(s, r, a + b + c, back, false)
    ensures DirInv(s, r, a + c, back, false)
  {
    hide DataBytes, Credit;
    CutPath(Inbox(r), a, b, c);
    var old', new' := a + b + c, a + c;
    forall k | 0 < k < |new'| ensures !Contains(new'[k].header.flags, Syn) {
      assert new'[k] == old'[if k < |a| then k else k + |b|];
    }
    if HasFlag(new', Syn) {
      var k :| 0 <= k < |new'| && Contains(new'[k].header.flags, Syn);
      assert new'[k] == old'[if k < |a| then k else k + |b|];
    }
  }

  lemma LoseStretchBack(s: Half, r: Half, up: seq<Frame>, a: seq<Frame>, b: seq<Frame>, c: seq<Frame>)
    requires DirInv(s, r, up, a + b + c, false)
    ensures DirInv(s, r, up, a + c, false)
  {
    CutPath(Inbox(s), a, b, c);
  }

  lemma CutPath(i: seq<Frame>, a: seq<Frame>, b: seq<Frame>, c: seq<Frame>)
    ensures DataBytes(i + (a + c)) <= DataBytes(i + (a + b + c)) && Credit(i + (a + c)) <= Credit(i + (a + b + c))
    ensures forall f :: f in i + (a + c) ==> f in i + (a + b + c)
  {
    DataBytesConcat(i, a + c);
    DataBytesConcat(a, c);
    DataBytesConcat(i, a + b + c);
    DataBytesConcat(a + b, c);
    DataBytesConcat(a, b);
    CreditConcat(i, a + c);
    CreditConcat(a, c);
    CreditConcat(i, a + b + c);
    CreditConcat(a + b, c);
    CreditConcat(a, b);
  }

  /** The session is dropped: its table goes, its handles' events go nowhere. */
  function End(p: Pair): Pair { p.(me := p.me.(held := false, up := false), clean := false) }

  lemma EndKeeps(p: Pair)
    requires CoreInv(p)
    ensures CoreInv(End(p))
  {
  }

  lemma {:induction false} RefusalsCarryNothing(a: seq<Frame>)
    requires forall f :: f in a ==> Refusal(f)
    ensures DataBytes(a) == 0 && Credit(a) == 0 && Bodies(a) == []
    ensures !HasFlag(a, Syn) && !HasFlag(a, Fin)
  {
    if a != [] {
      assert Refusal(a[0]);
      assert forall f :: f in a[1..] ==> f in a;
      RefusalsCarryNothing(a[1..]);
    }
    assert forall k :: 0 <= k < |a| ==> a[k] in a;
  }
}
