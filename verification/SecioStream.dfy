/** The encrypted byte stream (tentacle/secio/src/codec/secure_stream.rs) over the stream ciphers
    (tentacle/secio/src/crypto/openssl_impl.rs, ring_impl.rs), for any authenticated cipher. */
module SecioStream {
  import opened Common
  import opened SecioNonce

  type Bytes = seq<byte>

  /** An authenticated cipher: key, nonce and plaintext give ciphertext and tag; opening may fail. */
  datatype Aead = Aead(tagSize: nat, seal: (Bytes, Bytes, Bytes) -> (Bytes, Bytes),
                       open: (Bytes, Bytes, Bytes, Bytes) -> Option<Bytes>)

  /** Opening under the same key and nonce gives back what was sealed; tags have the announced size. */
  ghost predicate Inverts(x: Aead) {
    forall key, nonce, m ::
      var (c, tag) := x.seal(key, nonce, m);
      |tag| == x.tagSize && x.open(key, nonce, c, tag) == Some(m)
  }

  // ---------------------------------------------------------------- ciphers

  /** The frame for `m` under a given nonce. */
  function Sealed(x: Aead, key: Bytes, nonce: Bytes, m: Bytes): Bytes {
    var (c, tag) := x.seal(key, nonce, m);
    c + tag
  }

  function Opened(x: Aead, key: Bytes, nonce: Bytes, frame: Bytes): Option<Bytes>
    requires |frame| >= x.tagSize
  {
    var n := |frame| - x.tagSize;
    x.open(key, nonce, frame[..n], frame[n..])
  }

  /** `decrypt` advances the nonce before it looks at the frame; `decrypt_in_place` refuses a frame shorter than a tag
      first. The nonce afterwards and the plaintext. */
  function Decrypt(x: Aead, inPlace: bool, key: Bytes, iv: Bytes, frame: Bytes): (Bytes, Option<Bytes>) {
    var next := Advanced(iv);
    if |frame| < x.tagSize then (if inPlace then iv else next, None)
    else (next, Opened(x, key, next, frame))
  }

  lemma SealedOpens(x: Aead, inPlace: bool, key: Bytes, iv: Bytes, m: Bytes)
    requires Inverts(x)
    ensures Decrypt(x, inPlace, key, iv, Sealed(x, key, Advanced(iv), m)) == (Advanced(iv), Some(m))
  {
    var (c, tag) := x.seal(key, Advanced(iv), m);
    assert (c + tag)[..|c|] == c && (c + tag)[|c|..] == tag;
  }

  // ---------------------------------------------------------------- the stream

  /** The two kinds of receive buffer. */
  datatype RecvBuf = VecBuf(bytes: Bytes) | ByteBuf(bytes: Bytes)

  /** The reading half: kind of decryption, key, nonce and unread plaintext. */
  datatype Reader = Reader(inPlace: bool, key: Bytes, iv: Bytes, buf: RecvBuf)

  datatype Writer = Writer(key: Bytes, iv: Bytes)

  /** What the framed transport answers when asked for a frame. */
  datatype SocketAnswer = Arrived(frame: Bytes) | SocketPending | SocketFailed | SocketEnded

  datatype ReadResult = GotBytes(bytes: Bytes) | ReadPending | ReadFailed

  /** What the framed transport answers when asked to take a frame. */
  datatype SinkAnswer = SinkReady | SinkPending | SinkFailed

  datatype WriteResult = Wrote(length: nat, frame: Bytes) | WritePending | WriteFailed

  function NewBuf(inPlace: bool, bytes: Bytes): RecvBuf { if inPlace then ByteBuf(bytes) else VecBuf(bytes) }

  /** `drain`: what is copied out and the buffer afterwards. */
  function Drain(buf: RecvBuf, remaining: nat): (Bytes, RecvBuf) {
    var n := Min(remaining, |buf.bytes|);
    (buf.bytes[..n], buf.(bytes := buf.bytes[n..]))
  }

  /** `poll_read` into a destination with `remaining` free bytes. */
  function PollRead(x: Aead, r: Reader, remaining: nat, answer: SocketAnswer): (Reader, ReadResult) {
    var (copied, buf) := Drain(r.buf, remaining);
    if copied != [] then (r.(buf := buf), GotBytes(copied))
    else match answer
      case Arrived(frame) => ReadFrame(x, r, remaining, frame)
      case SocketPending => (r, ReadPending)
      case SocketFailed | SocketEnded => (r, ReadFailed)
  }

  /** The part of `poll_read` after a frame has arrived. */
  function ReadFrame(x: Aead, r: Reader, remaining: nat, frame: Bytes): (Reader, ReadResult) {
    var (iv, decoded) := Decrypt(x, r.inPlace, r.key, r.iv, frame);
    if decoded.None? then (r.(iv := iv), ReadFailed)
    else if remaining >= |decoded.value| then (r.(iv := iv), GotBytes(decoded.value))
    else
      var (out, buf) := Drain(NewBuf(r.inPlace, decoded.value), remaining);
      (r.(iv := iv, buf := buf), GotBytes(out))
  }

  /** `poll_write`: what the writer is told it may forget is never more than it gave. */
  function PollWrite(x: Aead, w: Writer, m: Bytes, answer: SinkAnswer): (r: (Writer, WriteResult))
    ensures r.1.Wrote? ==> r.1.length <= |m|
  {
    match answer
    case SinkReady => (w.(iv := Advanced(w.iv)), Wrote(|m|, Sealed(x, w.key, Advanced(w.iv), m)))
    case SinkPending => (w, WritePending)
    case SinkFailed => (w, WriteFailed)
  }

  /** What a reader is told: bytes it did not take last time come first and leave the transport alone; otherwise the
      next frame decides, opened with the next nonce. */
  lemma ReadAnswers(x: Aead, r: Reader, remaining: nat, answer: SocketAnswer)
    ensures var (r', result) := PollRead(x, r, remaining, answer);
            var n := Min(remaining, |r.buf.bytes|);
            if n > 0 then
              && result == GotBytes(r.buf.bytes[..n])
              && r' == r.(buf := r'.buf) && r'.buf.bytes == r.buf.bytes[n..]
            else match answer
              case SocketPending => result == ReadPending && r' == r
              case SocketFailed | SocketEnded => result == ReadFailed && r' == r
              case Arrived(frame) =>
                var short := |frame| < x.tagSize;
                && r'.iv == (if short && r.inPlace then r.iv else Advanced(r.iv))
                && (result == ReadFailed <==> short || Opened(x, r.key, Advanced(r.iv), frame).None?)
                && (!short && Opened(x, r.key, Advanced(r.iv), frame).Some? ==>
                      var m := Opened(x, r.key, Advanced(r.iv), frame).value;
                      && result == GotBytes(m[..Min(remaining, |m|)])
                      && (remaining < |m| ==> r'.buf.bytes == m[remaining..]))
  {
    var (out, buf) := Drain(r.buf, remaining);
    assert |out| == Min(remaining, |r.buf.bytes|);
    if out == [] && answer.Arrived? && |answer.frame| >= x.tagSize {
      var m := Opened(x, r.key, Advanced(r.iv), answer.frame);
      if m.Some? { assert m.value[..|m.value|] == m.value; }
    }
  }

  /** What a writer is told: all of its bytes when the transport takes the frame, and nothing is sealed otherwise. */
  lemma WriteAnswers(x: Aead, w: Writer, m: Bytes, answer: SinkAnswer)
    ensures var (w', result) := PollWrite(x, w, m, answer);
            && (answer == SinkReady <==> result.Wrote?) && (answer == SinkFailed <==> result == WriteFailed)
            && (result.Wrote? ==> result.length == |m| && result.frame == Sealed(x, w.key, w'.iv, m))
            && w'.iv == (if result.Wrote? then Advanced(w.iv) else w.iv) && w'.key == w.key
  {
  }

  // ---------------------------------------------------------------- two ends

  /** One direction between two peers. `wire` are the frames under way and `sealed` what was sealed into them; `written`
      are the bytes the writer was told it has written, `read` those handed to the reader; `failed` once a read or a
      write failed for another reason than the transport. */
  datatype Link = Link(writer: Writer, reader: Reader, wire: seq<Bytes>, sealed: seq<Bytes>,
                       written: Bytes, read: Bytes, failed: bool)

  datatype Move = Write(m: Bytes, sink: SinkAnswer) | Read(remaining: nat, quiet: bool, broken: bool)

  function NewLink(inPlace: bool, key: Bytes, iv: Bytes): Link {
    Link(Writer(key, iv), Reader(inPlace, key, iv, NewBuf(inPlace, [])), [], [], [], [], false)
  }

  function Advance(x: Aead, l: Link, move: Move): Link {
    match move
    case Write(m, sink) =>
      var (w, result) := PollWrite(x, l.writer, m, sink);
      if result.Wrote? then
        l.(writer := w, wire := l.wire + [result.frame], sealed := l.sealed + [m],
           written := l.written + m[..result.length])
      else l.(writer := w, failed := l.failed || (result.WriteFailed? && sink != SinkFailed))
    case Read(remaining, quiet, broken) =>
      var answer := if broken then SocketFailed else if quiet || l.wire == [] then SocketPending
          else Arrived(l.wire[0]);
      var (r, result) := PollRead(x, l.reader, remaining, answer);
      var taken := answer.Arrived? && Drain(l.reader.buf, remaining).0 == [];
      var l1 := l.(reader := r, read := l.read + if result.GotBytes? then result.bytes else [],
                   failed := l.failed || (result.ReadFailed? && !broken));
      if taken then l1.(wire := l.wire[1..], sealed := if l.sealed == [] then [] else l.sealed[1..]) else l1
  }

  function Run(x: Aead, start: Link, moves: seq<Move>): Link
    decreases |moves|
  {
    if moves == [] then start else Advance(x, Run(x, start, moves[..|moves| - 1]), moves[|moves| - 1])
  }

  function Flat(parts: seq<Bytes>): Bytes {
    if parts == [] then [] else parts[0] + Flat(parts[1..])
  }

  /** Frame `k` under way was sealed with the nonce the reader will have reached when it takes that frame. */
  predicate LockStep(x: Aead, l: Link) {
    && l.writer.key == l.reader.key
    && |l.wire| == |l.sealed|
    && l.writer.iv == After(l.reader.iv, |l.wire|)
    && forall k :: 0 <= k < |l.wire| ==> l.wire[k] == Sealed(x, l.reader.key, After(l.reader.iv, k + 1), l.sealed[k])
  }

  /** Nothing lost, nothing added, nothing reordered. */
  predicate Conserved(l: Link) {
    l.written == l.read + l.reader.buf.bytes + Flat(l.sealed)
  }

  // ---------------------------------------------------------------- proofs

  lemma {:induction false} FlatAppend(parts: seq<Bytes>, m: Bytes)
    ensures Flat(parts + [m]) == Flat(parts) + m
  {
    if parts == [] {
      assert parts + [m] == [m] && Flat([m]) == m + [];
    } else {
      FlatAppend(parts[1..], m);
      assert (parts + [m])[1..] == parts[1..] + [m];
    }
  }

  lemma {:induction false} AfterShifts(s: Bytes, k: nat)
    ensures After(Advanced(s), k) == After(s, k + 1)
  {
    if k > 0 { AfterShifts(s, k - 1); }
  }

  lemma WriteKeepsLockStep(x: Aead, l: Link, m: Bytes, sink: SinkAnswer)
    requires LockStep(x, l)
    ensures LockStep(x, Advance(x, l, Write(m, sink))) && Advance(x, l, Write(m, sink)).failed == l.failed
  {
  }

  lemma WriteConserves(x: Aead, l: Link, m: Bytes, sink: SinkAnswer)
    requires Conserved(l)
    ensures Conserved(Advance(x, l, Write(m, sink)))
  {
    FlatAppend(l.sealed, m);
    assert m[..|m|] == m;
  }

  lemma FrontOpens(x: Aead, l: Link)
    requires Inverts(x) && LockStep(x, l) && l.wire != []
    ensures Decrypt(x, l.reader.inPlace, l.reader.key, l.reader.iv, l.wire[0]) ==
            (Advanced(l.reader.iv), Some(l.sealed[0]))
  {
    var iv := l.reader.iv;
    assert After(iv, 0) == iv;
    assert After(iv, 1) == Advanced(After(iv, 0));
    assert l.wire[0] == Sealed(x, l.reader.key, After(iv, 0 + 1), l.sealed[0]);
    SealedOpens(x, l.reader.inPlace, l.reader.key, iv, l.sealed[0]);
  }

  /** The link after the reader has taken the front frame. */
  function Taken(l: Link, remaining: nat): Link
    requires l.wire != [] && |l.wire| == |l.sealed|
  {
    var m := l.sealed[0];
    var n := Min(remaining, |m|);
    var buf := if remaining >= |m| then l.reader.buf else NewBuf(l.reader.inPlace, m[n..]);
    l.(reader := l.reader.(iv := Advanced(l.reader.iv), buf := buf), read := l.read + m[..n],
       wire := l.wire[1..], sealed := l.sealed[1..])
  }

  lemma FrontIsTaken(x: Aead, l: Link, remaining: nat)
    requires Inverts(x) && LockStep(x, l) && l.wire != [] && (remaining == 0 || l.reader.buf.bytes == [])
    ensures Advance(x, l, Read(remaining, false, false)) == Taken(l, remaining)
  {
    FrontOpens(x, l);
    var m := l.sealed[0];
    if remaining >= |m| { assert m[..|m|] == m; }
    assert Drain(l.reader.buf, remaining).0 == [];
    assert ReadFrame(x, l.reader, remaining, l.wire[0]) == (Taken(l, remaining).reader,
           GotBytes(m[..Min(remaining, |m|)]));
  }

  lemma TakenKeepsLockStep(x: Aead, l: Link, remaining: nat)
    requires LockStep(x, l) && l.wire != []
    ensures LockStep(x, Taken(l, remaining))
  {
    var l' := Taken(l, remaining);
    AfterShifts(l.reader.iv, |l.wire| - 1);
    forall k | 0 <= k < |l'.wire|
      ensures l'.wire[k] == Sealed(x, l'.reader.key, After(l'.reader.iv, k + 1), l'.sealed[k])
    {
      assert l.wire[k + 1] == Sealed(x, l.reader.key, After(l.reader.iv, k + 1 + 1), l.sealed[k + 1]);
      AfterShifts(l.reader.iv, k + 1);
    }
  }

  /** A read that does not take a frame from the transport. */
  lemma NothingTaken(x: Aead, l: Link, remaining: nat, quiet: bool, broken: bool)
    requires (remaining > 0 && l.reader.buf.bytes != []) || broken || quiet || l.wire == []
    ensures var (out, buf) := Drain(l.reader.buf, remaining);
            Advance(x, l, Read(remaining, quiet, broken)) == l.(reader := l.reader.(buf := buf), read := l.read + out)
  {
    var bytes := l.reader.buf.bytes;
    var n := Min(remaining, |bytes|);
    assert n == 0 ==> bytes[n..] == bytes && l.read + bytes[..n] == l.read;
  }

  lemma ReadKeepsLockStep(x: Aead, l: Link, remaining: nat, quiet: bool, broken: bool)
    requires Inverts(x) && LockStep(x, l)
    ensures LockStep(x, Advance(x, l, Read(remaining, quiet, broken)))
    ensures Advance(x, l, Read(remaining, quiet, broken)).failed == l.failed
  {
    if (remaining > 0 && l.reader.buf.bytes != []) || broken || quiet || l.wire == [] {
      NothingTaken(x, l, remaining, quiet, broken);
    } else {
      FrontIsTaken(x, l, remaining);
      TakenKeepsLockStep(x, l, remaining);
    }
  }

  /** The one read that loses bytes: no room at the destination, unread plaintext waiting, and a frame that has some
      more. */
  predicate Overwrites(l: Link, remaining: nat, quiet: bool, broken: bool) {
    remaining == 0 && l.reader.buf.bytes != [] && !broken && !quiet && l.sealed != [] && l.sealed[0] != []
  }

  /** A read conserves the byte stream exactly when it is not one of those. */
  lemma ReadConserves(x: Aead, l: Link, remaining: nat, quiet: bool, broken: bool)
    requires Inverts(x) && LockStep(x, l) && Conserved(l)
    ensures Conserved(Advance(x, l, Read(remaining, quiet, broken))) <==> !Overwrites(l, remaining, quiet, broken)
  {
    if (remaining > 0 && l.reader.buf.bytes != []) || broken || quiet || l.wire == [] {
      NothingTaken(x, l, remaining, quiet, broken);
      DrainConserves(l.read, l.reader.buf, remaining, Flat(l.sealed));
    } else {
      FrontIsTaken(x, l, remaining);
      TakenConserves(l, remaining);
    }
  }

  lemma DrainConserves(read: Bytes, buf: RecvBuf, remaining: nat, rest: Bytes)
    ensures var (out, buf') := Drain(buf, remaining); (read + out) + buf'.bytes + rest == read + buf.bytes + rest
  {
    var (out, buf') := Drain(buf, remaining);
    assert buf.bytes == out + buf'.bytes;
  }

  lemma TakenConserves(l: Link, remaining: nat)
    requires l.wire != [] && |l.wire| == |l.sealed| && Conserved(l) && (remaining == 0 || l.reader.buf.bytes == [])
    ensures Conserved(Taken(l, remaining)) <==> !Overwrites(l, remaining, false, false)
  {
    var l', buf, m, rest := Taken(l, remaining), l.reader.buf.bytes, l.sealed[0], Flat(l.sealed[1..]);
    var n := Min(remaining, |m|);
    assert l.written == l.read + buf + (m + rest);
    FrameConserves(l.read, buf, m, rest, n);
    if remaining >= |m| && buf == [] { assert m[n..] == buf; }
  }

  lemma FrameConserves(read: Bytes, buf: Bytes, m: Bytes, rest: Bytes, n: nat)
    requires n <= |m|
    ensures buf == [] ==> read + buf + (m + rest) == read + m[..n] + m[n..] + rest
    ensures m == [] ==> read + buf + (m + rest) == read + m + buf + rest
    ensures |m| > 0 && |buf| > 0 ==> |read + buf + (m + rest)| != |read + m[..n] + m[n..] + rest|
  {
  }

  /** Whatever the two ends do, with any cipher that inverts: the nonce of every frame under way is the one the reader
      will use for it, no read ever fails for lack of a valid frame, and as long as no read is made without room, the
      bytes handed out, the unread ones and those under way are together exactly the bytes written. */
  lemma {:induction false} StreamIsTransparent(x: Aead, inPlace: bool, key: Bytes, iv: Bytes, moves: seq<Move>)
    requires Inverts(x)
    ensures var l := Run(x, NewLink(inPlace, key, iv), moves);
            && LockStep(x, l) && !l.failed
            && ((forall i :: 0 <= i < |moves| && moves[i].Read? ==> moves[i].remaining > 0) ==>
                  Conserved(l) && l.read <= l.written)
    decreases |moves|
  {
    if moves == [] {
    } else {
      var before, move := moves[..|moves| - 1], moves[|moves| - 1];
      StreamIsTransparent(x, inPlace, key, iv, before);
      var l := Run(x, NewLink(inPlace, key, iv), before);
      var room := forall i :: 0 <= i < |moves| && moves[i].Read? ==> moves[i].remaining > 0;
      if room {
        forall i | 0 <= i < |before| && before[i].Read? ensures before[i].remaining > 0 {
          assert moves[i] == before[i];
        }
      }
      match move
      case Write(m, sink) =>
        WriteKeepsLockStep(x, l, m, sink);
        if room { WriteConserves(x, l, m, sink); }
      case Read(remaining, quiet, broken) =>
        ReadKeepsLockStep(x, l, remaining, quiet, broken);
        if room { ReadConserves(x, l, remaining, quiet, broken); }
    }
  }

  /** Does the transport take a frame at this move? */
  predicate Sends(move: Move) { move.Write? && move.sink == SinkReady }

  /** The messages sealed in a run, in order. */
  function Messages(moves: seq<Move>): seq<Bytes> {
    if moves == [] then []
    else
      var before, last := moves[..|moves| - 1], moves[|moves| - 1];
      Messages(before) + if Sends(last) then [last.m] else []
  }

  /** The frames handed to the transport in a run, in order. */
  function Frames(x: Aead, start: Link, moves: seq<Move>): seq<Bytes>
    decreases |moves|
  {
    if moves == [] then []
    else
      var before, last := moves[..|moves| - 1], moves[|moves| - 1];
      Frames(x, start, before) +
      if last.Write? then
        var result := PollWrite(x, Run(x, start, before).writer, last.m, last.sink).1;
        if result.Wrote? then [result.frame] else []
      else []
  }

  lemma {:induction false} WriterCounts(x: Aead, inPlace: bool, key: Bytes, iv: Bytes, moves: seq<Move>)
    ensures Run(x, NewLink(inPlace, key, iv), moves).writer == Writer(key, After(iv, |Messages(moves)|))
    decreases |moves|
  {
    hide Advance;
    if moves != [] {
      var before, last := moves[..|moves| - 1], moves[|moves| - 1];
      WriterCounts(x, inPlace, key, iv, before);
      WriterSteps(x, Run(x, NewLink(inPlace, key, iv), before), last);
      assert After(iv, |Messages(before)| + 1) == Advanced(After(iv, |Messages(before)|));
    }
  }

  lemma WriterSteps(x: Aead, l: Link, move: Move)
    ensures Advance(x, l, move).writer == if Sends(move) then l.writer.(iv := Advanced(l.writer.iv)) else l.writer
  {
  }

  /** Frame number `k` of a run is message number `k`, sealed with nonce number `k + 1`. */
  lemma {:induction false} FramesAreNumbered(x: Aead, inPlace: bool, key: Bytes, iv: Bytes, moves: seq<Move>, k: nat)
    requires k < |Messages(moves)|
    ensures var frames := Frames(x, NewLink(inPlace, key, iv), moves);
            |frames| == |Messages(moves)| && frames[k] == Sealed(x, key, After(iv, k + 1), Messages(moves)[k])
    decreases |moves|
  {
    hide Run, Sealed;
    var before := moves[..|moves| - 1];
    WriterCounts(x, inPlace, key, iv, before);
    if k < |Messages(before)| {
      FramesAreNumbered(x, inPlace, key, iv, before, k);
    } else {
      FramesAreMessages(x, NewLink(inPlace, key, iv), before);
      assert After(iv, k + 1) == Advanced(After(iv, k));
    }
  }

  lemma {:induction false} FramesAreMessages(x: Aead, start: Link, moves: seq<Move>)
    ensures |Frames(x, start, moves)| == |Messages(moves)|
    decreases |moves|
  {
    if moves != [] { FramesAreMessages(x, start, moves[..|moves| - 1]); }
  }

  /** In every run, two frames that are fewer than 256^n apart are sealed with different nonces. */
  lemma FramesHaveFreshNonces(x: Aead, inPlace: bool, key: Bytes, iv: Bytes, moves: seq<Move>, i: nat, j: nat)
    requires i < j < |Messages(moves)| && j < i + Pow256(|iv|)
    ensures var frames, ms := Frames(x, NewLink(inPlace, key, iv), moves), Messages(moves);
            && |frames| == |ms|
            && frames[i] == Sealed(x, key, After(iv, i + 1), ms[i])
               && frames[j] == Sealed(x, key, After(iv, j + 1), ms[j])
            && After(iv, i + 1) != After(iv, j + 1)
  {
    FramesAreNumbered(x, inPlace, key, iv, moves, i);
    FramesAreNumbered(x, inPlace, key, iv, moves, j);
    NoncesAreDistinct(iv, i + 1, j + 1);
  }

  /** A cipher that leaves everything as it is. */
  const PLAIN := Aead(0, (key, nonce, m) => (m, []), (key, nonce, c, tag) => Some(c))

  /** A read without room can lose bytes: one byte of a two byte message is read, the other waits, and a read with no
      room replaces it by the next message. */
  lemma ReadWithoutRoomLoses(inPlace: bool)
    ensures Inverts(PLAIN)
    ensures var moves := [Write([1, 2], SinkReady), Write([3], SinkReady), Read(1, false, false),
            Read(0, false, false)];
            var l := Run(PLAIN, NewLink(inPlace, [], []), moves);
            && l.written == [1, 2, 3] && l.read == [1] && l.reader.buf.bytes == [3] && l.sealed == []
            && !Conserved(l)
  {
    hide Advance, LockStep, Run, Inverts, PLAIN, Conserved, PollWrite, PollRead, Flat, Taken;
    PlainInverts();
    var w1, w2, r1, r2 := Write([1, 2], SinkReady), Write([3], SinkReady), Read(1, false, false), Read(0, false, false);
    var start := NewLink(inPlace, [], []);
    var l0 := Advance(PLAIN, start, w1);
    var l1 := Advance(PLAIN, l0, w2);
    FourMoves(PLAIN, start, w1, w2, r1, r2);
    StreamIsTransparent(PLAIN, inPlace, [], [], [w1, w2]);
    WriteAdds(PLAIN, start, [1, 2]);
    WriteAdds(PLAIN, l0, [3]);
    TwoReads(PLAIN, l1);
    TwoIsMissing(Advance(PLAIN, Advance(PLAIN, l1, r1), r2));
  }

  lemma FourMoves(x: Aead, start: Link, a: Move, b: Move, c: Move, d: Move)
    ensures Run(x, start, [a, b]) == Advance(x, Advance(x, start, a), b)
    ensures Run(x, start, [a, b, c, d]) == Advance(x, Advance(x, Run(x, start, [a, b]), c), d)
  {
    hide Advance, Run;
    RunOneMore(x, start, [], a);
    RunOneMore(x, start, [a], b);
    RunOneMore(x, start, [a, b], c);
    RunOneMore(x, start, [a, b, c], d);
    assert [] + [a] == [a] && [a] + [b] == [a, b] && [a, b] + [c] == [a, b, c] && [a, b, c] + [d] == [a, b, c, d];
  }

  /** One byte read of two, then a read without room. */
  lemma TwoReads(x: Aead, l: Link)
    requires Inverts(x) && LockStep(x, l) && l.sealed == [[1, 2], [3]] && l.reader.buf.bytes == [] && l.read == []
    ensures var l' := Advance(x, Advance(x, l, Read(1, false, false)), Read(0, false, false));
            l'.written == l.written && l'.read == [1] && l'.reader.buf.bytes == [3] && l'.sealed == []
  {
    hide Advance, LockStep, Inverts;
    assert |l.wire| == 2 by { AsManyFrames(x, l); }
    FrontIsTaken(x, l, 1);
    TakenKeepsLockStep(x, l, 1);
    FrontIsTaken(x, Taken(l, 1), 0);
  }

  lemma AsManyFrames(x: Aead, l: Link)
    requires LockStep(x, l)
    ensures |l.wire| == |l.sealed|
  {
  }

  lemma TwoIsMissing(l: Link)
    requires l.written == [1, 2, 3] && l.read == [1] && l.reader.buf.bytes == [3] && l.sealed == []
    ensures !Conserved(l)
  {
    assert |l.read + l.reader.buf.bytes + Flat(l.sealed)| == 2;
  }

  lemma PlainInverts()
    ensures Inverts(PLAIN)
  {
  }

  lemma RunOneMore(x: Aead, start: Link, moves: seq<Move>, move: Move)
    ensures Run(x, start, moves + [move]) == Advance(x, Run(x, start, moves), move)
    ensures Run(x, start, []) == start
  {
    assert (moves + [move])[..|moves|] == moves;
  }

  lemma WriteAdds(x: Aead, l: Link, m: Bytes)
    ensures var l' := Advance(x, l, Write(m, SinkReady));
            && l'.sealed == l.sealed + [m] && |l'.wire| == |l.wire| + 1 && l'.written == l.written + m
            && l'.reader == l.reader && l'.read == l.read
  {
    assert m[..|m|] == m;
  }
}
