/** The yamux frame and its incremental codec (tentacle/yamux/src/frame.rs). */
module YamuxFrame {
  import opened Common

  type StreamId = u32

  const INITIAL_STREAM_WINDOW: u32 := 256 * 1024
  const PROTOCOL_VERSION: byte := 0
  const RESERVED_STREAM_ID: StreamId := 0
  const HEADER_SIZE := 12

  datatype Type = Data | WindowUpdate | Ping | GoAway

  datatype Flag = Syn | Ack | Fin | Rst

  /** The `u16` flag field of a header: its four assigned bits, and the twelve others as a number. */
  datatype Flags = Flags(syn: bool, ack: bool, fin: bool, rst: bool, other: OtherBits)

  type OtherBits = x: int | 0 <= x < 0x1000

  const NO_FLAGS := Flags(false, false, false, false, 0)

  predicate Contains(flags: Flags, flag: Flag) {
    match flag case Syn => flags.syn case Ack => flags.ack case Fin => flags.fin case Rst => flags.rst
  }

  function AddFlag(flags: Flags, flag: Flag): Flags {
    match flag
    case Syn => flags.(syn := true)
    case Ack => flags.(ack := true)
    case Fin => flags.(fin := true)
    case Rst => flags.(rst := true)
  }

  function Only(flag: Flag): Flags { AddFlag(NO_FLAGS, flag) }

  function Bit(b: bool): nat { if b then 1 else 0 }

  function FlagsToU16(f: Flags): u16 {
    Bit(f.syn) + 2 * (Bit(f.ack) + 2 * (Bit(f.fin) + 2 * (Bit(f.rst) + 2 * f.other as int)))
  }

  function FlagsFromU16(n: u16): Flags {
    var ack := n / 2;
    var fin := ack / 2;
    var rst := fin / 2;
    Flags(n % 2 == 1, ack % 2 == 1, fin % 2 == 1, rst % 2 == 1, rst / 2)
  }

  lemma FlagsToAndBack(f: Flags)
    ensures FlagsFromU16(FlagsToU16(f)) == f
  {
    var rst := Bit(f.rst) + 2 * f.other as int;
    var fin := Bit(f.fin) + 2 * rst;
    var ack := Bit(f.ack) + 2 * fin;
    var n := FlagsToU16(f);
    assert n / 2 == ack && ack / 2 == fin && fin / 2 == rst;
  }

  lemma FlagsFromAndBack(n: u16)
    ensures FlagsToU16(FlagsFromU16(n)) == n
  {
    var ack := n / 2;
    var fin := ack / 2;
    var rst := fin / 2;
    assert Bit(rst % 2 == 1) + 2 * (rst / 2) == rst;
    assert Bit(fin % 2 == 1) + 2 * rst == fin;
    assert Bit(ack % 2 == 1) + 2 * fin == ack;
  }

  datatype Header = Header(version: byte, ty: Type, flags: Flags, streamId: StreamId, length: u32)

  datatype Frame = Frame(header: Header, body: Option<seq<byte>>)

  function NewData(flags: Flags, id: StreamId, body: seq<byte>): Frame {
    Frame(Header(PROTOCOL_VERSION, Data, flags, id, |body| % U32_SIZE), Some(body))
  }

  function NewWindowUpdate(flags: Flags, id: StreamId, delta: u32): Frame {
    Frame(Header(PROTOCOL_VERSION, WindowUpdate, flags, id, delta), None)
  }

  function NewPing(flags: Flags, pingId: u32): Frame {
    Frame(Header(PROTOCOL_VERSION, Ping, flags, RESERVED_STREAM_ID, pingId), None)
  }

  /** A frame without a body, field by field. */
  function Bare(ty: Type, flags: Flags, id: StreamId, length: u32): Frame {
    Frame(Header(0, ty, flags, id, length), None)
  }

  datatype GoAwayCode = Normal | ProtocolError | InternalError

  function CodeToInt(code: GoAwayCode): u32 {
    match code case Normal => 0 case ProtocolError => 1 case InternalError => 2
  }

  function NewGoAway(code: GoAwayCode): Frame {
    Frame(Header(PROTOCOL_VERSION, GoAway, NO_FLAGS, RESERVED_STREAM_ID, CodeToInt(code)), None)
  }

  /** What the constructors build and the decoder yields: a body exactly on data frames, of the announced length. */
  predicate WellFormed(f: Frame) {
    && f.header.version == PROTOCOL_VERSION
    && (f.header.ty.Data? <==> f.body.Some?)
    && (f.body.Some? ==> |f.body.value| == f.header.length)
  }

  /** A well-formed frame that a codec with this limit accepts. */
  predicate Fits(f: Frame, maxFrameSize: u32) {
    WellFormed(f) && (f.header.ty.Data? ==> f.header.length <= maxFrameSize)
  }

  // ---------------------------------------------------------------- encoding

  function TypeToByte(ty: Type): byte {
    match ty case Data => 0 case WindowUpdate => 1 case Ping => 2 case GoAway => 3
  }

  function ByteToType(b: byte): Option<Type> {
    match b
    case 0 => Some(Data)
    case 1 => Some(WindowUpdate)
    case 2 => Some(Ping)
    case 3 => Some(GoAway)
    case _ => None
  }

  function EncodeHeader(h: Header): seq<byte> {
    [h.version, TypeToByte(h.ty)] + PutU16(FlagsToU16(h.flags)) + PutU32(h.streamId) + PutU32(h.length)
  }

  function Encode(f: Frame): seq<byte> {
    EncodeHeader(f.header) + if f.body.Some? then f.body.value else []
  }

  function EncodeAll(frames: seq<Frame>): seq<byte> {
    if frames == [] then [] else Encode(frames[0]) + EncodeAll(frames[1..])
  }

  // ---------------------------------------------------------------- decoding

  datatype DecodeError = BadVersion(version: byte) | BadType(code: byte) | BadLength(length: u32)

  datatype Decoded = Item(frame: Frame) | NeedMore | Failed(error: DecodeError)

  /** The decoder's own state: a header whose body has not arrived, and the size limit. */
  datatype Decoder = Decoder(parked: Option<Header>, maxFrameSize: u32)

  datatype ParsedHeader = Parsed(header: Header) | Rejected(error: DecodeError)

  function ParseHeader(maxFrameSize: u32, src: seq<byte>): ParsedHeader
    requires |src| >= HEADER_SIZE
  {
    if src[0] != PROTOCOL_VERSION then Rejected(BadVersion(src[0]))
    else match ByteToType(src[1])
      case None => Rejected(BadType(src[1]))
      case Some(ty) =>
        var length := GetU32(src[8..]);
        if ty.Data? && length > maxFrameSize then Rejected(BadLength(length))
        else Parsed(Header(src[0], ty, FlagsFromU16(GetU16(src[2..])), GetU32(src[4..]), length))
  }

  /** The part of `decode` after a header is known: take the body or park the header. */
  function TakeBody(h: Header, maxFrameSize: u32, src: seq<byte>): (Decoded, Decoder, seq<byte>) {
    if !h.ty.Data? then (Item(Frame(h, None)), Decoder(None, maxFrameSize), src)
    else if |src| < h.length then (NeedMore, Decoder(Some(h), maxFrameSize), src)
    else (Item(Frame(h, Some(src[..h.length]))), Decoder(None, maxFrameSize), src[h.length..])
  }

  /** One call of `FrameCodec::decode`: the answer, the decoder afterwards and the bytes left in the buffer. */
  function DecodeStep(d: Decoder, src: seq<byte>): (Decoded, Decoder, seq<byte>) {
    if src == [] then (NeedMore, d, src)
    else if d.parked.Some? then TakeBody(d.parked.value, d.maxFrameSize, src)
    else if |src| < HEADER_SIZE then (NeedMore, d, src)
    else match ParseHeader(d.maxFrameSize, src)
      case Rejected(e) => (Failed(e), d, src[HEADER_SIZE..])
      case Parsed(h) => TakeBody(h, d.maxFrameSize, src[HEADER_SIZE..])
  }

  /** What has come out of a decoder so far, and what it still holds. */
  datatype Progress = Progress(frames: seq<Frame>, decoder: Decoder, rest: seq<byte>, error: Option<DecodeError>)

  /** Calls `decode` until it asks for more bytes or fails, as `Framed` does. */
  function Drain(d: Decoder, src: seq<byte>): Progress
    decreases |src|, if d.parked.Some? then 1 else 0
  {
    match DecodeStep(d, src)
    case (NeedMore, d', rest) => Progress([], d', rest, None)
    case (Failed(e), d', rest) => Progress([], d', rest, Some(e))
    case (Item(f), d', rest) =>
      var p := Drain(d', rest);
      p.(frames := [f] + p.frames)
  }

  /** A chunk of bytes arrives and everything decodable is decoded. */
  function Feed(p: Progress, chunk: seq<byte>): Progress {
    if p.error.Some? then p
    else
      var q := Drain(p.decoder, p.rest + chunk);
      q.(frames := p.frames + q.frames)
  }

  function FeedAll(p: Progress, chunks: seq<seq<byte>>): Progress
    decreases |chunks|
  {
    if chunks == [] then p else FeedAll(Feed(p, chunks[0]), chunks[1..])
  }

  function Concat(chunks: seq<seq<byte>>): seq<byte> {
    if chunks == [] then [] else chunks[0] + Concat(chunks[1..])
  }

  function Fresh(maxFrameSize: u32): Progress {
    Progress([], Decoder(None, maxFrameSize), [], None)
  }

  /** Same frames, same first error and, while there is no error, the same decoder and leftover. */
  predicate SameProgress(p: Progress, q: Progress) {
    p.frames == q.frames && p.error == q.error && (p.error.None? ==> p == q)
  }

  // ---------------------------------------------------------------- chunking

  lemma HeaderIgnoresTail(maxFrameSize: u32, a: seq<byte>, b: seq<byte>)
    requires |a| >= HEADER_SIZE
    ensures ParseHeader(maxFrameSize, a + b) == ParseHeader(maxFrameSize, a)
  {
    var s := a + b;
    assert s[2..][..2] == a[2..][..2];
    assert s[4..][..4] == a[4..][..4];
    assert s[8..][..4] == a[8..][..4];
  }

  lemma BodyIgnoresTail(h: Header, maxFrameSize: u32, a: seq<byte>, b: seq<byte>)
    requires !TakeBody(h, maxFrameSize, a).0.NeedMore?
    ensures TakeBody(h, maxFrameSize, a + b)
         == (TakeBody(h, maxFrameSize, a).0, TakeBody(h, maxFrameSize, a).1, TakeBody(h, maxFrameSize, a).2 + b)
  {
    if h.ty.Data? {
      assert (a + b)[..h.length] == a[..h.length];
      assert (a + b)[h.length..] == a[h.length..] + b;
    }
  }

  lemma StepIgnoresTail(d: Decoder, a: seq<byte>, b: seq<byte>)
    requires !DecodeStep(d, a).0.NeedMore?
    ensures DecodeStep(d, a + b) == (DecodeStep(d, a).0, DecodeStep(d, a).1, DecodeStep(d, a).2 + b)
  {
    if d.parked.Some? {
      BodyIgnoresTail(d.parked.value, d.maxFrameSize, a, b);
    } else {
      HeaderIgnoresTail(d.maxFrameSize, a, b);
      assert (a + b)[HEADER_SIZE..] == a[HEADER_SIZE..] + b;
      if ParseHeader(d.maxFrameSize, a).Parsed? {
        BodyIgnoresTail(ParseHeader(d.maxFrameSize, a).header, d.maxFrameSize, a[HEADER_SIZE..], b);
      }
    }
  }

  /** A decoder that asked for more continues, when more comes, as if it had not been asked before. */
  lemma NeedMoreResumes(d: Decoder, a: seq<byte>, b: seq<byte>)
    requires DecodeStep(d, a).0.NeedMore?
    ensures Drain(d, a + b) == Drain(DecodeStep(d, a).1, DecodeStep(d, a).2 + b)
  {
    var (_, d', rest) := DecodeStep(d, a);
    if rest == a {
      assert d' == d;
    } else {
      HeaderIgnoresTail(d.maxFrameSize, a, b);
      assert (a + b)[HEADER_SIZE..] == rest + b;
      if rest + b == [] {
        assert a + b == a;
      } else {
        assert DecodeStep(d, a + b) == DecodeStep(d', rest + b);
      }
    }
  }

  /** Decoding `a + b` at once is decoding `a` and then `b` behind what `a` left over. */
  lemma {:induction false} DrainSplits(d: Decoder, a: seq<byte>, b: seq<byte>)
    ensures SameProgress(Drain(d, a + b), Feed(Drain(d, a), b))
    decreases |a|, if d.parked.Some? then 1 else 0
  {
    var (r, d', rest) := DecodeStep(d, a);
    if r.NeedMore? {
      NeedMoreResumes(d, a, b);
      var q := Drain(d', rest + b);
      assert [] + q.frames == q.frames;
    } else {
      StepIgnoresTail(d, a, b);
      if r.Item? {
        DrainSplits(d', rest, b);
        var p := Drain(d', rest);
        if p.error.None? {
          var q := Drain(p.decoder, p.rest + b);
          assert [r.frame] + (p.frames + q.frames) == ([r.frame] + p.frames) + q.frames;
        }
      }
    }
  }

  lemma FeedSplits(p: Progress, a: seq<byte>, b: seq<byte>)
    ensures SameProgress(Feed(p, a + b), Feed(Feed(p, a), b))
  {
    if p.error.None? {
      DrainSplits(p.decoder, p.rest + a, b);
      assert p.rest + (a + b) == (p.rest + a) + b;
      Regroup(p.frames, Drain(p.decoder, p.rest + a), b);
    }
  }

  lemma Regroup(frames: seq<Frame>, q: Progress, b: seq<byte>)
    ensures Feed(q.(frames := frames + q.frames), b) == Feed(q, b).(frames := frames + Feed(q, b).frames)
  {
    if q.error.None? {
      var r := Drain(q.decoder, q.rest + b);
      assert frames + (q.frames + r.frames) == (frames + q.frames) + r.frames;
    }
  }

  lemma {:induction false} FeedAllFromSame(p: Progress, q: Progress, chunks: seq<seq<byte>>)
    requires SameProgress(p, q)
    ensures SameProgress(FeedAll(p, chunks), FeedAll(q, chunks))
    decreases |chunks|
  {
    if chunks != [] { FeedAllFromSame(Feed(p, chunks[0]), Feed(q, chunks[0]), chunks[1..]); }
  }

  lemma {:induction false} ChunksFromAnywhere(p: Progress, done: seq<byte>, chunks: seq<seq<byte>>)
    ensures SameProgress(FeedAll(Feed(p, done), chunks), Feed(p, done + Concat(chunks)))
    decreases |chunks|
  {
    if chunks == [] {
      assert done + [] == done;
    } else {
      FeedSplits(p, done, chunks[0]);
      FeedAllFromSame(Feed(p, done + chunks[0]), Feed(Feed(p, done), chunks[0]), chunks[1..]);
      ChunksFromAnywhere(p, done + chunks[0], chunks[1..]);
      assert done + chunks[0] + Concat(chunks[1..]) == done + Concat(chunks);
    }
  }

  /** However the byte stream is cut into chunks, the same frames come out and the same first error. */
  lemma ChunkingIsInvisible(maxFrameSize: u32, chunks: seq<seq<byte>>)
    ensures SameProgress(FeedAll(Fresh(maxFrameSize), chunks), Feed(Fresh(maxFrameSize), Concat(chunks)))
  {
    var start := Fresh(maxFrameSize);
    assert Feed(start, []) == start;
    ChunksFromAnywhere(start, [], chunks);
    assert [] + Concat(chunks) == Concat(chunks);
  }

  // ---------------------------------------------------------------- round trips

  lemma HeaderRoundTrip(h: Header, maxFrameSize: u32, tail: seq<byte>)
    requires h.version == PROTOCOL_VERSION
    requires h.ty.Data? ==> h.length <= maxFrameSize
    ensures |EncodeHeader(h)| == HEADER_SIZE
    ensures ParseHeader(maxFrameSize, EncodeHeader(h) + tail) == Parsed(h)
  {
    hide FlagsToU16, FlagsFromU16;
    var s := EncodeHeader(h) + tail;
    FlagsToAndBack(h.flags);
    assert s[2..][..2] == PutU16(FlagsToU16(h.flags));
    assert s[4..][..4] == PutU32(h.streamId);
    assert s[8..][..4] == PutU32(h.length);
  }

  lemma EncodedFrameDecodes(f: Frame, maxFrameSize: u32, tail: seq<byte>)
    requires Fits(f, maxFrameSize)
    ensures DecodeStep(Decoder(None, maxFrameSize), Encode(f) + tail)
         == (Item(f), Decoder(None, maxFrameSize), tail)
  {
    var body := if f.body.Some? then f.body.value else [];
    HeaderRoundTrip(f.header, maxFrameSize, body + tail);
    assert Encode(f) + tail == EncodeHeader(f.header) + (body + tail);
    assert (Encode(f) + tail)[HEADER_SIZE..] == body + tail;
    assert (body + tail)[..|body|] == body && (body + tail)[|body|..] == tail;
  }

  lemma {:induction false} EncodedFramesDrain(frames: seq<Frame>, maxFrameSize: u32)
    requires forall f :: f in frames ==> Fits(f, maxFrameSize)
    ensures Drain(Decoder(None, maxFrameSize), EncodeAll(frames)) == Fresh(maxFrameSize).(frames := frames)
  {
    if frames != [] {
      EncodedFrameDecodes(frames[0], maxFrameSize, EncodeAll(frames[1..]));
      EncodedFramesDrain(frames[1..], maxFrameSize);
      assert [frames[0]] + frames[1..] == frames;
    }
  }

  /** Whatever is sent, and however the transport cuts it up, exactly the sent frames are received. */
  lemma EncodedFramesArrive(frames: seq<Frame>, maxFrameSize: u32, chunks: seq<seq<byte>>)
    requires forall f :: f in frames ==> Fits(f, maxFrameSize)
    requires Concat(chunks) == EncodeAll(frames)
    ensures FeedAll(Fresh(maxFrameSize), chunks) == Fresh(maxFrameSize).(frames := frames)
  {
    ChunkingIsInvisible(maxFrameSize, chunks);
    EncodedFramesDrain(frames, maxFrameSize);
    assert [] + EncodeAll(frames) == EncodeAll(frames);
    assert [] + frames == frames;
  }

  /** The bytes a decoder has taken in and not yet turned into frames. */
  function Held(d: Decoder, rest: seq<byte>): seq<byte> {
    (if d.parked.Some? then EncodeHeader(d.parked.value) else []) + rest
  }

  /** A header is parked only for a data frame within the limit. */
  predicate ParkedFits(d: Decoder) {
    d.parked.Some? ==>
      d.parked.value.version == PROTOCOL_VERSION && d.parked.value.ty.Data? && d.parked.value.length <= d.maxFrameSize
  }

  lemma ParsedHeaderReencodes(maxFrameSize: u32, src: seq<byte>)
    requires |src| >= HEADER_SIZE
    requires ParseHeader(maxFrameSize, src).Parsed?
    ensures EncodeHeader(ParseHeader(maxFrameSize, src).header) == src[..HEADER_SIZE]
  {
    PutGetU16(src[2..]);
    FlagsFromAndBack(GetU16(src[2..]));
    PutGetU32(src[4..]);
    PutGetU32(src[8..]);
    assert src[..HEADER_SIZE] == [src[0], src[1]] + src[2..][..2] + src[4..][..4] + src[8..][..4];
  }

  lemma BodyIsExact(h: Header, maxFrameSize: u32, src: seq<byte>)
    requires h.version == PROTOCOL_VERSION && (h.ty.Data? ==> h.length <= maxFrameSize)
    ensures var (r, d', rest) := TakeBody(h, maxFrameSize, src);
            && ParkedFits(d')
            && (r.Item? ==> d'.parked.None? && Fits(r.frame, maxFrameSize))
            && (if r.Item? then Encode(r.frame) else []) + Held(d', rest) == EncodeHeader(h) + src
  {
    var (r, d', rest) := TakeBody(h, maxFrameSize, src);
    if r.Item? && h.ty.Data? {
      assert src == src[..h.length] + rest;
      assert EncodeHeader(h) + src[..h.length] + rest == EncodeHeader(h) + (src[..h.length] + rest);
    }
  }

  /** One call loses nothing: what was held is what comes out, encoded, in front of what is still held. */
  lemma StepIsExact(d: Decoder, src: seq<byte>)
    requires ParkedFits(d)
    requires !DecodeStep(d, src).0.Failed?
    ensures var (r, d', rest) := DecodeStep(d, src);
            && ParkedFits(d')
            && (r.Item? ==> d'.parked.None? && Fits(r.frame, d.maxFrameSize))
            && (if r.Item? then Encode(r.frame) else []) + Held(d', rest) == Held(d, src)
  {
    if src != [] {
      if d.parked.Some? {
        BodyIsExact(d.parked.value, d.maxFrameSize, src);
      } else if |src| >= HEADER_SIZE {
        ParsedHeaderReencodes(d.maxFrameSize, src);
        BodyIsExact(ParseHeader(d.maxFrameSize, src).header, d.maxFrameSize, src[HEADER_SIZE..]);
        assert src == src[..HEADER_SIZE] + src[HEADER_SIZE..];
      }
    }
  }

  lemma ExactlyPrepend(f: Frame, frames: seq<Frame>, last: seq<byte>, mid: seq<byte>, first: seq<byte>)
    requires EncodeAll(frames) + last == mid
    requires Encode(f) + mid == first
    ensures EncodeAll([f] + frames) + last == first
  {
    assert ([f] + frames)[1..] == frames;
    var e := Encode(f);
    assert e + (EncodeAll(frames) + last) == (e + EncodeAll(frames)) + last;
  }

  /** Conversely the decoder invents and loses nothing: its output re-encodes to its input, and fits the limit. */
  lemma {:induction false} DrainIsExact(d: Decoder, src: seq<byte>)
    requires ParkedFits(d)
    ensures var p := Drain(d, src);
            && (p.error.None? ==> EncodeAll(p.frames) + Held(p.decoder, p.rest) == Held(d, src))
            && forall f :: f in p.frames ==> Fits(f, d.maxFrameSize)
    decreases |src|, if d.parked.Some? then 1 else 0
  {
    var (r, d', rest) := DecodeStep(d, src);
    if !r.Failed? { StepIsExact(d, src); }
    if r.Item? {
      DrainIsExact(d', rest);
      var p := Drain(d', rest);
      if p.error.None? {
        ExactlyPrepend(r.frame, p.frames, Held(p.decoder, p.rest), Held(d', rest), Held(d, src));
      }
    }
  }
}
