/** The bytes of a yamux frame (tentacle/yamux/src/frame.rs; the yamux specification, section "Framing"). */
module YamuxWire {
  import opened Common
  import opened YamuxFrame

  /** Four bytes, most significant first. */
  function Big(a: byte, b: byte, c: byte, d: byte): int {
    0x100_0000 * a as int + 0x1_0000 * b as int + 0x100 * c as int + d as int
  }

  /** A header is twelve bytes: version zero, the type, two bytes of flags, stream id and length, then the body. */
  lemma FrameOnWire(f: Frame)
    requires WellFormed(f)
    ensures var e, h := Encode(f), f.header;
            && |e| == 12 + (if f.body.Some? then |f.body.value| else 0)
            && e[0] == 0
            && e[1] == (match h.ty case Data => 0 case WindowUpdate => 1 case Ping => 2 case GoAway => 3)
            && 0x100 * e[2] as int + e[3] as int
            == 16 * h.flags.other as int + (if h.flags.rst then 8 else 0) + (if h.flags.fin then 4 else 0)
               + (if h.flags.ack then 2 else 0) + (if h.flags.syn then 1 else 0)
            && Big(e[4], e[5], e[6], e[7]) == h.streamId && Big(e[8], e[9], e[10], e[11]) == h.length
            && e[12..] == (if f.body.Some? then f.body.value else [])
  {
    hide PutU16, PutU32, Big, FlagsToU16, TypeToByte;
    var h := f.header;
    var body := if f.body.Some? then f.body.value else [];
    TwoBytes(h.flags);
    FourBytes(h.streamId);
    FourBytes(h.length);
    Laid([h.version, TypeToByte(h.ty)], PutU16(FlagsToU16(h.flags)), PutU32(h.streamId), PutU32(h.length), body);
    TypeBytes(h.ty);
  }

  lemma Laid(a: seq<byte>, b: seq<byte>, c: seq<byte>, d: seq<byte>, body: seq<byte>)
    requires |a| == 2 && |b| == 2 && |c| == 4 && |d| == 4
    ensures var e := a + b + c + d + body;
            && |e| == 12 + |body| && e[0] == a[0] && e[1] == a[1] && e[2] == b[0] && e[3] == b[1] && e[12..] == body
            && e[4] == c[0] && e[5] == c[1] && e[6] == c[2] && e[7] == c[3]
            && e[8] == d[0] && e[9] == d[1] && e[10] == d[2] && e[11] == d[3]
  {
  }

  lemma TypeBytes(ty: Type)
    ensures TypeToByte(ty) == (match ty case Data => 0 case WindowUpdate => 1 case Ping => 2 case GoAway => 3)
  {
  }

  lemma TwoBytes(f: Flags)
    ensures var b := PutU16(FlagsToU16(f));
            && |b| == 2
            && 0x100 * b[0] as int + b[1] as int
            == 16 * f.other as int + (if f.rst then 8 else 0) + (if f.fin then 4 else 0)
               + (if f.ack then 2 else 0) + (if f.syn then 1 else 0)
  {
  }

  lemma FourBytes(n: u32)
    ensures var b := PutU32(n); |b| == 4 && Big(b[0], b[1], b[2], b[3]) == n
  {
    var hi, lo := n / 0x1_0000, n % 0x1_0000;
    assert hi == 0x100 * (hi / 0x100) + hi % 0x100 && lo == 0x100 * (lo / 0x100) + lo % 0x100;
  }

  /** The headers the code builds: pings and go-aways belong to stream zero, and the three reasons to go away are
      numbered from zero. */
  lemma HeadersOnWire(flags: Flags, id: StreamId, n: u32, body: seq<byte>)
    requires |body| < U32_SIZE
    ensures NewData(flags, id, body) == Frame(Header(0, Data, flags, id, |body|), Some(body))
    ensures NewWindowUpdate(flags, id, n) == Bare(WindowUpdate, flags, id, n)
    ensures NewPing(flags, n) == Bare(Ping, flags, 0, n)
    ensures var none := Flags(false, false, false, false, 0);
            && NewGoAway(Normal) == Bare(GoAway, none, 0, 0)
            && NewGoAway(ProtocolError) == Bare(GoAway, none, 0, 1)
            && NewGoAway(InternalError) == Bare(GoAway, none, 0, 2)
    ensures Only(Syn) == Flags(true, false, false, false, 0) && Only(Ack) == Flags(false, true, false, false, 0)
    ensures Only(Fin) == Flags(false, false, true, false, 0) && Only(Rst) == Flags(false, false, false, true, 0)
    ensures INITIAL_STREAM_WINDOW == 262144
  {
  }

  /** What the decoder refuses: a version other than zero, an unknown type, and data beyond the size limit, in this
      order. It takes the twelve bytes of the header and nothing else. */
  lemma DecodeFails(d: Decoder, src: seq<byte>)
    requires d.parked.None? && |src| >= 12
    ensures var (answer, d', rest) := DecodeStep(d, src);
            var length := Big(src[8], src[9], src[10], src[11]);
            && (src[0] != 0 <==> answer == Failed(BadVersion(src[0])))
            && (src[0] == 0 && src[1] > 3 <==> answer == Failed(BadType(src[1])))
            && (src[0] == 0 && src[1] == 0 && length > d.maxFrameSize <==> answer == Failed(BadLength(length)))
            && (answer.Failed? ==> d' == d && rest == src[12..])
  {
    LengthRead(src);
    TypeRead(src[1]);
  }

  lemma LengthRead(src: seq<byte>)
    requires |src| >= 12
    ensures GetU32(src[8..]) == Big(src[8], src[9], src[10], src[11])
  {
    var s := src[8..];
    assert s[0] == src[8] && s[1] == src[9] && s[2..][0] == src[10] && s[2..][1] == src[11];
  }

  lemma TypeRead(b: byte)
    ensures (ByteToType(b).None? <==> b > 3) && (ByteToType(b) == Some(Data) <==> b == 0)
  {
  }
}
