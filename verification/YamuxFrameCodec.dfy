/** `FrameCodec` as the source writes it: a header whose body has not arrived is parked between two calls of `decode`,
    and `encode` appends to the output buffer. */
module YamuxFrameCodec {
  import opened Common
  import opened YamuxFrame

  class FrameCodec {
    const maxFrameSize: u32
    var unusedDataHeader: Option<Header>

    function Value(): Decoder
      reads this
    {
      Decoder(unusedDataHeader, maxFrameSize)
    }

    constructor (maxFrameSize: u32)
      ensures Value() == Fresh(maxFrameSize).decoder
    {
      this.maxFrameSize := maxFrameSize;
      unusedDataHeader := None;
    }

    /** `src` is the input buffer, `rest` what is left in it. */
    method Decode(src: seq<byte>) returns (answer: Decoded, rest: seq<byte>)
      modifies `unusedDataHeader
      ensures (answer, Value(), rest) == DecodeStep(old(Value()), src)
    {
      rest := src;
      if src == [] { return NeedMore, rest; }
      var header;
      if unusedDataHeader.Some? {
        header := unusedDataHeader.value;
        unusedDataHeader := None;
      } else if |src| >= HEADER_SIZE {
        rest := src[HEADER_SIZE..];
        var version := src[0];
        if version != PROTOCOL_VERSION { return Failed(BadVersion(version)), rest; }
        var ty := ByteToType(src[1]);
        if ty.None? { return Failed(BadType(src[1])), rest; }
        var flags, streamId, length := FlagsFromU16(GetU16(src[2..])), GetU32(src[4..]), GetU32(src[8..]);
        if ty.value == Data && length > maxFrameSize { return Failed(BadLength(length)), rest; }
        header := Header(version, ty.value, flags, streamId, length);
      } else {
        return NeedMore, rest;
      }
      var body := None;
      if header.ty == Data {
        if |rest| < header.length {
          unusedDataHeader := Some(header);
          return NeedMore, rest;
        }
        body := Some(rest[..header.length]);
        rest := rest[header.length..];
      }
      answer := Item(Frame(header, body));
    }

    /** What `Framed` does with the codec when a chunk arrives: decode until it asks for more or fails. */
    method DecodeAll(src: seq<byte>) returns (frames: seq<Frame>, rest: seq<byte>, error: Option<DecodeError>)
      modifies `unusedDataHeader
      ensures Progress(frames, Value(), rest, error) == Drain(old(Value()), src)
    {
      frames, rest, error := [], src, None;
      while true
        invariant var p := Drain(Value(), rest); p.(frames := frames + p.frames) == Drain(old(Value()), src)
        decreases |rest|, if unusedDataHeader.Some? then 1 else 0
      {
        var answer;
        answer, rest := Decode(rest);
        match answer
        case NeedMore => return;
        case Failed(e) => return frames, rest, Some(e);
        case Item(f) =>
          ghost var p := Drain(Value(), rest);
          assert frames + ([f] + p.frames) == (frames + [f]) + p.frames;
          frames := frames + [f];
      }
    }

    method Encode(item: Frame, dst: seq<byte>) returns (dst': seq<byte>)
      ensures dst' == dst + YamuxFrame.Encode(item)
    {
      var header := item.header;
      dst' := dst + [header.version] + [TypeToByte(header.ty)];
      dst' := dst' + PutU16(FlagsToU16(header.flags)) + PutU32(header.streamId) + PutU32(header.length);
      if item.body.Some? {
        dst' := dst' + item.body.value;
      }
    }
  }
}
