/** The stream ciphers and `SecureStream` as the source writes them: nonces and receive buffer updated in place. */
module SecioStreamObject {
  import opened Common
  import opened SecioNonce
  import opened SecioStream
  import Spec = SecioStream

  class StreamCipher {
    const aead: Aead
    const key: Bytes
    const inPlace: bool
    const iv: array<byte>

    constructor (aead: Aead, key: Bytes, inPlace: bool, ivSize: nat)
      ensures this.aead == aead && this.key == key && this.inPlace == inPlace
      ensures fresh(iv) && iv[..] == seq(ivSize, _ => 0)
    {
      this.aead, this.key, this.inPlace := aead, key, inPlace;
      iv := new byte[ivSize](_ => 0);
    }

    method Encrypt(input: Bytes) returns (output: Bytes)
      modifies iv
      ensures iv[..] == Advanced(old(iv[..])) && output == Sealed(aead, key, iv[..], input)
    {
      NonceAdvance(iv);
      var (c, tag) := aead.seal(key, iv[..], input);
      output := c + tag;
    }

    /** `decrypt`, or `decrypt_in_place` where the cipher has it. */
    method Decrypt(input: Bytes) returns (output: Option<Bytes>)
      modifies iv
      ensures (iv[..], output) == Spec.Decrypt(aead, inPlace, key, old(iv[..]), input)
    {
      if inPlace && |input| < aead.tagSize { return None; }
      NonceAdvance(iv);
      if |input| < aead.tagSize { return None; }
      var n := |input| - aead.tagSize;
      output := aead.open(key, iv[..], input[..n], input[n..]);
    }
  }

  class SecureStream {
    const decodeCipher: StreamCipher
    const encodeCipher: StreamCipher
    var recvBuf: RecvBuf

    predicate Valid()
      reads this
    {
      decodeCipher.iv != encodeCipher.iv && recvBuf.ByteBuf? == decodeCipher.inPlace
    }

    function ReaderValue(): Reader
      reads this, decodeCipher.iv
    {
      Reader(decodeCipher.inPlace, decodeCipher.key, decodeCipher.iv[..], recvBuf)
    }

    function WriterValue(): Writer
      reads this, encodeCipher.iv
    {
      Writer(encodeCipher.key, encodeCipher.iv[..])
    }

    constructor (decodeCipher: StreamCipher, encodeCipher: StreamCipher)
      requires decodeCipher.iv != encodeCipher.iv
      ensures Valid() && this.decodeCipher == decodeCipher && this.encodeCipher == encodeCipher
      ensures recvBuf == NewBuf(decodeCipher.inPlace, [])
    {
      this.decodeCipher, this.encodeCipher := decodeCipher, encodeCipher;
      recvBuf := if decodeCipher.inPlace then ByteBuf([]) else VecBuf([]);
    }

    /** `drain`: the bytes copied to a destination with this much room. */
    method Drain(remaining: nat) returns (copied: Bytes)
      requires Valid()
      modifies `recvBuf
      ensures Valid() && (copied, recvBuf) == Spec.Drain(old(recvBuf), remaining)
    {
      if recvBuf.bytes == [] { return []; }
      var n := Min(remaining, |recvBuf.bytes|);
      copied := recvBuf.bytes[..n];
      recvBuf := recvBuf.(bytes := recvBuf.bytes[n..]);
    }

    method DecodeBuffer(frame: Bytes) returns (decoded: Option<RecvBuf>)
      requires Valid()
      modifies decodeCipher.iv
      ensures Valid() && WriterValue() == old(WriterValue())
      ensures var c := decodeCipher;
              var (iv, plain) := Spec.Decrypt(c.aead, c.inPlace, c.key, old(decodeCipher.iv[..]), frame);
              c.iv[..] == iv && decoded == if plain.None? then None else Some(NewBuf(c.inPlace, plain.value))
    {
      var plain := decodeCipher.Decrypt(frame);
      if plain.None? { return None; }
      decoded := Some(if decodeCipher.inPlace then ByteBuf(plain.value) else VecBuf(plain.value));
    }

    method PollRead(remaining: nat, answer: SocketAnswer) returns (result: ReadResult)
      requires Valid()
      modifies `recvBuf, decodeCipher.iv
      ensures Valid() && WriterValue() == old(WriterValue())
      ensures (ReaderValue(), result) == Spec.PollRead(decodeCipher.aead, old(ReaderValue()), remaining, answer)
    {
      var copied := Drain(remaining);
      if |copied| > 0 { return GotBytes(copied); }
      assert ReaderValue() == old(ReaderValue());
      match answer
      case Arrived(frame) =>
        var decoded := DecodeBuffer(frame);
        if decoded.None? { return ReadFailed; }
        if remaining >= |decoded.value.bytes| {
          result := GotBytes(decoded.value.bytes);
        } else {
          recvBuf := decoded.value;
          var out := Drain(remaining);
          result := GotBytes(out);
        }
      case SocketPending => result := ReadPending;
      case SocketFailed | SocketEnded => result := ReadFailed;
    }

    method PollWrite(m: Bytes, answer: SinkAnswer) returns (result: WriteResult)
      requires Valid()
      modifies encodeCipher.iv
      ensures Valid() && ReaderValue() == old(ReaderValue())
      ensures (WriterValue(), result) == Spec.PollWrite(encodeCipher.aead, old(WriterValue()), m, answer)
    {
      match answer
      case SinkReady =>
        var frame := encodeCipher.Encrypt(m);
        result := Wrote(|m|, frame);
      case SinkPending => result := WritePending;
      case SinkFailed => result := WriteFailed;
    }
  }
}
