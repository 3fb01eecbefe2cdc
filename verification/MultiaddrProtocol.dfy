/** One component of a multiaddress and its binary form (tentacle/multiaddr/src/protocol.rs). */
module MultiaddrProtocol {
  import opened Common

  type Bytes = seq<byte>

  const DNS4 := 0x36
  const DNS6 := 0x37
  const IP4 := 0x04
  const IP6 := 0x29
  const P2P_CODE := 0x01a5
  const TCP := 0x06
  const TLS := 0x01c0
  const WS := 0x01dd
  const WSS := 0x01de
  const MEMORY := 0x0309
  const SHA256_CODE := 0x12
  const SHA256_SIZE := 32
  const U64_SIZE := 0x1_0000_0000_0000_0000

  /** Text is held as its UTF-8 bytes, an IPv4 address as its octets, an IPv6 address as its segments. */
  datatype Protocol =
    | Dns4(text: Bytes)
    | Dns6(text: Bytes)
    | Ip4(octets: Bytes)
    | Ip6(segments: seq<u16>)
    | P2P(hash: Bytes)
    | Tcp(port: u16)
    | Tls(text: Bytes)
    | Ws
    | Wss
    | Memory(id: u64)

  datatype Error = DataLessThanLen | InvalidUvar | NotUtf8 | UnknownHash | UnknownProtocolId(id: nat)

  datatype Parsed<T> = Ok(value: T, rest: Bytes) | Err(error: Error)

  // ---------------------------------------------------------------- unsigned varints

  function Pow128(n: nat): nat { if n == 0 then 1 else 128 * Pow128(n - 1) }

  function PutVarint(n: nat): (b: Bytes)
    ensures |b| >= 1
  {
    if n < 128 then [n] else [128 + n % 128] + PutVarint(n / 128)
  }

  /** Seven bits a byte, low ones first, from byte number `i` on; at most `max + 1` bytes and no superfluous last
      zero. */
  function VarintFrom(input: Bytes, i: nat, max: nat): (r: Parsed<nat>)
    ensures r.Ok? ==> |r.rest| < |input|
    decreases |input|
  {
    if input == [] then Err(InvalidUvar)
    else if input[0] < 128 then (if input[0] == 0 && i > 0 then Err(InvalidUvar) else Ok(input[0], input[1..]))
    else if i == max then Err(InvalidUvar)
    else
      var r := VarintFrom(input[1..], i + 1, max);
      if r.Err? then r else Ok(input[0] - 128 + 128 * r.value, r.rest)
  }

  /** Decoding to a fixed width keeps the low bits. */
  function GetVarint(input: Bytes, max: nat, modulus: nat): (r: Parsed<nat>)
    requires modulus > 0
    ensures r.Ok? ==> |r.rest| < |input|
  {
    var r := VarintFrom(input, 0, max);
    if r.Err? then r else r.(value := r.value % modulus)
  }

  function GetVarint16(input: Bytes): (r: Parsed<nat>)
    ensures r.Ok? ==> |r.rest| < |input|
  {
    GetVarint(input, 2, 0x1_0000)
  }

  function GetVarint32(input: Bytes): (r: Parsed<nat>)
    ensures r.Ok? ==> |r.rest| < |input|
  {
    GetVarint(input, 4, U32_SIZE)
  }

  function GetVarint64(input: Bytes): (r: Parsed<nat>)
    ensures r.Ok? ==> |r.rest| < |input|
  {
    GetVarint(input, 9, U64_SIZE)
  }

  // ---------------------------------------------------------------- parts of a component

  function IsCont(b: byte): bool { 0x80 <= b < 0xc0 }

  /** Well-formed UTF-8 (section 4 of RFC 3629). */
  predicate Utf8(s: Bytes) {
    if s == [] then true
    else if s[0] < 0x80 then Utf8(s[1..])
    else if 0xc2 <= s[0] < 0xe0 then |s| >= 2 && IsCont(s[1]) && Utf8(s[2..])
    else if 0xe0 <= s[0] < 0xf0 then
      && |s| >= 3 && IsCont(s[1]) && IsCont(s[2])
      && (s[0] == 0xe0 ==> s[1] >= 0xa0) && (s[0] == 0xed ==> s[1] < 0xa0) && Utf8(s[3..])
    else if 0xf0 <= s[0] < 0xf5 then
      && |s| >= 4 && IsCont(s[1]) && IsCont(s[2]) && IsCont(s[3])
      && (s[0] == 0xf0 ==> s[1] >= 0x90) && (s[0] == 0xf4 ==> s[1] < 0x90) && Utf8(s[4..])
    else false
  }

  /** `check_p2p`: a SHA-256 multihash. */
  predicate CheckP2P(data: Bytes) {
    var r := GetVarint16(data);
    r.Ok? && r.value == SHA256_CODE && |r.rest| == SHA256_SIZE + 1 && r.rest[0] == SHA256_SIZE
  }

  function SplitHeader(n: nat, input: Bytes): (r: Parsed<Bytes>)
    ensures r.Ok? ==> |r.value| == n && input == r.value + r.rest
  {
    if |input| < n then Err(DataLessThanLen) else Ok(input[..n], input[n..])
  }

  /** A length and that many bytes. */
  function GetSized(input: Bytes): (r: Parsed<Bytes>)
    ensures r.Ok? ==> |r.rest| < |input|
  {
    var n := GetVarint64(input);
    if n.Err? then Err(n.error) else SplitHeader(n.value, n.rest)
  }

  function PutSized(data: Bytes): Bytes { PutVarint(|data|) + data }

  function PutSegments(segments: seq<u16>): (b: Bytes)
    ensures |b| == 2 * |segments|
  {
    if segments == [] then [] else PutU16(segments[0]) + PutSegments(segments[1..])
  }

  function GetSegments(data: Bytes): (r: seq<u16>)
    requires |data| % 2 == 0
    ensures 2 * |r| == |data|
  {
    if data == [] then [] else [GetU16(data)] + GetSegments(data[2..])
  }

  function PutU64(n: u64): Bytes { PutU32(n / U32_SIZE) + PutU32(n % U32_SIZE) }

  function GetU64(s: Bytes): u64
    requires |s| >= 8
  {
    GetU32(s) as int * U32_SIZE + GetU32(s[4..]) as int
  }

  // ---------------------------------------------------------------- components

  /** What the source's types guarantee of a component. */
  predicate WellTyped(p: Protocol) {
    match p
    case Dns4(_) | Dns6(_) | Tls(_) => Utf8(p.text) && |p.text| < U64_SIZE
    case Ip4(octets) => |octets| == 4
    case Ip6(segments) => |segments| == 8
    case P2P(hash) => |hash| < U64_SIZE
    case _ => true
  }

  function Code(p: Protocol): u32 {
    match p
    case Dns4(_) => DNS4
    case Dns6(_) => DNS6
    case Ip4(_) => IP4
    case Ip6(_) => IP6
    case P2P(_) => P2P_CODE
    case Tcp(_) => TCP
    case Tls(_) => TLS
    case Ws => WS
    case Wss => WSS
    case Memory(_) => MEMORY
  }

  function Body(p: Protocol): Bytes {
    match p
    case Dns4(_) | Dns6(_) | Tls(_) => PutSized(p.text)
    case Ip4(octets) => octets
    case Ip6(segments) => PutSegments(segments)
    case P2P(hash) => PutSized(hash)
    case Tcp(port) => PutU16(port)
    case Ws | Wss => []
    case Memory(id) => PutU64(id)
  }

  /** `write_to_bytes`: what is appended to the buffer. */
  function Write(p: Protocol): Bytes { PutVarint(Code(p)) + Body(p) }

  /** The components whose value is text. */
  function TextOf(id: nat, text: Bytes): Option<Protocol> {
    if id == DNS4 then Some(Dns4(text))
    else if id == DNS6 then Some(Dns6(text))
    else if id == TLS then Some(Tls(text))
    else None
  }

  /** The components of fixed size, none for the others. */
  function SizeOf(id: nat): Option<nat> {
    if id == IP4 then Some(4)
    else if id == IP6 then Some(16)
    else if id == TCP then Some(2)
    else if id == MEMORY then Some(8)
    else if id == WS || id == WSS then Some(0)
    else None
  }

  function FixedOf(id: nat, data: Bytes): Protocol
    requires SizeOf(id) == Some(|data|)
  {
    if id == IP4 then Ip4(data)
    else if id == IP6 then Ip6(GetSegments(data))
    else if id == TCP then Tcp(GetU16(data))
    else if id == MEMORY then Memory(GetU64(data))
    else if id == WS then Ws
    else Wss
  }

  /** A sized component: text must be UTF-8, a hash a SHA-256 multihash. */
  function FromSized(id: nat, data: Bytes, rest: Bytes): Parsed<Protocol> {
    if id == P2P_CODE then (if CheckP2P(data) then Ok(P2P(data), rest) else Err(UnknownHash))
    else if TextOf(id, data).None? then Err(UnknownProtocolId(id))
    else if Utf8(data) then Ok(TextOf(id, data).value, rest)
    else Err(NotUtf8)
  }

  /** The part of `from_bytes` after the protocol code. */
  function FromBody(id: nat, input: Bytes): Parsed<Protocol> {
    if SizeOf(id).Some? then
      var r := SplitHeader(SizeOf(id).value, input);
      if r.Err? then Err(r.error) else Ok(FixedOf(id, r.value), r.rest)
    else if id == P2P_CODE || TextOf(id, []).Some? then
      var r := GetSized(input);
      if r.Err? then Err(r.error) else FromSized(id, r.value, r.rest)
    else Err(UnknownProtocolId(id))
  }

  function FromBytes(input: Bytes): (r: Parsed<Protocol>)
    ensures r.Ok? ==> |r.rest| < |input|
  {
    var id := GetVarint32(input);
    if id.Err? then Err(id.error) else FromBody(id.value, id.rest)
  }

  // ---------------------------------------------------------------- parsing undoes writing

  lemma {:induction false} PutVarintReads(n: nat, i: nat, max: nat, tail: Bytes)
    requires i <= max && n < Pow128(max - i + 1) && (n > 0 || i == 0)
    ensures VarintFrom(PutVarint(n) + tail, i, max) == Ok(n, tail)
    decreases n
  {
    if n < 128 {
      assert ([n] + tail)[1..] == tail;
    } else {
      assert Pow128(1) == 128 && Pow128(max - i + 1) == 128 * Pow128(max - i);
      PutVarintReads(n / 128, i + 1, max, tail);
      var b: byte := 128 + n % 128;
      assert PutVarint(n) + tail == [b] + (PutVarint(n / 128) + tail);
      assert ([b] + (PutVarint(n / 128) + tail))[1..] == PutVarint(n / 128) + tail;
    }
  }

  lemma Powers()
    ensures Pow128(5) == 0x8_0000_0000 && Pow128(10) == 0x40_0000_0000_0000_0000
  {
    assert Pow128(2) == 0x4000;
    assert Pow128(4) == 0x4000 * 0x4000;
    assert Pow128(6) == 128 * Pow128(5);
    assert Pow128(8) == 128 * (128 * Pow128(6));
    assert Pow128(10) == 128 * (128 * Pow128(8));
  }

  lemma SmallMod(n: nat, m: nat)
    requires n < m
    ensures n % m == n
  {
  }

  lemma VarintReads(n: nat, max: nat, modulus: nat, tail: Bytes)
    requires n < modulus <= Pow128(max + 1)
    ensures GetVarint(PutVarint(n) + tail, max, modulus) == Ok(n, tail)
  {
    PutVarintReads(n, 0, max, tail);
    var input := PutVarint(n) + tail;
    assert VarintFrom(input, 0, max) == Ok(n, tail);
    SmallMod(n, modulus);
  }

  lemma Varint32Reads(n: u32, tail: Bytes)
    ensures GetVarint32(PutVarint(n) + tail) == Ok(n, tail)
  {
    Powers();
    VarintReads(n, 4, U32_SIZE, tail);
  }

  lemma Varint64Reads(n: u64, tail: Bytes)
    ensures GetVarint64(PutVarint(n) + tail) == Ok(n, tail)
  {
    Powers();
    VarintReads(n, 9, U64_SIZE, tail);
  }

  lemma SizedReads(data: Bytes, tail: Bytes)
    requires |data| < U64_SIZE
    ensures GetSized(PutSized(data) + tail) == Ok(data, tail)
  {
    assert PutSized(data) + tail == PutVarint(|data|) + (data + tail);
    Varint64Reads(|data|, data + tail);
    assert (data + tail)[..|data|] == data && (data + tail)[|data|..] == tail;
  }

  lemma {:induction false} SegmentsRead(segments: seq<u16>)
    ensures GetSegments(PutSegments(segments)) == segments
  {
    if segments != [] {
      SegmentsRead(segments[1..]);
      var b := PutU16(segments[0]);
      assert (b + PutSegments(segments[1..]))[2..] == PutSegments(segments[1..]);
    }
  }

  lemma U64Reads(n: u64)
    ensures GetU64(PutU64(n)) == n
  {
    var hi, lo := n / U32_SIZE, n % U32_SIZE;
    U32Reads(hi, PutU32(lo));
    U32Reads(lo, []);
    assert PutU64(n)[4..] == PutU32(lo) + [];
  }

  lemma U32Reads(n: u32, tail: Bytes)
    ensures GetU32(PutU32(n) + tail) == n
  {
    var hi, lo := n / 0x1_0000, n % 0x1_0000;
    assert (PutU32(n) + tail)[2..][..2] == PutU16(lo);
  }

  lemma FixedReads(n: nat, data: Bytes, tail: Bytes)
    requires |data| == n
    ensures SplitHeader(n, data + tail) == Ok(data, tail)
  {
  }

  /** A component is parsed back, in front of anything, exactly when it is not a P2P component with a malformed hash. */
  lemma WrittenParses(p: Protocol, tail: Bytes)
    requires WellTyped(p)
    ensures FromBytes(Write(p) + tail) == Ok(p, tail) <==> (p.P2P? ==> CheckP2P(p.hash))
  {
    var code := Code(p);
    var body := Body(p);
    assert Write(p) + tail == PutVarint(code) + (body + tail);
    Varint32Reads(code, body + tail);
    BodyParses(p, tail);
  }

  lemma FixedValue(p: Protocol)
    requires WellTyped(p) && SizeOf(Code(p)).Some?
    ensures |Body(p)| == SizeOf(Code(p)).value && FixedOf(Code(p), Body(p)) == p
  {
    match p
    case Ip6(segments) => SegmentsRead(segments);
    case Memory(id) => U64Reads(id);
    case _ =>
  }

  lemma BodyParses(p: Protocol, tail: Bytes)
    requires WellTyped(p)
    ensures FromBody(Code(p), Body(p) + tail) == Ok(p, tail) <==> (p.P2P? ==> CheckP2P(p.hash))
  {
    if SizeOf(Code(p)).Some? {
      FixedValue(p);
      FixedReads(|Body(p)|, Body(p), tail);
    } else {
      SizedReads(if p.P2P? then p.hash else p.text, tail);
    }
  }

  // ---------------------------------------------------------------- a parse looks only at what it consumes

  lemma {:induction false} VarintSuffix(input: Bytes, i: nat, max: nat)
    requires VarintFrom(input, i, max).Ok?
    ensures var rest := VarintFrom(input, i, max).rest; rest == input[|input| - |rest|..]
    decreases |input|
  {
    if input[0] >= 128 { VarintSuffix(input[1..], i + 1, max); }
  }

  lemma {:induction false} VarintIsLocal(c: Bytes, rest: Bytes, tail: Bytes, i: nat, max: nat)
    requires VarintFrom(c + rest, i, max).Ok? && VarintFrom(c + rest, i, max).rest == rest
    ensures VarintFrom(c + tail, i, max) == Ok(VarintFrom(c + rest, i, max).value, tail)
    decreases |c|
  {
    assert c != [];
    assert (c + rest)[1..] == c[1..] + rest && (c + tail)[1..] == c[1..] + tail;
    if c[0] < 128 {
      assert |c[1..]| == 0;
      assert c[1..] + tail == tail;
    } else {
      VarintIsLocal(c[1..], rest, tail, i + 1, max);
    }
  }

  /** If the bytes up to `rest` consist of `c`, and a first part of them was followed by `v`, then that part is what
      stands before `v` in `c`. */
  lemma PartBefore(c: Bytes, rest: Bytes, v: Bytes)
    requires |v| <= |c| && (c + rest)[|c| - |v|..] == v + rest
    ensures c == c[..|c| - |v|] + v
  {
    assert forall k :: |c| - |v| <= k < |c| ==> c[k] == (c + rest)[|c| - |v|..][k - (|c| - |v|)];
  }

  /** The same for a varint in front of `v`. */
  lemma HeaderIsLocal(c: Bytes, rest: Bytes, v: Bytes, tail: Bytes, max: nat)
    requires VarintFrom(c + rest, 0, max).Ok? && VarintFrom(c + rest, 0, max).rest == v + rest
    ensures VarintFrom(c + tail, 0, max) == Ok(VarintFrom(c + rest, 0, max).value, v + tail)
  {
    VarintSuffix(c + rest, 0, max);
    PartBefore(c, rest, v);
    var head := c[..|c| - |v|];
    assert c + rest == head + (v + rest) && c + tail == head + (v + tail);
    VarintIsLocal(head, v + rest, v + tail, 0, max);
  }

  lemma SizedIsLocal(c: Bytes, rest: Bytes, tail: Bytes)
    requires GetSized(c + rest).Ok? && GetSized(c + rest).rest == rest
    ensures GetSized(c + tail) == Ok(GetSized(c + rest).value, tail)
  {
    var n, v := VarintFrom(c + rest, 0, 9), GetSized(c + rest).value;
    assert n.rest == v + rest;
    HeaderIsLocal(c, rest, v, tail, 9);
    FixedReads(|v|, v, tail);
    assert GetVarint64(c + tail) == Ok(|v|, v + tail);
  }

  lemma SizedSuffix(input: Bytes)
    requires GetSized(input).Ok?
    ensures var rest := GetSized(input).rest; rest == input[|input| - |rest|..]
  {
    VarintSuffix(input, 0, 9);
  }

  lemma SplitIsLocal(n: nat, c: Bytes, rest: Bytes, tail: Bytes)
    requires SplitHeader(n, c + rest).Ok? && SplitHeader(n, c + rest).rest == rest
    ensures SplitHeader(n, c + tail) == Ok(SplitHeader(n, c + rest).value, tail)
  {
    assert |c| == n && (c + rest)[..n] == c;
    FixedReads(n, c, tail);
  }

  lemma BodySuffix(id: nat, input: Bytes)
    requires FromBody(id, input).Ok?
    ensures var rest := FromBody(id, input).rest; |rest| <= |input| && rest == input[|input| - |rest|..]
  {
    if SizeOf(id).None? { SizedSuffix(input); }
  }

  lemma BodyIsLocal(id: nat, c: Bytes, rest: Bytes, tail: Bytes)
    requires FromBody(id, c + rest).Ok? && FromBody(id, c + rest).rest == rest
    ensures FromBody(id, c + tail) == Ok(FromBody(id, c + rest).value, tail)
  {
    if SizeOf(id).Some? { SplitIsLocal(SizeOf(id).value, c, rest, tail); } else { SizedIsLocal(c, rest, tail); }
  }

  lemma ParseSuffix(input: Bytes)
    requires FromBytes(input).Ok?
    ensures var rest := FromBytes(input).rest; rest == input[|input| - |rest|..]
  {
    var id := GetVarint32(input);
    VarintSuffix(input, 0, 4);
    BodySuffix(id.value, id.rest);
  }

  /** The bytes behind a component do not matter for parsing it. */
  lemma ParseIsLocal(c: Bytes, rest: Bytes, tail: Bytes)
    requires FromBytes(c + rest).Ok? && FromBytes(c + rest).rest == rest
    ensures FromBytes(c + tail) == Ok(FromBytes(c + rest).value, tail)
  {
    var id := GetVarint32(c + rest);
    BodySuffix(id.value, id.rest);
    var body := id.rest[..|id.rest| - |rest|];
    assert id.rest == body + rest;
    HeaderIsLocal(c, rest, body, tail, 4);
    assert GetVarint32(c + tail) == Ok(id.value, body + tail);
    BodyIsLocal(id.value, body, rest, tail);
  }

  /** A P2P component that was parsed carries a well-formed hash. */
  lemma ParsedHash(input: Bytes)
    requires FromBytes(input).Ok? && FromBytes(input).value.P2P?
    ensures CheckP2P(FromBytes(input).value.hash)
  {
  }

  /** The parser only gives back what the source's types allow. */
  lemma ParsedIsTyped(input: Bytes)
    requires FromBytes(input).Ok?
    ensures WellTyped(FromBytes(input).value)
  {
    hide Utf8, CheckP2P;
    var id := GetVarint32(input);
    if SizeOf(id.value).Some? { FixedPrints(id.value, SplitHeader(SizeOf(id.value).value, id.rest).value); }
  }

  // ---------------------------------------------------------------- writing undoes parsing, unless a varint overflows

  /** No varint of the component in front is cut to its width: the code has at most 32 bits, a length at most 64. */
  predicate FitsFront(input: Bytes) {
    var code := VarintFrom(input, 0, 4);
    && code.Ok? && code.value < U32_SIZE
    && (SizeOf(code.value).None? ==>
          var length := VarintFrom(code.rest, 0, 9);
          length.Ok? && length.value < U64_SIZE)
  }

  /** A varint that was read is the one that would be written for the full value. */
  lemma {:induction false} VarintPrints(input: Bytes, i: nat, max: nat)
    requires VarintFrom(input, i, max).Ok?
    ensures var r := VarintFrom(input, i, max); input == PutVarint(r.value) + r.rest && (i > 0 ==> r.value > 0)
    decreases |input|
  {
    assert input == [input[0]] + input[1..];
    if input[0] >= 128 {
      VarintPrints(input[1..], i + 1, max);
      var r := VarintFrom(input[1..], i + 1, max);
      var low := input[0] - 128;
      assert (low + 128 * r.value) % 128 == low && (low + 128 * r.value) / 128 == r.value;
    }
  }

  lemma {:induction false} SegmentsPrint(data: Bytes)
    requires |data| % 2 == 0
    ensures PutSegments(GetSegments(data)) == data
  {
    if data != [] {
      SegmentsPrint(data[2..]);
      PutGetU16(data);
      assert data == data[..2] + data[2..];
    }
  }

  lemma U64Prints(data: Bytes)
    requires |data| == 8
    ensures PutU64(GetU64(data)) == data
  {
    PutGetU32(data);
    PutGetU32(data[4..]);
    var hi, lo := GetU32(data), GetU32(data[4..]);
    assert GetU64(data) / U32_SIZE == hi && GetU64(data) % U32_SIZE == lo;
    assert data == data[..4] + data[4..];
  }

  lemma FixedPrints(id: nat, data: Bytes)
    requires SizeOf(id) == Some(|data|)
    ensures var p := FixedOf(id, data); WellTyped(p) && Code(p) == id && Body(p) == data
  {
    if id == IP6 {
      SegmentsPrint(data);
    } else if id == TCP {
      PutGetU16(data);
    } else if id == MEMORY {
      U64Prints(data);
    }
  }

  lemma SizedPrints(input: Bytes)
    requires GetSized(input).Ok? && VarintFrom(input, 0, 9).value < U64_SIZE
    ensures input == PutSized(GetSized(input).value) + GetSized(input).rest
  {
    VarintPrints(input, 0, 9);
    SmallMod(VarintFrom(input, 0, 9).value, U64_SIZE);
  }

  lemma BodyPrints(id: nat, input: Bytes)
    requires FromBody(id, input).Ok? && (SizeOf(id).None? ==> VarintFrom(input, 0, 9).value < U64_SIZE)
    ensures var r := FromBody(id, input); Code(r.value) == id && input == Body(r.value) + r.rest
  {
    hide Utf8, CheckP2P;
    if SizeOf(id).Some? {
      FixedPrints(id, SplitHeader(SizeOf(id).value, input).value);
    } else {
      SizedPrints(input);
    }
  }

  lemma FittingPrints(input: Bytes)
    requires FromBytes(input).Ok? && FitsFront(input)
    ensures input == Write(FromBytes(input).value) + FromBytes(input).rest
  {
    hide FromBody;
    var code := VarintFrom(input, 0, 4);
    SmallMod(code.value, U32_SIZE);
    VarintPrints(input, 0, 4);
    BodyPrints(code.value, code.rest);
  }

  lemma WrittenFits(p: Protocol, tail: Bytes)
    requires WellTyped(p)
    ensures FitsFront(Write(p) + tail)
  {
    hide Utf8, VarintFrom, PutVarint, PutSegments, PutU64;
    Powers();
    var code, body := Code(p), Body(p);
    assert Write(p) + tail == PutVarint(code) + (body + tail);
    PutVarintReads(code, 0, 4, body + tail);
    if SizeOf(code).None? {
      var data := if p.P2P? then p.hash else p.text;
      assert body + tail == PutVarint(|data|) + (data + tail);
      PutVarintReads(|data|, 0, 9, data + tail);
    }
  }

  /** A component that was parsed is written back to the bytes it was parsed from exactly when no varint overflowed. */
  lemma ParsedPrintsIff(input: Bytes)
    requires FromBytes(input).Ok?
    ensures input == Write(FromBytes(input).value) + FromBytes(input).rest <==> FitsFront(input)
  {
    hide FromBytes, FitsFront, Write;
    var r := FromBytes(input);
    if FitsFront(input) { FittingPrints(input); }
    if input == Write(r.value) + r.rest {
      ParsedIsTyped(input);
      WrittenFits(r.value, r.rest);
    }
  }
}
