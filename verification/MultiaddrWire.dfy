/** The bytes of a multiaddress (tentacle/multiaddr/src/protocol.rs; the code table of the multiaddr specification,
    UTF-8 as in section 3 of RFC 3629), and what makes a parse fail. */
module MultiaddrWire {
  import opened Common
  import opened MultiaddrProtocol

  // ---------------------------------------------------------------- components

  lemma ShortVarint(n: nat)
    ensures n < 128 ==> PutVarint(n) == [n]
    ensures 128 <= n < 128 * 128 ==> PutVarint(n) == [128 + n % 128, n / 128]
  {
    if 128 <= n < 128 * 128 { assert PutVarint(n / 128) == [n / 128]; }
  }

  /** One byte string for each kind of component: its code, then text and hashes behind their length, numbers most
      significant byte first. */
  lemma TextsOnWire(text: Bytes)
    requires |text| < 128
    ensures Write(Dns4(text)) == [0x36, |text|] + text && Write(Dns6(text)) == [0x37, |text|] + text
    ensures Write(Tls(text)) == [0xc0, 0x03, |text|] + text && Write(P2P(text)) == [0xa5, 0x03, |text|] + text
  {
    hide PutVarint, PutSized;
    ShortVarint(0x36);
    ShortVarint(0x37);
    ShortVarint(0x01c0);
    ShortVarint(0x01a5);
    ShortSized([0x36], text);
    ShortSized([0x37], text);
    ShortSized([0xc0, 0x03], text);
    ShortSized([0xa5, 0x03], text);
  }

  lemma ShortSized(code: Bytes, text: Bytes)
    requires |text| < 128
    ensures code + PutSized(text) == code + [|text|] + text
  {
    ShortVarint(|text|);
  }

  lemma NumbersOnWire(a: byte, b: byte, c: byte, d: byte, port: u16)
    ensures Write(Ip4([a, b, c, d])) == [0x04, a, b, c, d]
    ensures Write(Tcp(port)) == [0x06, port / 0x100, port % 0x100]
    ensures Write(Ws) == [0xdd, 0x03] && Write(Wss) == [0xde, 0x03]
  {
    hide PutVarint;
    ShortVarint(0x04);
    ShortVarint(0x06);
    ShortVarint(0x01dd);
    ShortVarint(0x01de);
  }

  lemma MemoryOnWire(id: u64)
    ensures Write(Memory(id)) == [0x89, 0x06] + PutU32(id / 0x1_0000_0000) + PutU32(id % 0x1_0000_0000)
  {
    hide PutVarint;
    ShortVarint(0x0309);
  }

  lemma Ip6OnWire(segments: seq<u16>, k: nat)
    requires |segments| == 8 && k < 8
    ensures var w := Write(Ip6(segments));
            && |w| == 17 && w[0] == 0x29
            && w[2 * k + 1] == segments[k] / 0x100 && w[2 * k + 2] == segments[k] % 0x100
  {
    ShortVarint(0x29);
    SegmentAt(segments, k);
    assert Write(Ip6(segments)) == [0x29] + PutSegments(segments);
  }

  lemma {:induction false} SegmentAt(segments: seq<u16>, k: nat)
    requires k < |segments|
    ensures var b := PutSegments(segments); b[2 * k] == segments[k] / 0x100 && b[2 * k + 1] == segments[k] % 0x100
  {
    if k > 0 { SegmentAt(segments[1..], k - 1); }
  }

  // ---------------------------------------------------------------- text

  /** A Unicode scalar value. */
  predicate Scalar(c: nat) { c < 0xd800 || 0xe000 <= c < 0x11_0000 }

  function Point(c: nat): Bytes
    requires Scalar(c)
  {
    if c < 0x80 then [c]
    else if c < 0x800 then [0xc0 + c / 64, 0x80 + c % 64]
    else if c < 0x1_0000 then [0xe0 + c / 4096, 0x80 + c / 64 % 64, 0x80 + c % 64]
    else [0xf0 + c / 262144, 0x80 + c / 4096 % 64, 0x80 + c / 64 % 64, 0x80 + c % 64]
  }

  function Points(cs: seq<nat>): Bytes
    requires forall i :: 0 <= i < |cs| ==> Scalar(cs[i])
  {
    if cs == [] then [] else Point(cs[0]) + Points(cs[1..])
  }

  /** These bytes are the UTF-8 form of some text. */
  ghost predicate IsText(s: Bytes) { exists cs :: Spells(cs, s) }

  ghost predicate Spells(cs: seq<nat>, s: Bytes) { (forall i :: 0 <= i < |cs| ==> Scalar(cs[i])) && Points(cs) == s }

  lemma {:induction false} PointIsUtf8(c: nat, rest: Bytes)
    requires Scalar(c)
    ensures Utf8(Point(c) + rest) <==> Utf8(rest)
  {
    var s := Point(c) + rest;
    assert s[|Point(c)|..] == rest;
    if c < 0x80 {
    } else if c < 0x800 {
      assert 2 <= c / 64 < 32;
    } else if c < 0x1_0000 {
      Split3(c);
    } else {
      Split4(c);
    }
  }

  lemma Split3(c: nat)
    requires 0x800 <= c < 0x1_0000 && Scalar(c)
    ensures var a, b := c / 4096, c / 64 % 64;
            a < 16 && (a == 0 ==> b >= 0x20) && (a == 0xd ==> b < 0x20)
  {
    var q := c / 64;
    assert q / 64 == c / 4096;
  }

  lemma Split4(c: nat)
    requires 0x1_0000 <= c < 0x11_0000
    ensures var a, b := c / 262144, c / 4096 % 64;
            a < 5 && (a == 0 ==> b >= 0x10) && (a == 4 ==> b < 0x10)
  {
    var q := c / 4096;
    assert q / 64 == c / 262144;
  }

  lemma {:induction false} TextIsUtf8(cs: seq<nat>, s: Bytes)
    requires Spells(cs, s)
    ensures Utf8(s)
    decreases |cs|
  {
    if cs != [] {
      TextIsUtf8(cs[1..], Points(cs[1..]));
      PointIsUtf8(cs[0], Points(cs[1..]));
    }
  }

  lemma Point2(x: nat, y: nat)
    requires 2 <= x < 32 && y < 64
    ensures var c := x * 64 + y; Scalar(c) && Point(c) == [0xc0 + x, 0x80 + y]
  {
  }

  lemma Point3(x: nat, y: nat, z: nat)
    requires x < 16 && y < 64 && z < 64 && (x == 0 ==> y >= 0x20) && (x == 0xd ==> y < 0x20)
    ensures var c := (x * 64 + y) * 64 + z; Scalar(c) && Point(c) == [0xe0 + x, 0x80 + y, 0x80 + z]
  {
    var c := (x * 64 + y) * 64 + z;
    assert c / 64 == x * 64 + y && c / 4096 == x;
  }

  lemma Point4(x: nat, y: nat, z: nat, u: nat)
    requires x < 5 && y < 64 && z < 64 && u < 64 && (x == 0 ==> y >= 0x10) && (x == 4 ==> y < 0x10)
    ensures var c := ((x * 64 + y) * 64 + z) * 64 + u;
            Scalar(c) && Point(c) == [0xf0 + x, 0x80 + y, 0x80 + z, 0x80 + u]
  {
    var c := ((x * 64 + y) * 64 + z) * 64 + u;
    assert c / 64 == (x * 64 + y) * 64 + z && c / 4096 == x * 64 + y && c / 262144 == x;
  }

  /** The first scalar value of well-formed bytes, and what follows it. */
  lemma FirstPoint(s: Bytes) returns (c: nat, rest: Bytes)
    requires Utf8(s) && s != []
    ensures Scalar(c) && s == Point(c) + rest && Utf8(rest) && |rest| < |s|
  {
    hide Point;
    if s[0] < 0x80 {
      c, rest := s[0], s[1..];
      assert Point(c) == [s[0]] by { Ascii(c); }
    } else if s[0] < 0xe0 {
      var x, y := s[0] as int - 0xc0, s[1] as int - 0x80;
      Point2(x, y);
      c, rest := x * 64 + y, s[2..];
    } else if s[0] < 0xf0 {
      var x, y, z := s[0] as int - 0xe0, s[1] as int - 0x80, s[2] as int - 0x80;
      Point3(x, y, z);
      c, rest := (x * 64 + y) * 64 + z, s[3..];
    } else {
      var x, y, z, u := s[0] as int - 0xf0, s[1] as int - 0x80, s[2] as int - 0x80, s[3] as int - 0x80;
      Point4(x, y, z, u);
      c, rest := ((x * 64 + y) * 64 + z) * 64 + u, s[4..];
    }
    assert s == Point(c) + rest;
  }

  lemma Ascii(c: nat)
    requires c < 0x80
    ensures Point(c) == [c]
  {
  }

  lemma {:induction false} Utf8IsText(s: Bytes) returns (cs: seq<nat>)
    requires Utf8(s)
    ensures Spells(cs, s)
    decreases |s|
  {
    if s == [] {
      cs := [];
    } else {
      var c, rest := FirstPoint(s);
      var tail := Utf8IsText(rest);
      cs := [c] + tail;
      assert cs[1..] == tail;
    }
  }

  /** The test for text accepts exactly the UTF-8 forms of sequences of Unicode scalar values. */
  lemma Utf8Iff(s: Bytes)
    ensures Utf8(s) <==> IsText(s)
  {
    if Utf8(s) { var cs := Utf8IsText(s); assert Spells(cs, s); }
    if IsText(s) {
      var cs :| Spells(cs, s);
      TextIsUtf8(cs, s);
    }
  }

  // ---------------------------------------------------------------- hashes

  /** The test for hashes accepts a SHA-256 multihash, and besides it those whose code overflows sixteen bits and leaves
      the code of SHA-256 in the low ones. */
  lemma HashIff(data: Bytes)
    ensures CheckP2P(data) <==>
            || (|data| == 34 && data[0] == 0x12 && data[1] == 32)
            || (|data| == 36 && data[0] == 0x92 && data[1] == 0x80 && 0 < data[2] < 128 && data[2] % 4 == 0
                && data[3] == 32)
  {
    hide VarintFrom;
    FirstByte(data);
    if |data| == 1 {
      assert data[1..] == [];
    } else if |data| > 1 && data[0] >= 128 {
      VarintTail(data[1..]);
      if data[1] < 128 {
        assert data[1..][0] == data[1];
      } else if |data| > 2 {
        assert data[1..][0] == data[1] && data[1..][1] == data[2] && data[1..][2..] == data[3..];
        if 0 < data[2] < 128 { ThreeBytes(data[0] - 128, data[1] - 128, data[2]); }
      } else {
        assert data[1..][0] == data[1];
      }
    }
  }

  lemma FirstByte(data: Bytes)
    ensures VarintFrom(data, 0, 2) ==
            if data == [] then Err(InvalidUvar)
            else if data[0] < 128 then Ok(data[0], data[1..])
            else match VarintFrom(data[1..], 1, 2)
              case Err(error) => Err(error)
              case Ok(value, rest) => Ok(data[0] as int - 128 + 128 * value, rest)
    ensures VarintFrom([], 1, 2) == Err(InvalidUvar)
  {
  }

  lemma VarintTail(a: Bytes)
    requires a != []
    ensures VarintFrom(a, 1, 2) ==
            if 0 < a[0] < 128 then Ok(a[0], a[1..])
            else if a[0] == 0 || |a| == 1 || a[1] == 0 || a[1] >= 128 then Err(InvalidUvar)
            else Ok(a[0] as int - 128 + 128 * a[1] as int, a[2..])
  {
    if |a| > 1 {
      VarintLast(a[1..]);
      assert a[1..][0] == a[1] && a[1..][1..] == a[2..];
    }
  }

  lemma VarintLast(b: Bytes)
    requires b != []
    ensures VarintFrom(b, 2, 2) == if 0 < b[0] < 128 then Ok(b[0], b[1..]) else Err(InvalidUvar)
  {
  }

  lemma ThreeBytes(x: nat, y: nat, z: nat)
    requires x < 128 && y < 128 && 0 < z < 128
    ensures (x + 128 * (y + 128 * z)) % 0x1_0000 == 0x12 <==> x == 0x12 && y == 0 && z % 4 == 0
  {
    var q, r := z / 4, z % 4;
    assert x + 128 * (y + 128 * z) == x + 128 * y + 16384 * r + 0x1_0000 * q;
    assert (x + 128 * (y + 128 * z)) % 0x1_0000 == x + 128 * y + 16384 * r;
  }

  // ---------------------------------------------------------------- failing

  const TEXT_CODES := {0x36, 0x37, 0x01c0}
  const SIZES := map[0x04 := 4, 0x29 := 16, 0x06 := 2, 0x0309 := 8, 0x01dd := 0, 0x01de := 0]

  /** Each error and when it is given. */
  lemma ParseFails(input: Bytes)
    ensures var r, id := FromBytes(input), GetVarint32(input);
            if id.Err? then r == Err(InvalidUvar)
            else if id.value in SIZES then
              if |id.rest| < SIZES[id.value] then r == Err(DataLessThanLen) else r.Ok?
            else if id.value in TEXT_CODES || id.value == 0x01a5 then
              var n := GetVarint64(id.rest);
              if n.Err? then r == Err(InvalidUvar)
              else if |n.rest| < n.value then r == Err(DataLessThanLen)
              else
                var data := n.rest[..n.value];
                && (r == Err(UnknownHash) <==> id.value == 0x01a5 && !CheckP2P(data))
                && (r == Err(NotUtf8) <==> id.value != 0x01a5 && !Utf8(data))
                && (r.Err? ==> r == Err(UnknownHash) || r == Err(NotUtf8))
            else r == Err(UnknownProtocolId(id.value))
  {
    hide Utf8, CheckP2P;
    VarintErrs(input, 0, 4);
    var id := GetVarint32(input);
    if id.Ok? { VarintErrs(id.rest, 0, 9); }
  }

  lemma {:induction false} VarintErrs(input: Bytes, i: nat, max: nat)
    ensures VarintFrom(input, i, max).Err? ==> VarintFrom(input, i, max) == Err(InvalidUvar)
    decreases |input|
  {
    if input != [] && input[0] >= 128 && i != max { VarintErrs(input[1..], i + 1, max); }
  }
}
