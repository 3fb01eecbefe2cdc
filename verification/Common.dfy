/** Optional values and the fixed-width integers and byte orders the repository's codecs use. */
module Common {

  datatype Option<+T> = None | Some(value: T)

  type byte = x: int | 0 <= x < 0x100
  type u16 = x: int | 0 <= x < 0x1_0000
  type u32 = x: int | 0 <= x < 0x1_0000_0000
  type u64 = x: int | 0 <= x < 0x1_0000_0000_0000_0000

  const U32_SIZE := 0x1_0000_0000

  /** Release-mode `u32` subtraction and addition: they wrap. */
  function Sub32(a: int, b: int): u32 { (a - b) % U32_SIZE }
  function Add32(a: int, b: int): u32 { (a + b) % U32_SIZE }

  function Min(a: nat, b: nat): nat { if a <= b then a else b }

  function Max(a: nat, b: nat): nat { if a >= b then a else b }

  function PutU16(n: u16): seq<byte> { [n / 0x100, n % 0x100] }

  function GetU16(s: seq<byte>): u16
    requires |s| >= 2
  {
    s[0] as int * 0x100 + s[1] as int
  }

  function PutU32(n: u32): seq<byte> { PutU16(n / 0x1_0000) + PutU16(n % 0x1_0000) }

  function GetU32(s: seq<byte>): u32
    requires |s| >= 4
  {
    GetU16(s) as int * 0x1_0000 + GetU16(s[2..]) as int
  }

  lemma PutGetU16(s: seq<byte>)
    requires |s| >= 2
    ensures PutU16(GetU16(s)) == s[..2]
  {
    assert s[..2] == [s[0], s[1]];
  }

  lemma PutGetU32(s: seq<byte>)
    requires |s| >= 4
    ensures PutU32(GetU32(s)) == s[..4]
  {
    PutGetU16(s);
    PutGetU16(s[2..]);
    assert s[..4] == s[..2] + s[2..][..2];
  }
}
