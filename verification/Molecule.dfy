/** The Molecule layouts behind the generated readers and builders (tentacle/protocols/discovery/src/protocol_mol.rs,
    tentacle/secio/src/handshake/handshake_mol.rs; CKB RFC 0008, section "Memory Layout"), for every schema built from
    byte arrays, byte vectors, dynamic vectors, tables, options and unions. */
module Molecule {
  import opened Common

  type Bytes = seq<byte>

  const NUMBER_SIZE := 4

  datatype Schema =
    | Array(size: nat)
    | FixVec
    | DynVec(item: Schema)
    | Table(fields: seq<Schema>)
    | Opt(inner: Schema)
    | Union(items: seq<Schema>)

  datatype Value =
    | Raw(bytes: Bytes)
    | List(values: seq<Value>)
    | Nothing
    | Just(value: Value)
    | Variant(id: nat, value: Value)

  /** No value of the schema is written as nothing at all; an option needs that of its inner schema. */
  predicate Solid(s: Schema) {
    match s
    case Array(size) => size > 0
    case Opt(_) => false
    case _ => true
  }

  predicate WellFormed(s: Schema) {
    match s
    case Array(_) | FixVec => true
    case DynVec(item) => WellFormed(item)
    case Table(fields) => forall i :: 0 <= i < |fields| ==> WellFormed(fields[i])
    case Opt(inner) => Solid(inner) && WellFormed(inner)
    case Union(items) => |items| < U32_SIZE && forall i :: 0 <= i < |items| ==> WellFormed(items[i])
  }

  predicate HasType(s: Schema, v: Value)
    decreases s
  {
    match (s, v)
    case (Array(size), Raw(bytes)) => |bytes| == size
    case (FixVec, Raw(_)) => true
    case (DynVec(item), List(values)) => forall i :: 0 <= i < |values| ==> HasType(item, values[i])
    case (Table(fields), List(values)) =>
      |values| == |fields| && forall i :: 0 <= i < |fields| ==> HasType(fields[i], values[i])
    case (Opt(_), Nothing) => true
    case (Opt(inner), Just(w)) => HasType(inner, w)
    case (Union(items), Variant(id, w)) => id < |items| && HasType(items[id], w)
    case _ => false
  }

  // ---------------------------------------------------------------- numbers

  /** `pack_number(n as u32)`: little-endian, cut to 32 bits. */
  function Pack(n: nat): (b: Bytes)
    ensures |b| == NUMBER_SIZE
  {
    var a := n / 0x100;
    var b := a / 0x100;
    var c := b / 0x100;
    [n % 0x100, a % 0x100, b % 0x100, c % 0x100]
  }

  function Unpack(s: Bytes): u32
    requires |s| >= NUMBER_SIZE
  {
    s[0] as int + 0x100 * (s[1] as int + 0x100 * (s[2] as int + 0x100 * s[3] as int))
  }

  lemma PackUnpack(n: u32, tail: Bytes)
    ensures Unpack(Pack(n) + tail) == n
  {
    var a := n / 0x100;
    var b := a / 0x100;
    var c := b / 0x100;
    assert c < 0x100;
    assert n == n % 0x100 + 0x100 * a && a == a % 0x100 + 0x100 * b && b == b % 0x100 + 0x100 * c;
  }

  lemma UnpackPack(s: Bytes)
    requires |s| >= NUMBER_SIZE
    ensures Pack(Unpack(s)) == s[..NUMBER_SIZE]
  {
    var c := s[3] as int;
    var b := s[2] as int + 0x100 * c;
    var a := s[1] as int + 0x100 * b;
    var n := s[0] as int + 0x100 * a;
    assert n / 0x100 == a && a / 0x100 == b && b / 0x100 == c;
    assert s[..4] == [s[0], s[1], s[2], s[3]];
  }

  // ---------------------------------------------------------------- writing

  function Flat(parts: seq<Bytes>): Bytes {
    if parts == [] then [] else parts[0] + Flat(parts[1..])
  }

  /** Where each part starts when the first one starts at `start`. */
  function Offsets(start: nat, parts: seq<Bytes>): (r: seq<nat>)
    ensures |r| == |parts|
    decreases |parts|
  {
    if parts == [] then [] else [start] + Offsets(start + |parts[0]|, parts[1..])
  }

  function PackAll(ns: seq<nat>): (b: Bytes)
    ensures |b| == NUMBER_SIZE * |ns|
  {
    if ns == [] then [] else Pack(ns[0]) + PackAll(ns[1..])
  }

  /** A dynamic vector or table with these items: total size, offsets, items. */
  function Layout(parts: seq<Bytes>): Bytes {
    var header := NUMBER_SIZE * (|parts| + 1);
    Pack(header + |Flat(parts)|) + PackAll(Offsets(header, parts)) + Flat(parts)
  }

  function Encode(s: Schema, v: Value): Bytes
    requires HasType(s, v)
    decreases s, 0
  {
    match s
    case Array(_) => v.bytes
    case FixVec => Pack(|v.bytes|) + v.bytes
    case DynVec(item) => Layout(EncodeItems(item, v.values))
    case Table(fields) => Layout(EncodeFields(fields, v.values))
    case Opt(inner) => if v.Nothing? then [] else Encode(inner, v.value)
    case Union(items) => Pack(v.id) + Encode(items[v.id], v.value)
  }

  function EncodeItems(item: Schema, values: seq<Value>): (parts: seq<Bytes>)
    requires forall i :: 0 <= i < |values| ==> HasType(item, values[i])
    ensures |parts| == |values|
    decreases item, 1 + |values|
  {
    if values == [] then [] else [Encode(item, values[0])] + EncodeItems(item, values[1..])
  }

  function EncodeFields(fields: seq<Schema>, values: seq<Value>): (parts: seq<Bytes>)
    requires |values| == |fields| && forall i :: 0 <= i < |fields| ==> HasType(fields[i], values[i])
    ensures |parts| == |values|
    decreases fields, 0
  {
    if fields == [] then [] else [Encode(fields[0], values[0])] + EncodeFields(fields[1..], values[1..])
  }

  // ---------------------------------------------------------------- verifying

  /** The k-th offset of a layout with `n` offsets, the total size after the last. */
  function OffsetAt(slice: Bytes, n: nat, k: nat): nat
    requires k <= n && NUMBER_SIZE * (n + 1) <= |slice|
  {
    if k == n then |slice| else Unpack(slice[NUMBER_SIZE * (k + 1)..])
  }

  predicate Ascending(slice: Bytes, n: nat)
    requires NUMBER_SIZE * (n + 1) <= |slice|
  {
    forall k :: 0 <= k < n ==> InOrder(slice, n, k)
  }

  predicate InOrder(slice: Bytes, n: nat, k: nat)
    requires k < n && NUMBER_SIZE * (n + 1) <= |slice|
  {
    OffsetAt(slice, n, k) <= OffsetAt(slice, n, k + 1)
  }

  /** The number of items announced by the first offset, once the header has been found sound. */
  function HeaderCount(slice: Bytes): Option<nat> {
    if |slice| < NUMBER_SIZE then None
    else if Unpack(slice) != |slice| then None
    else if |slice| < NUMBER_SIZE * 2 then None
    else
      var first := Unpack(slice[NUMBER_SIZE..]);
      if first % 4 != 0 || first < NUMBER_SIZE * 2 then None
      else
        var n := first / 4 - 1;
        if |slice| < NUMBER_SIZE * (n + 1) || !Ascending(slice, n) then None else Some(n)
  }

  lemma OffsetsInside(slice: Bytes, n: nat, k: nat)
    requires k <= n && NUMBER_SIZE * (n + 1) <= |slice| && Ascending(slice, n)
    ensures OffsetAt(slice, n, k) <= |slice|
    decreases n - k
  {
    if k < n {
      assert InOrder(slice, n, k);
      OffsetsInside(slice, n, k + 1);
    }
  }

  function Part(slice: Bytes, n: nat, k: nat): Bytes
    requires k < n && NUMBER_SIZE * (n + 1) <= |slice| && Ascending(slice, n)
  {
    OffsetsInside(slice, n, k + 1);
    assert InOrder(slice, n, k);
    slice[OffsetAt(slice, n, k)..OffsetAt(slice, n, k + 1)]
  }

  /** Items `k` and later. */
  function PartsFrom(slice: Bytes, n: nat, k: nat): (parts: seq<Bytes>)
    requires k <= n && NUMBER_SIZE * (n + 1) <= |slice| && Ascending(slice, n)
    ensures |parts| == n - k
    decreases n - k
  {
    if k == n then [] else [Part(slice, n, k)] + PartsFrom(slice, n, k + 1)
  }

  /** `verify(slice, compatible)`. */
  predicate Verify(s: Schema, slice: Bytes, compatible: bool)
    decreases s, 0
  {
    match s
    case Array(size) => |slice| == size
    case FixVec => |slice| >= NUMBER_SIZE && |slice| == NUMBER_SIZE + Unpack(slice)
    case DynVec(item) =>
      if |slice| == NUMBER_SIZE && Unpack(slice) == NUMBER_SIZE then true
      else
        var n := HeaderCount(slice);
        n.Some? && VerifyItems(item, PartsFrom(slice, n.value, 0), compatible)
    case Table(fields) =>
      if |slice| == NUMBER_SIZE && Unpack(slice) == NUMBER_SIZE && fields == [] then true
      else
        var n := HeaderCount(slice);
        && n.Some? && n.value >= |fields| && (compatible || n.value == |fields|)
        && VerifyFields(fields, PartsFrom(slice, n.value, 0), compatible)
    case Opt(inner) => slice == [] || Verify(inner, slice, compatible)
    case Union(items) =>
      |slice| >= NUMBER_SIZE && Unpack(slice) < |items| && Verify(items[Unpack(slice)], slice[NUMBER_SIZE..],
          compatible)
  }

  predicate VerifyItems(item: Schema, parts: seq<Bytes>, compatible: bool)
    decreases item, 1 + |parts|
  {
    parts == [] || (Verify(item, parts[0], compatible) && VerifyItems(item, parts[1..], compatible))
  }

  predicate VerifyFields(fields: seq<Schema>, parts: seq<Bytes>, compatible: bool)
    requires |parts| >= |fields|
    decreases fields, 0
  {
    fields == [] || (Verify(fields[0], parts[0], compatible) && VerifyFields(fields[1..], parts[1..], compatible))
  }

  // ---------------------------------------------------------------- reading

  /** `item_count` / `field_count`; none where the code would index out of bounds or go below zero. */
  function CountOf(slice: Bytes): Option<nat> {
    if |slice| < NUMBER_SIZE then None
    else if Unpack(slice) == NUMBER_SIZE then Some(0)
    else if |slice| < NUMBER_SIZE * 2 || Unpack(slice[NUMBER_SIZE..]) < 4 then None
    else Some(Unpack(slice[NUMBER_SIZE..]) / 4 - 1)
  }

  /** `get_unchecked(k)` and the field accessors: the item ends at the next offset, or with the slice when it is the
      last. None where the code would index out of bounds. */
  function ItemOf(slice: Bytes, k: nat, last: bool): Option<Bytes> {
    if |slice| < NUMBER_SIZE * (k + 2) || (!last && |slice| < NUMBER_SIZE * (k + 3)) then None
    else
      var start := Unpack(slice[NUMBER_SIZE * (k + 1)..]);
      var end := if last then |slice| else Unpack(slice[NUMBER_SIZE * (k + 2)..]);
      if start <= end <= |slice| then Some(slice[start..end]) else None
  }

  /** Everything the accessors give, at every depth; none if any of them would index out of bounds or panic. */
  function Read(s: Schema, slice: Bytes): Option<Value>
    decreases s, 0
  {
    match s
    case Array(size) => if |slice| < size then None else Some(Raw(slice[..size]))
    case FixVec =>
      if |slice| < NUMBER_SIZE || |slice| < NUMBER_SIZE + Unpack(slice) then None else Some(Raw(slice[NUMBER_SIZE..]))
    case DynVec(item) =>
      var n := CountOf(slice);
      if n.None? then None else ToList(ReadItems(item, slice, n.value, 0))
    case Table(fields) =>
      var n := CountOf(slice);
      if n.None? || n.value < |fields| then None else ToList(ReadFields(fields, slice, n.value, 0))
    case Opt(inner) =>
      if slice == [] then Some(Nothing)
      else
        var v := Read(inner, slice);
        if v.None? then None else Some(Just(v.value))
    case Union(items) =>
      if |slice| < NUMBER_SIZE || Unpack(slice) >= |items| then None
      else
        var v := Read(items[Unpack(slice)], slice[NUMBER_SIZE..]);
        if v.None? then None else Some(Variant(Unpack(slice), v.value))
  }

  function ToList(values: Option<seq<Value>>): Option<Value> {
    if values.None? then None else Some(List(values.value))
  }

  function Prepend(first: Option<Value>, rest: Option<seq<Value>>): Option<seq<Value>> {
    if first.None? || rest.None? then None else Some([first.value] + rest.value)
  }

  function ReadItems(item: Schema, slice: Bytes, n: nat, k: nat): Option<seq<Value>>
    requires k <= n
    decreases item, 1 + n - k
  {
    if k == n then Some([])
    else
      var part := ItemOf(slice, k, k == n - 1);
      if part.None? then None else Prepend(Read(item, part.value), ReadItems(item, slice, n, k + 1))
  }

  /** The fields of a table with `n` of them, from field `k` on. */
  function ReadFields(fields: seq<Schema>, slice: Bytes, n: nat, k: nat): Option<seq<Value>>
    requires k + |fields| <= n
    decreases fields, 0
  {
    if fields == [] then Some([])
    else
      var part := ItemOf(slice, k, k == n - 1);
      if part.None? then None else Prepend(Read(fields[0], part.value), ReadFields(fields[1..], slice, n, k + 1))
  }
}
