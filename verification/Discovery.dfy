/** The discovery message and its Molecule form: table, union, table, dynamic vector, table, dynamic vector, byte vector
    (tentacle/protocols/discovery/src/protocol.rs). */
module Discovery {
  import opened Common
  import opened Molecule
  import opened MoleculeVerify
  import opened MoleculeEncode
  import opened MoleculeWide
  import Multiaddr

  const UINT32 := Array(4)
  const UINT16 := Array(2)
  const BOOL := Array(1)
  const PORT_OPT := Opt(UINT16)
  const BYTES_VEC := DynVec(FixVec)
  const NODE := Table([BYTES_VEC])
  const NODE_VEC := DynVec(NODE)
  const GET_NODES := Table([UINT32, UINT32, PORT_OPT])
  const NODES := Table([BOOL, NODE_VEC])
  const PAYLOAD := Union([GET_NODES, NODES])
  const MESSAGE := Table([PAYLOAD])

  /** An address is held as its bytes. */
  datatype Node = Node(addresses: seq<Bytes>)

  datatype Message =
    | GetNodes(version: u32, count: u32, listenPort: Option<u16>)
    | Nodes(announce: bool, items: seq<Node>)

  predicate ValidAddress(bytes: Bytes) { Multiaddr.Components(bytes).Some? }

  predicate ValidNode(n: Node) { forall i :: 0 <= i < |n.addresses| ==> ValidAddress(n.addresses[i]) }

  predicate ValidMessage(m: Message) { m.Nodes? ==> forall i :: 0 <= i < |m.items| ==> ValidNode(m.items[i]) }

  // ---------------------------------------------------------------- numbers

  function PutLe16(n: u16): Bytes { [n % 0x100, n / 0x100] }

  function GetLe16(s: Bytes): u16
    requires |s| == 2
  {
    s[0] as int + 0x100 * s[1] as int
  }

  // ---------------------------------------------------------------- the message as a Molecule value

  function AddressesValue(addresses: seq<Bytes>): (vs: seq<Value>)
    ensures |vs| == |addresses| && forall i :: 0 <= i < |vs| ==> vs[i] == Raw(addresses[i])
  {
    if addresses == [] then [] else [Raw(addresses[0])] + AddressesValue(addresses[1..])
  }

  function NodeValue(n: Node): (v: Value)
    ensures HasType(NODE, v)
  {
    List([List(AddressesValue(n.addresses))])
  }

  function ItemsValue(items: seq<Node>): (vs: seq<Value>)
    ensures |vs| == |items| && forall i :: 0 <= i < |vs| ==> HasType(NODE, vs[i])
  {
    if items == [] then [] else [NodeValue(items[0])] + ItemsValue(items[1..])
  }

  function PortValue(port: Option<u16>): (v: Value)
    ensures HasType(PORT_OPT, v)
  {
    if port.None? then Nothing else Just(Raw(PutLe16(port.value)))
  }

  function GetNodesValue(version: u32, count: u32, port: Option<u16>): (v: Value)
    ensures HasType(GET_NODES, v)
  {
    List([Raw(Pack(version)), Raw(Pack(count)), PortValue(port)])
  }

  function NodesValue(announce: bool, items: seq<Node>): (v: Value)
    ensures HasType(NODES, v)
  {
    List([Raw([if announce then 1 else 0]), List(ItemsValue(items))])
  }

  function PayloadValue(m: Message): (v: Value)
    ensures HasType(PAYLOAD, v)
  {
    match m
    case GetNodes(version, count, port) => Variant(0, GetNodesValue(version, count, port))
    case Nodes(announce, items) => Variant(1, NodesValue(announce, items))
  }

  function MessageValue(m: Message): (v: Value)
    ensures HasType(MESSAGE, v)
  {
    List([PayloadValue(m)])
  }

  function EncodeMessage(m: Message): Bytes { Encode(MESSAGE, MessageValue(m)) }

  // ---------------------------------------------------------------- reading the value

  function ValueAddresses(vs: seq<Value>): Option<seq<Bytes>>
    requires forall i :: 0 <= i < |vs| ==> vs[i].Raw?
  {
    if vs == [] then Some([])
    else
      var rest := ValueAddresses(vs[1..]);
      if !ValidAddress(vs[0].bytes) || rest.None? then None else Some([vs[0].bytes] + rest.value)
  }

  function ValueItems(vs: seq<Value>): Option<seq<Node>>
    requires forall i :: 0 <= i < |vs| ==> HasType(NODE, vs[i])
  {
    if vs == [] then Some([])
    else
      NodeShape(vs[0]);
      var addresses := ValueAddresses(vs[0].values[0].values);
      var rest := ValueItems(vs[1..]);
      if addresses.None? || rest.None? then None else Some([Node(addresses.value)] + rest.value)
  }

  lemma NodeShape(v: Value)
    requires HasType(NODE, v)
    ensures v.List? && |v.values| == 1 && v.values[0].List?
    ensures forall i :: 0 <= i < |v.values[0].values| ==> v.values[0].values[i].Raw?
  {
    assert HasType(NODE.fields[0], v.values[0]);
  }

  function ValueGetNodes(v: Value): Message
    requires HasType(GET_NODES, v)
  {
    GetNodesShape(v);
    var port := v.values[2];
    GetNodes(Unpack(v.values[0].bytes), Unpack(v.values[1].bytes),
             if port.Nothing? then None else Some(GetLe16(port.value.bytes)))
  }

  lemma GetNodesShape(v: Value)
    requires HasType(GET_NODES, v)
    ensures v.List? && |v.values| == 3 && v.values[0].Raw? && |v.values[0].bytes| == 4 && v.values[1].Raw?
    ensures |v.values[1].bytes| == 4
    ensures v.values[2].Nothing? || (v.values[2].Just? && v.values[2].value.Raw? && |v.values[2].value.bytes| == 2)
  {
    var f := GET_NODES.fields;
    assert HasType(f[0], v.values[0]) && HasType(f[1], v.values[1]) && HasType(f[2], v.values[2]);
  }

  /** The announce byte has to be zero or one, and every address has to parse. */
  function ValueNodes(v: Value): Option<Message>
    requires HasType(NODES, v)
  {
    NodesShape(v);
    var flag, items := v.values[0].bytes[0], ValueItems(v.values[1].values);
    if flag > 1 || items.None? then None else Some(Nodes(flag == 1, items.value))
  }

  lemma NodesShape(v: Value)
    requires HasType(NODES, v)
    ensures v.List? && |v.values| == 2 && v.values[0].Raw? && |v.values[0].bytes| == 1 && v.values[1].List?
    ensures forall i :: 0 <= i < |v.values[1].values| ==> HasType(NODE, v.values[1].values[i])
  {
    var f := NODES.fields;
    assert HasType(f[0], v.values[0]) && HasType(f[1], v.values[1]);
  }

  lemma MessageShape(v: Value)
    requires HasType(MESSAGE, v)
    ensures v.List? && |v.values| == 1 && v.values[0].Variant? && v.values[0].id < 2
    ensures HasType(if v.values[0].id == 0 then GET_NODES else NODES, v.values[0].value)
  {
    assert HasType(MESSAGE.fields[0], v.values[0]);
  }

  function ValueMessage(v: Value): Option<Message>
    requires HasType(MESSAGE, v)
  {
    MessageShape(v);
    var payload := v.values[0];
    if payload.id == 0 then Some(ValueGetNodes(payload.value)) else ValueNodes(payload.value)
  }

  /** `decode`: everything after `verify` reads within bounds, whatever the bytes. */
  function DecodeMessage(data: Bytes): Option<Message> {
    if !Verify(MESSAGE, data, true) then None
    else
      VerifiedIsSound(MESSAGE, data, true);
      ValueMessage(Read(MESSAGE, data).value)
  }

  // ---------------------------------------------------------------- round trip

  lemma {:induction false} AddressesReturn(addresses: seq<Bytes>)
    requires forall i :: 0 <= i < |addresses| ==> ValidAddress(addresses[i])
    ensures ValueAddresses(AddressesValue(addresses)) == Some(addresses)
  {
    hide ValidAddress;
    if addresses != [] {
      AddressesReturn(addresses[1..]);
      assert AddressesValue(addresses)[1..] == AddressesValue(addresses[1..]);
      assert addresses == [addresses[0]] + addresses[1..];
    }
  }

  lemma {:induction false} ItemsReturned(items: seq<Node>)
    requires forall i :: 0 <= i < |items| ==> ValidNode(items[i])
    ensures ValueItems(ItemsValue(items)) == Some(items)
  {
    hide HasType;
    if items != [] {
      ItemsReturned(items[1..]);
      AddressesReturn(items[0].addresses);
      assert ItemsValue(items)[1..] == ItemsValue(items[1..]);
      assert items == [items[0]] + items[1..];
    }
  }

  lemma NumberReturns(n: u32)
    ensures Unpack(Pack(n)) == n
  {
    PackUnpack(n, []);
    assert Pack(n) + [] == Pack(n);
  }

  lemma ValueReturns(m: Message)
    requires ValidMessage(m)
    ensures ValueMessage(MessageValue(m)) == Some(m)
  {
    hide ValidNode, HasType, Pack, Unpack;
    match m
    case GetNodes(version, count, port) =>
      NumberReturns(version);
      NumberReturns(count);
    case Nodes(announce, items) => ItemsReturned(items);
  }

  lemma SchemaIsWellFormed()
    ensures WellFormed(MESSAGE)
  {
    assert WellFormed(NODE);
    assert WellFormed(GET_NODES) && WellFormed(NODES);
    assert WellFormed(PAYLOAD);
  }

  /** Decoding undoes encoding, for every message with valid addresses whose encoding is shorter than 2^32 bytes. */
  lemma DecodeUndoesEncode(m: Message)
    requires ValidMessage(m) && |EncodeMessage(m)| < U32_SIZE
    ensures DecodeMessage(EncodeMessage(m)) == Some(m)
  {
    hide Encode, Verify, Read, HasType, WellFormed, MessageValue, ValueMessage, ValidMessage;
    SchemaIsWellFormed();
    EncodedReturns(MESSAGE, MessageValue(m), true);
    ValueReturns(m);
  }

  // ---------------------------------------------------------------- and the other way round

  lemma {:induction false} AddressesRead(vs: seq<Value>)
    requires (forall i :: 0 <= i < |vs| ==> vs[i].Raw?) && ValueAddresses(vs).Some?
    ensures var r := ValueAddresses(vs).value;
            |r| == |vs| && forall i :: 0 <= i < |vs| ==> r[i] == vs[i].bytes && ValidAddress(r[i])
  {
    hide ValidAddress;
    if vs != [] {
      AddressesRead(vs[1..]);
      var r, rest := ValueAddresses(vs).value, ValueAddresses(vs[1..]).value;
      forall i | 0 <= i < |vs| ensures r[i] == vs[i].bytes && ValidAddress(r[i]) {
        if i > 0 { assert r[i] == rest[i - 1] && vs[i] == vs[1..][i - 1]; }
      }
    }
  }

  lemma AddressesRewritten(vs: seq<Value>)
    requires (forall i :: 0 <= i < |vs| ==> vs[i].Raw?) && ValueAddresses(vs).Some?
    ensures AddressesValue(ValueAddresses(vs).value) == vs && ValidNode(Node(ValueAddresses(vs).value))
  {
    hide ValueAddresses, ValidAddress;
    AddressesRead(vs);
    var read := ValueAddresses(vs).value;
    forall i | 0 <= i < |vs| ensures AddressesValue(read)[i] == vs[i] { assert vs[i] == Raw(vs[i].bytes); }
  }

  lemma {:induction false} ItemsRewritten(vs: seq<Value>)
    requires forall i :: 0 <= i < |vs| ==> HasType(NODE, vs[i])
    requires ValueItems(vs).Some?
    ensures var items := ValueItems(vs).value;
            ItemsValue(items) == vs && forall i :: 0 <= i < |items| ==> ValidNode(items[i])
  {
    hide HasType, ValidNode;
    if vs != [] {
      NodeShape(vs[0]);
      AddressesRewritten(vs[0].values[0].values);
      ItemsRewritten(vs[1..]);
      var first, rest := Node(ValueAddresses(vs[0].values[0].values).value), ValueItems(vs[1..]).value;
      assert ([first] + rest)[1..] == rest;
      assert vs[0] == List([List(vs[0].values[0].values)]);
      assert vs == [vs[0]] + vs[1..];
    }
  }

  lemma NumberRewritten(s: Bytes)
    requires |s| == 4
    ensures Pack(Unpack(s)) == s
  {
    UnpackPack(s);
    assert s[..4] == s;
  }

  lemma GetNodesRewritten(v: Value)
    requires HasType(GET_NODES, v)
    ensures var m := ValueGetNodes(v); m.GetNodes? && GetNodesValue(m.version, m.count, m.listenPort) == v
  {
    hide Pack, Unpack;
    GetNodesShape(v);
    NumberRewritten(v.values[0].bytes);
    NumberRewritten(v.values[1].bytes);
    if v.values[2].Just? { assert PutLe16(GetLe16(v.values[2].value.bytes)) == v.values[2].value.bytes; }
    assert v.values == [v.values[0], v.values[1], v.values[2]];
  }

  lemma NodesRewritten(v: Value)
    requires HasType(NODES, v) && ValueNodes(v).Some?
    ensures var m := ValueNodes(v).value; m.Nodes? && NodesValue(m.announce, m.items) == v && ValidMessage(m)
  {
    hide HasType, ValueItems, ItemsValue, ValidNode;
    NodesShape(v);
    ItemsRewritten(v.values[1].values);
    assert v.values[0].bytes == [v.values[0].bytes[0]];
    assert v.values == [v.values[0], v.values[1]];
  }

  /** A value gives at most the message it was made from, and then the message is valid. */
  lemma ValueIsRewritten(v: Value)
    requires HasType(MESSAGE, v) && ValueMessage(v).Some?
    ensures var m := ValueMessage(v).value; MessageValue(m) == v && ValidMessage(m)
  {
    hide HasType, GetNodesValue, NodesValue, ValueGetNodes, ValueNodes, ValidNode;
    MessageShape(v);
    var payload := v.values[0];
    if payload.id == 0 { GetNodesRewritten(payload.value); } else { NodesRewritten(payload.value); }
    assert v.values == [payload];
  }

  /** `decode` answers a message exactly for the encodings of that message in which every table may carry further
      fields, at any depth; the message is then valid. */
  lemma DecodesIff(data: Bytes, m: Message)
    requires |data| < U32_SIZE
    ensures DecodeMessage(data) == Some(m) <==> ValidMessage(m) && Wide(MESSAGE, MessageValue(m), data)
  {
    hide Verify, Read, HasType, WellFormed, MessageValue, ValueMessage, ValidMessage, Wide;
    SchemaIsWellFormed();
    CompatibleMeansWide(MESSAGE, MessageValue(m), data);
    if ValidMessage(m) { ValueReturns(m); }
    if DecodeMessage(data) == Some(m) {
      VerifiedIsSound(MESSAGE, data, true);
      ValueIsRewritten(Read(MESSAGE, data).value);
    }
  }

  /** A message decoded from bytes that the strict mode accepts encodes to exactly those bytes again. */
  lemma EncodeUndoesDecode(data: Bytes)
    requires Verify(MESSAGE, data, false) && DecodeMessage(data).Some?
    ensures EncodeMessage(DecodeMessage(data).value) == data
  {
    hide Verify, Read, HasType, MessageValue, ValueMessage;
    VerifiedIsSound(MESSAGE, data, false);
    ValueIsRewritten(Read(MESSAGE, data).value);
  }

  // ---------------------------------------------------------------- the builders in sequence

  method BuildAddresses(addresses: seq<Bytes>) returns (parts: seq<Bytes>)
    ensures parts == EncodeItems(FixVec, AddressesValue(addresses))
  {
    parts := [];
    for i := 0 to |addresses|
      invariant |parts| == i && forall j :: 0 <= j < i ==> parts[j] == Pack(|addresses[j]|) + addresses[j]
    {
      parts := parts + [Pack(|addresses[i]|) + addresses[i]];
    }
    ghost var vs := AddressesValue(addresses);
    forall k | 0 <= k < |parts| ensures parts[k] == EncodeItems(FixVec, vs)[k] { EncodedItem(FixVec, vs, k); }
  }

  lemma {:induction false} ItemValueAt(items: seq<Node>, k: nat)
    requires k < |items|
    ensures ItemsValue(items)[k] == NodeValue(items[k])
  {
    if k > 0 { ItemValueAt(items[1..], k - 1); }
  }

  lemma NodeLayout(n: Node)
    ensures Encode(NODE, NodeValue(n)) == Layout([Layout(EncodeItems(FixVec, AddressesValue(n.addresses)))])
  {
    hide Layout, AddressesValue, EncodeItems;
    var v := List(AddressesValue(n.addresses));
    assert HasType(BYTES_VEC, v) && Encode(BYTES_VEC, v) == Layout(EncodeItems(FixVec, v.values));
    EncodedField(NODE.fields, [v], 0);
    var parts := EncodeFields(NODE.fields, [v]);
    assert |parts| == 1 && parts == [parts[0]];
    assert Encode(NODE, NodeValue(n)) == Layout(parts);
  }

  method BuildItems(items: seq<Node>) returns (parts: seq<Bytes>)
    ensures parts == EncodeItems(NODE, ItemsValue(items))
  {
    hide Layout, HasType, AddressesValue;
    parts := [];
    for i := 0 to |items|
      invariant |parts| == i && forall j :: 0 <= j < i ==> parts[j] == Encode(NODE, NodeValue(items[j]))
    {
      var addresses := BuildAddresses(items[i].addresses);
      var bytesVec := BuildTable(addresses);
      var node := BuildTable([bytesVec]);
      NodeLayout(items[i]);
      parts := parts + [node];
    }
    ghost var vs := ItemsValue(items);
    forall k | 0 <= k < |parts| ensures parts[k] == EncodeItems(NODE, vs)[k] {
      EncodedItem(NODE, vs, k);
      ItemValueAt(items, k);
    }
  }

  function PortBytes(port: Option<u16>): Bytes { if port.None? then [] else PutLe16(port.value) }

  lemma GetNodesLayout(version: u32, count: u32, port: Option<u16>)
    ensures Encode(GET_NODES, GetNodesValue(version, count, port)) ==
            Layout([Pack(version), Pack(count), PortBytes(port)])
  {
    hide Layout, Pack;
    var vs := GetNodesValue(version, count, port).values;
    EncodedField(GET_NODES.fields, vs, 0);
    EncodedField(GET_NODES.fields, vs, 1);
    EncodedField(GET_NODES.fields, vs, 2);
    var parts := EncodeFields(GET_NODES.fields, vs);
    assert |parts| == 3 && parts == [parts[0], parts[1], parts[2]];
  }

  lemma NodesLayout(announce: bool, items: seq<Node>)
    ensures Encode(NODES, NodesValue(announce, items))
         == Layout([[if announce then 1 else 0], Layout(EncodeItems(NODE, ItemsValue(items)))])
  {
    hide Layout, ItemsValue, EncodeItems;
    var vs := NodesValue(announce, items).values;
    EncodedField(NODES.fields, vs, 0);
    EncodedField(NODES.fields, vs, 1);
    var parts := EncodeFields(NODES.fields, vs);
    assert |parts| == 2 && parts == [parts[0], parts[1]];
  }

  lemma MessageLayout(m: Message)
    ensures EncodeMessage(m) == Layout([Encode(PAYLOAD, PayloadValue(m))])
  {
    hide Layout, PayloadValue;
    var vs := MessageValue(m).values;
    EncodedField(MESSAGE.fields, vs, 0);
    var parts := EncodeFields(MESSAGE.fields, vs);
    assert |parts| == 1 && parts == [parts[0]];
  }

  method BuildTable(parts: seq<Bytes>) returns (out: Bytes)
    ensures out == Layout(parts)
  {
    out := Write(parts, []);
    assert [] + Layout(parts) == Layout(parts);
  }

  /** `encode`: the builders one inside the other, with the lists pushed item by item. */
  method Build(m: Message) returns (out: Bytes)
    ensures out == EncodeMessage(m)
  {
    hide Layout, Pack, GetNodesValue, NodesValue, HasType, EncodeMessage;
    var payload;
    match m {
      case GetNodes(version, count, port) =>
        var getNodes := BuildTable([Pack(version), Pack(count), PortBytes(port)]);
        GetNodesLayout(version, count, port);
        payload := Pack(0) + getNodes;
      case Nodes(announce, items) =>
        var parts := BuildItems(items);
        var itemVec := BuildTable(parts);
        var nodes := BuildTable([[if announce then 1 else 0], itemVec]);
        NodesLayout(announce, items);
        payload := Pack(1) + nodes;
    }
    MessageLayout(m);
    out := BuildTable([payload]);
  }
}
