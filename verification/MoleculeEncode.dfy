/** Reading undoes writing, for every schema and every value whose encoding is shorter than 2^32 bytes. */
module MoleculeEncode {
  import opened Common
  import opened Molecule
  import opened MoleculeVerify

  /** Numbers are four bytes, least significant first. */
  lemma NumberOnWire(n: u32)
    ensures var b := Pack(n);
            |b| == 4 && n == b[0] as int + 0x100 * b[1] as int + 0x1_0000 * b[2] as int + 0x100_0000 * b[3] as int
  {
    PackUnpack(n, []);
    assert Pack(n) + [] == Pack(n);
  }

  // ---------------------------------------------------------------- the layout of given items

  /** Bytes before item `k`. */
  function Before(parts: seq<Bytes>, k: nat): nat
    requires k <= |parts|
  {
    if k == 0 then 0 else |parts[0]| + Before(parts[1..], k - 1)
  }

  lemma {:induction false} ItemLies(parts: seq<Bytes>, k: nat)
    requires k < |parts|
    ensures Before(parts, k) + |parts[k]| == Before(parts, k + 1) <= |Flat(parts)|
    ensures Flat(parts)[Before(parts, k)..Before(parts, k + 1)] == parts[k]
  {
    var first, rest := parts[0], Flat(parts[1..]);
    if k == 0 {
      assert Before(parts[1..], 0) == 0;
      assert (first + rest)[..|first|] == first;
    } else {
      ItemLies(parts[1..], k - 1);
      var a, b := Before(parts[1..], k - 1), Before(parts[1..], k);
      assert (first + rest)[|first| + a..|first| + b] == rest[a..b];
    }
  }

  lemma {:induction false} AllLies(parts: seq<Bytes>)
    ensures Before(parts, |parts|) == |Flat(parts)|
  {
    if parts != [] { AllLies(parts[1..]); }
  }

  lemma {:induction false} OffsetValue(start: nat, parts: seq<Bytes>, k: nat)
    requires k < |parts|
    ensures Offsets(start, parts)[k] == start + Before(parts, k)
    decreases k
  {
    if k > 0 { OffsetValue(start + |parts[0]|, parts[1..], k - 1); }
  }

  lemma {:induction false} NumberInside(ns: seq<nat>, k: nat, tail: Bytes)
    requires k < |ns| && ns[k] < U32_SIZE
    ensures Unpack((PackAll(ns) + tail)[NUMBER_SIZE * k..]) == ns[k]
  {
    var rest := PackAll(ns[1..]);
    if k == 0 {
      PackUnpack(ns[0], rest + tail);
      assert (PackAll(ns) + tail)[0..] == Pack(ns[0]) + (rest + tail);
    } else {
      NumberInside(ns[1..], k - 1, tail);
      assert (Pack(ns[0]) + rest + tail)[NUMBER_SIZE * k..] == (rest + tail)[NUMBER_SIZE * (k - 1)..];
    }
  }

  lemma LayoutSize(parts: seq<Bytes>)
    ensures |Layout(parts)| == NUMBER_SIZE * (|parts| + 1) + |Flat(parts)|
  {
  }

  lemma LayoutOffset(parts: seq<Bytes>, k: nat)
    requires k <= |parts| && |Layout(parts)| < U32_SIZE
    ensures OffsetAt(Layout(parts), |parts|, k) == NUMBER_SIZE * (|parts| + 1) + Before(parts, k)
  {
    LayoutSize(parts);
    AllLies(parts);
    if k < |parts| {
      var h := NUMBER_SIZE * (|parts| + 1);
      var ns := Offsets(h, parts);
      OffsetValue(h, parts, k);
      ItemLies(parts, k);
      NumberInside(ns, k, Flat(parts));
      var total := Pack(h + |Flat(parts)|);
      SkipNumber(total, PackAll(ns), Flat(parts), k);
    }
  }

  lemma SkipNumber(total: Bytes, offsets: Bytes, body: Bytes, k: nat)
    requires |total| == NUMBER_SIZE && NUMBER_SIZE * k <= |offsets|
    ensures (total + offsets + body)[NUMBER_SIZE * (k + 1)..] == (offsets + body)[NUMBER_SIZE * k..]
  {
  }

  lemma LayoutTotal(parts: seq<Bytes>)
    requires |Layout(parts)| < U32_SIZE
    ensures Unpack(Layout(parts)) == |Layout(parts)|
  {
    LayoutSize(parts);
    var h := NUMBER_SIZE * (|parts| + 1);
    var offsets, body := PackAll(Offsets(h, parts)), Flat(parts);
    PackUnpack(h + |body|, offsets + body);
    assert Layout(parts) == Pack(h + |body|) + (offsets + body);
  }

  lemma LayoutAscends(parts: seq<Bytes>)
    requires |Layout(parts)| < U32_SIZE
    ensures Ascending(Layout(parts), |parts|)
  {
    forall k | 0 <= k < |parts| ensures InOrder(Layout(parts), |parts|, k) {
      LayoutOffset(parts, k);
      LayoutOffset(parts, k + 1);
      ItemLies(parts, k);
    }
  }

  lemma LayoutCounts(parts: seq<Bytes>)
    requires parts != [] && |Layout(parts)| < U32_SIZE
    ensures HeaderCount(Layout(parts)) == Some(|parts|)
  {
    LayoutSize(parts);
    LayoutTotal(parts);
    LayoutOffset(parts, 0);
    LayoutAscends(parts);
    var n, first := |parts|, NUMBER_SIZE * (|parts| + 1);
    assert Unpack(Layout(parts)[NUMBER_SIZE..]) == first;
    assert first % 4 == 0 && first / 4 - 1 == n;
  }

  lemma LayoutPart(parts: seq<Bytes>, k: nat)
    requires k < |parts| && |Layout(parts)| < U32_SIZE && Ascending(Layout(parts), |parts|)
    ensures Part(Layout(parts), |parts|, k) == parts[k]
  {
    hide PackAll, Offsets, Unpack, Flat;
    LayoutSize(parts);
    LayoutOffset(parts, k);
    LayoutOffset(parts, k + 1);
    ItemLies(parts, k);
    var h := NUMBER_SIZE * (|parts| + 1);
    var head := Pack(h + |Flat(parts)|) + PackAll(Offsets(h, parts));
    var a, b := Before(parts, k), Before(parts, k + 1);
    assert (head + Flat(parts))[h + a..h + b] == Flat(parts)[a..b];
  }

  lemma {:induction false} LayoutParts(parts: seq<Bytes>, k: nat)
    requires k <= |parts| && |Layout(parts)| < U32_SIZE && Ascending(Layout(parts), |parts|)
    ensures PartsFrom(Layout(parts), |parts|, k) == parts[k..]
    decreases |parts| - k
  {
    if k < |parts| {
      LayoutPart(parts, k);
      LayoutParts(parts, k + 1);
      assert parts[k..] == [parts[k]] + parts[k + 1..];
    }
  }

  // ---------------------------------------------------------------- values

  predicate Returns(s: Schema, v: Value, compatible: bool)
    requires HasType(s, v)
  {
    Verify(s, Encode(s, v), compatible) && Read(s, Encode(s, v)) == Some(v)
  }

  lemma SolidIsNotEmpty(s: Schema, v: Value)
    requires Solid(s) && HasType(s, v)
    ensures Encode(s, v) != []
  {
  }

  lemma {:induction false} PartFits(parts: seq<Bytes>, k: nat)
    requires k < |parts|
    ensures |parts[k]| <= |Flat(parts)| < |Layout(parts)|
  {
    ItemLies(parts, k);
    LayoutSize(parts);
  }

  /** The main statement: what was written is accepted, in both modes, and read back unchanged. */
  lemma {:induction false} EncodedReturns(s: Schema, v: Value, compatible: bool)
    requires WellFormed(s) && HasType(s, v) && |Encode(s, v)| < U32_SIZE
    ensures Returns(s, v, compatible)
    decreases s, 0
  {
    match s
    case Array(_) => assert v.bytes[..s.size] == v.bytes;
    case FixVec =>
      PackUnpack(|v.bytes|, v.bytes);
      assert (Pack(|v.bytes|) + v.bytes)[NUMBER_SIZE..] == v.bytes;
    case DynVec(item) => DynVecReturns(item, v, compatible);
    case Table(fields) => TableReturns(fields, v, compatible);
    case Opt(inner) =>
      if v.Just? {
        SolidIsNotEmpty(inner, v.value);
        EncodedReturns(inner, v.value, compatible);
      }
    case Union(items) =>
      EncodedReturns(items[v.id], v.value, compatible);
      PackUnpack(v.id, Encode(items[v.id], v.value));
      assert Encode(s, v)[NUMBER_SIZE..] == Encode(items[v.id], v.value);
  }

  lemma EmptyReads(slice: Bytes)
    requires slice == Layout([])
    ensures |slice| == NUMBER_SIZE && Unpack(slice) == NUMBER_SIZE
  {
    PackUnpack(NUMBER_SIZE, []);
    assert Layout([]) == Pack(NUMBER_SIZE) + [];
  }

  lemma {:induction false} DynVecReturns(item: Schema, v: Value, compatible: bool)
    requires WellFormed(item) && HasType(DynVec(item), v) && |Encode(DynVec(item), v)| < U32_SIZE
    ensures Returns(DynVec(item), v, compatible)
    decreases item, |v.values| + 2
  {
    var parts := EncodeItems(item, v.values);
    var slice := Layout(parts);
    if v.values == [] {
      EmptyReads(slice);
      assert ReadItems(item, slice, 0, 0) == Some([]);
    } else {
      LayoutCounts(parts);
      HeaderFacts(slice, |parts|);
      LayoutParts(parts, 0);
      assert parts[0..] == parts;
      ItemsReturn(item, v.values, slice, |parts|, 0, compatible);
    }
  }

  lemma FirstPart(slice: Bytes, n: nat, k: nat)
    requires k < n && NUMBER_SIZE * (n + 1) <= |slice| && Ascending(slice, n)
    ensures var parts := PartsFrom(slice, n, k);
            parts[0] == Part(slice, n, k) && |parts[0]| <= |slice| && parts[1..] == PartsFrom(slice, n, k + 1)
  {
    OffsetsInside(slice, n, k + 1);
    PartLength(slice, n, k);
    assert ([Part(slice, n, k)] + PartsFrom(slice, n, k + 1))[1..] == PartsFrom(slice, n, k + 1);
  }

  lemma ReadItemsStep(item: Schema, values: seq<Value>, slice: Bytes, n: nat, k: nat)
    requires values != [] && k < n && HeaderCount(slice) == Some(n)
    requires Read(item, Part(slice, n, k)) == Some(values[0])
    requires ReadItems(item, slice, n, k + 1) == Some(values[1..])
    ensures ReadItems(item, slice, n, k) == Some(values)
  {
    hide Read, HeaderCount, Part;
    ItemIsPart(slice, n, k);
    assert values == [values[0]] + values[1..];
  }

  lemma {:induction false} ItemsReturn(item: Schema, values: seq<Value>, slice: Bytes, n: nat, k: nat, compatible: bool)
    requires WellFormed(item) && forall i :: 0 <= i < |values| ==> HasType(item, values[i])
    requires k + |values| == n && HeaderCount(slice) == Some(n) && |slice| < U32_SIZE
    requires PartsFrom(slice, n, k) == EncodeItems(item, values)
    ensures VerifyItems(item, EncodeItems(item, values), compatible) && ReadItems(item, slice, n, k) == Some(values)
    decreases item, 1 + |values|
  {
    hide Read, Verify, Encode, HeaderCount, Part, Ascending;
    if values != [] {
      var parts := EncodeItems(item, values);
      HeaderFacts(slice, n);
      FirstPart(slice, n, k);
      EncodedReturns(item, values[0], compatible);
      ItemsReturn(item, values[1..], slice, n, k + 1, compatible);
      ReadItemsStep(item, values, slice, n, k);
    }
  }

  lemma {:induction false} TableReturns(fields: seq<Schema>, v: Value, compatible: bool)
    requires WellFormed(Table(fields)) && HasType(Table(fields), v) && |Encode(Table(fields), v)| < U32_SIZE
    ensures Returns(Table(fields), v, compatible)
    decreases fields, 1
  {
    var parts := EncodeFields(fields, v.values);
    var slice := Layout(parts);
    if fields == [] {
      EmptyReads(slice);
      assert ReadFields(fields, slice, 0, 0) == Some([]);
    } else {
      LayoutCounts(parts);
      HeaderFacts(slice, |parts|);
      LayoutParts(parts, 0);
      assert parts[0..] == parts;
      FieldsReturn(fields, v.values, slice, |parts|, 0, compatible);
    }
  }

  lemma FieldsUncons(fields: seq<Schema>, values: seq<Value>)
    requires fields != [] && |values| == |fields| && forall i :: 0 <= i < |fields| ==> HasType(fields[i], values[i])
    ensures forall i :: 0 <= i < |fields[1..]| ==> HasType(fields[1..][i], values[1..][i])
    ensures EncodeFields(fields, values)[0] == Encode(fields[0], values[0])
    ensures EncodeFields(fields, values)[1..] == EncodeFields(fields[1..], values[1..])
  {
  }

  lemma {:induction false} EncodedField(fields: seq<Schema>, values: seq<Value>, k: nat)
    requires |values| == |fields| && forall i :: 0 <= i < |fields| ==> HasType(fields[i], values[i])
    requires k < |fields|
    ensures EncodeFields(fields, values)[k] == Encode(fields[k], values[k])
  {
    FieldsUncons(fields, values);
    if k > 0 { EncodedField(fields[1..], values[1..], k - 1); }
  }

  lemma {:induction false} EncodedItem(item: Schema, values: seq<Value>, k: nat)
    requires (forall i :: 0 <= i < |values| ==> HasType(item, values[i])) && k < |values|
    ensures EncodeItems(item, values)[k] == Encode(item, values[k])
  {
    hide Encode, HasType;
    if k > 0 { EncodedItem(item, values[1..], k - 1); }
  }

  lemma ReadFieldsStep(fields: seq<Schema>, values: seq<Value>, slice: Bytes, n: nat, k: nat)
    requires fields != [] && |values| == |fields| && k + |fields| <= n && HeaderCount(slice) == Some(n)
    requires Read(fields[0], Part(slice, n, k)) == Some(values[0])
    requires ReadFields(fields[1..], slice, n, k + 1) == Some(values[1..])
    ensures ReadFields(fields, slice, n, k) == Some(values)
  {
    hide Read, HeaderCount, Part;
    ItemIsPart(slice, n, k);
    assert values == [values[0]] + values[1..];
  }

  lemma {:induction false} FieldsReturn(fields: seq<Schema>, values: seq<Value>, slice: Bytes, n: nat, k: nat,
                                        compatible: bool)
    requires forall i :: 0 <= i < |fields| ==> WellFormed(fields[i])
    requires |values| == |fields| && forall i :: 0 <= i < |fields| ==> HasType(fields[i], values[i])
    requires k + |fields| == n && HeaderCount(slice) == Some(n) && |slice| < U32_SIZE
    requires PartsFrom(slice, n, k) == EncodeFields(fields, values)
    ensures VerifyFields(fields, EncodeFields(fields, values), compatible)
    ensures ReadFields(fields, slice, n, k) == Some(values)
    decreases fields, 0
  {
    hide Read, Verify, Encode, HeaderCount, Part, Ascending, WellFormed;
    if fields != [] {
      HeaderFacts(slice, n);
      FirstPart(slice, n, k);
      FieldsUncons(fields, values);
      EncodedReturns(fields[0], values[0], compatible);
      FieldsReturn(fields[1..], values[1..], slice, n, k + 1, compatible);
      ReadFieldsStep(fields, values, slice, n, k);
    }
  }

  /** Strict verification accepts a slice shorter than 2^32 bytes exactly when it is the encoding of some value. */
  lemma StrictMeansEncoded(s: Schema, slice: Bytes)
    requires WellFormed(s) && |slice| < U32_SIZE
    ensures Verify(s, slice, false) <==> exists v :: HasType(s, v) && Encode(s, v) == slice
  {
    if Verify(s, slice, false) { VerifiedIsSound(s, slice, false); }
    if v :| HasType(s, v) && Encode(s, v) == slice { EncodedReturns(s, v, false); }
  }

  // ---------------------------------------------------------------- the builders

  lemma {:induction false} OffsetsAppend(start: nat, parts: seq<Bytes>, last: Bytes)
    ensures Offsets(start, parts + [last]) == Offsets(start, parts) + [start + |Flat(parts)|]
    decreases |parts|
  {
    if parts == [] {
      OffsetsCons(start, last, []);
      assert parts + [last] == [last] + [];
    } else {
      OffsetsAppend(start + |parts[0]|, parts[1..], last);
      OffsetsCons(start, parts[0], parts[1..] + [last]);
      OffsetsCons(start, parts[0], parts[1..]);
      assert parts + [last] == [parts[0]] + (parts[1..] + [last]) && parts == [parts[0]] + parts[1..];
    }
  }

  lemma {:induction false} FlatAppend(parts: seq<Bytes>, last: Bytes)
    ensures Flat(parts + [last]) == Flat(parts) + last
  {
    if parts == [] {
      assert parts + [last] == [last] && [last][1..] == [];
    } else {
      FlatAppend(parts[1..], last);
      assert (parts + [last])[1..] == parts[1..] + [last];
    }
  }

  lemma {:induction false} PackAllAppend(ns: seq<nat>, n: nat)
    ensures PackAll(ns + [n]) == PackAll(ns) + Pack(n)
  {
    if ns == [] {
      assert ns + [n] == [n] && [n][1..] == [];
    } else {
      PackAllAppend(ns[1..], n);
      assert (ns + [n])[1..] == ns[1..] + [n];
    }
  }

  method Accumulate(header: nat, parts: seq<Bytes>) returns (totalSize: nat, offsets: seq<nat>)
    ensures offsets == Offsets(header, parts) && totalSize == header + |Flat(parts)|
  {
    totalSize, offsets := header, [];
    for i := 0 to |parts|
      invariant offsets == Offsets(header, parts[..i]) && totalSize == header + |Flat(parts[..i])|
    {
      OffsetsAppend(header, parts[..i], parts[i]);
      FlatAppend(parts[..i], parts[i]);
      assert parts[..i + 1] == parts[..i] + [parts[i]];
      offsets := offsets + [totalSize];
      totalSize := totalSize + |parts[i]|;
    }
    assert parts[..|parts|] == parts;
  }

  method WriteNumbers(ns: seq<nat>, writer: Bytes) returns (out: Bytes)
    ensures out == writer + PackAll(ns)
  {
    out := writer;
    for i := 0 to |ns|
      invariant out == writer + PackAll(ns[..i])
    {
      PackAllAppend(ns[..i], ns[i]);
      assert ns[..i + 1] == ns[..i] + [ns[i]];
      out := out + Pack(ns[i]);
    }
    assert ns[..|ns|] == ns;
  }

  method WriteItems(parts: seq<Bytes>, writer: Bytes) returns (out: Bytes)
    ensures out == writer + Flat(parts)
  {
    out := writer;
    for i := 0 to |parts|
      invariant out == writer + Flat(parts[..i])
    {
      FlatAppend(parts[..i], parts[i]);
      assert parts[..i + 1] == parts[..i] + [parts[i]];
      out := out + parts[i];
    }
    assert parts[..|parts|] == parts;
  }

  /** `write` of the table and vector builders: offsets accumulated in one pass, then everything appended to the
      writer. */
  method Write(parts: seq<Bytes>, writer: Bytes) returns (out: Bytes)
    ensures out == writer + Layout(parts)
  {
    var totalSize, offsets := Accumulate(NUMBER_SIZE * (|parts| + 1), parts);
    out := WriteNumbers([totalSize], writer);
    out := WriteNumbers(offsets, out);
    out := WriteItems(parts, out);
    assert PackAll([totalSize]) == Pack(totalSize) + PackAll([]);
  }
}
