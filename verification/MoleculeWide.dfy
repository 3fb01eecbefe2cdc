/** The compatible mode, which every decoder of the repository uses: it accepts exactly the encodings in which every
    table may carry further fields, at any depth, and the accessors read the value without them. */
module MoleculeWide {
  import opened Common
  import opened Molecule
  import opened MoleculeVerify
  import opened MoleculeEncode

  /** `slice` is an encoding of `v` but for fields that a table of it has beyond those of its schema. */
  ghost predicate Wide(s: Schema, v: Value, slice: Bytes)
    decreases s
  {
    match s
    case Array(size) => v.Raw? && v.bytes == slice && |slice| == size
    case FixVec => v.Raw? && slice == Pack(|v.bytes|) + v.bytes
    case DynVec(item) =>
      v.List? && exists parts ::
        && slice == Layout(parts) && |parts| == |v.values|
        && forall i :: 0 <= i < |parts| ==> Wide(item, v.values[i], parts[i])
    case Table(fields) =>
      v.List? && |v.values| == |fields| && exists parts ::
        && slice == Layout(parts) && |parts| >= |fields|
        && forall i :: 0 <= i < |fields| ==> Wide(fields[i], v.values[i], parts[i])
    case Opt(inner) => if slice == [] then v.Nothing? else v.Just? && Wide(inner, v.value, slice)
    case Union(items) =>
      v.Variant? && v.id < |items| && exists body ::
        slice == Pack(v.id) + body && Wide(items[v.id], v.value, body)
  }

  // ---------------------------------------------------------------- accepted means wide

  lemma {:induction false} VerifiedIsWide(s: Schema, slice: Bytes)
    requires Verify(s, slice, true)
    ensures Read(s, slice).Some? && Wide(s, Read(s, slice).value, slice)
    decreases s, 0
  {
    match s
    case Array(size) => assert slice[..size] == slice;
    case FixVec =>
      UnpackPack(slice);
      assert slice == slice[..NUMBER_SIZE] + slice[NUMBER_SIZE..];
    case DynVec(item) => DynVecIsWide(item, slice);
    case Table(fields) => TableIsWide(fields, slice);
    case Opt(inner) => if slice != [] { VerifiedIsWide(inner, slice); }
    case Union(items) =>
      VerifiedIsWide(items[Unpack(slice)], slice[NUMBER_SIZE..]);
      UnpackPack(slice);
      assert slice == Pack(Unpack(slice)) + slice[NUMBER_SIZE..];
  }

  lemma {:induction false} DynVecIsWide(item: Schema, slice: Bytes)
    requires Verify(DynVec(item), slice, true)
    ensures var v := Read(DynVec(item), slice); v.Some? && Wide(DynVec(item), v.value, slice)
    decreases item, |slice| + 2
  {
    hide HeaderCount;
    if |slice| == NUMBER_SIZE && Unpack(slice) == NUMBER_SIZE {
      EmptyLayout(slice);
      assert ReadItems(item, slice, 0, 0) == Some([]);
      assert slice == Layout([]);
    } else {
      var n := HeaderCount(slice).value;
      HeaderFacts(slice, n);
      ItemsAreWide(item, slice, n, 0);
      LayoutIsRewritten(slice, n);
    }
  }

  lemma {:induction false} ItemsAreWide(item: Schema, slice: Bytes, n: nat, k: nat)
    requires k <= n && HeaderCount(slice) == Some(n) && NUMBER_SIZE * (n + 1) <= |slice| && Ascending(slice, n)
    requires VerifyItems(item, PartsFrom(slice, n, k), true)
    ensures var vs, parts := ReadItems(item, slice, n, k), PartsFrom(slice, n, k);
            vs.Some? && |vs.value| == |parts| && forall i :: 0 <= i < |parts| ==> Wide(item, vs.value[i], parts[i])
    decreases item, 1 + n - k
  {
    hide Read, Verify, HeaderCount, Part, Wide, Ascending;
    if k < n {
      ItemIsPart(slice, n, k);
      VerifiedIsWide(item, Part(slice, n, k));
      assert PartsFrom(slice, n, k)[1..] == PartsFrom(slice, n, k + 1);
      ItemsAreWide(item, slice, n, k + 1);
    }
  }

  lemma {:induction false} TableIsWide(fields: seq<Schema>, slice: Bytes)
    requires Verify(Table(fields), slice, true)
    ensures var v := Read(Table(fields), slice); v.Some? && Wide(Table(fields), v.value, slice)
    decreases fields, 1
  {
    hide HeaderCount;
    if |slice| == NUMBER_SIZE && Unpack(slice) == NUMBER_SIZE && fields == [] {
      EmptyLayout(slice);
      assert ReadFields(fields, slice, 0, 0) == Some([]);
      assert slice == Layout([]);
    } else {
      var n := HeaderCount(slice).value;
      HeaderFacts(slice, n);
      FieldsAreWide(fields, slice, n, 0);
      LayoutIsRewritten(slice, n);
    }
  }

  lemma {:induction false} FieldsAreWide(fields: seq<Schema>, slice: Bytes, n: nat, k: nat)
    requires k + |fields| <= n && HeaderCount(slice) == Some(n) && NUMBER_SIZE * (n + 1) <= |slice|
             && Ascending(slice, n)
    requires VerifyFields(fields, PartsFrom(slice, n, k), true)
    ensures var vs, parts := ReadFields(fields, slice, n, k), PartsFrom(slice, n, k);
            && vs.Some? && |vs.value| == |fields|
            && forall i :: 0 <= i < |fields| ==> Wide(fields[i], vs.value[i], parts[i])
    decreases fields, 0
  {
    hide Read, Verify, HeaderCount, Part, Wide, Ascending;
    if fields != [] {
      ItemIsPart(slice, n, k);
      VerifiedIsWide(fields[0], Part(slice, n, k));
      assert PartsFrom(slice, n, k)[1..] == PartsFrom(slice, n, k + 1);
      FieldsAreWide(fields[1..], slice, n, k + 1);
      var parts, vs := PartsFrom(slice, n, k), ReadFields(fields, slice, n, k).value;
      forall i | 0 <= i < |fields| ensures Wide(fields[i], vs[i], parts[i]) {
        if i > 0 { assert fields[i] == fields[1..][i - 1] && vs[i] == vs[1..][i - 1] && parts[i] == parts[1..][i - 1]; }
      }
    }
  }

  // ---------------------------------------------------------------- wide means accepted

  lemma {:induction false} WideReturns(s: Schema, v: Value, slice: Bytes)
    requires WellFormed(s) && Wide(s, v, slice) && |slice| < U32_SIZE
    ensures Verify(s, slice, true) && Read(s, slice) == Some(v)
    decreases s, 0
  {
    hide HeaderCount, CountOf, ReadItems, ReadFields, VerifyItems, VerifyFields, PartsFrom, Layout;
    match s
    case Array(size) => assert slice[..size] == slice;
    case FixVec =>
      PackUnpack(|v.bytes|, v.bytes);
      assert slice[NUMBER_SIZE..] == v.bytes;
    case DynVec(item) =>
      var parts :| slice == Layout(parts) && |parts| == |v.values|
          && forall i :: 0 <= i < |parts| ==> Wide(item, v.values[i], parts[i]);
      WideVecReturns(item, v, parts);
    case Table(fields) =>
      var parts :| slice == Layout(parts) && |parts| >= |fields|
          && forall i :: 0 <= i < |fields| ==> Wide(fields[i], v.values[i], parts[i]);
      WideTableReturns(fields, v, parts);
    case Opt(inner) =>
      if slice != [] { WideReturns(inner, v.value, slice); }
    case Union(items) =>
      var body :| slice == Pack(v.id) + body && Wide(items[v.id], v.value, body);
      WideReturns(items[v.id], v.value, body);
      PackUnpack(v.id, body);
      assert slice[NUMBER_SIZE..] == body;
  }

  lemma {:induction false} WideVecReturns(item: Schema, v: Value, parts: seq<Bytes>)
    requires WellFormed(item) && v.List? && |v.values| == |parts| && |Layout(parts)| < U32_SIZE
    requires forall i :: 0 <= i < |parts| ==> Wide(item, v.values[i], parts[i])
    ensures Verify(DynVec(item), Layout(parts), true) && Read(DynVec(item), Layout(parts)) == Some(v)
    decreases item, |parts| + 2
  {
    hide Wide, HeaderCount;
    var slice := Layout(parts);
    if parts == [] {
      EmptyReads(slice);
      assert ReadItems(item, slice, 0, 0) == Some([]);
    } else {
      LayoutCounts(parts);
      HeaderFacts(slice, |parts|);
      LayoutParts(parts, 0);
      assert parts[0..] == parts;
      WideItemsReturn(item, v.values, slice, |parts|, 0);
    }
  }

  lemma {:induction false} WideItemsReturn(item: Schema, values: seq<Value>, slice: Bytes, n: nat, k: nat)
    requires WellFormed(item) && HeaderCount(slice) == Some(n) && |slice| < U32_SIZE
    requires k + |values| == n && NUMBER_SIZE * (n + 1) <= |slice| && Ascending(slice, n)
    requires forall i :: 0 <= i < |values| ==> Wide(item, values[i], PartsFrom(slice, n, k)[i])
    ensures VerifyItems(item, PartsFrom(slice, n, k), true) && ReadItems(item, slice, n, k) == Some(values)
    decreases item, 1 + |values|
  {
    hide Read, Verify, HeaderCount, Part, Ascending, Wide;
    if values != [] {
      var parts, rest := PartsFrom(slice, n, k), PartsFrom(slice, n, k + 1);
      FirstPart(slice, n, k);
      WideReturns(item, values[0], parts[0]);
      forall i | 0 <= i < |values[1..]| ensures Wide(item, values[1..][i], rest[i]) {
        assert values[1..][i] == values[i + 1] && rest[i] == parts[i + 1];
      }
      WideItemsReturn(item, values[1..], slice, n, k + 1);
      ReadItemsStep(item, values, slice, n, k);
    }
  }

  lemma {:induction false} WideTableReturns(fields: seq<Schema>, v: Value, parts: seq<Bytes>)
    requires forall i :: 0 <= i < |fields| ==> WellFormed(fields[i])
    requires v.List? && |v.values| == |fields| <= |parts| && |Layout(parts)| < U32_SIZE
    requires forall i :: 0 <= i < |fields| ==> Wide(fields[i], v.values[i], parts[i])
    ensures Verify(Table(fields), Layout(parts), true) && Read(Table(fields), Layout(parts)) == Some(v)
    decreases fields, 1
  {
    hide Wide, HeaderCount;
    var slice := Layout(parts);
    if parts == [] {
      EmptyReads(slice);
      assert ReadFields(fields, slice, 0, 0) == Some([]);
    } else {
      LayoutCounts(parts);
      HeaderFacts(slice, |parts|);
      LayoutParts(parts, 0);
      assert parts[0..] == parts;
      NotTheEmptyTable(parts);
      WideFieldsReturn(fields, v.values, slice, |parts|, 0);
    }
  }

  lemma NotTheEmptyTable(parts: seq<Bytes>)
    requires parts != []
    ensures |Layout(parts)| > NUMBER_SIZE
  {
    LayoutSize(parts);
  }

  lemma {:induction false} WideFieldsReturn(fields: seq<Schema>, values: seq<Value>, slice: Bytes, n: nat, k: nat)
    requires forall i :: 0 <= i < |fields| ==> WellFormed(fields[i])
    requires HeaderCount(slice) == Some(n) && |slice| < U32_SIZE && |values| == |fields|
    requires k + |fields| <= n && NUMBER_SIZE * (n + 1) <= |slice| && Ascending(slice, n)
    requires forall i :: 0 <= i < |fields| ==> Wide(fields[i], values[i], PartsFrom(slice, n, k)[i])
    ensures VerifyFields(fields, PartsFrom(slice, n, k), true) && ReadFields(fields, slice, n, k) == Some(values)
    decreases fields, 0
  {
    hide Read, Verify, HeaderCount, Part, Ascending, Wide, WellFormed;
    if fields != [] {
      var parts, rest := PartsFrom(slice, n, k), PartsFrom(slice, n, k + 1);
      FirstPart(slice, n, k);
      WideReturns(fields[0], values[0], parts[0]);
      forall i | 0 <= i < |fields[1..]| ensures Wide(fields[1..][i], values[1..][i], rest[i]) {
        assert fields[1..][i] == fields[i + 1] && values[1..][i] == values[i + 1] && rest[i] == parts[i + 1];
      }
      WideFieldsReturn(fields[1..], values[1..], slice, n, k + 1);
      ReadFieldsStep(fields, values, slice, n, k);
    }
  }

  /** The bytes of a field are no more than the slice. */
  lemma FieldFits(fields: seq<Schema>, v: Value, slice: Bytes, k: nat)
    requires Wide(Table(fields), v, slice) && k < |fields| && fields[k].FixVec?
    ensures v.values[k].Raw? && |v.values[k].bytes| <= |slice|
  {
    hide Layout, Pack;
    var parts :| slice == Layout(parts) && |parts| >= |fields|
        && forall i :: 0 <= i < |fields| ==> Wide(fields[i], v.values[i], parts[i]);
    PartFits(parts, k);
  }

  /** The main statement, for every schema, value and slice shorter than 2^32 bytes. */
  lemma CompatibleMeansWide(s: Schema, v: Value, slice: Bytes)
    requires WellFormed(s) && |slice| < U32_SIZE
    ensures Verify(s, slice, true) && Read(s, slice) == Some(v) <==> Wide(s, v, slice)
  {
    hide Verify, Read, Wide, WellFormed;
    if Verify(s, slice, true) { VerifiedIsWide(s, slice); }
    if Wide(s, v, slice) { WideReturns(s, v, slice); }
  }

  // ---------------------------------------------------------------- tables that were extended

  lemma {:induction false} EncodedIsWide(s: Schema, v: Value)
    requires HasType(s, v) && WellFormed(s)
    ensures Wide(s, v, Encode(s, v))
    decreases s
  {
    match s
    case Array(_) =>
    case FixVec =>
    case DynVec(item) =>
      var parts := EncodeItems(item, v.values);
      forall i | 0 <= i < |parts| ensures Wide(item, v.values[i], parts[i]) {
        EncodedItem(item, v.values, i);
        EncodedIsWide(item, v.values[i]);
      }
      assert Encode(s, v) == Layout(parts);
    case Table(fields) =>
      FieldsEncodeWide(fields, v.values, []);
      assert EncodeFields(fields, v.values) + [] == EncodeFields(fields, v.values);
    case Opt(inner) =>
      if v.Just? {
        SolidIsNotEmpty(inner, v.value);
        EncodedIsWide(inner, v.value);
      }
    case Union(items) => EncodedIsWide(items[v.id], v.value);
  }

  lemma FieldsEncodeWide(fields: seq<Schema>, values: seq<Value>, extra: seq<Bytes>)
    requires |values| == |fields| && forall i :: 0 <= i < |fields| ==> HasType(fields[i], values[i])
    requires forall i :: 0 <= i < |fields| ==> WellFormed(fields[i])
    ensures Wide(Table(fields), List(values), Layout(EncodeFields(fields, values) + extra))
    decreases fields
  {
    var parts := EncodeFields(fields, values) + extra;
    forall i | 0 <= i < |fields| ensures Wide(fields[i], values[i], parts[i]) {
      EncodedField(fields, values, i);
      EncodedIsWide(fields[i], values[i]);
    }
    assert Layout(parts) == Layout(parts);
  }

  /** Further fields behind those of the schema are ignored by the compatible mode and refused by the strict one. */
  lemma ExtraFieldsAreIgnored(fields: seq<Schema>, values: seq<Value>, extra: seq<Bytes>)
    requires |values| == |fields| && forall i :: 0 <= i < |fields| ==> HasType(fields[i], values[i])
    requires forall i :: 0 <= i < |fields| ==> WellFormed(fields[i])
    requires |Layout(EncodeFields(fields, values) + extra)| < U32_SIZE
    ensures var slice := Layout(EncodeFields(fields, values) + extra);
            && Verify(Table(fields), slice, true) && Read(Table(fields), slice) == Some(List(values))
            && (Verify(Table(fields), slice, false) <==> extra == [])
  {
    hide Wide, Read, HeaderCount, PartsFrom;
    var parts := EncodeFields(fields, values) + extra;
    FieldsEncodeWide(fields, values, extra);
    WideReturns(Table(fields), List(values), Layout(parts));
    if extra == [] {
      assert parts == EncodeFields(fields, values);
      EncodedReturns(Table(fields), List(values), false);
    } else {
      NotTheEmptyTable(parts);
      LayoutCounts(parts);
    }
  }
}
