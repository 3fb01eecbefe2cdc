/** What `verify` promises: on an accepted slice no accessor at any depth leaves its bounds and no union dispatch
    panics, the items of every layout tile the slice after its header, and the strict mode accepts exactly the
    encodings. */
module MoleculeVerify {
  import opened Common
  import opened Molecule

  lemma HeaderFacts(slice: Bytes, n: nat)
    requires HeaderCount(slice) == Some(n)
    ensures n >= 1 && NUMBER_SIZE * (n + 1) <= |slice| == Unpack(slice) && Ascending(slice, n)
    ensures CountOf(slice) == Some(n) && OffsetAt(slice, n, 0) == NUMBER_SIZE * (n + 1)
  {
  }

  /** Every accessor stays in bounds and gives the item that was verified. */
  lemma ItemIsPart(slice: Bytes, n: nat, k: nat)
    requires HeaderCount(slice) == Some(n) && k < n
    ensures ItemOf(slice, k, k == n - 1) == Some(Part(slice, n, k))
  {
    OffsetsInside(slice, n, k + 1);
    assert InOrder(slice, n, k);
  }

  /** The items from the k-th on fill the rest of the slice: no gap, no overlap. */
  lemma {:induction false} PartsTile(slice: Bytes, n: nat, k: nat)
    requires k <= n && HeaderCount(slice) == Some(n)
    ensures OffsetAt(slice, n, k) <= |slice| && Flat(PartsFrom(slice, n, k)) == slice[OffsetAt(slice, n, k)..]
    decreases n - k
  {
    hide HeaderCount, Unpack;
    HeaderFacts(slice, n);
    OffsetsInside(slice, n, k);
    if k < n {
      PartsTile(slice, n, k + 1);
      var a, b := OffsetAt(slice, n, k), OffsetAt(slice, n, k + 1);
      assert InOrder(slice, n, k);
      assert slice[a..] == slice[a..b] + slice[b..];
    }
  }

  lemma OffsetsCons(a: nat, part: Bytes, rest: seq<Bytes>)
    ensures Offsets(a, [part] + rest) == [a] + Offsets(a + |part|, rest)
  {
    assert ([part] + rest)[1..] == rest;
  }

  lemma PackAllCons(a: nat, ns: seq<nat>)
    ensures PackAll([a] + ns) == Pack(a) + PackAll(ns)
  {
    assert ([a] + ns)[1..] == ns;
  }

  lemma NumberAt(slice: Bytes, from: nat, to: nat)
    requires from + NUMBER_SIZE <= to <= |slice|
    ensures slice[from..to] == Pack(Unpack(slice[from..])) + slice[from + NUMBER_SIZE..to]
  {
    UnpackPack(slice[from..]);
    assert slice[from..][..NUMBER_SIZE] == slice[from..from + NUMBER_SIZE];
  }

  lemma PartLength(slice: Bytes, n: nat, k: nat)
    requires k < n && NUMBER_SIZE * (n + 1) <= |slice| && Ascending(slice, n)
    ensures OffsetAt(slice, n, k) + |Part(slice, n, k)| == OffsetAt(slice, n, k + 1)
  {
    OffsetsInside(slice, n, k + 1);
    assert InOrder(slice, n, k);
  }

  lemma {:induction false} OffsetsAreRewritten(slice: Bytes, n: nat, k: nat)
    requires k <= n && NUMBER_SIZE * (n + 1) <= |slice| && Ascending(slice, n)
    ensures PackAll(Offsets(OffsetAt(slice, n, k), PartsFrom(slice, n, k)))
         == slice[NUMBER_SIZE * (k + 1)..NUMBER_SIZE * (n + 1)]
    decreases n - k
  {
    hide Unpack, Pack;
    if k < n {
      OffsetsAreRewritten(slice, n, k + 1);
      var a, part, rest := OffsetAt(slice, n, k), Part(slice, n, k), PartsFrom(slice, n, k + 1);
      PartLength(slice, n, k);
      OffsetsCons(a, part, rest);
      PackAllCons(a, Offsets(a + |part|, rest));
      NumberAt(slice, NUMBER_SIZE * (k + 1), NUMBER_SIZE * (n + 1));
    } else {
      assert PartsFrom(slice, n, k) == [];
    }
  }

  lemma ThreePieces(slice: Bytes, a: nat, b: nat)
    requires a <= b <= |slice|
    ensures slice == slice[..a] + slice[a..b] + slice[b..]
  {
  }

  /** Laying out the items of an accepted slice again gives the slice back. */
  lemma LayoutIsRewritten(slice: Bytes, n: nat)
    requires HeaderCount(slice) == Some(n)
    ensures Layout(PartsFrom(slice, n, 0)) == slice
  {
    HeaderFacts(slice, n);
    PartsTile(slice, n, 0);
    OffsetsAreRewritten(slice, n, 0);
    UnpackPack(slice);
    var h, parts := NUMBER_SIZE * (n + 1), PartsFrom(slice, n, 0);
    ThreePieces(slice, NUMBER_SIZE, h);
    assert |parts| == n && |Flat(parts)| == |slice| - h;
    assert Pack(h + |Flat(parts)|) == slice[..NUMBER_SIZE];
    assert PackAll(Offsets(h, parts)) == slice[NUMBER_SIZE..h];
  }

  /** What holds of an accepted slice. */
  predicate Sound(s: Schema, slice: Bytes, compatible: bool) {
    var v := Read(s, slice);
    v.Some? && HasType(s, v.value) && (!compatible ==> Encode(s, v.value) == slice)
  }

  /** The main statement: everything readable, well typed, and canonical in strict mode. */
  lemma {:induction false} VerifiedIsSound(s: Schema, slice: Bytes, compatible: bool)
    requires Verify(s, slice, compatible)
    ensures Sound(s, slice, compatible)
    decreases s, 0
  {
    match s
    case Array(_) =>
    case FixVec => UnpackPack(slice); assert slice == slice[..NUMBER_SIZE] + slice[NUMBER_SIZE..];
    case DynVec(item) => DynVecIsSound(item, slice, compatible);
    case Table(fields) => TableIsSound(fields, slice, compatible);
    case Opt(inner) => if slice != [] { VerifiedIsSound(inner, slice, compatible); }
    case Union(items) =>
      VerifiedIsSound(items[Unpack(slice)], slice[NUMBER_SIZE..], compatible);
      UnpackPack(slice);
      assert slice == slice[..NUMBER_SIZE] + slice[NUMBER_SIZE..];
  }

  lemma EmptyLayout(slice: Bytes)
    requires |slice| == NUMBER_SIZE && Unpack(slice) == NUMBER_SIZE
    ensures Layout([]) == slice
  {
    UnpackPack(slice);
    assert slice[..NUMBER_SIZE] == slice;
  }

  lemma {:induction false} DynVecIsSound(item: Schema, slice: Bytes, compatible: bool)
    requires Verify(DynVec(item), slice, compatible)
    ensures Sound(DynVec(item), slice, compatible)
    decreases item, |slice| + 2
  {
    if |slice| == NUMBER_SIZE && Unpack(slice) == NUMBER_SIZE {
      EmptyLayout(slice);
      assert ReadItems(item, slice, 0, 0) == Some([]);
      assert Read(DynVec(item), slice) == Some(List([]));
    } else {
      var n := HeaderCount(slice).value;
      HeaderFacts(slice, n);
      ItemsAreSound(item, slice, n, 0, compatible);
      LayoutIsRewritten(slice, n);
    }
  }

  lemma ItemsCons(item: Schema, v: Value, vs: seq<Value>)
    requires HasType(item, v) && forall i :: 0 <= i < |vs| ==> HasType(item, vs[i])
    ensures forall i :: 0 <= i < |[v] + vs| ==> HasType(item, ([v] + vs)[i])
    ensures EncodeItems(item, [v] + vs) == [Encode(item, v)] + EncodeItems(item, vs)
  {
    assert ([v] + vs)[1..] == vs;
  }

  lemma {:induction false} ItemsAreSound(item: Schema, slice: Bytes, n: nat, k: nat, compatible: bool)
    requires k <= n && HeaderCount(slice) == Some(n) && VerifyItems(item, PartsFrom(slice, n, k), compatible)
    ensures var vs := ReadItems(item, slice, n, k);
            && vs.Some? && (forall i :: 0 <= i < |vs.value| ==> HasType(item, vs.value[i]))
            && (!compatible ==> EncodeItems(item, vs.value) == PartsFrom(slice, n, k))
    decreases item, 1 + n - k
  {
    hide Read, Verify, Encode, HeaderCount, Part, EncodeItems;
    if k < n {
      HeaderFacts(slice, n);
      ItemIsPart(slice, n, k);
      VerifiedIsSound(item, Part(slice, n, k), compatible);
      var rest := PartsFrom(slice, n, k + 1);
      assert PartsFrom(slice, n, k)[1..] == rest;
      ItemsAreSound(item, slice, n, k + 1, compatible);
      var v, vs := Read(item, Part(slice, n, k)).value, ReadItems(item, slice, n, k + 1).value;
      assert ReadItems(item, slice, n, k) == Some([v] + vs);
      ItemsCons(item, v, vs);
    }
  }

  lemma {:induction false} TableIsSound(fields: seq<Schema>, slice: Bytes, compatible: bool)
    requires Verify(Table(fields), slice, compatible)
    ensures Sound(Table(fields), slice, compatible)
    decreases fields, 1
  {
    if |slice| == NUMBER_SIZE && Unpack(slice) == NUMBER_SIZE && fields == [] {
      EmptyLayout(slice);
      assert Read(Table(fields), slice) == Some(List([]));
    } else {
      var n := HeaderCount(slice).value;
      HeaderFacts(slice, n);
      FieldsAreSound(fields, slice, n, 0, compatible);
      LayoutIsRewritten(slice, n);
    }
  }

  lemma TypesCons(fields: seq<Schema>, v: Value, vs: seq<Value>)
    requires fields != [] && |vs| == |fields| - 1 && HasType(fields[0], v)
    requires forall i :: 0 <= i < |vs| ==> HasType(fields[1..][i], vs[i])
    ensures forall i :: 0 <= i < |fields| ==> HasType(fields[i], ([v] + vs)[i])
  {
    forall i | 0 <= i < |fields| ensures HasType(fields[i], ([v] + vs)[i]) {
      if i > 0 { assert fields[i] == fields[1..][i - 1] && ([v] + vs)[i] == vs[i - 1]; }
    }
  }

  lemma FieldsCons(fields: seq<Schema>, v: Value, vs: seq<Value>)
    requires fields != [] && |vs| == |fields| - 1 && HasType(fields[0], v)
    requires forall i :: 0 <= i < |vs| ==> HasType(fields[1..][i], vs[i])
    requires forall i :: 0 <= i < |fields| ==> HasType(fields[i], ([v] + vs)[i])
    ensures EncodeFields(fields, [v] + vs) == [Encode(fields[0], v)] + EncodeFields(fields[1..], vs)
  {
    assert ([v] + vs)[1..] == vs;
  }

  lemma {:induction false} FieldsAreSound(fields: seq<Schema>, slice: Bytes, n: nat, k: nat, compatible: bool)
    requires HeaderCount(slice) == Some(n) && k + |fields| <= n && (compatible || k + |fields| == n)
    requires VerifyFields(fields, PartsFrom(slice, n, k), compatible)
    ensures var vs := ReadFields(fields, slice, n, k);
            && vs.Some? && |vs.value| == |fields| && (forall i :: 0 <= i < |fields| ==> HasType(fields[i], vs.value[i]))
            && (!compatible ==> EncodeFields(fields, vs.value) == PartsFrom(slice, n, k))
    decreases fields, 0
  {
    hide Read, Verify, Encode, HeaderCount, Part, EncodeFields;
    if fields != [] {
      HeaderFacts(slice, n);
      ItemIsPart(slice, n, k);
      VerifiedIsSound(fields[0], Part(slice, n, k), compatible);
      var rest := PartsFrom(slice, n, k + 1);
      assert PartsFrom(slice, n, k)[1..] == rest;
      FieldsAreSound(fields[1..], slice, n, k + 1, compatible);
      var v, vs := Read(fields[0], Part(slice, n, k)).value, ReadFields(fields[1..], slice, n, k + 1).value;
      assert ReadFields(fields, slice, n, k) == Some([v] + vs);
      TypesCons(fields, v, vs);
      if !compatible { FieldsCons(fields, v, vs); }
    }
  }

  /** Whatever the strict mode accepts, the compatible mode accepts. */
  lemma {:induction false} StrictIsCompatible(s: Schema, slice: Bytes)
    requires Verify(s, slice, false)
    ensures Verify(s, slice, true)
    decreases s, 0
  {
    hide HeaderCount, PartsFrom;
    match s
    case Array(_) =>
    case FixVec =>
    case DynVec(item) =>
      if !(|slice| == NUMBER_SIZE && Unpack(slice) == NUMBER_SIZE) {
        HeaderFacts(slice, HeaderCount(slice).value);
        ItemsAreCompatible(item, PartsFrom(slice, HeaderCount(slice).value, 0));
      }
    case Table(fields) =>
      if !(|slice| == NUMBER_SIZE && Unpack(slice) == NUMBER_SIZE && fields == []) {
        HeaderFacts(slice, HeaderCount(slice).value);
        FieldsAreCompatible(fields, PartsFrom(slice, HeaderCount(slice).value, 0));
      }
    case Opt(inner) => if slice != [] { StrictIsCompatible(inner, slice); }
    case Union(items) => StrictIsCompatible(items[Unpack(slice)], slice[NUMBER_SIZE..]);
  }

  lemma {:induction false} ItemsAreCompatible(item: Schema, parts: seq<Bytes>)
    requires VerifyItems(item, parts, false)
    ensures VerifyItems(item, parts, true)
    decreases item, 1 + |parts|
  {
    if parts != [] {
      StrictIsCompatible(item, parts[0]);
      ItemsAreCompatible(item, parts[1..]);
    }
  }

  lemma {:induction false} FieldsAreCompatible(fields: seq<Schema>, parts: seq<Bytes>)
    requires |parts| >= |fields| && VerifyFields(fields, parts, false)
    ensures VerifyFields(fields, parts, true)
    decreases fields, 0
  {
    if fields != [] {
      StrictIsCompatible(fields[0], parts[0]);
      FieldsAreCompatible(fields[1..], parts[1..]);
    }
  }
}
