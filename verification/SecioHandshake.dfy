/** The first half of the secio handshake: what each side proposes, and what it chooses on reading the other's
    proposition (tentacle/secio/src/handshake/handshake_context.rs, handshake_struct.rs). */
module SecioHandshake {
  import opened Common
  import opened SecioSupport
  import Mol = Molecule
  import opened MoleculeVerify
  import opened MoleculeEncode
  import MoleculeWide

  type Bytes = seq<byte>

  /** Conversion between text and UTF-8. */
  datatype TextCodec = TextCodec(toBytes: string -> Bytes, fromBytes: Bytes -> Option<string>)

  ghost predicate Faithful(t: TextCodec) { forall s :: t.fromBytes(t.toBytes(s)) == Some(s) }

  /** Bytes are text exactly if they are the bytes of that text. */
  ghost predicate Exact(t: TextCodec) { forall b, s :: t.fromBytes(b) == Some(s) <==> b == t.toBytes(s) }

  // ---------------------------------------------------------------- messages

  const PROPOSE := Mol.Table([Mol.FixVec, Mol.FixVec, Mol.FixVec, Mol.FixVec, Mol.FixVec])
  const PUBLIC_KEY := Mol.Union([Mol.FixVec])

  datatype Propose = Propose(rand: Bytes, pubkey: Bytes, exchange: string, ciphers: string, hashes: string)

  function ProposeValue(t: TextCodec, p: Propose): (v: Mol.Value)
    ensures Mol.HasType(PROPOSE, v)
  {
    Mol.List([Mol.Raw(p.rand), Mol.Raw(p.pubkey), Mol.Raw(t.toBytes(p.exchange)), Mol.Raw(t.toBytes(p.ciphers)),
              Mol.Raw(t.toBytes(p.hashes))])
  }

  function EncodePropose(t: TextCodec, p: Propose): Bytes { Mol.Encode(PROPOSE, ProposeValue(t, p)) }

  /** The accessors are only used on what `verify` accepted, so reading cannot fail; text has to be UTF-8. */
  function DecodePropose(t: TextCodec, data: Bytes): Option<Propose> {
    if !Mol.Verify(PROPOSE, data, true) then None
    else
      VerifiedIsSound(PROPOSE, data, true);
      var fields := Mol.Read(PROPOSE, data).value.values;
      var e, c, h := t.fromBytes(fields[2].bytes), t.fromBytes(fields[3].bytes), t.fromBytes(fields[4].bytes);
      if e.None? || c.None? || h.None? then None
      else Some(Propose(fields[0].bytes, fields[1].bytes, e.value, c.value, h.value))
  }

  function EncodeKey(key: Bytes): Bytes { Mol.Encode(PUBLIC_KEY, Mol.Variant(0, Mol.Raw(key))) }

  /** The union has one alternative; the dispatch on it cannot panic on what `verify` accepted. */
  function DecodeKey(data: Bytes): Option<Bytes> {
    if !Mol.Verify(PUBLIC_KEY, data, true) then None
    else
      VerifiedIsSound(PUBLIC_KEY, data, true);
      Some(Mol.Read(PUBLIC_KEY, data).value.value.bytes)
  }

  lemma ProposeReturns(t: TextCodec, p: Propose)
    requires Faithful(t) && |EncodePropose(t, p)| < U32_SIZE
    ensures DecodePropose(t, EncodePropose(t, p)) == Some(p)
  {
    hide Mol.Encode, Mol.Verify, Mol.Read;
    EncodedReturns(PROPOSE, ProposeValue(t, p), true);
  }

  lemma KeyReturns(key: Bytes)
    requires |EncodeKey(key)| < U32_SIZE
    ensures DecodeKey(EncodeKey(key)) == Some(key)
  {
    EncodedReturns(PUBLIC_KEY, Mol.Variant(0, Mol.Raw(key)), true);
  }

  lemma FiveFields(v: Mol.Value)
    requires Mol.HasType(PROPOSE, v)
    ensures v.List? && |v.values| == 5 && forall i :: 0 <= i < 5 ==> v.values[i].Raw?
  {
    forall i | 0 <= i < 5 ensures v.values[i].Raw? { assert Mol.HasType(PROPOSE.fields[i], v.values[i]); }
  }

  lemma TextIs(t: TextCodec, b: Bytes, s: string)
    requires Exact(t)
    ensures t.fromBytes(b) == Some(s) <==> b == t.toBytes(s)
  {
  }

  lemma ProposeIsRead(t: TextCodec, data: Bytes, p: Propose)
    requires Exact(t)
    ensures DecodePropose(t, data) == Some(p) <==>
            Mol.Verify(PROPOSE, data, true) && Mol.Read(PROPOSE, data) == Some(ProposeValue(t, p))
  {
    hide Mol.Verify, Mol.Read, Mol.HasType, Exact;
    if Mol.Verify(PROPOSE, data, true) {
      VerifiedIsSound(PROPOSE, data, true);
      FiveFields(Mol.Read(PROPOSE, data).value);
      var vs := Mol.Read(PROPOSE, data).value.values;
      TextIs(t, vs[2].bytes, p.exchange);
      TextIs(t, vs[3].bytes, p.ciphers);
      TextIs(t, vs[4].bytes, p.hashes);
      assert vs == [vs[0], vs[1], vs[2], vs[3], vs[4]];
    }
  }

  /** A proposition is read exactly from its encodings, with or without further fields behind the five. */
  lemma ProposeDecodesIff(t: TextCodec, data: Bytes, p: Propose)
    requires Exact(t) && |data| < U32_SIZE
    ensures DecodePropose(t, data) == Some(p) <==> MoleculeWide.Wide(PROPOSE, ProposeValue(t, p), data)
  {
    hide Mol.Verify, Mol.Read, MoleculeWide.Wide, DecodePropose, ProposeValue;
    ProposeIsRead(t, data, p);
    MoleculeWide.CompatibleMeansWide(PROPOSE, ProposeValue(t, p), data);
  }

  function Sized(data: Bytes): Bytes { Mol.Pack(|data|) + data }

  /** The five fields of a proposition on the wire, in order, and the public key in the second. */
  lemma ProposeOnWire(t: TextCodec, p: Propose, key: Bytes)
    ensures EncodePropose(t, p) == Mol.Layout([Sized(p.rand), Sized(p.pubkey), Sized(t.toBytes(p.exchange)),
                                               Sized(t.toBytes(p.ciphers)), Sized(t.toBytes(p.hashes))])
    ensures EncodeKey(key) == [0, 0, 0, 0] + Sized(key)
  {
    hide Mol.Layout;
    var fields, vs := PROPOSE.fields, ProposeValue(t, p).values;
    var parts := Mol.EncodeFields(fields, vs);
    EncodedField(fields, vs, 0);
    EncodedField(fields, vs, 1);
    EncodedField(fields, vs, 2);
    EncodedField(fields, vs, 3);
    EncodedField(fields, vs, 4);
    assert parts == [parts[0], parts[1], parts[2], parts[3], parts[4]];
  }

  /** A public key is read exactly from its encoding. */
  lemma KeyDecodesIff(data: Bytes, key: Bytes)
    requires |data| < U32_SIZE
    ensures DecodeKey(data) == Some(key) <==> data == EncodeKey(key)
  {
    if DecodeKey(data).Some? { MoleculeWide.VerifiedIsWide(PUBLIC_KEY, data); }
    if data == EncodeKey(key) { KeyReturns(key); }
  }

  /** A field is shorter than the message around it. */
  lemma KeyFits(t: TextCodec, p: Propose)
    ensures |p.pubkey| <= |EncodePropose(t, p)|
  {
    var fields := PROPOSE.fields;
    var parts := Mol.EncodeFields(fields, ProposeValue(t, p).values);
    EncodedField(fields, ProposeValue(t, p).values, 1);
    PartFits(parts, 1);
  }

  // ---------------------------------------------------------------- the two contexts

  datatype SecioError = HandshakeParsingFailure | ConnectSelf | NoSupportIntersection

  /** `wasm` tells which default propositions the side was compiled with. */
  datatype Config = Config(key: Bytes, wasm: bool, agreements: Option<string>, ciphersProposal: Option<string>,
                           digests: Option<string>)

  datatype Local = Local(config: Config, nonce: Bytes, publicKey: Bytes, propositionBytes: Bytes)

  datatype Choice = Choice(exchange: KeyAgreement, cipher: CipherType, digest: Digest)

  datatype Remote = Remote(publicKey: Bytes, nonce: Bytes, ordering: Ordering, choice: Choice)

  datatype Outcome = Agreed(remote: Remote) | Failed(error: SecioError)

  function OurAgreements(c: Config): string {
    if c.agreements.Some? then c.agreements.value else if c.wasm then "X25519" else "P-256,P-384,X25519"
  }

  function OurCiphers(c: Config): string {
    if c.ciphersProposal.Some? then c.ciphersProposal.value
    else if c.wasm then "CHACHA20_POLY1305" else "AES-128-GCM,AES-256-GCM,CHACHA20_POLY1305"
  }

  function OurDigests(c: Config): string { if c.digests.Some? then c.digests.value else "SHA256,SHA512" }

  function Proposition(c: Config, nonce: Bytes): Propose {
    Propose(nonce, EncodeKey(c.key), OurAgreements(c), OurCiphers(c), OurDigests(c))
  }

  function WithLocal(t: TextCodec, c: Config, nonce: Bytes): Local {
    Local(c, nonce, c.key, EncodePropose(t, Proposition(c, nonce)))
  }

  /** What a side proposes unless it is configured otherwise. */
  lemma DefaultPropositions(key: Bytes, nonce: Bytes)
    ensures Proposition(Config(key, false, None, None, None), nonce) ==
            Propose(nonce, EncodeKey(key), "P-256,P-384,X25519", "AES-128-GCM,AES-256-GCM,CHACHA20_POLY1305",
                "SHA256,SHA512")
    ensures Proposition(Config(key, true, None, None, None), nonce) ==
            Propose(nonce, EncodeKey(key), "X25519", "CHACHA20_POLY1305", "SHA256,SHA512")
  {
  }

  /** Comparison of byte strings as `Ord` on slices does it. */
  function Compare(a: Bytes, b: Bytes): Ordering {
    if a == [] && b == [] then Equal
    else if a == [] then Less
    else if b == [] then Greater
    else if a[0] < b[0] then Less
    else if a[0] > b[0] then Greater
    else Compare(a[1..], b[1..])
  }

  function Choose(r: Ordering, c: Config, theirs: Propose): Option<Choice> {
    var exchange := SelectAgreement(r, OurAgreements(c), theirs.exchange);
    var cipher := SelectCipher(r, OurCiphers(c), theirs.ciphers);
    var digest := SelectDigest(r, OurDigests(c), theirs.hashes);
    if exchange.None? || cipher.None? || digest.None? then None
    else Some(Choice(exchange.value, cipher.value, digest.value))
  }

  function WithRemote(t: TextCodec, hash: Bytes -> Bytes, local: Local, remoteBytes: Bytes): Outcome {
    match DecodePropose(t, remoteBytes)
    case None => Failed(HandshakeParsingFailure)
    case Some(propose) =>
      match DecodeKey(propose.pubkey)
      case None => Failed(HandshakeParsingFailure)
      case Some(key) =>
        if key == local.publicKey then Failed(ConnectSelf)
        else
          var ordering := Compare(hash(key + local.nonce), hash(local.publicKey + propose.rand));
          var choice := Choose(ordering, local.config, propose);
          if choice.None? then Failed(NoSupportIntersection)
          else Agreed(Remote(key, propose.rand, ordering, choice.value))
  }

  /** These bytes are an encoding of this proposition, with this public key in it. */
  ghost predicate Proposes(t: TextCodec, data: Bytes, p: Propose, key: Bytes) {
    MoleculeWide.Wide(PROPOSE, ProposeValue(t, p), data) && p.pubkey == EncodeKey(key)
  }

  /** What a side makes of any bytes: a parsing failure exactly if they are no proposition with a public key in it, the
      refusal to talk to itself exactly if that key is its own, and otherwise the choice by the order of the two
      hashes. */
  lemma RemoteAnswers(t: TextCodec, hash: Bytes -> Bytes, local: Local, data: Bytes)
    requires Exact(t) && |data| < U32_SIZE
    ensures var x := WithRemote(t, hash, local, data);
            && (x == Failed(HandshakeParsingFailure) <==> !exists p, key :: Proposes(t, data, p, key))
            && (forall p, key :: Proposes(t, data, p, key) ==>
                  && (x == Failed(ConnectSelf) <==> key == local.publicKey)
                  && (key != local.publicKey ==>
                        var r := Compare(hash(key + local.nonce), hash(local.publicKey + p.rand));
                        match Choose(r, local.config, p)
                        case None => x == Failed(NoSupportIntersection)
                        case Some(choice) => x == Agreed(Remote(key, p.rand, r, choice))))
  {
    hide DecodePropose, DecodeKey, EncodeKey, Choose, Compare, Exact, MoleculeWide.Wide, ProposeValue;
    forall p, key | Proposes(t, data, p, key)
      ensures DecodePropose(t, data) == Some(p) && DecodeKey(p.pubkey) == Some(key)
    {
      ProposeDecodesIff(t, data, p);
      WideKeyFits(t, p, data);
      KeyDecodesIff(p.pubkey, key);
    }
    var p := DecodePropose(t, data);
    if p.Some? {
      ProposeDecodesIff(t, data, p.value);
      WideKeyFits(t, p.value, data);
      var key := DecodeKey(p.value.pubkey);
      if key.Some? {
        KeyDecodesIff(p.value.pubkey, key.value);
        assert Proposes(t, data, p.value, key.value);
      }
    }
  }

  lemma WideKeyFits(t: TextCodec, p: Propose, data: Bytes)
    requires MoleculeWide.Wide(PROPOSE, ProposeValue(t, p), data)
    ensures |p.pubkey| <= |data|
  {
    hide MoleculeWide.Wide;
    MoleculeWide.FieldFits(PROPOSE.fields, ProposeValue(t, p), data, 1);
  }

  // ---------------------------------------------------------------- agreement

  /** `a` is a proper prefix of `b`, or smaller where they first differ. */
  ghost predicate Below(a: Bytes, b: Bytes) {
    exists k: nat :: BelowAt(a, b, k)
  }

  predicate BelowAt(a: Bytes, b: Bytes, k: nat) {
    && k <= |a| && k < |b| && (forall i :: 0 <= i < k ==> a[i] == b[i])
    && (k == |a| || a[k] < b[k])
  }

  /** The order of two byte strings. */
  lemma {:induction false} CompareMeans(a: Bytes, b: Bytes)
    ensures Compare(a, b) == Less <==> Below(a, b)
    ensures Compare(a, b) == Greater <==> Below(b, a)
    ensures Compare(a, b) == Equal <==> a == b
  {
    if a == [] || b == [] {
      if a == [] && b != [] { assert BelowAt(a, b, 0); }
      if b == [] && a != [] { assert BelowAt(b, a, 0); }
    } else {
      BelowFirst(a, b);
      BelowFirst(b, a);
      if a[0] == b[0] {
        CompareMeans(a[1..], b[1..]);
        assert a == [a[0]] + a[1..] && b == [b[0]] + b[1..];
      }
    }
  }

  lemma BelowFirst(a: Bytes, b: Bytes)
    requires a != [] && b != []
    ensures Below(a, b) <==> a[0] < b[0] || (a[0] == b[0] && Below(a[1..], b[1..]))
  {
    var x, y := a[1..], b[1..];
    assert forall i :: 0 <= i < |x| ==> x[i] == a[i + 1];
    assert forall i :: 0 <= i < |y| ==> y[i] == b[i + 1];
    if a[0] < b[0] { assert BelowAt(a, b, 0); }
    if a[0] == b[0] && Below(x, y) {
      var k: nat :| BelowAt(x, y, k);
      assert BelowAt(a, b, k + 1);
    }
    if Below(a, b) {
      var k: nat :| BelowAt(a, b, k);
      if k > 0 { assert BelowAt(x, y, k - 1); }
    }
  }

  lemma {:induction false} CompareReverses(a: Bytes, b: Bytes)
    ensures Compare(b, a) == Reverse(Compare(a, b))
    ensures Compare(a, b) == Equal <==> a == b
  {
    if a != [] && b != [] && a[0] == b[0] {
      CompareReverses(a[1..], b[1..]);
      assert a == [a[0]] + a[1..] && b == [b[0]] + b[1..];
    }
  }

  /** What a side makes of a proposition that the other side built. */
  lemma RemoteShape(t: TextCodec, hash: Bytes -> Bytes, a: Config, na: Bytes, b: Config, nb: Bytes)
    requires Faithful(t) && a.key != b.key && |WithLocal(t, b, nb).propositionBytes| < U32_SIZE
    ensures var r := Compare(hash(b.key + na), hash(a.key + nb));
            WithRemote(t, hash, WithLocal(t, a, na), WithLocal(t, b, nb).propositionBytes) ==
            match Choose(r, a, Proposition(b, nb))
            case None => Failed(NoSupportIntersection)
            case Some(choice) => Agreed(Remote(b.key, nb, r, choice))
  {
    hide EncodeKey, DecodeKey, EncodePropose, DecodePropose, Choose, Compare;
    ProposeReturns(t, Proposition(b, nb));
    KeyFits(t, Proposition(b, nb));
    KeyReturns(b.key);
  }

  lemma ChooseSwaps(r: Ordering, a: Config, na: Bytes, b: Config, nb: Bytes)
    requires r != Equal
    ensures Choose(Reverse(r), b, Proposition(a, na)) == Choose(r, a, Proposition(b, nb))
  {
    hide OurAgreements, OurCiphers, OurDigests, EncodeKey, Select;
    SelectSwaps(KnownAgreement, r, OurAgreements(a), OurAgreements(b));
    SelectSwaps(KnownCipher, r, OurCiphers(a), OurCiphers(b));
    SelectSwaps(KnownDigest, r, OurDigests(a), OurDigests(b));
  }

  predicate SameOutcome(x: Outcome, y: Outcome) {
    (x.Agreed? && y.Agreed? && x.remote.choice == y.remote.choice) || (x.Failed? && x == y)
  }

  /** For any hash function: two sides with different keys whose order hashes differ see opposite orders, and reach the
      same three algorithms or fail for the same reason. */
  lemma PeersAgree(t: TextCodec, hash: Bytes -> Bytes, a: Config, na: Bytes, b: Config, nb: Bytes)
    requires Faithful(t) && a.key != b.key && hash(b.key + na) != hash(a.key + nb)
    requires |WithLocal(t, a, na).propositionBytes| < U32_SIZE && |WithLocal(t, b, nb).propositionBytes| < U32_SIZE
    ensures var x := WithRemote(t, hash, WithLocal(t, a, na), WithLocal(t, b, nb).propositionBytes);
            var y := WithRemote(t, hash, WithLocal(t, b, nb), WithLocal(t, a, na).propositionBytes);
            SameOutcome(x, y) && (x.Agreed? ==> x.remote.ordering == Reverse(y.remote.ordering))
  {
    hide WithLocal, WithRemote, Choose, Compare, Proposition;
    RemoteShape(t, hash, a, na, b, nb);
    RemoteShape(t, hash, b, nb, a, na);
    CompareReverses(hash(b.key + na), hash(a.key + nb));
    ChooseSwaps(Compare(hash(b.key + na), hash(a.key + nb)), a, na, b, nb);
  }

  /** The two have a known algorithm of each kind in common. */
  ghost predicate Overlapping(a: Config, b: Config) {
    && Overlap(KnownAgreement, Split(OurAgreements(a)), Split(OurAgreements(b)))
    && Overlap(KnownCipher, Split(OurCiphers(a)), Split(OurCiphers(b)))
    && Overlap(KnownDigest, Split(OurDigests(a)), Split(OurDigests(b)))
  }

  /** The handshake gets past this point exactly when the two sides have an algorithm of each kind in common. */
  lemma SucceedsIffOverlap(t: TextCodec, hash: Bytes -> Bytes, a: Config, na: Bytes, b: Config, nb: Bytes)
    requires Faithful(t) && a.key != b.key && |WithLocal(t, b, nb).propositionBytes| < U32_SIZE
    ensures WithRemote(t, hash, WithLocal(t, a, na), WithLocal(t, b, nb).propositionBytes).Agreed? <==>
            Overlapping(a, b)
  {
    hide WithLocal, WithRemote, Compare, OurAgreements, OurCiphers, OurDigests, Split, Overlap, Select, EncodeKey;
    RemoteShape(t, hash, a, na, b, nb);
    var r := Compare(hash(b.key + na), hash(a.key + nb));
    SelectMeaning(KnownAgreement, r, OurAgreements(a), OurAgreements(b));
    SelectMeaning(KnownCipher, r, OurCiphers(a), OurCiphers(b));
    SelectMeaning(KnownDigest, r, OurDigests(a), OurDigests(b));
  }

  /** With the same key on both sides both refuse. */
  lemma SameKeyIsRefused(t: TextCodec, hash: Bytes -> Bytes, a: Config, na: Bytes, b: Config, nb: Bytes)
    requires Faithful(t) && a.key == b.key && |WithLocal(t, b, nb).propositionBytes| < U32_SIZE
    ensures WithRemote(t, hash, WithLocal(t, a, na), WithLocal(t, b, nb).propositionBytes) == Failed(ConnectSelf)
  {
    hide EncodeKey, DecodeKey, EncodePropose, DecodePropose, Choose, Compare;
    ProposeReturns(t, Proposition(b, nb));
    KeyFits(t, Proposition(b, nb));
    KeyReturns(b.key);
  }

  // ---------------------------------------------------------------- equal order hashes

  /** In each kind the two lists name the same common token first, or some kind has none in common at all. */
  ghost predicate RankAlike(a: Config, b: Config) {
    Overlapping(a, b) ==>
      && SameFirst(KnownAgreement, Split(OurAgreements(a)), Split(OurAgreements(b)))
      && SameFirst(KnownCipher, Split(OurCiphers(a)), Split(OurCiphers(b)))
      && SameFirst(KnownDigest, Split(OurDigests(a)), Split(OurDigests(b)))
  }

  lemma EqualChoosesAlikeIff(a: Config, na: Bytes, b: Config, nb: Bytes)
    ensures Choose(Equal, a, Proposition(b, nb)) == Choose(Equal, b, Proposition(a, na)) <==> RankAlike(a, b)
  {
    hide OurAgreements, OurCiphers, OurDigests, EncodeKey, Select, Split, Overlap, SameFirst, Injective;
    TokensAreDistinct();
    KindDecides(KnownAgreement, OurAgreements(a), OurAgreements(b));
    KindDecides(KnownCipher, OurCiphers(a), OurCiphers(b));
    KindDecides(KnownDigest, OurDigests(a), OurDigests(b));
  }

  lemma KindDecides<T(!new)>(known: string -> Option<T>, ours: string, theirs: string)
    requires Injective(known)
    ensures Select(known, Equal, ours, theirs).Some? <==> Overlap(known, Split(ours), Split(theirs))
    ensures Select(known, Equal, theirs, ours).Some? <==> Overlap(known, Split(ours), Split(theirs))
    ensures Overlap(known, Split(ours), Split(theirs)) ==>
              (Select(known, Equal, ours, theirs) == Select(known, Equal, theirs, ours) <==>
               SameFirst(known, Split(ours), Split(theirs)))
  {
    hide Select, Split, Overlap, SameFirst, Injective;
    SelectMeaning(known, Equal, ours, theirs);
    SelectMeaning(known, Equal, theirs, ours);
    OverlapSwaps(known, Split(ours), Split(theirs));
    EqualSelectsAlikeIff(known, ours, theirs);
  }

  /** If the order hashes collide both sides prefer the other's list: then they agree exactly when the two lists rank
      their common algorithms alike. */
  lemma TieAgreesIff(t: TextCodec, hash: Bytes -> Bytes, a: Config, na: Bytes, b: Config, nb: Bytes)
    requires Faithful(t) && a.key != b.key && hash(b.key + na) == hash(a.key + nb)
    requires |WithLocal(t, a, na).propositionBytes| < U32_SIZE && |WithLocal(t, b, nb).propositionBytes| < U32_SIZE
    ensures SameOutcome(WithRemote(t, hash, WithLocal(t, a, na), WithLocal(t, b, nb).propositionBytes),
                        WithRemote(t, hash, WithLocal(t, b, nb), WithLocal(t, a, na).propositionBytes))
            <==> RankAlike(a, b)
  {
    hide WithLocal, WithRemote, Choose, Compare, Proposition, RankAlike;
    RemoteShape(t, hash, a, na, b, nb);
    RemoteShape(t, hash, b, nb, a, na);
    CompareReverses(hash(b.key + na), hash(a.key + nb));
    CompareReverses(hash(a.key + nb), hash(b.key + na));
    EqualChoosesAlikeIff(a, na, b, nb);
  }

  lemma OneToken<T>(known: string -> Option<T>, x: string)
    requires Plain(x) && known(x).Some?
    ensures Select(known, Equal, x, x) == known(x)
  {
    hide Plain, Split;
    SplitToken(x, "");
    assert FirstCommon(known, [x], [x]) == known(x);
  }

  lemma TwoTokens<T>(known: string -> Option<T>, x: string, y: string)
    requires Plain(x) && Plain(y) && known(y).Some?
    ensures Select(known, Equal, x + "," + y, y + "," + x) == known(y)
  {
    hide Plain, Split;
    SplitToken(x, y);
    SplitToken(y, x);
    SplitToken(x, "");
    SplitToken(y, "");
    var a, b := [x] + [y], [y] + [x];
    assert a[1] == y && b[0] == y;
    assert FirstCommon(known, b, a) == known(y);
  }

  /** Two sides that name the first two key agreements in opposite order. */
  function Prefers(key: Bytes, first: KeyAgreement, second: KeyAgreement): Config {
    Config(key, false, Some(AgreementName(first) + "," + AgreementName(second)), Some(CipherName(Aes128Gcm)),
           Some(DigestName(Sha256)))
  }

  lemma PrefersOther(x: KeyAgreement, y: KeyAgreement, keyA: Bytes, keyB: Bytes, nb: Bytes)
    ensures Choose(Equal, Prefers(keyA, x, y), Proposition(Prefers(keyB, y, x), nb)) ==
            Some(Choice(y, Aes128Gcm, Sha256))
  {
    hide Split, Select, Plain, AgreementName, CipherName, DigestName, KnownAgreement, KnownCipher, KnownDigest;
    NamesArePlain(x, Aes128Gcm, Sha256);
    NamesArePlain(y, Aes128Gcm, Sha256);
    NamesAreKnown();
    TwoTokens(KnownAgreement, AgreementName(x), AgreementName(y));
    OneToken(KnownCipher, CipherName(Aes128Gcm));
    OneToken(KnownDigest, DigestName(Sha256));
  }

  /** Whenever the order hashes of these two are equal, both get past the choice with different key agreements. */
  lemma TieCanDisagree(t: TextCodec, hash: Bytes -> Bytes, keyA: Bytes, na: Bytes, keyB: Bytes, nb: Bytes)
    requires Faithful(t) && keyA != keyB && hash(keyB + na) == hash(keyA + nb)
    requires |WithLocal(t, Prefers(keyA, EcdhP256, EcdhP384), na).propositionBytes| < U32_SIZE
    requires |WithLocal(t, Prefers(keyB, EcdhP384, EcdhP256), nb).propositionBytes| < U32_SIZE
    ensures var a, b := WithLocal(t, Prefers(keyA, EcdhP256, EcdhP384), na),
            WithLocal(t, Prefers(keyB, EcdhP384, EcdhP256), nb);
            && WithRemote(t, hash, a, b.propositionBytes) == Agreed(Remote(keyB, nb, Equal,
               Choice(EcdhP384, Aes128Gcm, Sha256)))
            && WithRemote(t, hash, b, a.propositionBytes) == Agreed(Remote(keyA, na, Equal,
               Choice(EcdhP256, Aes128Gcm, Sha256)))
  {
    hide WithLocal, WithRemote, Choose, Compare, Proposition;
    var a, b := Prefers(keyA, EcdhP256, EcdhP384), Prefers(keyB, EcdhP384, EcdhP256);
    RemoteShape(t, hash, a, na, b, nb);
    RemoteShape(t, hash, b, nb, a, na);
    CompareReverses(hash(keyB + na), hash(keyA + nb));
    CompareReverses(hash(keyA + nb), hash(keyB + na));
    PrefersOther(EcdhP256, EcdhP384, keyA, keyB, nb);
    PrefersOther(EcdhP384, EcdhP256, keyB, keyA, na);
  }

  /** The inputs of the two order hashes are equal exactly when one key continues the other and its nonce lacks as much:
      never with keys of equal length and nonces of equal length, so then a tie takes a collision of the hash. */
  lemma EqualInputsIff(keyA: Bytes, na: Bytes, keyB: Bytes, nb: Bytes)
    requires keyA != keyB && |keyA| <= |keyB|
    ensures keyB + na == keyA + nb <==> keyA <= keyB && nb == keyB[|keyA|..] + na
    ensures |keyA| == |keyB| || |na| == |nb| ==> keyB + na != keyA + nb
  {
    var n := |keyA|;
    if keyB + na == keyA + nb {
      assert keyB[..n] == (keyB + na)[..n] == (keyA + nb)[..n] == keyA;
      assert nb == (keyA + nb)[n..] == (keyB + na)[n..] == keyB[n..] + na;
    }
    if keyA <= keyB && nb == keyB[n..] + na {
      assert keyB == keyA + keyB[n..];
      assert keyA + (keyB[n..] + na) == (keyA + keyB[n..]) + na;
    }
    if n == |keyB| { assert keyA <= keyB ==> keyA == keyB; }
  }

  /** With keys and nonces of any length such a tie needs no colliding hash. */
  lemma TieWithoutCollision(t: TextCodec, hash: Bytes -> Bytes, key: Bytes, more: Bytes, nonce: Bytes)
    requires Faithful(t) && more != []
    requires |WithLocal(t, Prefers(key, EcdhP256, EcdhP384), nonce).propositionBytes| < U32_SIZE
    requires |WithLocal(t, Prefers(key + more, EcdhP384, EcdhP256), more + nonce).propositionBytes| < U32_SIZE
    ensures var a := WithLocal(t, Prefers(key, EcdhP256, EcdhP384), nonce);
            var b := WithLocal(t, Prefers(key + more, EcdhP384, EcdhP256), more + nonce);
            var x, y := WithRemote(t, hash, a, b.propositionBytes), WithRemote(t, hash, b, a.propositionBytes);
            x.Agreed? && y.Agreed? && x.remote.choice != y.remote.choice
  {
    hide WithLocal, WithRemote, Prefers;
    assert key + more != key by { assert |key + more| > |key|; }
    assert (key + more) + nonce == key + (more + nonce);
    TieCanDisagree(t, hash, key, nonce, key + more, more + nonce);
  }

  // ---------------------------------------------------------------- the halves of the stretched key

  /** Which half of the stretched key a side writes with and which it reads with; a tie is refused here. */
  function Halves(r: Ordering, stretched: Bytes): Option<(Bytes, Bytes)> {
    var n := |stretched| / 2;
    match r
    case Equal => None
    case Less => Some((stretched[n..], stretched[..n]))
    case Greater => Some((stretched[..n], stretched[n..]))
  }

  /** From the same stretched key each side writes with the half the other reads with; with equal order hashes both
      refuse. */
  lemma HalvesCross(t: TextCodec, hash: Bytes -> Bytes, a: Config, na: Bytes, b: Config, nb: Bytes, stretched: Bytes)
    requires Faithful(t) && a.key != b.key
    requires |WithLocal(t, a, na).propositionBytes| < U32_SIZE && |WithLocal(t, b, nb).propositionBytes| < U32_SIZE
    ensures var x := WithRemote(t, hash, WithLocal(t, a, na), WithLocal(t, b, nb).propositionBytes);
            var y := WithRemote(t, hash, WithLocal(t, b, nb), WithLocal(t, a, na).propositionBytes);
            x.Agreed? && y.Agreed? ==>
              var p, q := Halves(x.remote.ordering, stretched), Halves(y.remote.ordering, stretched);
              if hash(b.key + na) == hash(a.key + nb) then p.None? && q.None?
              else p.Some? && q.Some? && p.value.0 == q.value.1 && p.value.1 == q.value.0
  {
    hide WithLocal, WithRemote, Choose, Compare, Proposition;
    RemoteShape(t, hash, a, na, b, nb);
    RemoteShape(t, hash, b, nb, a, na);
    CompareReverses(hash(b.key + na), hash(a.key + nb));
  }

  /** The side whose order hash is greater writes with the first half and reads with the second. */
  lemma HalvesSplit(first: Bytes, second: Bytes)
    requires |first| == |second|
    ensures Halves(Greater, first + second) == Some((first, second))
    ensures Halves(Less, first + second) == Some((second, first)) && Halves(Equal, first + second) == None
  {
    assert (first + second)[..|first|] == first && (first + second)[|first|..] == second;
  }
}
