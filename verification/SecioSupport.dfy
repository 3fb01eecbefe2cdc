/** Choosing algorithms from two comma separated propositions (tentacle/secio/src/support.rs). */
module SecioSupport {
  import opened Common

  datatype Ordering = Less | Equal | Greater

  function Reverse(r: Ordering): Ordering {
    match r case Less => Greater case Equal => Equal case Greater => Less
  }

  datatype KeyAgreement = EcdhP256 | EcdhP384 | X25519

  datatype CipherType = Aes128Gcm | Aes256Gcm | ChaCha20Poly1305

  datatype Digest = Sha256 | Sha512

  // ---------------------------------------------------------------- names

  function AgreementName(x: KeyAgreement): string {
    match x case EcdhP256 => "P-256" case EcdhP384 => "P-384" case X25519 => "X25519"
  }

  function CipherName(x: CipherType): string {
    match x case Aes128Gcm => "AES-128-GCM" case Aes256Gcm => "AES-256-GCM" case ChaCha20Poly1305 => "CHACHA20_POLY1305"
  }

  function DigestName(x: Digest): string {
    match x case Sha256 => "SHA256" case Sha512 => "SHA512"
  }

  function KnownAgreement(x: string): Option<KeyAgreement> {
    if x == "P-256" then Some(EcdhP256)
    else if x == "P-384" then Some(EcdhP384)
    else if x == "X25519" then Some(X25519)
    else None
  }

  function KnownCipher(x: string): Option<CipherType> {
    if x == "AES-128-GCM" then Some(Aes128Gcm)
    else if x == "AES-256-GCM" then Some(Aes256Gcm)
    else if x == "CHACHA20_POLY1305" then Some(ChaCha20Poly1305)
    else None
  }

  function KnownDigest(x: string): Option<Digest> {
    if x == "SHA256" then Some(Sha256) else if x == "SHA512" then Some(Sha512) else None
  }

  // ---------------------------------------------------------------- splitting at commas

  /** `str::split(',')`: always at least one token. */
  function Split(s: string): (tokens: seq<string>)
    ensures |tokens| >= 1
  {
    if s == [] then [""]
    else
      var rest := Split(s[1..]);
      if s[0] == ',' then [""] + rest else [[s[0]] + rest[0]] + rest[1..]
  }

  function Join(tokens: seq<string>): string {
    if tokens == [] then ""
    else if |tokens| == 1 then tokens[0]
    else tokens[0] + "," + Join(tokens[1..])
  }

  predicate Plain(token: string) { ',' !in token }

  lemma {:induction false} SplitToken(token: string, s: string)
    requires Plain(token)
    ensures Split(token + "," + s) == [token] + Split(s)
    ensures Split(token) == [token]
  {
    if token == [] {
      assert token + "," + s == "," + s && ("," + s)[1..] == s;
    } else {
      SplitToken(token[1..], s);
      assert (token + "," + s)[1..] == token[1..] + "," + s;
      assert [token[0]] + token[1..] == token;
    }
  }

  predicate AllPlain(tokens: seq<string>) { forall i :: 0 <= i < |tokens| ==> Plain(tokens[i]) }

  /** Splitting undoes joining, for any tokens without commas. */
  lemma {:induction false} SplitJoin(tokens: seq<string>)
    requires tokens != [] && AllPlain(tokens)
    ensures Split(Join(tokens)) == tokens
  {
    hide Split, Plain;
    if |tokens| == 1 {
      SplitToken(tokens[0], "");
      assert tokens == [tokens[0]];
    } else {
      var rest := tokens[1..];
      SplitJoin(rest);
      SplitToken(tokens[0], Join(rest));
      assert Join(tokens) == tokens[0] + "," + Join(rest);
      assert tokens == [tokens[0]] + rest;
    }
  }

  // ---------------------------------------------------------------- printing a proposition

  function Names<T>(name: T -> string, xs: seq<T>): seq<string> {
    seq(|xs|, k requires 0 <= k < |xs| => name(xs[k]))
  }

  lemma {:induction false} JoinAppend(tokens: seq<string>, t: string)
    requires tokens != []
    ensures Join(tokens + [t]) == Join(tokens) + "," + t
  {
    if |tokens| > 1 {
      JoinAppend(tokens[1..], t);
      assert (tokens + [t])[1..] == tokens[1..] + [t];
    }
  }

  /** The three printers: every name followed by a comma, and the last comma taken off again. */
  method Proposition<T>(name: T -> string, xs: seq<T>) returns (s: string)
    ensures s == Join(Names(name, xs))
  {
    s := "";
    for i := 0 to |xs|
      invariant s == if i == 0 then "" else Join(Names(name, xs[..i])) + ","
    {
      var printed := Names(name, xs[..i]);
      assert Names(name, xs[..i + 1]) == printed + [name(xs[i])];
      if i > 0 { JoinAppend(printed, name(xs[i])); }
      s := s + name(xs[i]);
      s := s + [','];
    }
    assert xs[..|xs|] == xs;
    if |s| > 0 {
      s := s[..|s| - 1];
    }
  }

  /** A short string is compared letter by letter. */
  lemma PlainByHalves(a: string, b: string)
    requires Plain(a) && Plain(b)
    ensures Plain(a + b)
  {
  }

  lemma NamesArePlain(k: KeyAgreement, c: CipherType, d: Digest)
    ensures Plain(AgreementName(k)) && Plain(CipherName(c)) && Plain(DigestName(d))
  {
    PlainByHalves("AES-1", "28-GCM");
    PlainByHalves("AES-2", "56-GCM");
    PlainByHalves("CHACHA", "20_");
    PlainByHalves("CHACHA" + "20_", "POLY1305");
    assert "AES-1" + "28-GCM" == CipherName(Aes128Gcm);
    assert "AES-2" + "56-GCM" == CipherName(Aes256Gcm);
    assert "CHACHA" + "20_" + "POLY1305" == CipherName(ChaCha20Poly1305);
  }

  method KeyAgreementsProposition(xs: seq<KeyAgreement>) returns (s: string)
    ensures xs != [] ==> Split(s) == Names(AgreementName, xs)
    ensures xs == [] ==> s == ""
  {
    s := Proposition(AgreementName, xs);
    forall x ensures Plain(AgreementName(x)) { NamesArePlain(x, Aes128Gcm, Sha256); }
    if xs != [] { SplitJoin(Names(AgreementName, xs)); }
  }

  method CiphersProposition(xs: seq<CipherType>) returns (s: string)
    ensures xs != [] ==> Split(s) == Names(CipherName, xs)
    ensures xs == [] ==> s == ""
  {
    s := Proposition(CipherName, xs);
    forall x ensures Plain(CipherName(x)) { NamesArePlain(X25519, x, Sha256); }
    if xs != [] { SplitJoin(Names(CipherName, xs)); }
  }

  method DigestsProposition(xs: seq<Digest>) returns (s: string)
    ensures xs != [] ==> Split(s) == Names(DigestName, xs)
    ensures xs == [] ==> s == ""
  {
    s := Proposition(DigestName, xs);
    forall x ensures Plain(DigestName(x)) { NamesArePlain(X25519, Aes128Gcm, x); }
    if xs != [] { SplitJoin(Names(DigestName, xs)); }
  }

  // ---------------------------------------------------------------- selection

  /** The search shared by the three `select_` functions: the first token of `a` that is in `b` and has a meaning. */
  function FirstCommon<T>(known: string -> Option<T>, a: seq<string>, b: seq<string>): Option<T> {
    if a == [] then None
    else if a[0] in b && known(a[0]).Some? then known(a[0])
    else FirstCommon(known, a[1..], b)
  }

  function Select<T>(known: string -> Option<T>, r: Ordering, ours: string, theirs: string): Option<T> {
    var (a, b) := match r case Less | Equal => (theirs, ours) case Greater => (ours, theirs);
    FirstCommon(known, Split(a), Split(b))
  }

  function SelectAgreement(r: Ordering, ours: string, theirs: string): Option<KeyAgreement> {
    Select(KnownAgreement, r, ours, theirs)
  }

  function SelectCipher(r: Ordering, ours: string, theirs: string): Option<CipherType> {
    Select(KnownCipher, r, ours, theirs)
  }

  function SelectDigest(r: Ordering, ours: string, theirs: string): Option<Digest> {
    Select(KnownDigest, r, ours, theirs)
  }

  /** `a[i]` is the first token of `a` that is known and also in `b`. */
  ghost predicate IsChoice<T(!new)>(known: string -> Option<T>, a: seq<string>, b: seq<string>, i: int) {
    && 0 <= i < |a| && a[i] in b && known(a[i]).Some?
    && forall j :: 0 <= j < i ==> !(a[j] in b && known(a[j]).Some?)
  }

  ghost predicate Overlap<T(!new)>(known: string -> Option<T>, a: seq<string>, b: seq<string>) {
    exists t :: t in a && t in b && known(t).Some?
  }

  lemma {:induction false} FirstCommonIsFirst<T(!new)>(known: string -> Option<T>, a: seq<string>, b: seq<string>)
    ensures FirstCommon(known, a, b).Some? <==> Overlap(known, a, b)
    ensures FirstCommon(known, a, b).Some? ==>
              exists i :: IsChoice(known, a, b, i) && FirstCommon(known, a, b) == known(a[i])
  {
    if a != [] {
      if a[0] in b && known(a[0]).Some? {
        assert IsChoice(known, a, b, 0);
      } else {
        FirstCommonIsFirst(known, a[1..], b);
        if FirstCommon(known, a[1..], b).Some? {
          var i :| IsChoice(known, a[1..], b, i) && FirstCommon(known, a[1..], b) == known(a[1..][i]);
          assert IsChoice(known, a, b, i + 1) by {
            forall j | 0 <= j < i + 1 ensures !(a[j] in b && known(a[j]).Some?) {
              if j > 0 { assert a[j] == a[1..][j - 1]; }
            }
          }
        } else {
          forall t | t in a && t in b ensures known(t).None? {
            if t != a[0] { assert t in a[1..]; }
          }
        }
      }
    }
  }

  /** The choice is the first known token of the preferred list that the other list has too; there is one exactly when
      the lists have a known token in common, whoever is preferred. */
  lemma SelectMeaning<T(!new)>(known: string -> Option<T>, r: Ordering, ours: string, theirs: string)
    ensures Select(known, r, ours, theirs).Some? <==> Overlap(known, Split(ours), Split(theirs))
    ensures var a := if r == Greater then Split(ours) else Split(theirs);
            var b := if r == Greater then Split(theirs) else Split(ours);
            Select(known, r, ours, theirs).Some? ==>
              exists i :: IsChoice(known, a, b, i) && Select(known, r, ours, theirs) == known(a[i])
  {
    var a, b := Split(ours), Split(theirs);
    FirstCommonIsFirst(known, a, b);
    FirstCommonIsFirst(known, b, a);
  }

  /** Swapping the roles and reversing a strict preference chooses the same. */
  lemma SelectSwaps<T>(known: string -> Option<T>, r: Ordering, ours: string, theirs: string)
    requires r != Equal
    ensures Select(known, Reverse(r), theirs, ours) == Select(known, r, ours, theirs)
  {
  }

  /** No two tokens mean the same. */
  ghost predicate Injective<T(!new)>(known: string -> Option<T>) {
    forall s, t :: known(s).Some? && known(s) == known(t) ==> s == t
  }

  /** Of the known tokens the two lists have in common, both name the same one first. */
  ghost predicate SameFirst<T(!new)>(known: string -> Option<T>, a: seq<string>, b: seq<string>) {
    exists i, j :: IsChoice(known, a, b, i) && IsChoice(known, b, a, j) && a[i] == b[j]
  }

  lemma OneChoice<T(!new)>(known: string -> Option<T>, a: seq<string>, b: seq<string>, i: int, j: int)
    requires IsChoice(known, a, b, i) && IsChoice(known, a, b, j)
    ensures i == j
  {
  }

  /** Two sides that both prefer the other's list choose alike exactly when the lists have nothing known in common or
      name the same common token first. */
  lemma EqualSelectsAlikeIff<T(!new)>(known: string -> Option<T>, ours: string, theirs: string)
    requires Injective(known)
    ensures Select(known, Equal, ours, theirs) == Select(known, Equal, theirs, ours) <==>
            !Overlap(known, Split(ours), Split(theirs)) || SameFirst(known, Split(ours), Split(theirs))
  {
    hide Select, Split, Overlap;
    var a, b := Split(ours), Split(theirs);
    SelectMeaning(known, Equal, ours, theirs);
    SelectMeaning(known, Equal, theirs, ours);
    OverlapSwaps(known, a, b);
    if Overlap(known, a, b) {
      var i :| IsChoice(known, a, b, i) && Select(known, Equal, theirs, ours) == known(a[i]);
      var j :| IsChoice(known, b, a, j) && Select(known, Equal, ours, theirs) == known(b[j]);
      if SameFirst(known, a, b) {
        var i', j' :| IsChoice(known, a, b, i') && IsChoice(known, b, a, j') && a[i'] == b[j'];
        OneChoice(known, a, b, i, i');
        OneChoice(known, b, a, j, j');
      }
      if known(a[i]) == known(b[j]) { assert a[i] == b[j] && SameFirst(known, a, b); }
    }
  }

  lemma OverlapSwaps<T(!new)>(known: string -> Option<T>, a: seq<string>, b: seq<string>)
    ensures Overlap(known, a, b) <==> Overlap(known, b, a)
  {
  }

  lemma TokensAreDistinct()
    ensures Injective(KnownAgreement) && Injective(KnownCipher) && Injective(KnownDigest)
  {
  }

  /** What a printer printed is chosen back. */
  lemma NamesAreKnown()
    ensures forall x :: KnownAgreement(AgreementName(x)) == Some(x)
    ensures forall x :: KnownCipher(CipherName(x)) == Some(x)
    ensures forall x :: KnownDigest(DigestName(x)) == Some(x)
  {
  }
}
