/** A multiaddress: components one after another in a byte string (tentacle/multiaddr/src/lib.rs). */
module Multiaddr {
  import opened Common
  import opened MultiaddrProtocol

  /** A component that the parser gives back. */
  predicate Good(p: Protocol) { WellTyped(p) && (p.P2P? ==> CheckP2P(p.hash)) }

  predicate AllGood(ps: seq<Protocol>) { forall i :: 0 <= i < |ps| ==> Good(ps[i]) }

  /** The bytes of these components. */
  function Join(ps: seq<Protocol>): Bytes {
    if ps == [] then [] else Write(ps[0]) + Join(ps[1..])
  }

  /** All components, none if some part does not parse. */
  function Components(bytes: Bytes): Option<seq<Protocol>>
    decreases |bytes|
  {
    if bytes == [] then Some([])
    else
      var r := FromBytes(bytes);
      if r.Err? then None
      else
        var ps := Components(r.rest);
        if ps.None? then None else Some([r.value] + ps.value)
  }

  /** The last component, and the bytes before it. */
  function LastSplit(bytes: Bytes): (Bytes, Protocol)
    requires bytes != [] && Components(bytes).Some?
    decreases |bytes|
  {
    var r := FromBytes(bytes);
    if r.rest == [] then ([], r.value)
    else
      var (front, p) := LastSplit(r.rest);
      (bytes[..|bytes| - |r.rest|] + front, p)
  }

  /** `replace` on the list of components. */
  function Replaced(ps: seq<Protocol>, at: nat, swap: Protocol -> Option<Protocol>): Option<seq<Protocol>> {
    if at < |ps| && swap(ps[at]).Some? then Some(ps[at := swap(ps[at]).value]) else None
  }

  // ---------------------------------------------------------------- lemmas

  /** Reading back what was joined. */
  lemma {:induction false} JoinParses(ps: seq<Protocol>)
    requires AllGood(ps)
    ensures Components(Join(ps)) == Some(ps)
  {
    hide Write, FromBytes;
    if ps != [] {
      JoinParses(ps[1..]);
      WrittenParses(ps[0], Join(ps[1..]));
      assert Join(ps) != [];
      assert ps == [ps[0]] + ps[1..];
    }
  }

  lemma {:induction false} JoinConcat(a: seq<Protocol>, b: seq<Protocol>)
    ensures Join(a + b) == Join(a) + Join(b)
  {
    hide Write;
    if a == [] {
      assert a + b == b;
    } else {
      JoinConcat(a[1..], b);
      assert (a + b)[1..] == a[1..] + b && (a + b)[0] == a[0];
    }
  }

  lemma JoinOne(p: Protocol)
    ensures Join([p]) == Write(p)
  {
    assert Join([p]) == Write(p) + Join([]);
  }

  /** The front of a non-empty valid byte string. */
  lemma Front(bytes: Bytes)
    requires bytes != [] && Components(bytes).Some?
    ensures var r := FromBytes(bytes);
            && r.Ok? && Components(r.rest).Some? && bytes == bytes[..|bytes| - |r.rest|] + r.rest
            && Components(bytes) == Some([r.value] + Components(r.rest).value)
  {
    hide FromBytes;
    ParseSuffix(bytes);
  }

  lemma {:induction false} ComponentsConcat(a: Bytes, b: Bytes)
    requires Components(a).Some? && Components(b).Some?
    ensures Components(a + b) == Some(Components(a).value + Components(b).value)
    decreases |a|
  {
    hide FromBytes;
    if a == [] {
      assert a + b == b && [] + Components(b).value == Components(b).value;
    } else {
      Front(a);
      var r := FromBytes(a);
      var c := a[..|a| - |r.rest|];
      ParseIsLocal(c, r.rest, r.rest + b);
      assert a + b == c + (r.rest + b);
      assert FromBytes(a + b) == Ok(r.value, r.rest + b);
      ComponentsConcat(r.rest, b);
      var x, y := Components(r.rest).value, Components(b).value;
      assert [r.value] + (x + y) == ([r.value] + x) + y;
    }
  }

  /** `pop` takes exactly the last component: what stands before it is untouched and still valid. */
  lemma {:induction false} LastSplitIsLast(bytes: Bytes)
    requires bytes != [] && Components(bytes).Some?
    ensures var (front, p) := LastSplit(bytes);
            && front <= bytes && Components(front).Some?
            && Components(bytes).value == Components(front).value + [p]
    decreases |bytes|
  {
    hide FromBytes;
    Front(bytes);
    var r := FromBytes(bytes);
    if r.rest != [] {
      LastSplitIsLast(r.rest);
      var c, front := bytes[..|bytes| - |r.rest|], LastSplit(r.rest).0;
      FrontPiece(c, r.rest, front);
      ComponentsConcat(c, front);
    }
  }

  lemma OneComponent(c: Bytes)
    requires c != [] && FromBytes(c).Ok? && FromBytes(c).rest == []
    ensures Components(c) == Some([FromBytes(c).value])
  {
    hide FromBytes;
    var v := FromBytes(c).value;
    assert Components([]) == Some([]) && [v] + [] == [v];
  }

  lemma WrittenComponent(p: Protocol)
    requires Good(p)
    ensures Write(p) != [] && FromBytes(Write(p)) == Ok(p, []) && Components(Write(p)) == Some([p])
  {
    WrittenParses(p, []);
    assert Write(p) + [] == Write(p);
    OneComponent(Write(p));
  }

  lemma FrontPiece(c: Bytes, rest: Bytes, front: Bytes)
    requires FromBytes(c + rest).Ok? && FromBytes(c + rest).rest == rest && front <= rest
    ensures Components(c) == Some([FromBytes(c + rest).value]) && c + front <= c + rest
  {
    hide FromBytes;
    ParseIsLocal(c, rest, []);
    assert c + [] == c;
    assert |c + rest| == |c| + |rest|;
    OneComponent(c);
  }

  /** `pop` after `push` returns the pushed component and restores the address to the byte, for every valid address and
      every component that parses back. */
  lemma {:induction false} PopUndoesPush(bytes: Bytes, p: Protocol)
    requires Components(bytes).Some? && Good(p)
    ensures var pushed := bytes + Write(p);
            pushed != [] && Components(pushed).Some? && LastSplit(pushed) == (bytes, p)
    decreases |bytes|
  {
    hide FromBytes, Write;
    WrittenComponent(p);
    ComponentsConcat(bytes, Write(p));
    if bytes == [] {
      assert bytes + Write(p) == Write(p);
    } else {
      Front(bytes);
      var r := FromBytes(bytes);
      var c := bytes[..|bytes| - |r.rest|];
      ParseIsLocal(c, r.rest, r.rest + Write(p));
      assert bytes + Write(p) == c + (r.rest + Write(p));
      PopUndoesPush(r.rest, p);
    }
  }

  // ---------------------------------------------------------------- collecting the components again

  /** The bytes from component number `k` on. */
  function From(bytes: Bytes, k: nat): Bytes
    requires Components(bytes).Some? && k <= |Components(bytes).value|
    decreases k
  {
    if k == 0 then bytes
    else
      Front(bytes);
      From(FromBytes(bytes).rest, k - 1)
  }

  /** No varint of component number `k` is cut to its width. */
  predicate FitsAt(bytes: Bytes, k: nat)
    requires Components(bytes).Some? && k < |Components(bytes).value|
  {
    FitsFront(From(bytes, k))
  }

  predicate Fits(bytes: Bytes)
    requires Components(bytes).Some?
  {
    forall k :: 0 <= k < |Components(bytes).value| ==> FitsAt(bytes, k)
  }

  predicate FitsExcept(bytes: Bytes, at: nat)
    requires Components(bytes).Some?
  {
    forall k :: 0 <= k < |Components(bytes).value| && k != at ==> FitsAt(bytes, k)
  }

  /** The address with the bytes of one component exchanged for `data`. */
  function Spliced(bytes: Bytes, at: nat, data: Bytes): Bytes
    requires Components(bytes).Some? && at < |Components(bytes).value|
  {
    FromIsSuffix(bytes, at);
    bytes[..|bytes| - |From(bytes, at)|] + data + From(bytes, at + 1)
  }

  lemma {:induction false} FromIsSuffix(bytes: Bytes, k: nat)
    requires Components(bytes).Some? && k <= |Components(bytes).value|
    ensures var r := From(bytes, k); |r| <= |bytes| && r == bytes[|bytes| - |r|..]
    ensures Components(From(bytes, k)) == Some(Components(bytes).value[k..])
    decreases k
  {
    hide FromBytes;
    if k > 0 {
      Front(bytes);
      var r := FromBytes(bytes);
      FromIsSuffix(r.rest, k - 1);
      assert ([r.value] + Components(r.rest).value)[k..] == Components(r.rest).value[k - 1..];
    }
  }

  /** The pieces of the tail are the later pieces of the whole. */
  lemma FitsShifts(bytes: Bytes)
    requires bytes != [] && Components(bytes).Some?
    ensures var rest := FromBytes(bytes).rest;
            && Components(rest).Some?
            && (Fits(bytes) <==> FitsFront(bytes) && Fits(rest))
            && (FitsExcept(bytes, 0) <==> Fits(rest))
            && forall at: nat :: at > 0 ==> (FitsExcept(bytes, at) <==> FitsFront(bytes) && FitsExcept(rest, at - 1))
  {
    hide FromBytes, FitsFront;
    Front(bytes);
    var r := FromBytes(bytes);
    var ps, qs := Components(bytes).value, Components(r.rest).value;
    assert FitsAt(bytes, 0) == FitsFront(bytes);
    forall k: nat | k < |qs| ensures FitsAt(r.rest, k) == FitsAt(bytes, k + 1) {}
    forall k: nat | 0 < k < |ps| ensures FitsAt(bytes, k) == FitsAt(r.rest, k - 1) {}
  }

  lemma WrittenFront(p: Protocol, tail: Bytes, bytes: Bytes)
    requires FromBytes(bytes).Ok? && FromBytes(bytes).value == p && bytes == Write(p) + tail
    ensures FromBytes(bytes).rest == tail && FitsFront(bytes)
  {
    hide Write, FitsFront, CheckP2P;
    ParsedIsTyped(bytes);
    if p.P2P? { ParsedHash(bytes); }
    WrittenParses(p, tail);
    WrittenFits(p, tail);
  }

  lemma EmptyFits()
    ensures Fits([])
  {
  }

  /** Collecting the components of an accepted byte string gives the same bytes exactly when no varint in it
      overflows. */
  lemma {:induction false} CollectingRebuildsIff(bytes: Bytes)
    requires Components(bytes).Some?
    ensures Join(Components(bytes).value) == bytes <==> Fits(bytes)
    decreases |bytes|
  {
    hide FromBytes, Write, FitsFront, Fits, FitsExcept;
    if bytes == [] {
      EmptyFits();
    } else {
      Front(bytes);
      FitsShifts(bytes);
      var r := FromBytes(bytes);
      var qs := Components(r.rest).value;
      CollectingRebuildsIff(r.rest);
      assert ([r.value] + qs)[1..] == qs;
      if Join([r.value] + qs) == bytes { WrittenFront(r.value, Join(qs), bytes); }
      ParsedPrintsIff(bytes);
    }
  }

  /** An accepted address that collecting its components does not give back: the code of the first component is 2^32 +
      4. */
  lemma OverflowIsAccepted()
    ensures var bytes := [0x84, 0x80, 0x80, 0x80, 0x10, 127, 0, 0, 1];
            && Components(bytes) == Some([Ip4([127, 0, 0, 1])])
            && Join([Ip4([127, 0, 0, 1])]) == [4, 127, 0, 0, 1]
            && !Fits(bytes)
  {
    hide GetVarint32, VarintFrom, CheckP2P, Utf8, Write, FitsFront;
    var code: Bytes, ip: Bytes := [0x84, 0x80, 0x80, 0x80, 0x10], [127, 0, 0, 1];
    var bytes := code + ip;
    assert bytes == [0x84, 0x80, 0x80, 0x80, 0x10, 127, 0, 0, 1];
    OverflowingIp4(code, ip);
    OneComponent(bytes);
    JoinOne(Ip4(ip));
    assert Write(Ip4(ip)) == [4, 127, 0, 0, 1] by { LoopbackWritten(); }
    assert !FitsAt(bytes, 0);
  }

  lemma LoopbackWritten()
    ensures Write(Ip4([127, 0, 0, 1])) == [4, 127, 0, 0, 1]
  {
  }

  lemma OverflowingIp4(code: Bytes, ip: Bytes)
    requires code == [0x84, 0x80, 0x80, 0x80, 0x10] && |ip| == 4
    ensures FromBytes(code + ip) == Ok(Ip4(ip), []) && !FitsFront(code + ip)
  {
    hide CheckP2P, Utf8, VarintFrom;
    OverflowingCode(ip);
    FixedReads(4, ip, []);
    assert ip + [] == ip;
    assert (U32_SIZE + 4) % U32_SIZE == 4;
    assert GetVarint32(code + ip) == Ok(IP4, ip);
  }

  lemma OverflowingCode(tail: Bytes)
    ensures VarintFrom([0x84, 0x80, 0x80, 0x80, 0x10] + tail, 0, 4) == Ok(U32_SIZE + 4, tail)
  {
    var a: Bytes := [0x84, 0x80, 0x80, 0x80, 0x10] + tail;
    var b: Bytes := [0x80, 0x80, 0x80, 0x10] + tail;
    var c: Bytes := [0x80, 0x80, 0x10] + tail;
    var d: Bytes := [0x80, 0x10] + tail;
    var e: Bytes := [0x10] + tail;
    assert a[1..] == b && b[1..] == c && c[1..] == d && d[1..] == e && e[1..] == tail;
    assert VarintFrom(e, 4, 4) == Ok(0x10, tail);
    assert VarintFrom(d, 3, 4) == Ok(0x800, tail);
    assert VarintFrom(c, 2, 4) == Ok(0x4_0000, tail);
    assert VarintFrom(b, 1, 4) == Ok(0x200_0000, tail);
  }

  /** `replace` leaves the bytes of all other components as they were exactly when no varint in those overflows. */
  lemma {:induction false} ReplaceIsLocalIff(bytes: Bytes, at: nat, q: Protocol)
    requires Components(bytes).Some? && at < |Components(bytes).value|
    ensures Join(Components(bytes).value[at := q]) == Spliced(bytes, at, Write(q)) <==> FitsExcept(bytes, at)
    decreases at
  {
    hide FromBytes, Write, FitsFront, Fits, FitsExcept;
    Front(bytes);
    FitsShifts(bytes);
    var r := FromBytes(bytes);
    var qs := Components(r.rest).value;
    if at == 0 {
      CollectingRebuildsIff(r.rest);
      assert ([r.value] + qs)[0 := q] == [q] + qs && ([q] + qs)[1..] == qs;
      assert From(bytes, 1) == From(r.rest, 0) == r.rest;
      assert Spliced(bytes, 0, Write(q)) == Write(q) + r.rest;
      SamePrefix(Write(q), Join(qs), r.rest);
    } else {
      ReplaceIsLocalIff(r.rest, at - 1, q);
      var qs' := qs[at - 1 := q];
      assert ([r.value] + qs)[at := q] == [r.value] + qs' && ([r.value] + qs')[1..] == qs';
      SplicedBehind(bytes, at, Write(q));
      var c, y := bytes[..|bytes| - |r.rest|], Spliced(r.rest, at - 1, Write(q));
      ParseIsLocal(c, r.rest, y);
      ParsedPrintsIff(bytes);
      if Write(r.value) + Join(qs') == c + y {
        WrittenFront(r.value, Join(qs'), c + y);
        SameSuffix(Write(r.value), c, y);
      }
      SameSuffix(Write(r.value), c, r.rest);
    }
  }

  lemma SplicedBehind(bytes: Bytes, at: nat, data: Bytes)
    requires Components(bytes).Some? && 0 < at < |Components(bytes).value|
    ensures var rest := FromBytes(bytes).rest;
            && Components(rest).Some? && at <= |Components(rest).value|
            && Spliced(bytes, at, data) == bytes[..|bytes| - |rest|] + Spliced(rest, at - 1, data)
  {
    hide FromBytes;
    Front(bytes);
    var rest := FromBytes(bytes).rest;
    FromIsSuffix(rest, at - 1);
    var tail := From(rest, at - 1);
    assert From(bytes, at) == tail && From(bytes, at + 1) == From(rest, at);
    assert bytes[..|bytes| - |tail|] == bytes[..|bytes| - |rest|] + rest[..|rest| - |tail|];
  }

  lemma SamePrefix(a: Bytes, x: Bytes, y: Bytes)
    ensures a + x == a + y <==> x == y
  {
    assert (a + x)[|a|..] == x && (a + y)[|a|..] == y;
  }

  lemma SameSuffix(a: Bytes, b: Bytes, y: Bytes)
    ensures a + y == b + y <==> a == b
  {
    if a + y == b + y {
      assert |a| == |b|;
      assert (a + y)[..|a|] == a && (b + y)[..|a|] == b;
    }
  }

  /** Collected addresses fit, and pushing and popping keep it so. */
  lemma FittingIsKept(bytes: Bytes, p: Protocol)
    requires Components(bytes).Some? && Fits(bytes)
    ensures Good(p) ==> Components(bytes + Write(p)).Some? && Fits(bytes + Write(p))
    ensures bytes != [] ==> Components(LastSplit(bytes).0).Some? && Fits(LastSplit(bytes).0)
  {
    hide FromBytes, Write, Fits, LastSplit, Components;
    var ps := Components(bytes).value;
    CollectingRebuildsIff(bytes);
    if Good(p) {
      WrittenComponent(p);
      ComponentsConcat(bytes, Write(p));
      JoinConcat(ps, [p]);
      JoinOne(p);
      CollectingRebuildsIff(bytes + Write(p));
    }
    if bytes != [] {
      LastSplitIsLast(bytes);
      var (front, q) := LastSplit(bytes);
      var qs := Components(front).value;
      JoinConcat(qs, [q]);
      JoinOne(q);
      ComponentsAreGood(bytes, |qs|);
      JoinedFront(qs, bytes);
      PopUndoesPush(Join(qs), q);
      CollectingRebuildsIff(front);
    }
  }

  lemma JoinedFront(qs: seq<Protocol>, bytes: Bytes)
    requires Components(bytes).Some? && qs <= Components(bytes).value
    ensures Components(Join(qs)) == Some(qs)
  {
    hide Components, Good;
    forall k | 0 <= k < |qs| ensures Good(qs[k]) { ComponentsAreGood(bytes, k); }
    JoinParses(qs);
  }

  /** Pushing a P2P component keeps the address readable exactly when its hash is well formed. */
  lemma PushedHashMustBeGood(bytes: Bytes, hash: Bytes)
    requires Components(bytes).Some? && |hash| < U64_SIZE
    ensures Components(bytes + Write(P2P(hash))) == Some(Components(bytes).value + [P2P(hash)]) <==> CheckP2P(hash)
  {
    hide FromBytes, Write, CheckP2P;
    var pushed, ps := bytes + Write(P2P(hash)), Components(bytes).value;
    if Components(pushed) == Some(ps + [P2P(hash)]) { ComponentsAreGood(pushed, |ps|); }
    if CheckP2P(hash) {
      PopUndoesPush(bytes, P2P(hash));
      LastSplitIsLast(pushed);
    }
  }

  /** Everything an accepted address holds parses back when written. */
  lemma {:induction false} ComponentsAreGood(bytes: Bytes, k: nat)
    requires Components(bytes).Some? && k < |Components(bytes).value|
    ensures Good(Components(bytes).value[k])
    decreases |bytes|
  {
    hide FromBytes, CheckP2P, WellTyped;
    Front(bytes);
    if k > 0 {
      ComponentsAreGood(FromBytes(bytes).rest, k - 1);
    } else {
      ParsedIsTyped(bytes);
      if FromBytes(bytes).value.P2P? { ParsedHash(bytes); }
    }
  }

  // ---------------------------------------------------------------- the address

  class Address {
    var bytes: Bytes

    predicate Valid()
      reads this
    {
      Components(bytes).Some?
    }

    constructor (bytes: Bytes)
      ensures this.bytes == bytes
    {
      this.bytes := bytes;
    }

    /** `from_iter`. */
    static method FromIter(ps: seq<Protocol>) returns (a: Address)
      ensures fresh(a) && a.bytes == Join(ps)
      ensures AllGood(ps) ==> Components(a.bytes) == Some(ps)
    {
      hide FromBytes, Write;
      var writer := [];
      for i := 0 to |ps|
        invariant writer == Join(ps[..i])
      {
        JoinConcat(ps[..i], [ps[i]]);
        JoinOne(ps[i]);
        assert ps[..i + 1] == ps[..i] + [ps[i]];
        writer := writer + Write(ps[i]);
      }
      assert ps[..|ps|] == ps;
      if AllGood(ps) { JoinParses(ps); }
      a := new Address(writer);
    }

    /** `try_from`: accepted exactly when every part parses. */
    static method TryFrom(v: Bytes) returns (a: Option<Address>)
      ensures a.Some? <==> Components(v).Some?
      ensures a.Some? ==> fresh(a.value) && a.value.bytes == v && a.value.Valid()
    {
      hide FromBytes, Write;
      var slice := v;
      while slice != []
        invariant Components(slice).Some? <==> Components(v).Some?
        decreases |slice|
      {
        var r := FromBytes(slice);
        if r.Err? { return None; }
        slice := r.rest;
      }
      var address := new Address(v);
      a := Some(address);
    }

    method Push(p: Protocol)
      modifies this
      ensures bytes == old(bytes) + Write(p)
      ensures old(Valid()) && Good(p) ==> Components(bytes) == Some(old(Components(bytes).value) + [p])
    {
      hide FromBytes, Write;
      ghost var before := bytes;
      bytes := bytes + Write(p);
      if Components(before).Some? && Good(p) {
        WrittenComponent(p);
        ComponentsConcat(before, Write(p));
      }
    }

    /** The scan finds the last component; `from_bytes` never fails on the way. */
    method Pop() returns (p: Option<Protocol>)
      requires Valid()
      modifies this
      ensures Valid() && (p.None? <==> old(bytes) == [])
      ensures p.None? ==> bytes == old(bytes)
      ensures p.Some? ==> (bytes, p.value) == LastSplit(old(bytes))
      ensures p.Some? ==> Components(bytes).value + [p.value] == Components(old(bytes)).value
    {
      hide FromBytes, Write, LastSplit, Components;
      if bytes == [] { return None; }
      LastSplitIsLast(bytes);
      var slice := bytes;
      assert Scanned(bytes, slice) by { assert bytes[..0] + LastSplit(bytes).0 == LastSplit(bytes).0; }
      while true
        invariant bytes == old(bytes) && Scanned(bytes, slice)
        decreases |slice|
      {
        var r := FromBytes(slice);
        ScanStep(bytes, slice);
        if r.rest == [] {
          p := Some(r.value);
          break;
        }
        slice := r.rest;
      }
      bytes := bytes[..|bytes| - |slice|];
    }

    /** `replace`, with `by` of the source as a function. It writes every component anew, so the others keep their bytes
        exactly when no varint in them overflows. */
    method Replace(at: nat, swap: Protocol -> Option<Protocol>) returns (r: Option<Address>)
      requires Valid()
      ensures r.Some? <==> at < |Components(bytes).value| && swap(Components(bytes).value[at]).Some?
      ensures r.Some? <==> Replaced(Components(bytes).value, at, swap).Some?
      ensures r.Some? ==> fresh(r.value) && r.value.bytes == Join(Replaced(Components(bytes).value, at, swap).value)
      ensures r.Some? ==>
                (r.value.bytes == Spliced(bytes, at, Write(swap(Components(bytes).value[at]).value)) <==>
                    FitsExcept(bytes, at))
    {
      hide FromBytes, Write, FitsExcept, Spliced;
      ghost var ps := Components(bytes).value;
      var address, replaced, i := [], false, 0;
      var iter := bytes;
      while iter != []
        invariant i <= |ps| && Components(iter) == Some(ps[i..])
        invariant replaced <==> at < i
        invariant at < i ==> swap(ps[at]).Some? && address == Join(ps[at := swap(ps[at]).value][..i])
        invariant at >= i ==> address == Join(ps[..i])
        decreases |iter|
      {
        Front(iter);
        var parsed := FromBytes(iter);
        var p := parsed.value;
        ghost var rest := Components(parsed.rest).value;
        assert ps[i..] == [p] + rest;
        assert ([p] + rest)[0] == p && ([p] + rest)[1..] == rest && ps[i..][0] == ps[i] && ps[i..][1..] == ps[i + 1..];
        if i == at {
          var q := swap(p);
          if q.None? { return None; }
          AppendAt(ps, i, q.value);
          address := address + Write(q.value);
          replaced := true;
        } else {
          ghost var now := if at < i then ps[at := swap(ps[at]).value] else ps;
          AppendAt(now, i, p);
          assert now[i := p] == now;
          address := address + Write(p);
        }
        iter := parsed.rest;
        i := i + 1;
      }
      if !replaced { return None; }
      ghost var all := ps[at := swap(ps[at]).value];
      assert all[..i] == all;
      ReplaceIsLocalIff(bytes, at, swap(ps[at]).value);
      var out := new Address(address);
      r := Some(out);
    }
  }

  lemma AppendAt(ps: seq<Protocol>, i: nat, q: Protocol)
    requires i < |ps|
    ensures Join(ps[..i]) + Write(q) == Join(ps[i := q][..i + 1])
  {
    hide Write;
    JoinConcat(ps[..i], [q]);
    JoinOne(q);
    assert ps[i := q][..i + 1] == ps[..i] + [q];
  }

  /** The scan of `pop` has come to `slice`: the last component of `slice` is the last one of all. */
  predicate Scanned(bytes: Bytes, slice: Bytes) {
    && bytes != [] && Components(bytes).Some? && slice != [] && Components(slice).Some? && |slice| <= |bytes|
    && bytes[|bytes| - |slice|..] == slice
    && LastSplit(bytes) == (bytes[..|bytes| - |slice|] + LastSplit(slice).0, LastSplit(slice).1)
  }

  lemma ScanStep(bytes: Bytes, slice: Bytes)
    requires Scanned(bytes, slice)
    ensures FromBytes(slice).Ok?
    ensures var r := FromBytes(slice);
            if r.rest == [] then LastSplit(bytes) == (bytes[..|bytes| - |slice|], r.value) else Scanned(bytes, r.rest)
  {
    hide FromBytes, LastSplit, Components;
    LastSplitStep(slice);
    var r := FromBytes(slice);
    var done := bytes[..|bytes| - |slice|];
    if r.rest == [] {
      assert done + [] == done;
    } else {
      Resplit(bytes, slice, r.rest, LastSplit(r.rest).0);
    }
  }

  lemma LastSplitStep(slice: Bytes)
    requires slice != [] && Components(slice).Some?
    ensures var r := FromBytes(slice);
            && r.Ok? && Components(r.rest).Some? && slice[|slice| - |r.rest|..] == r.rest
            && LastSplit(slice) == if r.rest == [] then ([], r.value)
                                   else (slice[..|slice| - |r.rest|] + LastSplit(r.rest).0, LastSplit(r.rest).1)
  {
    hide FromBytes;
    Front(slice);
  }

  lemma Resplit(bytes: Bytes, slice: Bytes, rest: Bytes, front: Bytes)
    requires |rest| <= |slice| <= |bytes| && bytes[|bytes| - |slice|..] == slice && slice[|slice| - |rest|..] == rest
    ensures bytes[..|bytes| - |slice|] + (slice[..|slice| - |rest|] + front) == bytes[..|bytes| - |rest|] + front
    ensures bytes[|bytes| - |rest|..] == rest
  {
    assert slice[..|slice| - |rest|] == bytes[|bytes| - |slice|..|bytes| - |rest|];
  }

  /** `Iter`: the components in order; `from_bytes` never fails on a valid address. */
  class Iter {
    var data: Bytes

    constructor (data: Bytes)
      ensures this.data == data
    {
      this.data := data;
    }

    method Next() returns (p: Option<Protocol>)
      requires Components(data).Some?
      modifies this
      ensures Components(data).Some?
      ensures p.None? ==> old(data) == [] && data == []
      ensures p.Some? ==> Components(old(data)) == Some([p.value] + Components(data).value)
    {
      hide FromBytes, Write;
      if data == [] { return None; }
      Front(data);
      var r := FromBytes(data);
      data := r.rest;
      p := Some(r.value);
    }
  }
}
