/** The self-incrementing nonce of the stream ciphers (tentacle/secio/src/crypto/mod.rs). */
module SecioNonce {
  import opened Common

  function Pow256(n: nat): (m: nat)
    ensures m > 0
  {
    if n == 0 then 1 else 256 * Pow256(n - 1)
  }

  /** The number a nonce stands for, its first byte the least significant. */
  function Number(s: seq<byte>): nat {
    if s == [] then 0 else s[0] as int + 256 * Number(s[1..])
  }

  function Advanced(s: seq<byte>): (r: seq<byte>)
    ensures |r| == |s|
  {
    if s == [] then []
    else if s[0] == 255 then [0] + Advanced(s[1..])
    else [s[0] + 1] + s[1..]
  }

  /** `nonce_advance`: in place, with carry. */
  method NonceAdvance(nonce: array<byte>)
    modifies nonce
    ensures nonce[..] == Advanced(old(nonce[..]))
  {
    ghost var was := nonce[..];
    var i := 0;
    while i < nonce.Length
      invariant i <= nonce.Length
      invariant forall k :: 0 <= k < i ==> was[k] == 255 && nonce[k] == 0
      invariant forall k :: i <= k < nonce.Length ==> nonce[k] == was[k]
    {
      if nonce[i] == 255 {
        nonce[i] := 0;
      } else {
        nonce[i] := nonce[i] + 1;
        CarryStops(was, i);
        return;
      }
      i := i + 1;
    }
    CarryStops(was, i);
  }

  /** The carry runs through the leading 255s. */
  lemma {:induction false} CarryStops(s: seq<byte>, i: nat)
    requires i <= |s| && (forall k :: 0 <= k < i ==> s[k] == 255) && (i < |s| ==> s[i] != 255)
    ensures var r := Advanced(s);
            && (forall k :: 0 <= k < i ==> r[k] == 0)
            && (i < |s| ==> r[i] == s[i] + 1)
            && (forall k :: i < k < |s| ==> r[k] == s[k])
  {
    if i > 0 {
      var t, r := Advanced(s[1..]), Advanced(s);
      CarryStops(s[1..], i - 1);
      forall k | 0 < k < |s| ensures r[k] == t[k - 1] && s[k] == s[1..][k - 1] {}
    }
  }

  lemma {:induction false} NumberBound(s: seq<byte>)
    ensures Number(s) < Pow256(|s|)
  {
    if s != [] { NumberBound(s[1..]); }
  }

  lemma NumberOf(first: byte, rest: seq<byte>)
    ensures Number([first] + rest) == first as int + 256 * Number(rest)
  {
    assert ([first] + rest)[1..] == rest;
  }

  /** Advancing adds one and wraps at 256^n. */
  lemma {:induction false} AdvanceIsIncrement(s: seq<byte>)
    ensures Number(Advanced(s)) == if Number(s) + 1 == Pow256(|s|) then 0 else Number(s) + 1
  {
    if s != [] {
      NumberBound(s[1..]);
      if s[0] == 255 {
        AdvanceIsIncrement(s[1..]);
        NumberOf(0, Advanced(s[1..]));
      } else {
        NumberOf(s[0] + 1, s[1..]);
      }
    }
  }

  lemma {:induction false} NumberIsFaithful(s: seq<byte>, t: seq<byte>)
    requires |s| == |t| && Number(s) == Number(t)
    ensures s == t
  {
    if s != [] {
      assert s[0] == t[0];
      NumberIsFaithful(s[1..], t[1..]);
      assert s == [s[0]] + s[1..] && t == [t[0]] + t[1..];
    }
  }

  /** The nonce after `k` calls. */
  function After(s: seq<byte>, k: nat): (r: seq<byte>)
    ensures |r| == |s|
  {
    if k == 0 then s else Advanced(After(s, k - 1))
  }

  lemma {:induction false} AfterCounts(s: seq<byte>, k: nat)
    ensures exists turns: nat :: Number(s) + k == Number(After(s, k)) + turns * Pow256(|s|)
  {
    var m := Pow256(|s|);
    if k == 0 {
      assert Number(s) + k == Number(After(s, k)) + 0 * m;
    } else {
      AfterCounts(s, k - 1);
      var turns: nat :| Number(s) + (k - 1) == Number(After(s, k - 1)) + turns * m;
      AdvanceIsIncrement(After(s, k - 1));
      if Number(After(s, k - 1)) + 1 == m {
        assert (turns + 1) * m == turns * m + m;
        assert Number(s) + k == Number(After(s, k)) + (turns + 1) * m;
      } else {
        assert Number(s) + k == Number(After(s, k)) + turns * m;
      }
    }
  }

  lemma {:induction false} OneTurnMore(a: nat, b: nat, m: nat)
    requires a > b
    ensures a * m >= b * m + m
  {
    if a > b + 1 {
      OneTurnMore(a - 1, b, m);
    }
    assert a * m == (a - 1) * m + m;
  }

  /** Two numbers below `m` that differ by a multiple of `m` are equal. */
  lemma SameResidue(x: nat, y: nat, m: nat, a: nat, b: nat)
    requires x < m && y < m && x + a * m == y + b * m
    ensures x == y
  {
    if a > b { OneTurnMore(a, b, m); } else if b > a { OneTurnMore(b, a, m); }
  }

  /** Two uses carry the same nonce exactly when a multiple of 256^n calls lies between them: the first 256^n nonces are
      pairwise distinct, and the next one repeats the first. */
  lemma NoncesRepeatOnlyAfterAll(s: seq<byte>, i: nat, j: nat)
    requires i <= j
    ensures After(s, i) == After(s, j) <==> exists turns: nat :: j - i == turns * Pow256(|s|)
  {
    var m := Pow256(|s|);
    AfterCounts(s, i);
    AfterCounts(s, j);
    var a: nat :| Number(s) + i == Number(After(s, i)) + a * m;
    var b: nat :| Number(s) + j == Number(After(s, j)) + b * m;
    if After(s, i) == After(s, j) {
      if b < a {
        OneTurnMore(a, b, m);
        assert false;
      }
      assert j - i == (b - a) * m;
    }
    if turns: nat :| j - i == turns * m {
      NumberBound(After(s, i));
      NumberBound(After(s, j));
      assert (a + turns) * m == a * m + turns * m;
      SameResidue(Number(After(s, i)), Number(After(s, j)), m, a + turns, b);
      NumberIsFaithful(After(s, i), After(s, j));
    }
  }

  /** The first 256^n nonces are pairwise distinct. */
  lemma NoncesAreDistinct(s: seq<byte>, i: nat, j: nat)
    requires i < j && j - i < Pow256(|s|)
    ensures After(s, i) != After(s, j)
  {
    NoncesRepeatOnlyAfterAll(s, i, j);
    if turns: nat :| j - i == turns * Pow256(|s|) {
      if turns > 0 { OneTurnMore(turns, 0, Pow256(|s|)); }
    }
  }
}
