/** Byte strings and their order.

    Keys are compared as Rust compares byte slices: lexicographically, a proper prefix being smaller
    than its extensions.  `Rank` embeds that order into the real line, so that bounds between keys
    become plain inequalities; `KeyLess` is the comparison the code runs, and its contract is the
    equivalence of the two. */
module Bytes {
  type byte = x: int | 0 <= x < 256

  type Key = seq<byte>

  /** The position of a key on the real line, in [0, 1). */
  ghost function Rank(k: Key): (r: real)
    ensures 0.0 <= r < 1.0
    ensures k == [] <==> r == 0.0
  {
    if k == [] then 0.0 else (k[0] as real + 1.0 + Rank(k[1..])) / 257.0
  }

  /** Lexicographic comparison of byte slices. */
  predicate KeyLess(a: Key, b: Key)
    ensures KeyLess(a, b) <==> Rank(a) < Rank(b)
  {
    if b == [] then false
    else if a == [] then true
    else if a[0] != b[0] then a[0] < b[0]
    else KeyLess(a[1..], b[1..])
  }

  /** Byte by byte: `a` ends where `b` goes on, or has the smaller byte at the first place where they differ. */
  ghost predicate BytesBelow(a: Key, b: Key) {
    exists i :: DifferAt(a, b, i)
  }

  ghost predicate DifferAt(a: Key, b: Key, i: nat) {
    i <= |a| && i < |b| && a[..i] == b[..i] && (i < |a| ==> a[i] < b[i])
  }

  lemma {:induction false} KeyLessMeans(a: Key, b: Key)
    ensures KeyLess(a, b) <==> BytesBelow(a, b)
  {
    hide Rank;
    if b == [] || a == [] || a[0] != b[0] {
      assert b != [] && (a == [] || a[0] < b[0]) ==> DifferAt(a, b, 0);
    } else {
      KeyLessMeans(a[1..], b[1..]);
      if i: nat :| DifferAt(a[1..], b[1..], i) {
        assert a[..1 + i] == [a[0]] + a[1..][..i] && b[..1 + i] == [b[0]] + b[1..][..i];
        assert DifferAt(a, b, 1 + i);
      }
      if i: nat :| DifferAt(a, b, i) {
        assert i > 0 && a[1..][..i - 1] == a[..i][1..] && b[1..][..i - 1] == b[..i][1..];
        assert DifferAt(a[1..], b[1..], i - 1);
      }
    }
  }

  lemma {:induction false} RankInjective(a: Key, b: Key)
    ensures Rank(a) == Rank(b) <==> a == b
  {
    if a != [] && b != [] {
      RankInjective(a[1..], b[1..]);
      if Rank(a) == Rank(b) {
        assert a[0] as real - b[0] as real == Rank(b[1..]) - Rank(a[1..]);
        assert a[0] == b[0];
        assert a == [a[0]] + a[1..] && b == [b[0]] + b[1..];
      }
    }
  }

  /** Every extension of `p` comes after `p` and before every larger key that does not extend it. */
  lemma {:induction false} PrefixRange(p: Key, k: Key, z: Key)
    requires p <= k
    ensures Rank(p) <= Rank(k)
    ensures !(p <= z) && Rank(p) <= Rank(z) ==> Rank(k) < Rank(z)
  {
    if p != [] {
      assert k[0] == p[0] && p[1..] <= k[1..];
      if z != [] {
        PrefixRange(p[1..], k[1..], z[1..]);
        if z[0] == p[0] && p[1..] <= z[1..] {
          assert p == [p[0]] + p[1..] && z == [z[0]] + z[1..];
          assert p <= z;
        }
      } else {
        PrefixRange(p[1..], k[1..], []);
      }
    }
  }
}
