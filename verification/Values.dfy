/** SQL values, their order, and their encoding as keys. */
module Values {
  import opened Bytes

  type i64 = x: int | -0x8000_0000_0000_0000 <= x < 0x8000_0000_0000_0000

  /** Text is its UTF-8 bytes, which order strings as the strings themselves are ordered. */
  datatype Value = Integer(i: i64) | Text(s: seq<byte>) | Boolean(b: bool) | Json(j: seq<byte>) | Null

  datatype Ordering = Less | Equal | Greater

  /** Values that may be compared: anything else makes the comparison panic. */
  predicate Comparable(a: Value, b: Value) {
    match (a, b)
    case (Integer(_), Integer(_)) => true
    case (Text(_), Text(_)) => true
    case (Boolean(_), Boolean(_)) => true
    case (Json(_), Json(_)) => true
    case _ => false
  }

  function CompareBytes(a: seq<byte>, b: seq<byte>): Ordering {
    if KeyLess(a, b) then Less else if KeyLess(b, a) then Greater else Equal
  }

  function SqlCmp(a: Value, b: Value): Ordering
    requires Comparable(a, b)
  {
    match a
    case Integer(x) => if x < b.i then Less else if x > b.i then Greater else Equal
    case Text(x) => CompareBytes(x, b.s)
    case Boolean(x) => if x == b.b then Equal else if b.b then Less else Greater
    case Json(x) => CompareBytes(x, b.j)
  }

  // ----- Encoding

  function Pow256(n: nat): (p: nat)
    ensures p > 0
  {
    if n == 0 then 1 else 256 * Pow256(n - 1)
  }

  /** The `n` low-order bytes of a number, most significant first. */
  function BigEndian(v: nat, n: nat): (r: seq<byte>)
    requires v < Pow256(n)
    ensures |r| == n
  {
    if n == 0 then [] else
      DigitBound(v, n);
      [v / Pow256(n - 1)] + BigEndian(v % Pow256(n - 1), n - 1)
  }

  lemma DigitBound(v: nat, n: nat)
    requires n > 0 && v < Pow256(n)
    ensures 0 <= v / Pow256(n - 1) < 256
  {
    var p := Pow256(n - 1);
    assert v == v / p * p + v % p;
    if v / p >= 256 {
      Product(256, v / p, p);
    }
  }

  lemma Product(a: nat, b: nat, p: nat)
    requires a <= b
    ensures a * p <= b * p
  {
  }

  /** The number that bytes spell, most significant first. */
  function FromBigEndian(b: seq<byte>): (v: nat)
    ensures v < Pow256(|b|)
  {
    if b == [] then 0 else
      var v := FromBigEndian(b[1..]);
      assert b[0] as int * Pow256(|b| - 1) + v < Pow256(|b|) by { Product(b[0] as int + 1, 256, Pow256(|b| - 1)); }
      b[0] as int * Pow256(|b| - 1) + v
  }

  /** Fixed-width big-endian bytes are ordered as the numbers are. */
  lemma {:induction false} BigEndianOrder(a: nat, b: nat, n: nat)
    requires a < Pow256(n) && b < Pow256(n)
    ensures KeyLess(BigEndian(a, n), BigEndian(b, n)) <==> a < b
    ensures BigEndian(a, n) == BigEndian(b, n) <==> a == b
  {
    hide Rank, KeyLess;
    if n > 0 {
      var p := Pow256(n - 1);
      DigitBound(a, n);
      DigitBound(b, n);
      BigEndianOrder(a % p, b % p, n - 1);
      DigitOrder(a, b, p);
      DigitOrder(b, a, p);
      LeadingDigit(a / p, BigEndian(a % p, n - 1), b / p, BigEndian(b % p, n - 1));
    }
  }

  lemma LeadingDigit(x: byte, s: seq<byte>, y: byte, t: seq<byte>)
    ensures KeyLess([x] + s, [y] + t) <==> x < y || (x == y && KeyLess(s, t))
    ensures [x] + s == [y] + t <==> x == y && s == t
  {
    assert ([x] + s)[1..] == s && ([y] + t)[1..] == t;
    assert ([x] + s)[0] == x && ([y] + t)[0] == y;
  }

  lemma DigitOrder(a: nat, b: nat, p: nat)
    requires p > 0
    ensures a / p < b / p ==> a < b
    ensures a / p == b / p ==> (a < b <==> a % p < b % p) && (a == b <==> a % p == b % p)
  {
    assert a == a / p * p + a % p && b == b / p * p + b % p;
    if a / p < b / p {
      Product(a / p + 1, b / p, p);
      assert (a / p + 1) * p == a / p * p + p;
    }
  }

  lemma Pow256Of8()
    ensures Pow256(8) == 0x1_0000_0000_0000_0000
  {
    assert Pow256(4) == 0x1_0000_0000;
  }

  /** The sign bit is flipped, so that negative numbers come first. */
  function EncodeKey(v: Value): seq<byte>
    requires v != Null
  {
    match v
    case Integer(i) =>
      Pow256Of8();
      BigEndian(i + 0x8000_0000_0000_0000, 8)
    case Text(s) => s + [0]
    case Boolean(b) => [if b then 1 else 0]
    case Json(s) => s + [0]
  }

  /** Text that holds a zero byte cannot be told from its encoding, and is refused on insertion. */
  predicate Encodable(v: Value) {
    match v
    case Text(s) => 0 !in s
    case Json(s) => 0 !in s
    case Null => false
    case _ => true
  }

  lemma {:induction false} TextOrder(a: seq<byte>, b: seq<byte>)
    requires 0 !in a && 0 !in b
    ensures KeyLess(a + [0], b + [0]) <==> KeyLess(a, b)
    ensures a + [0] <= b + [0] ==> a == b
  {
    hide Rank;
    if a == [] || b == [] {
      if b != [] {
        assert (b + [0])[0] == b[0] != 0;
      }
      if a != [] {
        assert (a + [0])[0] == a[0] != 0;
      }
      assert [0][1..] == [];
    } else {
      assert (a + [0])[1..] == a[1..] + [0] && (b + [0])[1..] == b[1..] + [0];
      TextOrder(a[1..], b[1..]);
      if a + [0] <= b + [0] {
        assert (a + [0])[0] == (b + [0])[0];
        assert (a + [0])[1..] <= (b + [0])[1..];
        assert a == [a[0]] + a[1..] && b == [b[0]] + b[1..];
      }
    }
  }

  /** Byte order of the encodings is the order of the values. */
  lemma EncodeKeyOrder(a: Value, b: Value)
    requires Comparable(a, b) && Encodable(a) && Encodable(b)
    ensures SqlCmp(a, b) == CompareBytes(EncodeKey(a), EncodeKey(b))
  {
    hide Rank, BigEndian;
    match (a, b) {
      case (Integer(x), Integer(y)) =>
        Pow256Of8();
        BigEndianOrder(x + 0x8000_0000_0000_0000, y + 0x8000_0000_0000_0000, 8);
        BigEndianOrder(y + 0x8000_0000_0000_0000, x + 0x8000_0000_0000_0000, 8);
      case (Text(x), Text(y)) =>
        TextOrder(x, y);
        TextOrder(y, x);
      case (Json(x), Json(y)) =>
        TextOrder(x, y);
        TextOrder(y, x);
      case (Boolean(x), Boolean(y)) =>
    }
  }

  /** No encoding is a prefix of the encoding of another value of its type. */
  lemma EncodeKeyPrefixFree(a: Value, b: Value)
    requires Comparable(a, b) && Encodable(a) && Encodable(b)
    ensures EncodeKey(a) <= EncodeKey(b) ==> a == b
  {
    hide Rank, BigEndian, KeyLess;
    match (a, b) {
      case (Integer(x), Integer(y)) =>
        Pow256Of8();
        BigEndianOrder(x + 0x8000_0000_0000_0000, y + 0x8000_0000_0000_0000, 8);
      case (Text(x), Text(y)) => TextOrder(x, y);
      case (Json(x), Json(y)) => TextOrder(x, y);
      case (Boolean(x), Boolean(y)) =>
        assert EncodeKey(a) <= EncodeKey(b) ==> EncodeKey(a)[0] == EncodeKey(b)[0];
    }
  }

  lemma SameKey(a: Value, b: Value)
    requires Comparable(a, b)
    ensures EncodeKey(a) == EncodeKey(b) <==> a == b
  {
    hide Rank, BigEndian;
    match (a, b) {
      case (Integer(x), Integer(y)) =>
        Pow256Of8();
        BigEndianOrder(x + 0x8000_0000_0000_0000, y + 0x8000_0000_0000_0000, 8);
      case (Text(x), Text(y)) => assert (x + [0])[..|x|] == x && (y + [0])[..|y|] == y;
      case (Json(x), Json(y)) => assert (x + [0])[..|x|] == x && (y + [0])[..|y|] == y;
      case (Boolean(x), Boolean(y)) =>
        assert EncodeKey(a) == EncodeKey(b) ==> EncodeKey(a)[0] == EncodeKey(b)[0];
    }
  }

  lemma SqlCmpEqual(a: Value, b: Value)
    requires Comparable(a, b)
    ensures SqlCmp(a, b) == Equal <==> a == b
  {
    hide Rank;
    match (a, b) {
      case (Text(x), Text(y)) => RankInjective(x, y);
      case (Json(x), Json(y)) => RankInjective(x, y);
      case _ =>
    }
  }

  function EncodeCompositeKey(parts: seq<Value>): seq<byte>
    requires forall i :: 0 <= i < |parts| ==> parts[i] != Null
  {
    if parts == [] then [] else EncodeKey(parts[0]) + EncodeCompositeKey(parts[1..])
  }

  /** Encodings of two columns: the first decides, then the second; and the first can be read off. */
  lemma CompositePrefix(a: Value, rest: seq<byte>, b: Value)
    requires Comparable(a, b) && Encodable(a) && Encodable(b)
    ensures EncodeKey(b) <= EncodeKey(a) + rest <==> a == b
  {
    hide EncodeKey;
    var x, y := EncodeKey(a), EncodeKey(b);
    if y <= x + rest {
      if |y| <= |x| {
        assert y <= x by { assert forall i :: 0 <= i < |y| ==> y[i] == (x + rest)[i] == x[i]; }
        EncodeKeyPrefixFree(b, a);
      } else {
        assert x <= y by { assert forall i :: 0 <= i < |x| ==> y[i] == (x + rest)[i] == x[i]; }
        EncodeKeyPrefixFree(a, b);
      }
    }
  }

  /** Without the check for zero bytes, one text's encoding could begin another's: exactly when the one, ended by a
      zero byte, begins the other. */
  lemma ZeroEnded(s: seq<byte>, t: seq<byte>)
    ensures EncodeKey(Text(s)) <= EncodeKey(Text(t)) <==> s == t || s + [0] <= t
  {
    var a, b := s + [0], t + [0];
    if a <= b {
      if |s| == |t| {
        assert s == a[..|s|] == b[..|s|] == t;
      } else {
        assert a == b[..|a|] == t[..|a|];
      }
    }
    if s + [0] <= t {
      assert a == t[..|a|] == b[..|a|];
    }
  }
}
