/** Literals of another type than the column they are sought in: which of them a seek takes for values of the column. */
module Mistyped {
  import opened Bytes
  import opened Values
  import opened Rows

  /** The types of value that literals have. */
  predicate IsLiteral(v: Value) {
    v.Integer? || v.Text? || v.Boolean?
  }

  /** Text and JSON end in a zero byte; the other types have a fixed width. */
  predicate ZeroEnds(ty: ColumnType) {
    ty.TextType? || ty.JsonType?
  }

  predicate OneZero(b: seq<byte>, at: nat) {
    at < |b| && b[at] == 0 && 0 !in b[..at] && 0 !in b[at + 1..]
  }

  /** The literal's encoding is also that of another value, one of the column's type. */
  predicate Clashes(v: Value, ty: ColumnType)
    requires IsLiteral(v)
  {
    match (v, ty)
    case (Text(s), IntegerType) => |s| == 7
    case (Text(s), BooleanType) => s == []
    case (Text(s), JsonType) => 0 !in s && |s| <= MAX_TEXT
    case (Integer(_), TextType) => OneZero(EncodeKey(v), 7)
    case (Integer(_), JsonType) => OneZero(EncodeKey(v), 7)
    case (Boolean(b), TextType) => !b
    case (Boolean(b), JsonType) => !b
    case _ => false
  }

  ghost predicate Confused(v: Value, ty: ColumnType, w: Value)
    requires v != Null
  {
    Typed(w, ty) && Encodable(w) && EncodeKey(w) == EncodeKey(v) && w != v
  }

  /** The text that bytes up to a zero byte spell. */
  function Spelled(ty: ColumnType, s: seq<byte>): (w: Value)
    requires ZeroEnds(ty)
    ensures w != Null && EncodeKey(w) == s + [0]
    ensures |s| <= MAX_TEXT && 0 !in s ==> Typed(w, ty) && Encodable(w)
  {
    if ty.TextType? then Text(s) else Json(s)
  }

  /** The number that eight bytes spell. */
  function Numbered(b: seq<byte>): (w: Value)
    requires |b| == 8
    ensures w.Integer? && EncodeKey(w) == b
  {
    Pow256Of8();
    BigEndianSpells(b);
    Integer(FromBigEndian(b) - 0x8000_0000_0000_0000)
  }

  lemma {:induction false} BigEndianSpells(b: seq<byte>)
    ensures BigEndian(FromBigEndian(b), |b|) == b
  {
    if b != [] {
      BigEndianSpells(b[1..]);
      Divided(b[0] as int, Pow256(|b| - 1), FromBigEndian(b[1..]));
    }
  }

  lemma Divided(d: nat, p: nat, r: nat)
    requires r < p
    ensures (d * p + r) / p == d && (d * p + r) % p == r
  {
    var n := d * p + r;
    var q, m := n / p, n % p;
    assert n == q * p + m;
    assert (q + 1) * p == q * p + p && (d + 1) * p == d * p + p;
    if q < d {
      Product(q + 1, d, p);
    } else if q > d {
      Product(d + 1, q, p);
    }
  }

  /** Exactly these literals clash. */
  lemma ClashesExactly(v: Value, ty: ColumnType)
    requires IsLiteral(v)
    ensures Clashes(v, ty) <==> exists w :: Confused(v, ty, w)
  {
    hide BigEndian, FromBigEndian;
    if Clashes(v, ty) {
      var w := Confusing(v, ty);
    }
    if w :| Confused(v, ty, w) {
      ConfusedClashes(v, ty, w);
    }
  }

  lemma Confusing(v: Value, ty: ColumnType) returns (w: Value)
    requires IsLiteral(v) && Clashes(v, ty)
    ensures Confused(v, ty, w)
  {
    hide BigEndian, FromBigEndian;
    var b := EncodeKey(v);
    if ty.IntegerType? {
      w := Numbered(b);
    } else if ty.BooleanType? {
      w := Boolean(false);
    } else {
      w := Spelled(ty, b[..|b| - 1]);
    }
  }

  lemma ConfusedClashes(v: Value, ty: ColumnType, w: Value)
    requires IsLiteral(v) && Confused(v, ty, w)
    ensures Clashes(v, ty)
  {
    hide BigEndian, FromBigEndian;
    var b := EncodeKey(v);
    if Comparable(v, w) {
      SameKey(v, w);
    } else {
      match (v, w) {
        case (Text(s), Json(t)) => assert s == b[..|s|] == t;
        case (Integer(_), Text(t)) => assert b[..7] == t && b[7] == 0;
        case (Integer(_), Json(t)) => assert b[..7] == t && b[7] == 0;
        case (Text(s), Boolean(_)) => assert |b| == 1 && b[|s|] == 0;
        case (Boolean(_), Text(t)) => assert |b| == 1 && b[|t|] == 0;
        case (Boolean(_), Json(t)) => assert |b| == 1 && b[|t|] == 0;
        case _ =>
      }
    }
  }

  // ----- In an index, whose keys go on with the primary key

  /** The literal's encoding begins the index key of a row with another value, and what is left there is the primary
      key of a row. */
  predicate Strays(v: Value, ty: ColumnType, pk: ColumnType)
    requires IsLiteral(v)
  {
    || Clashes(v, ty)
    || (ZeroEnds(pk) &&
        match (v, ty)
        case (Text(s), IntegerType) => |s| < 7
        case (Boolean(_), IntegerType) => true
        case (Integer(_), BooleanType) => EncodeKey(v)[0] <= 1 && 0 !in EncodeKey(v)[1..]
        case (Integer(_), TextType) => exists at :: 0 <= at < 8 && OneZero(EncodeKey(v), at)
        case (Integer(_), JsonType) => exists at :: 0 <= at < 8 && OneZero(EncodeKey(v), at)
        case _ => false)
  }

  /** Column value `u` and primary key `w` make an index key in which the literal is followed by primary key `x`. */
  ghost predicate Strayed(v: Value, ty: ColumnType, pk: ColumnType, u: Value, w: Value, x: Value)
    requires v != Null
  {
    && Typed(u, ty) && Typed(w, pk) && Typed(x, pk) && Encodable(u) && Encodable(w) && Encodable(x)
    && !Comparable(u, v) && EncodeKey(v) + EncodeKey(x) == EncodeKey(u) + EncodeKey(w)
  }

  /** Exactly these literals stray. */
  lemma StraysExactly(v: Value, ty: ColumnType, pk: ColumnType)
    requires IsLiteral(v)
    ensures Strays(v, ty, pk) <==> exists u, w, x :: Strayed(v, ty, pk, u, w, x)
  {
    hide BigEndian, Strays, Strayed;
    if Strays(v, ty, pk) {
      var u, w, x := Straying(v, ty, pk);
    }
    if u, w, x :| Strayed(v, ty, pk, u, w, x) {
      StrayedStrays(v, ty, pk, u, w, x);
    }
  }

  function Plain(ty: ColumnType): (w: Value)
    ensures Typed(w, ty) && Encodable(w)
  {
    match ty
    case IntegerType => Integer(0)
    case TextType => Text([])
    case BooleanType => Boolean(false)
    case JsonType => Json([])
  }

  lemma Straying(v: Value, ty: ColumnType, pk: ColumnType) returns (u: Value, w: Value, x: Value)
    requires IsLiteral(v) && Strays(v, ty, pk)
    ensures Strayed(v, ty, pk, u, w, x)
  {
    hide BigEndian, FromBigEndian;
    var a := EncodeKey(v);
    if Clashes(v, ty) {
      u := Confusing(v, ty);
      w, x := Plain(pk), Plain(pk);
      NotComparable(v, ty, u);
    } else if ty.IntegerType? {
      var r := seq(8 - |a|, _ => 1);
      u, w, x := Numbered(a + r), Spelled(pk, []), Spelled(pk, r);
      assert a + (r + [0]) == (a + r) + ([] + [0]);
    } else {
      var at := if ty.BooleanType? then 0 else var at :| 0 <= at < 8 && OneZero(a, at); at;
      var r := a[at + 1..];
      u := if ty.BooleanType? then Boolean(a[0] == 1) else Spelled(ty, a[..at]);
      w, x := Spelled(pk, r), Spelled(pk, []);
      assert EncodeKey(u) == a[..at + 1];
      assert a == a[..at + 1] + r;
      assert a + ([] + [0]) == a[..at + 1] + (r + [0]);
    }
  }

  lemma NotComparable(v: Value, ty: ColumnType, w: Value)
    requires IsLiteral(v) && Confused(v, ty, w)
    ensures !Comparable(w, v)
  {
    hide EncodeKey;
    if Comparable(w, v) {
      SameKey(w, v);
    }
  }

  lemma StrayedStrays(v: Value, ty: ColumnType, pk: ColumnType, u: Value, w: Value, x: Value)
    requires IsLiteral(v) && Strayed(v, ty, pk, u, w, x)
    ensures Strays(v, ty, pk)
  {
    hide EncodeKey, Clashes, OneZero;
    var a, b, x', w' := EncodeKey(v), EncodeKey(u), EncodeKey(x), EncodeKey(w);
    if |a| <= |b| {
      var r := b[|a|..];
      Overlap(a, x', b, w');
      if r == [] {
        assert Confused(v, ty, u);
        ConfusedClashes(v, ty, u);
      } else {
        BetweenKeys(pk, x, w, r);
        ShorterStrays(v, ty, u, r);
      }
    } else {
      var r := a[|b|..];
      Overlap(b, w', a, x');
      BetweenKeys(pk, w, x, r);
      LongerStrays(v, ty, u, r);
    }
  }

  lemma Overlap(a: seq<byte>, x: seq<byte>, b: seq<byte>, y: seq<byte>)
    requires a + x == b + y && |a| <= |b|
    ensures b == a + b[|a|..] && x == b[|a|..] + y
  {
    var m := a + x;
    assert a == m[..|a|] == b[..|a|];
    assert x == m[|a|..] == (b + y)[|a|..];
  }

  /** Bytes in front of a key make another one only where keys are text, and none of them is zero. */
  lemma BetweenKeys(ty: ColumnType, w: Value, x: Value, r: seq<byte>)
    requires Typed(w, ty) && Typed(x, ty) && Encodable(w) && Encodable(x) && r != []
    requires EncodeKey(w) == r + EncodeKey(x)
    ensures ZeroEnds(ty) && 0 !in r
  {
    hide BigEndian;
    assert |EncodeKey(w)| == |r| + |EncodeKey(x)|;
    var n := |EncodeKey(w)| - 1;
    forall i | 0 <= i < |r| ensures r[i] == EncodeKey(w)[i] && i < n {
    }
  }

  lemma ShorterStrays(v: Value, ty: ColumnType, u: Value, r: seq<byte>)
    requires IsLiteral(v) && Typed(u, ty) && Encodable(u) && !Comparable(u, v)
    requires EncodeKey(u) == EncodeKey(v) + r && r != [] && 0 !in r
    ensures ty.IntegerType? && (v.Text? ==> |v.s| < 7)
  {
    hide BigEndian;
    var b := EncodeKey(u);
    assert b[|b| - 1] == r[|r| - 1] && r[|r| - 1] in r;
  }

  lemma LongerStrays(v: Value, ty: ColumnType, u: Value, r: seq<byte>)
    requires IsLiteral(v) && Typed(u, ty) && Encodable(u) && !Comparable(u, v)
    requires EncodeKey(v) == EncodeKey(u) + r && r != [] && 0 !in r
    ensures v.Integer?
    ensures ty.BooleanType? ==> EncodeKey(v)[0] <= 1 && 0 !in EncodeKey(v)[1..]
    ensures ZeroEnds(ty) ==> exists at :: 0 <= at < 8 && OneZero(EncodeKey(v), at)
  {
    hide BigEndian;
    var a, b := EncodeKey(v), EncodeKey(u);
    assert a[|a| - 1] == r[|r| - 1] && r[|r| - 1] in r;
    assert a[|b|..] == r && a[..|b|] == b;
    if ZeroEnds(ty) {
      var at := |b| - 1;
      assert a[..at] == b[..at] == (if ty.TextType? then u.s else u.j);
      assert OneZero(a, at);
    }
  }
}
