/** What operators yield, as sequences of rows. */
module Streams {
  import opened Bytes
  import opened Storage
  import opened Values
  import opened Rows
  import opened Exprs

  /** Rows, and then the end, or an error. */
  datatype Stream = Stream(rows: seq<Row>, error: Option<PlanError>)

  // ----- Filtering

  function FilterStream(s: Stream, columns: seq<Column>, where: Expr, who: Caller): Stream
    decreases |s.rows|
  {
    if s.rows == [] then s else
      var v := Eval(where, columns, s.rows[0], who);
      if v.Err? then Stream([], Some(v.e)) else
        var rest := FilterStream(Stream(s.rows[1..], s.error), columns, where, who);
        if IsTruthy(v.v) then Stream([s.rows[0]] + rest.rows, rest.error) else rest
  }

  lemma FilterStep(s: Stream, columns: seq<Column>, where: Expr, who: Caller)
    ensures s.rows == [] ==> FilterStream(s, columns, where, who) == s
    ensures s.rows != [] ==>
              var v, rest :=
                  Eval(where, columns, s.rows[0], who), FilterStream(Stream(s.rows[1..], s.error), columns, where, who);
              FilterStream(s, columns, where, who)
              == (if v.Err? then Stream([], Some(v.e)) else if IsTruthy(v.v) then Then([s.rows[0]], rest) else rest)
  {
  }

  /** The rows that a clause lets through. */
  function Where(rows: seq<Row>, columns: seq<Column>, where: Expr, who: Caller): (r: seq<Row>)
    ensures forall row :: row in r <==> row in rows && Truthy(where, columns, row, who)
  {
    if rows == [] then [] else
      (if Truthy(where, columns, rows[0], who) then [rows[0]] else []) + Where(rows[1..], columns, where, who)
  }

  /** The clause is true of the row; if it is a comparison, both sides have values that are not NULL and stand in the
      relation. */
  ghost predicate LetThrough(where: Expr, columns: seq<Column>, row: Row, who: Caller) {
    && Eval(where, columns, row, who) == Val(Boolean(true))
    && (where.BinaryOp? && IsComparison(where.op) ==>
          var l, r := Eval(where.left, columns, row, who), Eval(where.right, columns, row, who);
          l.Val? && r.Val? && l.v != Null && r.v != Null && Related(where.op, l.v, r.v))
  }

  lemma ThroughMeans(where: Expr, columns: seq<Column>, row: Row, who: Caller)
    ensures Truthy(where, columns, row, who) <==> LetThrough(where, columns, row, who)
  {
    hide Related, Compare;
    if where.BinaryOp? && IsComparison(where.op) {
      var l, r := Eval(where.left, columns, row, who), Eval(where.right, columns, row, who);
      if l.Val? && r.Val? {
        ComparisonMeans(where.op, where.left, where.right, columns, row, who, l.v, r.v);
      }
    }
  }

  /** Without errors, filtering selects. */
  lemma {:induction false} FilterSelects(rows: seq<Row>, columns: seq<Column>, where: Expr, who: Caller)
    requires forall i :: 0 <= i < |rows| ==> Evaluates(where, columns, rows[i], who)
    ensures FilterStream(Stream(rows, None), columns, where, who) == Stream(Where(rows, columns, where, who), None)
  {
    if rows != [] {
      FilterSelects(rows[1..], columns, where, who);
    }
  }

  // ----- Joins

  datatype JoinType = Inner | Left | Right | Cross

  /** Some rows, and then a stream. */
  function Then(rows: seq<Row>, s: Stream): Stream {
    Stream(rows + s.rows, s.error)
  }

  /** Two rows match. */
  predicate Matches(l: Row, r: Row, condition: Option<Expr>, columns: seq<Column>) {
    condition.None? || Truthy(condition.value, columns, l + r, ANONYMOUS)
  }

  /** The condition compares values that cannot be compared.  Its other errors count as no match. */
  predicate Panics(l: Row, r: Row, condition: Option<Expr>, columns: seq<Column>) {
    condition.Some? && Eval(condition.value, columns, l + r, ANONYMOUS) == Err(Panic)
  }

  /** The combinations of one left row with the right rows that match it, in their order. */
  function MatchesOf(l: Row, rights: seq<Row>, condition: Option<Expr>, columns: seq<Column>): Stream {
    if rights == [] then Stream([], None)
    else if Panics(l, rights[0], condition, columns) then Stream([], Some(Panic))
    else
      Then(if Matches(l, rights[0], condition, columns) then [l + rights[0]] else [],
           MatchesOf(l, rights[1..], condition, columns))
  }

  function Nulls(n: nat): (r: Row)
    ensures |r| == n
  {
    seq(n, _ => Null)
  }

  /** What one left row contributes. */
  function JoinRow(l: Row, rights: seq<Row>, ty: JoinType, condition: Option<Expr>, columns: seq<Column>,
                   width: nat): Stream {
    var ms := MatchesOf(l, rights, condition, columns);
    if ms == Stream([], None) && ty.Left? then Stream([l + Nulls(width)], None) else ms
  }

  function JoinLefts(lefts: Stream, rights: seq<Row>, ty: JoinType, condition: Option<Expr>, columns: seq<Column>,
                     width: nat): Stream
    decreases |lefts.rows|
  {
    if lefts.rows == [] then lefts else
      var head := JoinRow(lefts.rows[0], rights, ty, condition, columns, width);
      if head.error.Some? then head else
        Then(head.rows, JoinLefts(Stream(lefts.rows[1..], lefts.error), rights, ty, condition, columns, width))
  }

  /** The right side is read to its end before the first row is yielded. */
  function JoinStream(left: Stream, right: Stream, ty: JoinType, condition: Option<Expr>, columns: seq<Column>,
                      width: nat): Stream {
    if right.error.Some? then Stream([], right.error)
    else JoinLefts(left, right.rows, ty, condition, columns, width)
  }

  /** What is still to come when the join is at right row `cursor` for a left row, which has matched before or not. */
  function JoinFrom(current: Option<Row>, cursor: nat, matched: bool, lefts: Stream, rights: seq<Row>, ty: JoinType,
                    condition: Option<Expr>, columns: seq<Column>, width: nat): Stream
    requires current.Some? ==> cursor <= |rights|
  {
    var others := JoinLefts(lefts, rights, ty, condition, columns, width);
    if current.None? then others else
      var ms := MatchesOf(current.value, rights[cursor..], condition, columns);
      if ms.error.Some? then ms
      else if ms.rows == [] && ty.Left? && !matched then Then([current.value + Nulls(width)], others)
      else Then(ms.rows, others)
  }

  lemma RightRead(left: Stream, right: Stream, cursor: nat, matched: bool, ty: JoinType, condition: Option<Expr>,
                  columns: seq<Column>, width: nat)
    ensures JoinStream(left, right, ty, condition, columns, width)
         == if right.error.Some? then Stream([], right.error)
            else JoinFrom(None, cursor, matched, left, right.rows, ty, condition, columns, width)
  {
  }

  lemma JoinPulled(cursor: nat, matched: bool, lefts: Stream, rights: seq<Row>, ty: JoinType, condition: Option<Expr>,
                   columns: seq<Column>, width: nat)
    ensures JoinFrom(None, cursor, matched, lefts, rights, ty, condition, columns, width)
         == if lefts.rows == [] then lefts
            else JoinFrom(Some(lefts.rows[0]), 0, false, Stream(lefts.rows[1..], lefts.error), rights, ty, condition,
              columns, width)
  {
    assert rights[0..] == rights;
  }

  lemma JoinTried(l: Row, cursor: nat, matched: bool, lefts: Stream, rights: seq<Row>, ty: JoinType,
                  condition: Option<Expr>, columns: seq<Column>, width: nat)
    requires cursor < |rights|
    ensures var after :=
            JoinFrom(Some(l), cursor + 1, matched || Matches(l, rights[cursor], condition, columns), lefts, rights, ty,
                                  condition, columns, width);
            JoinFrom(Some(l), cursor, matched, lefts, rights, ty, condition, columns, width)
            == (if Panics(l, rights[cursor], condition, columns) then Stream([], Some(Panic))
                else if Matches(l, rights[cursor], condition, columns) then Then([l + rights[cursor]], after)
                else after)
  {
    assert rights[cursor..][1..] == rights[cursor + 1..];
  }

  lemma JoinTriedAll(l: Row, cursor: nat, matched: bool, lefts: Stream, rights: seq<Row>, ty: JoinType,
                     condition: Option<Expr>, columns: seq<Column>, width: nat)
    requires cursor == |rights|
    ensures var after := JoinFrom(None, cursor, matched, lefts, rights, ty, condition, columns, width);
            JoinFrom(Some(l), cursor, matched, lefts, rights, ty, condition, columns, width)
            == if ty.Left? && !matched then Then([l + Nulls(width)], after) else after
  {
  }

  /** The join as a relation: pairs that match, and with LEFT the left rows that match nothing. */
  lemma {:induction false} JoinMeans(lefts: seq<Row>, rights: seq<Row>, ty: JoinType, condition: Option<Expr>,
                                     columns: seq<Column>, width: nat, row: Row)
    requires JoinLefts(Stream(lefts, None), rights, ty, condition, columns, width).error == None
    ensures row in JoinLefts(Stream(lefts, None), rights, ty, condition, columns, width).rows <==>
              || (exists l, r :: l in lefts && r in rights && row == l + r && Matches(l, r, condition, columns))
              || (ty.Left? && exists l :: l in lefts && row == l + Nulls(width)
                                          && forall r :: r in rights ==> !Matches(l, r, condition, columns))
  {
    if lefts != [] {
      var l := lefts[0];
      JoinMeans(lefts[1..], rights, ty, condition, columns, width, row);
      MatchesMean(l, rights, condition, columns, row);
      NoMatches(l, rights, condition, columns);
      assert lefts == [l] + lefts[1..];
    }
  }

  /** Which pairs match is decided by the condition on the two rows side by side: without one all do, and otherwise
      those of which it is true; on an error other than a panic they do not. */
  lemma JoinEvaluates(lefts: seq<Row>, rights: seq<Row>, ty: JoinType, condition: Option<Expr>, columns: seq<Column>,
                      width: nat, l: Row, r: Row)
    requires JoinLefts(Stream(lefts, None), rights, ty, condition, columns, width).error == None
    requires l in lefts && r in rights
    ensures Matches(l, r, condition, columns)
       <==> condition.None? || Eval(condition.value, columns, l + r, ANONYMOUS) == Val(Boolean(true))
    ensures condition.None? || Eval(condition.value, columns, l + r, ANONYMOUS) == Val(Boolean(true)) ==>
            l + r in JoinLefts(Stream(lefts, None), rights, ty, condition, columns, width).rows
    ensures condition.Some? ==> Eval(condition.value, columns, l + r, ANONYMOUS) != Err(Panic)
  {
    hide Eval, JoinLefts;
    JoinMeans(lefts, rights, ty, condition, columns, width, l + r);
    NoPanic(lefts, rights, ty, condition, columns, width, l, r);
  }

  lemma {:induction false} NoPanic(lefts: seq<Row>, rights: seq<Row>, ty: JoinType, condition: Option<Expr>,
                                   columns: seq<Column>, width: nat, l: Row, r: Row)
    requires JoinLefts(Stream(lefts, None), rights, ty, condition, columns, width).error == None
    requires l in lefts && r in rights
    ensures !Panics(l, r, condition, columns)
  {
    hide Panics, Matches;
    if lefts[0] == l {
      NoPanicWith(l, rights, condition, columns, r);
    } else {
      assert lefts == [lefts[0]] + lefts[1..];
      NoPanic(lefts[1..], rights, ty, condition, columns, width, l, r);
    }
  }

  lemma {:induction false} NoPanicWith(l: Row, rights: seq<Row>, condition: Option<Expr>, columns: seq<Column>, r: Row)
    requires MatchesOf(l, rights, condition, columns).error == None && r in rights
    ensures !Panics(l, r, condition, columns)
  {
    hide Panics, Matches;
    if rights[0] != r {
      assert rights == [rights[0]] + rights[1..];
      NoPanicWith(l, rights[1..], condition, columns, r);
    }
  }

  lemma {:induction false} MatchesMean(l: Row, rights: seq<Row>, condition: Option<Expr>, columns: seq<Column>,
                                       row: Row)
    requires MatchesOf(l, rights, condition, columns).error == None
    ensures row in MatchesOf(l, rights, condition, columns).rows <==>
              exists r :: r in rights && row == l + r && Matches(l, r, condition, columns)
  {
    if rights != [] {
      MatchesMean(l, rights[1..], condition, columns, row);
      assert rights == [rights[0]] + rights[1..];
    }
  }

  lemma {:induction false} NoMatches(l: Row, rights: seq<Row>, condition: Option<Expr>, columns: seq<Column>)
    requires MatchesOf(l, rights, condition, columns).error == None
    ensures MatchesOf(l, rights, condition, columns).rows == []
       <==> forall r :: r in rights ==> !Matches(l, r, condition, columns)
  {
    if rights != [] {
      NoMatches(l, rights[1..], condition, columns);
      assert rights == [rights[0]] + rights[1..];
    }
  }

  /** One list of left rows after another is one join after another. */
  lemma {:induction false} JoinConcat(a: seq<Row>, b: seq<Row>, rights: seq<Row>, ty: JoinType, condition: Option<Expr>,
                                      columns: seq<Column>, width: nat)
    ensures var first, second := JoinLefts(Stream(a, None), rights, ty, condition, columns, width),
                                 JoinLefts(Stream(b, None), rights, ty, condition, columns, width);
            JoinLefts(Stream(a + b, None), rights, ty, condition, columns, width)
            == (if first.error.Some? then first else Then(first.rows, second))
  {
    hide JoinRow;
    if a == [] {
      assert a + b == b;
    } else {
      assert (a + b)[1..] == a[1..] + b;
      JoinConcat(a[1..], b, rights, ty, condition, columns, width);
    }
  }

  /** The operator has no case for RIGHT: it yields what INNER yields. */
  lemma {:induction false} RightIsInner(lefts: Stream, rights: seq<Row>, condition: Option<Expr>, columns: seq<Column>,
                                        width: nat)
    ensures JoinLefts(lefts, rights, Right, condition, columns, width)
            == JoinLefts(lefts, rights, Inner, condition, columns, width)
    decreases |lefts.rows|
  {
    if lefts.rows != [] {
      RightIsInner(Stream(lefts.rows[1..], lefts.error), rights, condition, columns, width);
    }
  }

  /** The rows of a RIGHT join: those of the INNER join, and the right rows that match nothing, padded on the left. */
  ghost predicate InRightJoin(lefts: seq<Row>, rights: seq<Row>, condition: Option<Expr>, columns: seq<Column>,
                              leftWidth: nat, row: Row) {
    || (exists l, r :: l in lefts && r in rights && row == l + r && Matches(l, r, condition, columns))
    || exists r :: r in rights && row == Nulls(leftWidth) + r && !MatchedBy(lefts, r, condition, columns)
  }

  ghost predicate MatchedBy(lefts: seq<Row>, r: Row, condition: Option<Expr>, columns: seq<Column>) {
    exists l :: l in lefts && Matches(l, r, condition, columns)
  }

  lemma SameTail(a: Row, b: Row, a': Row, b': Row)
    requires a + b == a' + b' && |a| == |a'|
    ensures b == b'
  {
    assert b == (a + b)[|a|..];
  }

  /** So it yields the RIGHT join exactly when every right row finds a match. */
  lemma RightExactly(lefts: seq<Row>, rights: seq<Row>, condition: Option<Expr>, columns: seq<Column>, leftWidth: nat,
                     width: nat)
    requires forall l :: l in lefts ==> |l| == leftWidth
    requires JoinLefts(Stream(lefts, None), rights, Right, condition, columns, width).error == None
    ensures var rows := JoinLefts(Stream(lefts, None), rights, Right, condition, columns, width).rows;
            (forall row :: row in rows <==> InRightJoin(lefts, rights, condition, columns, leftWidth, row))
            <==> forall r :: r in rights ==> MatchedBy(lefts, r, condition, columns)
  {
    hide Matches, JoinLefts;
    var rows := JoinLefts(Stream(lefts, None), rights, Right, condition, columns, width).rows;
    forall row
      ensures row in rows <==>
              exists l, r :: l in lefts && r in rights && row == l + r && Matches(l, r, condition, columns) {
      JoinMeans(lefts, rights, Right, condition, columns, width, row);
    }
    if r :| r in rights && !MatchedBy(lefts, r, condition, columns) {
      var row := Nulls(leftWidth) + r;
      assert InRightJoin(lefts, rights, condition, columns, leftWidth, row);
      forall l, r' | l in lefts && row == l + r' ensures r' == r {
        SameTail(l, r', Nulls(leftWidth), r);
      }
      assert row !in rows;
    }
  }

  /** A LEFT join is the INNER join when every left row finds a match, and has a row more for each that does not. */
  function Unmatched(lefts: seq<Row>, rights: seq<Row>, condition: Option<Expr>, columns: seq<Column>): nat {
    if lefts == [] then 0 else
      (if MatchesOf(lefts[0], rights, condition, columns) == Stream([], None) then 1 else 0)
      + Unmatched(lefts[1..], rights, condition, columns)
  }

  lemma {:induction false} LeftCount(lefts: seq<Row>, rights: seq<Row>, condition: Option<Expr>, columns: seq<Column>,
                                     width: nat)
    requires JoinLefts(Stream(lefts, None), rights, Inner, condition, columns, width).error == None
    ensures JoinLefts(Stream(lefts, None), rights, Left, condition, columns, width).error == None
    ensures |JoinLefts(Stream(lefts, None), rights, Left, condition, columns, width).rows|
         == |JoinLefts(Stream(lefts, None), rights, Inner, condition, columns, width).rows|
            + Unmatched(lefts, rights, condition, columns)
  {
    if lefts != [] {
      LeftCount(lefts[1..], rights, condition, columns, width);
    }
  }

  // ----- Key order

  ghost predicate Increasing(keys: seq<Key>) {
    forall i, j :: 0 <= i < j < |keys| ==> Rank(keys[i]) < Rank(keys[j])
  }

  /** There is one way to list a set of keys in order. */
  lemma {:induction false} OneListing(a: seq<Key>, b: seq<Key>)
    requires Increasing(a) && Increasing(b) && forall k :: k in a <==> k in b
    ensures a == b
    decreases |a|
  {
    hide Rank;
    if a == [] || b == [] {
      HasElement(a);
      HasElement(b);
    } else {
      FirstIsLeast(a, b[0]);
      FirstIsLeast(b, a[0]);
      RankInjective(a[0], b[0]);
      forall k ensures k in a[1..] <==> k in b[1..] {
        TailOf(a, k);
        TailOf(b, k);
      }
      OneListing(a[1..], b[1..]);
      assert a == [a[0]] + a[1..] && b == [b[0]] + b[1..];
    }
  }

  lemma HasElement(a: seq<Key>)
    ensures a == [] || exists k :: k in a
  {
    if a != [] {
      assert a[0] in a;
    }
  }

  lemma FirstIsLeast(a: seq<Key>, k: Key)
    requires a != [] && Increasing(a)
    ensures a[0] in a && (k in a ==> Rank(a[0]) <= Rank(k))
  {
    hide Rank;
  }

  lemma TailOf(a: seq<Key>, k: Key)
    requires a != [] && Increasing(a)
    ensures k in a[1..] <==> k in a && k != a[0]
  {
    hide Rank;
    assert a == [a[0]] + a[1..];
    if k in a[1..] {
      var i :| 1 <= i < |a| && a[i] == k;
      assert Rank(a[0]) < Rank(a[i]);
    }
  }

  function RowsAt(keys: seq<Key>, rows: map<Key, Row>): (r: seq<Row>)
    requires forall i :: 0 <= i < |keys| ==> keys[i] in rows
    ensures |r| == |keys| && forall i :: 0 <= i < |r| ==> r[i] == rows[keys[i]]
  {
    seq(|keys|, i requires 0 <= i < |keys| => rows[keys[i]])
  }

  /** The keys whose rows have value `v` in column `c`. */
  function KeysWith(keys: seq<Key>, rows: map<Key, Row>, c: nat, v: Value): (r: seq<Key>)
    requires forall i :: 0 <= i < |keys| ==> keys[i] in rows && c < |rows[keys[i]]|
    ensures forall k :: k in r <==> k in keys && rows[k][c] == v
    ensures forall i :: 0 <= i < |r| ==> r[i] in rows
  {
    if keys == [] then [] else
      (if rows[keys[0]][c] == v then [keys[0]] else []) + KeysWith(keys[1..], rows, c, v)
  }

  lemma {:induction false} KeysWithIncreasing(keys: seq<Key>, rows: map<Key, Row>, c: nat, v: Value)
    requires forall i :: 0 <= i < |keys| ==> keys[i] in rows && c < |rows[keys[i]]|
    requires Increasing(keys)
    ensures Increasing(KeysWith(keys, rows, c, v))
  {
    hide Rank, Increasing;
    TailIncreasing(keys);
    if keys != [] {
      var rest := KeysWith(keys[1..], rows, c, v);
      KeysWithIncreasing(keys[1..], rows, c, v);
      Prepended(keys, rest);
      assert KeysWith(keys, rows, c, v) == if rows[keys[0]][c] == v then [keys[0]] + rest else rest;
    }
  }

  lemma TailIncreasing(keys: seq<Key>)
    ensures Increasing([])
    ensures keys != [] && Increasing(keys) ==> Increasing(keys[1..])
  {
    hide Rank;
  }

  // ----- Rows of a table

  /** Rows of the table, each at most once, in key order. */
  ghost predicate Listed(rs: seq<Row>, keys: seq<Key>, rows: map<Key, Row>) {
    Increasing(keys) && (forall i :: 0 <= i < |keys| ==> keys[i] in rows) && rs == RowsAt(keys, rows)
  }

  lemma Prepended(keys: seq<Key>, rest: seq<Key>)
    requires keys != [] && Increasing(keys) && Increasing(rest) && forall k :: k in rest ==> k in keys[1..]
    ensures Increasing([keys[0]] + rest) && forall k :: k in [keys[0]] + rest ==> k in keys
  {
    hide Rank;
    forall j | 0 <= j < |rest| ensures Rank(keys[0]) < Rank(rest[j]) {
      assert rest[j] in keys[1..];
      var i :| 0 <= i < |keys[1..]| && keys[1..][i] == rest[j];
      assert keys[i + 1] == rest[j];
    }
  }
}
