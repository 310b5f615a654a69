/** From a WHERE clause to a seek, or a scan, and a filter for the rest of the clause. */
module Planner {
  import opened Bytes
  import opened Storage
  import opened Shape
  import opened Contexts
  import opened Contents
  import opened NodeEdits
  import opened Forest
  import opened Values
  import opened Rows
  import opened Mistyped
  import opened Tables
  import opened Exprs
  import opened Streams
  import opened Operators
  import opened Listings

  // ----- Conjuncts

  predicate ContainsOr(e: Expr) {
    match e
    case BinaryOp(op, left, right) => op == Or || ContainsOr(left) || ContainsOr(right)
    case _ => false
  }

  function LiteralValue(e: Expr): (v: Option<Value>)
    ensures v.Some? ==> v.value != Null && IsLiteral(v.value)
    ensures v.Some? ==> forall columns, row, who :: Eval(e, columns, row, who) == Val(v.value)
  {
    match e
    case IntLiteral(n) => Some(Integer(n))
    case StringLiteral(s) => Some(Text(s))
    case BoolLiteral(b) => Some(Boolean(b))
    case _ => None
  }

  /** The operands of the ANDs at the top of an expression, from left to right. */
  function Conjuncts(e: Expr): (r: seq<Expr>)
    ensures |r| > 0
  {
    match e
    case BinaryOp(And, left, right) => Conjuncts(left) + Conjuncts(right)
    case _ => [e]
  }

  method SplitAndConjuncts(e: Expr, sofar: seq<Expr>) returns (out: seq<Expr>)
    ensures out == sofar + Conjuncts(e)
  {
    match e
    case BinaryOp(And, left, right) =>
      out := SplitAndConjuncts(left, sofar);
      out := SplitAndConjuncts(right, out);
    case _ =>
      out := sofar + [e];
  }

  function Conjoined(cs: seq<Expr>): (r: Option<Expr>)
    ensures r.None? <==> cs == []
  {
    if cs == [] then None
    else if |cs| == 1 then Some(cs[0])
    else Some(BinaryOp(And, Conjoined(cs[..|cs| - 1]).value, cs[|cs| - 1]))
  }

  method RebuildAnd(conjuncts: seq<Expr>) returns (r: Option<Expr>)
    ensures r == Conjoined(conjuncts)
  {
    if conjuncts == [] {
      return None;
    }
    var acc := conjuncts[0];
    var i := 1;
    while i < |conjuncts|
      invariant 1 <= i <= |conjuncts| && Some(acc) == Conjoined(conjuncts[..i])
    {
      acc := BinaryOp(And, acc, conjuncts[i]);
      i := i + 1;
      assert conjuncts[..i][..i - 1] == conjuncts[..i - 1];
    }
    assert conjuncts[..i] == conjuncts;
    return Some(acc);
  }

  ghost predicate AllEvaluate(cs: seq<Expr>, columns: seq<Column>, row: Row, who: Caller) {
    forall i :: 0 <= i < |cs| ==> Evaluates(cs[i], columns, row, who)
  }

  ghost predicate AllTruthy(cs: seq<Expr>, columns: seq<Column>, row: Row, who: Caller) {
    forall i :: 0 <= i < |cs| ==> Truthy(cs[i], columns, row, who)
  }

  lemma SplitForall(a: seq<Expr>, b: seq<Expr>, columns: seq<Column>, row: Row, who: Caller)
    ensures AllEvaluate(a + b, columns, row, who) <==>
            AllEvaluate(a, columns, row, who) && AllEvaluate(b, columns, row, who)
    ensures AllTruthy(a + b, columns, row, who) <==> AllTruthy(a, columns, row, who) && AllTruthy(b, columns, row, who)
  {
    hide Evaluates, Truthy;
    forall i | 0 <= i < |a| ensures (a + b)[i] == a[i] {
    }
    forall i | 0 <= i < |b| ensures (a + b)[|a| + i] == b[i] {
    }
  }

  lemma {:induction false} ConjunctsMean(e: Expr, columns: seq<Column>, row: Row, who: Caller)
    ensures Evaluates(e, columns, row, who) <==> AllEvaluate(Conjuncts(e), columns, row, who)
    ensures Evaluates(e, columns, row, who) ==>
            (Truthy(e, columns, row, who) <==> AllTruthy(Conjuncts(e), columns, row, who))
  {
    hide Evaluates, Truthy;
    match e {
      case BinaryOp(And, left, right) =>
        ConjunctsMean(left, columns, row, who);
        ConjunctsMean(right, columns, row, who);
        AndMeans(left, right, columns, row, who);
        SplitForall(Conjuncts(left), Conjuncts(right), columns, row, who);
      case _ =>
        assert Conjuncts(e)[0] == e;
    }
  }

  lemma {:induction false} ConjoinedMeans(cs: seq<Expr>, columns: seq<Column>, row: Row, who: Caller)
    requires cs != []
    ensures Evaluates(Conjoined(cs).value, columns, row, who) <==> AllEvaluate(cs, columns, row, who)
    ensures AllEvaluate(cs, columns, row, who) ==>
              (Truthy(Conjoined(cs).value, columns, row, who) <==> AllTruthy(cs, columns, row, who))
    decreases |cs|
  {
    hide Evaluates, Truthy;
    if |cs| > 1 {
      var front, last := cs[..|cs| - 1], cs[|cs| - 1];
      ConjoinedMeans(front, columns, row, who);
      AndMeans(Conjoined(front).value, last, columns, row, who);
      assert cs == front + [last];
      SplitForall(front, [last], columns, row, who);
    }
  }

  // ----- Equalities

  /** `column = literal`, either way round. */
  function PkMatch(e: Expr, pkCol: string): (v: Option<Value>)
    ensures v.Some? ==> v.value != Null && IsLiteral(v.value)
  {
    match e
    case BinaryOp(Eq, left, right) =>
      if left == ColumnRef(pkCol) then LiteralValue(right)
      else if right == ColumnRef(pkCol) then LiteralValue(left)
      else None
    case _ => None
  }

  /** The position of the first index on a column, or the number of indexes. */
  function IndexOn(indexes: seq<IndexSchema>, column: string): (i: nat)
    ensures i <= |indexes|
    ensures i < |indexes| ==> indexes[i].column == column
  {
    if indexes == [] || indexes[0].column == column then 0 else 1 + IndexOn(indexes[1..], column)
  }

  function IndexMatch(e: Expr, indexes: seq<IndexSchema>): (r: Option<(nat, Value)>)
    ensures r.Some? ==> r.value.0 < |indexes| && PkMatch(e, indexes[r.value.0].column) == Some(r.value.1)
  {
    match e
    case BinaryOp(Eq, left, right) =>
      if left.ColumnRef? then
        var i := IndexOn(indexes, left.name);
        if i < |indexes| && LiteralValue(right).Some? then Some((i, LiteralValue(right).value)) else None
      else if right.ColumnRef? then
        var i := IndexOn(indexes, right.name);
        if i < |indexes| && LiteralValue(left).Some? then Some((i, LiteralValue(left).value)) else None
      else None
    case _ => None
  }

  function Without(cs: seq<Expr>, at: nat): (r: seq<Expr>)
    requires at < |cs|
    ensures |r| == |cs| - 1
  {
    cs[..at] + cs[at + 1..]
  }

  /** The conjunct at `at` is the first equality on the column. */
  ghost predicate FirstAt(cs: seq<Expr>, column: string, at: nat) {
    at < |cs| && PkMatch(cs[at], column).Some? && forall j :: 0 <= j < at ==> PkMatch(cs[j], column).None?
  }

  /** The clause has an equality on the column among its conjuncts, and no OR anywhere. */
  ghost predicate Seekable(e: Expr, column: string) {
    !ContainsOr(e) && exists at: nat :: FirstAt(Conjuncts(e), column, at)
  }

  /** The first equality on the column was taken out of the clause. */
  ghost predicate FirstTaken(e: Expr, column: string, v: Option<Value>, residual: Option<Expr>) {
    var cs := Conjuncts(e);
    exists at: nat :: FirstAt(cs, column, at) && v == PkMatch(cs[at], column) && residual == Conjoined(Without(cs, at))
  }

  /** The first conjunct that is an equality on the primary key is taken out; a clause with an OR is left alone. */
  method ExtractPkEquality(where: Option<Expr>, pkCol: string) returns (v: Option<Value>, residual: Option<Expr>)
    ensures where.None? ==> v.None? && residual.None?
    ensures where.Some? ==> (v.Some? <==> Seekable(where.value, pkCol))
    ensures v.None? && where.Some? && ContainsOr(where.value) ==> residual == where
    ensures v.None? && where.Some? && !ContainsOr(where.value) ==> residual == Conjoined(Conjuncts(where.value))
    ensures v.Some? ==> v.value != Null && FirstTaken(where.value, pkCol, v, residual)
    ensures where.Some? ==> Extracted(where.value, pkCol, v, residual)
  {
    hide *;
    if where.None? {
      return None, None;
    }
    if ContainsOr(where.value) {
      NothingTaken(where.value, pkCol, where);
      return None, where;
    }
    var conjuncts := SplitAndConjuncts(where.value, []);
    v := None;
    var remaining := [];
    ghost var at := 0;
    var i := 0;
    SiftStart(conjuncts, pkCol);
    while i < |conjuncts|
      invariant 0 <= i <= |conjuncts| && Sifted(conjuncts, i, pkCol, v, at, remaining)
    {
      var c := conjuncts[i];
      SiftNext(conjuncts, i, pkCol, v, at, remaining);
      if v.None? && PkMatch(c, pkCol).Some? {
        v, at := PkMatch(c, pkCol), i;
      } else {
        remaining := remaining + [c];
      }
      i := i + 1;
    }
    residual := RebuildAnd(remaining);
    SiftDone(where.value, conjuncts, pkCol, v, at, remaining);
  }

  /** The first `i` conjuncts, without the first equality on the column if there was one. */
  ghost predicate Sifted(cs: seq<Expr>, i: nat, column: string, v: Option<Value>, at: nat, remaining: seq<Expr>) {
    && i <= |cs|
    && if v.None? then remaining == cs[..i] && forall j :: 0 <= j < i ==> PkMatch(cs[j], column).None?
       else
         && at < i && PkMatch(cs[at], column) == v && remaining == cs[..at] + cs[at + 1..i]
         && forall j :: 0 <= j < at ==> PkMatch(cs[j], column).None?
  }

  lemma SiftStart(cs: seq<Expr>, column: string)
    ensures Sifted(cs, 0, column, None, 0, [])
  {
  }

  lemma SiftNext(cs: seq<Expr>, i: nat, column: string, v: Option<Value>, at: nat, remaining: seq<Expr>)
    requires i < |cs| && Sifted(cs, i, column, v, at, remaining)
    ensures if v.None? && PkMatch(cs[i], column).Some?
            then Sifted(cs, i + 1, column, PkMatch(cs[i], column), i, remaining)
            else Sifted(cs, i + 1, column, v, at, remaining + [cs[i]])
  {
    hide PkMatch;
  }

  lemma SiftDone(e: Expr, cs: seq<Expr>, column: string, v: Option<Value>, at: nat, remaining: seq<Expr>)
    requires cs == Conjuncts(e) && !ContainsOr(e) && Sifted(cs, |cs|, column, v, at, remaining)
    ensures v.Some? <==> Seekable(e, column)
    ensures v.None? ==> Conjoined(remaining) == Conjoined(cs)
    ensures v.Some? ==> v.value != Null && FirstTaken(e, column, v, Conjoined(remaining))
    ensures Extracted(e, column, v, Conjoined(remaining))
  {
    if v.Some? {
      hide PkMatch, Conjuncts, Conjoined, ContainsOr;
      KeyTaken(e, cs, column, at, remaining);
    } else {
      NoneMatches(e, cs, column);
      assert remaining == cs;
      NothingTaken(e, column, Conjoined(remaining));
    }
  }

  lemma NothingTaken(e: Expr, column: string, residual: Option<Expr>)
    requires residual == Some(e) || residual == Conjoined(Conjuncts(e))
    ensures Extracted(e, column, None, residual)
    ensures ContainsOr(e) ==> !Seekable(e, column)
  {
  }

  lemma NoneMatches(e: Expr, cs: seq<Expr>, column: string)
    requires cs == Conjuncts(e) && forall j :: 0 <= j < |cs| ==> PkMatch(cs[j], column).None?
    ensures !Seekable(e, column)
  {
  }

  lemma KeyTaken(e: Expr, cs: seq<Expr>, column: string, at: nat, rest: seq<Expr>)
    requires cs == Conjuncts(e) && at < |cs| && rest == cs[..at] + cs[at + 1..]
    requires PkMatch(cs[at], column).Some? && forall j :: 0 <= j < at ==> PkMatch(cs[j], column).None?
    ensures !ContainsOr(e) ==> Seekable(e, column)
    ensures FirstTaken(e, column, PkMatch(cs[at], column), Conjoined(rest)) && PkMatch(cs[at], column).value != Null
    ensures Extracted(e, column, PkMatch(cs[at], column), Conjoined(rest))
  {
    assert FirstAt(cs, column, at) && rest == Without(cs, at);
    assert TakenOut(cs, at, rest);
  }

  lemma OrIsNotIndexable(e: Expr, indexes: seq<IndexSchema>)
    requires ContainsOr(e)
    ensures !Indexable(e, indexes)
  {
  }

  /** The first `i` conjuncts were looked at: the first that matches an index, if any, is at `at`. */
  ghost predicate SiftedFor(cs: seq<Expr>, i: nat, indexes: seq<IndexSchema>, matched: Option<(nat, Value)>, at: nat,
                            remaining: seq<Expr>) {
    && i <= |cs|
    && if matched.None? then remaining == cs[..i] && forall j :: 0 <= j < i ==> IndexMatch(cs[j], indexes).None?
       else
         && at < i && IndexMatch(cs[at], indexes) == matched && remaining == cs[..at] + cs[at + 1..i]
         && forall j :: 0 <= j < at ==> IndexMatch(cs[j], indexes).None?
  }

  lemma SiftForStart(cs: seq<Expr>, indexes: seq<IndexSchema>)
    ensures SiftedFor(cs, 0, indexes, None, 0, [])
  {
  }

  lemma SiftForNext(cs: seq<Expr>, i: nat, indexes: seq<IndexSchema>, matched: Option<(nat, Value)>, at: nat,
                    remaining: seq<Expr>)
    requires i < |cs| && SiftedFor(cs, i, indexes, matched, at, remaining)
    ensures if matched.None? && IndexMatch(cs[i], indexes).Some?
            then SiftedFor(cs, i + 1, indexes, IndexMatch(cs[i], indexes), i, remaining)
            else SiftedFor(cs, i + 1, indexes, matched, at, remaining + [cs[i]])
  {
    hide IndexMatch;
  }

  lemma SiftForDone(e: Expr, cs: seq<Expr>, indexes: seq<IndexSchema>, matched: Option<(nat, Value)>, at: nat,
                    remaining: seq<Expr>)
    requires cs == Conjuncts(e) && SiftedFor(cs, |cs|, indexes, matched, at, remaining)
    ensures matched.None? ==> !Indexable(e, indexes)
    ensures matched.Some? ==>
              var (i, v) := matched.value;
              && (!ContainsOr(e) ==> Indexable(e, indexes))
              && v != Null && i < |indexes| && Extracted(e, indexes[i].column, Some(v), Conjoined(remaining))
              && FirstIndexTaken(e, indexes, i, v, Conjoined(remaining))
  {
    if matched.Some? {
      assert FirstIndexed(cs, indexes, at) && remaining == Without(cs, at);
      assert TakenOut(cs, at, remaining);
    }
  }

  ghost predicate TakenOut(cs: seq<Expr>, at: int, rest: seq<Expr>) {
    0 <= at < |cs| && rest == cs[..at] + cs[at + 1..]
  }

  /** One equality on a column is taken out of the clause, or nothing is and the ANDs may be regrouped. */
  ghost predicate Extracted(e: Expr, column: string, v: Option<Value>, residual: Option<Expr>) {
    if v.None? then residual == Some(e) || residual == Conjoined(Conjuncts(e))
    else exists at, rest ::
      TakenOut(Conjuncts(e), at, rest) && PkMatch(Conjuncts(e)[at], column) == v && residual == Conjoined(rest)
  }

  /** The conjunct at `at` is the first equality on any indexed column. */
  ghost predicate FirstIndexed(cs: seq<Expr>, indexes: seq<IndexSchema>, at: nat) {
    at < |cs| && IndexMatch(cs[at], indexes).Some? && forall j :: 0 <= j < at ==> IndexMatch(cs[j], indexes).None?
  }

  /** The clause has an equality on an indexed column among its conjuncts, and no OR anywhere. */
  ghost predicate Indexable(e: Expr, indexes: seq<IndexSchema>) {
    !ContainsOr(e) && exists at: nat :: FirstIndexed(Conjuncts(e), indexes, at)
  }

  ghost predicate FirstIndexTaken(e: Expr, indexes: seq<IndexSchema>, i: nat, v: Value, residual: Option<Expr>) {
    var cs := Conjuncts(e);
    exists at: nat ::
      FirstIndexed(cs, indexes, at) && IndexMatch(cs[at], indexes) == Some((i, v))
          && residual == Conjoined(Without(cs, at))
  }

  /** The first conjunct that is an equality on an indexed column is taken out. */
  method FindIndexEquality(where: Option<Expr>, indexes: seq<IndexSchema>)
    returns (r: Option<(nat, Value, Option<Expr>)>)
    ensures r.Some? <==> where.Some? && Indexable(where.value, indexes)
    ensures r.Some? ==> FirstIndexTaken(where.value, indexes, r.value.0, r.value.1, r.value.2)
    ensures r.Some? ==>
              && where.Some? && r.value.1 != Null && r.value.0 < |indexes|
              && Extracted(where.value, indexes[r.value.0].column, Some(r.value.1), r.value.2)
  {
    hide *;
    if where.None? {
      return None;
    }
    if ContainsOr(where.value) {
      OrIsNotIndexable(where.value, indexes);
      return None;
    }
    var conjuncts := SplitAndConjuncts(where.value, []);
    var matched := None;
    var remaining := [];
    ghost var at := 0;
    var i := 0;
    SiftForStart(conjuncts, indexes);
    while i < |conjuncts|
      invariant 0 <= i <= |conjuncts| && SiftedFor(conjuncts, i, indexes, matched, at, remaining)
    {
      SiftForNext(conjuncts, i, indexes, matched, at, remaining);
      var c := conjuncts[i];
      if matched.None? && IndexMatch(c, indexes).Some? {
        matched, at := IndexMatch(c, indexes), i;
      } else {
        remaining := remaining + [c];
      }
      i := i + 1;
    }
    SiftForDone(where.value, conjuncts, indexes, matched, at, remaining);
    if matched.None? {
      return None;
    }
    var residual := RebuildAnd(remaining);
    return Some((matched.value.0, matched.value.1, residual));
  }

  // ----- What taking an equality out means

  /** An equality that evaluates holds exactly of the rows that have the value. */
  lemma EqualityMeans(e: Expr, column: string, v: Value, columns: seq<Column>, row: Row, who: Caller)
    requires PkMatch(e, column) == Some(v) && |row| == |columns| && Evaluates(e, columns, row, who)
    ensures var c := FindColumn(columns, column);
            && c < |columns|
            && (row[c] != Null ==> Comparable(row[c], v))
            && (Truthy(e, columns, row, who) <==> row[c] == v)
  {
    hide Rank, SqlCmp, CompareBytes;
    var c := FindColumn(columns, column);
    assert Eval(ColumnRef(column), columns, row, who) == Lookup(columns, row, column);
    if e.left == ColumnRef(column) {
      assert Eval(e.right, columns, row, who) == Val(v);
      if row[c] != Null {
        SqlCmpEqual(row[c], v);
      }
    } else {
      assert Eval(e.left, columns, row, who) == Val(v);
      if row[c] != Null {
        SqlCmpEqual(v, row[c]);
      }
    }
  }

  /** The clause holds of a row exactly when the equality and the residual do. */
  lemma ExtractedMeans(e: Expr, column: string, v: Option<Value>, residual: Option<Expr>, columns: seq<Column>,
                       row: Row, who: Caller)
    requires Extracted(e, column, v, residual) && |row| == |columns| && Evaluates(e, columns, row, who)
    ensures residual.Some? ==> Evaluates(residual.value, columns, row, who)
    ensures v.None? ==> residual.Some? && (Truthy(e, columns, row, who) <==> Truthy(residual.value, columns, row, who))
    ensures v.Some? ==>
              var c := FindColumn(columns, column);
              && c < |columns|
              && (row[c] != Null ==> Comparable(row[c], v.value))
              && (Truthy(e, columns, row, who) <==>
                    row[c] == v.value && (residual.Some? ==> Truthy(residual.value, columns, row, who)))
  {
    hide Evaluates, Truthy, PkMatch, Conjoined, Eval, Comparable, LiteralValue, Conjuncts;
    var cs := Conjuncts(e);
    ConjunctsMean(e, columns, row, who);
    if v.None? {
      ConjoinedMeans(cs, columns, row, who);
    } else {
      var at, rest :| TakenOut(cs, at, rest) && PkMatch(cs[at], column) == v && residual == Conjoined(rest);
      TakenOutMeans(cs, at, rest, columns, row, who);
      EqualityMeans(cs[at], column, v.value, columns, row, who);
      if rest != [] {
        ConjoinedMeans(rest, columns, row, who);
      }
    }
  }

  lemma TakenOutMeans(cs: seq<Expr>, at: int, rest: seq<Expr>, columns: seq<Column>, row: Row, who: Caller)
    requires TakenOut(cs, at, rest)
    ensures AllEvaluate(cs, columns, row, who) <==>
            Evaluates(cs[at], columns, row, who) && AllEvaluate(rest, columns, row, who)
    ensures AllTruthy(cs, columns, row, who) <==>
            Truthy(cs[at], columns, row, who) && AllTruthy(rest, columns, row, who)
  {
    hide Evaluates, Truthy;
    assert cs == cs[..at] + ([cs[at]] + cs[at + 1..]);
    SplitForall(cs[..at], [cs[at]] + cs[at + 1..], columns, row, who);
    SplitForall([cs[at]], cs[at + 1..], columns, row, who);
    SplitForall(cs[..at], cs[at + 1..], columns, row, who);
    assert [cs[at]][0] == cs[at];
  }

  /** Splitting undoes rebuilding. */
  lemma {:induction false} SplitRebuilt(cs: seq<Expr>)
    requires cs != [] && forall i :: 0 <= i < |cs| ==> Conjuncts(cs[i]) == [cs[i]]
    ensures Conjuncts(Conjoined(cs).value) == cs
    decreases |cs|
  {
    if |cs| > 1 {
      SplitRebuilt(cs[..|cs| - 1]);
      assert cs == cs[..|cs| - 1] + [cs[|cs| - 1]];
    }
  }

  // ----- The rows that a plan yields

  ghost predicate EvaluatesOn(rows: map<Key, Row>, columns: seq<Column>, e: Expr, who: Caller) {
    forall k :: k in rows ==> Evaluates(e, columns, rows[k], who)
  }

  lemma {:induction false} WhereSplit(keys: seq<Key>, rows: map<Key, Row>, columns: seq<Column>, c: nat, v: Value,
                                      e: Expr, residual: Option<Expr>, who: Caller)
    requires forall i :: 0 <= i < |keys| ==> keys[i] in rows && c < |rows[keys[i]]|
    requires forall i :: 0 <= i < |keys| ==>
               (Truthy(e, columns, rows[keys[i]], who) <==>
                  rows[keys[i]][c] == v && (residual.Some? ==> Truthy(residual.value, columns, rows[keys[i]], who)))
    ensures Where(RowsAt(keys, rows), columns, e, who)
         == if residual.None? then RowsAt(KeysWith(keys, rows, c, v), rows)
            else Where(RowsAt(KeysWith(keys, rows, c, v), rows), columns, residual.value, who)
  {
    hide Truthy, Where, KeysWith, RowsAt;
    RowsAtHead(keys, rows);
    KeysWithHead(keys, rows, c, v);
    if keys == [] {
      assert RowsAt([], rows) == [];
      WhereNothing(columns, e, who);
      if residual.Some? {
        WhereNothing(columns, residual.value, who);
      }
    } else {
      var row, rest := rows[keys[0]], KeysWith(keys[1..], rows, c, v);
      WhereSplit(keys[1..], rows, columns, c, v, e, residual, who);
      WhereHead(row, RowsAt(keys[1..], rows), columns, e, who);
      assert [] + rest == rest;
      if row[c] == v {
        RowsAtHead([keys[0]] + rest, rows);
        assert ([keys[0]] + rest)[1..] == rest;
        assert RowsAt(KeysWith(keys, rows, c, v), rows) == [row] + RowsAt(rest, rows);
        if residual.Some? {
          WhereHead(row, RowsAt(rest, rows), columns, residual.value, who);
        }
      }
    }
  }

  lemma WhereNothing(columns: seq<Column>, e: Expr, who: Caller)
    ensures Where([], columns, e, who) == []
  {
  }

  lemma WhereHead(row: Row, rest: seq<Row>, columns: seq<Column>, e: Expr, who: Caller)
    ensures Where([row] + rest, columns, e, who)
         == (if Truthy(e, columns, row, who) then [row] else []) + Where(rest, columns, e, who)
  {
    assert ([row] + rest)[1..] == rest;
  }

  lemma RowsAtHead(keys: seq<Key>, rows: map<Key, Row>)
    requires forall i :: 0 <= i < |keys| ==> keys[i] in rows
    ensures keys != [] ==> RowsAt(keys, rows) == [rows[keys[0]]] + RowsAt(keys[1..], rows)
  {
  }

  lemma KeysWithHead(keys: seq<Key>, rows: map<Key, Row>, c: nat, v: Value)
    requires forall i :: 0 <= i < |keys| ==> keys[i] in rows && c < |rows[keys[i]]|
    ensures keys == [] ==> KeysWith(keys, rows, c, v) == []
    ensures keys != [] ==>
              KeysWith(keys, rows, c, v)
              == (if rows[keys[0]][c] == v then [keys[0]] else []) + KeysWith(keys[1..], rows, c, v)
  {
  }

  /** Rows at the keys that have the value, filtered by the residual, are the rows that the clause lets through. */
  lemma SeekThenFilter(schema: TableSchema, keys: seq<Key>, rows: map<Key, Row>, e: Expr, column: string, v: Value,
                       residual: Option<Expr>, who: Caller)
    requires RowsOk(schema, rows) && (forall i :: 0 <= i < |keys| ==> keys[i] in rows)
    requires Extracted(e, column, Some(v), residual) && EvaluatesOn(rows, schema.columns, e, who)
    requires FindColumn(schema.columns, column) < |schema.columns|
    ensures var c := FindColumn(schema.columns, column);
            && (forall k :: k in rows && rows[k][c] != Null ==> Comparable(rows[k][c], v))
            && var found := RowsAt(KeysWith(keys, rows, c, v), rows);
               var wanted := Stream(Where(RowsAt(keys, rows), schema.columns, e, who), None);
               && (residual.None? ==> Stream(found, None) == wanted)
               && (residual.Some? ==> FilterStream(Stream(found, None), schema.columns, residual.value, who) == wanted)
  {
    hide Truthy, Evaluates, Extracted, CheckRow, RowKey, Comparable;
    var c := FindColumn(schema.columns, column);
    forall k | k in rows
      ensures rows[k][c] != Null ==> Comparable(rows[k][c], v)
      ensures residual.Some? ==> Evaluates(residual.value, schema.columns, rows[k], who)
      ensures Truthy(e, schema.columns, rows[k], who) <==>
                rows[k][c] == v && (residual.Some? ==> Truthy(residual.value, schema.columns, rows[k], who))
    {
      ExtractedMeans(e, column, Some(v), residual, schema.columns, rows[k], who);
    }
    WhereSplit(keys, rows, schema.columns, c, v, e, residual, who);
    var found := KeysWith(keys, rows, c, v);
    if residual.Some? {
      FilterSelects(RowsAt(found, rows), schema.columns, residual.value, who);
    }
  }

  /** A scan, filtered by what is left of the clause when nothing could be taken out. */
  lemma ScanThenFilter(schema: TableSchema, keys: seq<Key>, rows: map<Key, Row>, e: Expr, column: string,
      residual: Option<Expr>, who: Caller)
    requires RowsOk(schema, rows) && (forall i :: 0 <= i < |keys| ==> keys[i] in rows)
    requires Extracted(e, column, None, residual) && EvaluatesOn(rows, schema.columns, e, who)
    ensures residual.Some? && EvaluatesOn(rows, schema.columns, residual.value, who)
    ensures Where(RowsAt(keys, rows), schema.columns, residual.value, who)
            == Where(RowsAt(keys, rows), schema.columns, e, who)
    ensures FilterStream(Stream(RowsAt(keys, rows), None), schema.columns, residual.value, who)
         == Stream(Where(RowsAt(keys, rows), schema.columns, e, who), None)
  {
    hide Truthy, Evaluates, Extracted, CheckRow, RowKey;
    ResidualRemains(e, column, residual);
    forall k | k in rows
      ensures Evaluates(residual.value, schema.columns, rows[k], who)
      ensures Truthy(e, schema.columns, rows[k], who) <==> Truthy(residual.value, schema.columns, rows[k], who)
    {
      ExtractedMeans(e, column, None, residual, schema.columns, rows[k], who);
    }
    SameWhere(RowsAt(keys, rows), schema.columns, e, residual.value, who);
    FilterSelects(RowsAt(keys, rows), schema.columns, residual.value, who);
  }

  lemma ResidualRemains(e: Expr, column: string, residual: Option<Expr>)
    requires Extracted(e, column, None, residual)
    ensures residual.Some?
  {
  }

  lemma {:induction false} SameWhere(rows: seq<Row>, columns: seq<Column>, e: Expr, e': Expr, who: Caller)
    requires forall i :: 0 <= i < |rows| ==> (Truthy(e, columns, rows[i], who) <==> Truthy(e', columns, rows[i], who))
    ensures Where(rows, columns, e, who) == Where(rows, columns, e', who)
  {
    hide Truthy;
    if rows != [] {
      SameWhere(rows[1..], columns, e, e', who);
    }
  }

  function KeyName(schema: TableSchema): string
    requires SchemaOk(schema)
  {
    schema.columns[PrimaryKeyIndex(schema)].name
  }

  // ----- What a plan reads, and what it asks of the rows it reads

  type Literal = v: Value | IsLiteral(v) witness Integer(0)

  /** The whole table, the row with a primary key, or the rows that an index has under a value. */
  datatype Access = WholeTable | ByKey(v: Literal) | ByIndex(i: nat, v: Literal)

  function FirstMatch(cs: seq<Expr>, column: string): (i: nat)
    ensures i <= |cs| && forall j :: 0 <= j < i ==> PkMatch(cs[j], column).None?
    ensures i < |cs| ==> FirstAt(cs, column, i)
  {
    if cs == [] || PkMatch(cs[0], column).Some? then 0 else 1 + FirstMatch(cs[1..], column)
  }

  function FirstIndexMatch(cs: seq<Expr>, indexes: seq<IndexSchema>): (i: nat)
    ensures i <= |cs| && forall j :: 0 <= j < i ==> IndexMatch(cs[j], indexes).None?
    ensures i < |cs| ==> FirstIndexed(cs, indexes, i)
  {
    if cs == [] || IndexMatch(cs[0], indexes).Some? then 0 else 1 + FirstIndexMatch(cs[1..], indexes)
  }

  /** The first equality on the primary key decides, or else the first on an indexed column; a clause with an OR has
      none. */
  function AccessFor(schema: TableSchema, indexes: seq<IndexSchema>, where: Option<Expr>): Access
    requires SchemaOk(schema)
  {
    if where.None? || ContainsOr(where.value) then WholeTable else
      var cs := Conjuncts(where.value);
      var i, j := FirstMatch(cs, KeyName(schema)), FirstIndexMatch(cs, indexes);
      if i < |cs| then ByKey(PkMatch(cs[i], KeyName(schema)).value)
      else if j < |cs| then ByIndex(IndexMatch(cs[j], indexes).value.0, IndexMatch(cs[j], indexes).value.1)
      else WholeTable
  }

  /** The clause without the equality that the access stands for. */
  function Remaining(schema: TableSchema, indexes: seq<IndexSchema>, where: Option<Expr>): Option<Expr>
    requires SchemaOk(schema)
  {
    if where.None? || ContainsOr(where.value) then where else
      var cs := Conjuncts(where.value);
      var i, j := FirstMatch(cs, KeyName(schema)), FirstIndexMatch(cs, indexes);
      if i < |cs| then Conjoined(Without(cs, i))
      else if j < |cs| then Conjoined(Without(cs, j))
      else Conjoined(cs)
  }

  ghost predicate IndexesUsable(schema: TableSchema, indexes: seq<IndexSchema>) {
    forall i :: 0 <= i < |indexes| ==> IndexOk(schema, indexes[i])
  }

  /** The access comes upon the row. */
  ghost predicate Read(schema: TableSchema, indexes: seq<IndexSchema>, rows: map<Key, Row>, access: Access, k: Key)
    requires RowsOk(schema, rows) && IndexesUsable(schema, indexes)
  {
    match access
    case WholeTable => true
    case ByKey(v) => k == EncodeKey(v)
    case ByIndex(i, v) =>
      i < |indexes| && Follows(schema, IndexColumn(schema, indexes[i]), rows, EncodeKey(v), k)
  }

  /** The keys of the rows that are read, in their order. */
  ghost predicate ReadInOrder(keys: seq<Key>, schema: TableSchema, indexes: seq<IndexSchema>, rows: map<Key, Row>,
                              access: Access)
    requires RowsOk(schema, rows) && IndexesUsable(schema, indexes)
  {
    Increasing(keys) && forall k :: k in keys <==> k in rows && Read(schema, indexes, rows, access, k)
  }

  function Filtered(rs: seq<Row>, columns: seq<Column>, clause: Option<Expr>, who: Caller): Stream {
    if clause.None? then Stream(rs, None) else FilterStream(Stream(rs, None), columns, clause.value, who)
  }

  /** The rows that the access of one clause comes upon, filtered by another. */
  ghost predicate Yields(s: Stream, schema: TableSchema, indexes: seq<IndexSchema>, rows: map<Key, Row>,
                         access: Access, clause: Option<Expr>, who: Caller)
    requires RowsOk(schema, rows) && IndexesUsable(schema, indexes)
  {
    exists keys ::
      ReadInOrder(keys, schema, indexes, rows, access)
          && s == Filtered(RowsAt(keys, rows), schema.columns, clause, who)
  }

  lemma KeyAccess(schema: TableSchema, indexes: seq<IndexSchema>, e: Expr, v: Option<Value>, residual: Option<Expr>)
    requires SchemaOk(schema) && v.Some? && Seekable(e, KeyName(schema)) && FirstTaken(e, KeyName(schema), v, residual)
    ensures IsLiteral(v.value) && AccessFor(schema, indexes, Some(e)) == ByKey(v.value)
    ensures Remaining(schema, indexes, Some(e)) == residual
  {
    hide PkMatch, IndexMatch, Conjuncts, Conjoined, ContainsOr, Without;
  }

  lemma {:induction false} AtomicConjuncts(e: Expr)
    ensures forall i :: 0 <= i < |Conjuncts(e)| ==> Conjuncts(Conjuncts(e)[i]) == [Conjuncts(e)[i]]
    ensures !ContainsOr(e) ==> forall i :: 0 <= i < |Conjuncts(e)| ==> !ContainsOr(Conjuncts(e)[i])
  {
    match e {
      case BinaryOp(And, left, right) =>
        AtomicConjuncts(left);
        AtomicConjuncts(right);
      case _ =>
    }
  }

  lemma {:induction false} NoOrConjoined(cs: seq<Expr>)
    requires cs != [] && forall i :: 0 <= i < |cs| ==> !ContainsOr(cs[i])
    ensures !ContainsOr(Conjoined(cs).value)
    decreases |cs|
  {
    if |cs| > 1 {
      NoOrConjoined(cs[..|cs| - 1]);
    }
  }

  /** Nothing was taken out for the primary key: what is left is the clause, with its ANDs regrouped. */
  lemma Regrouped(e: Expr, e1: Option<Expr>)
    requires e1 == if ContainsOr(e) then Some(e) else Conjoined(Conjuncts(e))
    ensures e1.Some? && Conjuncts(e1.value) == Conjuncts(e) && (ContainsOr(e1.value) <==> ContainsOr(e))
  {
    hide Conjuncts, Conjoined, ContainsOr;
    if !ContainsOr(e) {
      AtomicConjuncts(e);
      SplitRebuilt(Conjuncts(e));
      NoOrConjoined(Conjuncts(e));
    }
  }

  lemma OtherAccess(schema: TableSchema, indexes: seq<IndexSchema>, e: Expr, e1: Option<Expr>)
    requires SchemaOk(schema) && !Seekable(e, KeyName(schema))
    requires e1 == if ContainsOr(e) then Some(e) else Conjoined(Conjuncts(e))
    ensures e1.Some?
    ensures !Indexable(e1.value, indexes) ==>
              AccessFor(schema, indexes, Some(e)) == WholeTable && Remaining(schema, indexes, Some(e)) == e1
  {
    Regrouped(e, e1);
    hide PkMatch, IndexMatch, Conjuncts, Conjoined, ContainsOr, Without;
  }

  lemma {:induction false} IndexAccess(schema: TableSchema, indexes: seq<IndexSchema>, e: Expr, e1: Option<Expr>,
                                       i: nat, v: Value, rest: Option<Expr>)
    requires SchemaOk(schema) && !Seekable(e, KeyName(schema))
    requires e1 == if ContainsOr(e) then Some(e) else Conjoined(Conjuncts(e))
    requires e1.Some? && Indexable(e1.value, indexes) && FirstIndexTaken(e1.value, indexes, i, v, rest)
    ensures IsLiteral(v) && AccessFor(schema, indexes, Some(e)) == ByIndex(i, v)
    ensures Remaining(schema, indexes, Some(e)) == rest
  {
    Regrouped(e, e1);
    var cs, name := Conjuncts(e), KeyName(schema);
    NoMatch(e, name);
    hide PkMatch, IndexMatch, Conjuncts, Conjoined, ContainsOr, Without, FirstIndexed, FirstMatch, FirstIndexMatch,
      Seekable;
    var at: nat :|
      FirstIndexed(cs, indexes, at) && IndexMatch(cs[at], indexes) == Some((i, v))
          && rest == Conjoined(Without(cs, at));
    OneFirst(cs, indexes, at);
    assert IsLiteral(v) by {
      assert PkMatch(cs[at], indexes[i].column) == Some(v);
    }
  }

  lemma {:induction false} NoMatch(e: Expr, column: string)
    requires !Seekable(e, column) && !ContainsOr(e)
    ensures FirstMatch(Conjuncts(e), column) == |Conjuncts(e)|
  {
    hide PkMatch, Conjuncts, ContainsOr;
  }

  lemma {:induction false} OneFirst(cs: seq<Expr>, indexes: seq<IndexSchema>, at: nat)
    requires FirstIndexed(cs, indexes, at)
    ensures FirstIndexMatch(cs, indexes) == at
  {
    hide IndexMatch;
  }

  // ----- Building the plan

  /** The first column with the name of the primary key is the primary key.  Nothing stops a table from
      declaring two columns of one name, and then a seek looks at one and the clause at the other. */
  predicate KeyColumnFirst(schema: TableSchema)
    requires SchemaOk(schema)
  {
    FindColumn(schema.columns, KeyName(schema)) == PrimaryKeyIndex(schema)
  }

  /** When another column of the name comes first, seeks do no harm only if that one is JSON and never null: then
      no equality with a literal evaluates on any row. */
  predicate SeekSound(schema: TableSchema)
    requires SchemaOk(schema)
  {
    var first := schema.columns[FindColumn(schema.columns, KeyName(schema))];
    KeyColumnFirst(schema) || (first.ty.JsonType? && first.notNull)
  }

  /** The rows that the statement asks for. */
  ghost function Wanted(schema: TableSchema, table: Rooted, rows: map<Key, Row>, where: Option<Expr>, who: Caller)
    : seq<Row>
    requires forall k :: k in TableKeys(table) ==> k in rows
  {
    if where.None? then AllRows(table, rows) else Where(AllRows(table, rows), schema.columns, where.value, who)
  }

  /** Clauses for which every plan is known to yield what is asked for. */
  ghost predicate Plannable(schema: TableSchema, rows: map<Key, Row>, where: Option<Expr>, who: Caller)
    requires SchemaOk(schema)
  {
    where.Some? ==>
      && EvaluatesOn(rows, schema.columns, where.value, who)
      && (SeekSound(schema) || !Seekable(where.value, KeyName(schema)))
  }

  lemma TableAgrees(m: map<PageNo, Page>, schema: TableSchema, indexes: seq<IndexSchema>, f: seq<Rooted>,
                    rows: map<Key, Row>)
    requires Planted(m, f) && Agree(schema, indexes, f, rows)
    ensures SchemaOk(schema) && RowsOk(schema, rows) && |f| == 1 + |indexes|
    ensures Readable(m, f[0]) && Sound(f[0].tree, f[0].height) && f[0].tree.p == schema.rootPage
            && TableIs(ModelOf(f[0]), rows)
    ensures forall k :: k in TableKeys(f[0]) <==> k in rows
  {
    hide Rank, MapOf, EncodeRow, RowKey, CheckRow, IndexesAre, Apart, Footprint;
    KeysListed(f[0], rows);
  }

  lemma IndexAgrees(m: map<PageNo, Page>, schema: TableSchema, indexes: seq<IndexSchema>, f: seq<Rooted>,
                    rows: map<Key, Row>, i: nat)
    requires Planted(m, f) && Agree(schema, indexes, f, rows) && i < |indexes|
    ensures Readable(m, f[1 + i]) && Sound(f[1 + i].tree, f[1 + i].height) && f[1 + i].tree.p == indexes[i].rootPage
    ensures IndexOk(schema, indexes[i]) && RowsOk(schema, rows)
    ensures IndexIs(schema, IndexColumn(schema, indexes[i]), ModelOf(f[1 + i]), rows)
  {
    hide Rank, MapOf, EncodeRow, RowsOk, IndexIs, Apart, Footprint, ModelOf;
  }

  lemma NotNullThere(schema: TableSchema, rows: map<Key, Row>, c: nat, v: Value)
    requires RowsOk(schema, rows) && c < |schema.columns| && schema.columns[c].notNull
    requires forall k :: k in rows && rows[k][c] != Null ==> Comparable(rows[k][c], v)
    ensures forall k :: k in rows ==> Comparable(rows[k][c], v)
  {
    hide CheckRow, RowKey, Comparable;
    forall k | k in rows ensures rows[k][c] != Null {
      KeyEncodable(schema, rows[k], c);
    }
  }

  lemma IndexPlanYields(m: map<PageNo, Page>, schema: TableSchema, indexes: seq<IndexSchema>, f: seq<Rooted>,
                        rows: map<Key, Row>, e: Expr, e1: Option<Expr>, i: nat, v: Value, residual: Option<Expr>,
                        who: Caller)
    requires Planted(m, f) && Agree(schema, indexes, f, rows) && i < |indexes| && SchemaOk(schema)
    requires EvaluatesOn(rows, schema.columns, e, who)
    requires Extracted(e, schema.columns[PrimaryKeyIndex(schema)].name, None, e1) && e1.Some?
    requires v != Null && Extracted(e1.value, indexes[i].column, Some(v), residual)
    ensures forall k :: k in TableKeys(f[0]) <==> k in rows
    ensures var es, prefix := Flat(f[1 + i].tree), EncodeKey(v);
            var found := SeekRows(es[PartitionPoint(es, prefix)..], prefix, schema, ModelOf(f[0]));
            var wanted := Stream(Where(AllRows(f[0], rows), schema.columns, e, who), None);
            && (residual.None? ==> Stream(found, None) == wanted)
            && (residual.Some? ==> FilterStream(Stream(found, None), schema.columns, residual.value, who) == wanted)
  {
    hide Rank, MapOf, Planted, Agree, RowsOk, TableIs, IndexIs, Extracted, EvaluatesOn, EncodeKey,
      Readable, TableKeys, Flat, DecodeRow, PartitionPoint, CheckRow, FilterStream, Where, KeysWith, RowsAt,
      DecodedRows, SeekRows, Sound, ModelOf, Conjoined;
    var pkCol := schema.columns[PrimaryKeyIndex(schema)].name;
    TableAgrees(m, schema, indexes, f, rows);
    IndexAgrees(m, schema, indexes, f, rows, i);
    var keys, c := TableKeys(f[0]), IndexColumn(schema, indexes[i]);
    ScanThenFilter(schema, keys, rows, e, pkCol, e1, who);
    SeekThenFilter(schema, keys, rows, e1.value, indexes[i].column, v, residual, who);
    NotNullThere(schema, rows, c, v);
    IndexSeekYields(schema, c, f[0], f[1 + i], rows, v);
  }

  lemma KeyPlanYields(m: map<PageNo, Page>, schema: TableSchema, indexes: seq<IndexSchema>, f: seq<Rooted>,
                      rows: map<Key, Row>, e: Expr, v: Value, residual: Option<Expr>, who: Caller)
    requires Planted(m, f) && Agree(schema, indexes, f, rows) && SchemaOk(schema) && SeekSound(schema)
    requires EvaluatesOn(rows, schema.columns, e, who) && v != Null && Extracted(e, KeyName(schema), Some(v), residual)
    ensures forall k :: k in TableKeys(f[0]) <==> k in rows
    ensures var table := ModelOf(f[0]);
            var found := if EncodeKey(v) in table then [DecodeRow(schema, table[EncodeKey(v)])] else [];
            var wanted := Stream(Where(AllRows(f[0], rows), schema.columns, e, who), None);
            && (residual.None? ==> Stream(found, None) == wanted)
            && (residual.Some? ==> FilterStream(Stream(found, None), schema.columns, residual.value, who) == wanted)
  {
    hide Rank, MapOf, Planted, Agree, RowsOk, TableIs, Extracted, EvaluatesOn, EncodeKey, Readable, TableKeys, Flat,
      DecodeRow, CheckRow, FilterStream, Where, RowsAt, Sound, ModelOf, Conjoined;
    TableAgrees(m, schema, indexes, f, rows);
    SeekThenFilter(schema, TableKeys(f[0]), rows, e, KeyName(schema), v, residual, who);
    if !KeyColumnFirst(schema) {
      JsonFirstMeansEmpty(schema, rows, e, v, residual, who);
    }
    NotNullThere(schema, rows, PrimaryKeyIndex(schema), v);
    TableSeekYields(schema, f[0], rows, v);
  }

  lemma YieldsListed(rs: seq<Row>, keys: seq<Key>, schema: TableSchema, indexes: seq<IndexSchema>,
                     rows: map<Key, Row>, access: Access, who: Caller)
    requires RowsOk(schema, rows) && IndexesUsable(schema, indexes) && Listed(rs, keys, rows)
    requires forall k :: k in keys <==> k in rows && Read(schema, indexes, rows, access, k)
    ensures Yields(Stream(rs, None), schema, indexes, rows, access, None, who)
  {
    hide Rank, Read, RowsOk, IndexesUsable;
    assert ReadInOrder(keys, schema, indexes, rows, access);
  }

  lemma OneKeyRead(schema: TableSchema, indexes: seq<IndexSchema>, rows: map<Key, Row>, v: Literal)
    requires RowsOk(schema, rows) && IndexesUsable(schema, indexes)
    ensures forall k :: k in (if EncodeKey(v) in rows then [EncodeKey(v)] else []) <==>
              k in rows && Read(schema, indexes, rows, ByKey(v), k)
  {
    hide RowsOk, IndexesUsable, EncodeKey;
  }

  lemma IndexKeysRead(schema: TableSchema, indexes: seq<IndexSchema>, rows: map<Key, Row>, i: nat, v: Literal)
    requires RowsOk(schema, rows) && IndexesUsable(schema, indexes) && i < |indexes|
    ensures IndexOk(schema, indexes[i])
    ensures forall k :: Read(schema, indexes, rows, ByIndex(i, v), k) <==>
              Follows(schema, IndexColumn(schema, indexes[i]), rows, EncodeKey(v), k)
  {
    hide RowsOk, EncodeKey, Follows;
  }

  lemma KeyRead(m: map<PageNo, Page>, schema: TableSchema, indexes: seq<IndexSchema>, f: seq<Rooted>,
                rows: map<Key, Row>, v: Literal, who: Caller)
    requires Planted(m, f) && Agree(schema, indexes, f, rows)
    ensures RowsOk(schema, rows) && IndexesUsable(schema, indexes)
    ensures Yields(Stream(TableFinds(schema, f[0], EncodeKey(v)), None), schema, indexes, rows, ByKey(v), None, who)
  {
    UsableIndexes(m, schema, indexes, f, rows);
    TableAgrees(m, schema, indexes, f, rows);
    var k := EncodeKey(v);
    OneKeyRead(schema, indexes, rows, v);
    hide *;
    TableSeekFromTable(schema, f[0], rows, k);
    YieldsListed(TableFinds(schema, f[0], k), if k in rows then [k] else [], schema, indexes, rows, ByKey(v), who);
  }

  lemma IndexRead(m: map<PageNo, Page>, schema: TableSchema, indexes: seq<IndexSchema>, f: seq<Rooted>,
                  rows: map<Key, Row>, i: nat, v: Literal, who: Caller)
    requires Planted(m, f) && Agree(schema, indexes, f, rows) && i < |indexes|
    ensures RowsOk(schema, rows) && IndexesUsable(schema, indexes) && |f| == 1 + |indexes|
    ensures Yields(Stream(IndexFinds(schema, f[0], f[1 + i], EncodeKey(v)), None), schema, indexes, rows, ByIndex(i, v),
                   None, who)
  {
    UsableIndexes(m, schema, indexes, f, rows);
    TableAgrees(m, schema, indexes, f, rows);
    IndexAgrees(m, schema, indexes, f, rows, i);
    var c := IndexColumn(schema, indexes[i]);
    IndexKeysRead(schema, indexes, rows, i, v);
    hide *;
    var found := IndexSeekFromTable(schema, c, f[0], f[1 + i], rows, EncodeKey(v));
    YieldsListed(IndexFinds(schema, f[0], f[1 + i], EncodeKey(v)), found, schema, indexes, rows, ByIndex(i, v), who);
  }

  lemma ScanRead(m: map<PageNo, Page>, schema: TableSchema, indexes: seq<IndexSchema>, f: seq<Rooted>,
                 rows: map<Key, Row>, who: Caller)
    requires Planted(m, f) && Agree(schema, indexes, f, rows)
    ensures RowsOk(schema, rows) && IndexesUsable(schema, indexes) && |f| > 0
    ensures Yields(Stream(DecodedRows(Flat(f[0].tree), schema), None), schema, indexes, rows, WholeTable, None, who)
  {
    UsableIndexes(m, schema, indexes, f, rows);
    TableAgrees(m, schema, indexes, f, rows);
    hide Planted, Agree, RowsOk, IndexesUsable, DecodedRows, Listed, Yields, Sound, TableIs, Readable, ModelOf,
      TableKeys;
    ScanFromTable(schema, f[0], rows);
    YieldsListed(DecodedRows(Flat(f[0].tree), schema), TableKeys(f[0]), schema, indexes, rows, WholeTable, who);
  }

  lemma UsableIndexes(m: map<PageNo, Page>, schema: TableSchema, indexes: seq<IndexSchema>, f: seq<Rooted>,
                      rows: map<Key, Row>)
    requires Planted(m, f) && Agree(schema, indexes, f, rows)
    ensures RowsOk(schema, rows) && IndexesUsable(schema, indexes)
  {
    hide Planted, RowsOk, TableIs, IndexIs, IndexOk, ModelOf;
  }

  /** The seek or scan, and what is left of the clause for a filter. */
  method ChooseAccess(schema: TableSchema, indexes: seq<IndexSchema>, where: Option<Expr>, ghost who: Caller,
                      ghost f: seq<Rooted>, ghost rows: map<Key, Row>, ghost m: map<PageNo, Page>)
    returns (plan: Operator, residual: Option<Expr>)
    requires Planted(m, f) && Agree(schema, indexes, f, rows)
    ensures plan.Valid(m) && fresh(plan.Repr()) && plan.Object() in plan.Repr()
    ensures RowsOk(schema, rows) && IndexesUsable(schema, indexes)
    ensures Yields(plan.Rest(), schema, indexes, rows, AccessFor(schema, indexes, where), None, who)
    ensures residual == Remaining(schema, indexes, where)
    ensures forall k :: k in TableKeys(f[0]) ==> k in rows
    ensures Plannable(schema, rows, where, who) ==>
              (if residual.None? then plan.Rest() else FilterStream(plan.Rest(), schema.columns, residual.value, who))
              == Stream(Wanted(schema, f[0], rows, where, who), None)
  {
    hide Rank, MapOf, Planted, Agree, RowsOk, TableIs, IndexIs, Extracted, EvaluatesOn, EncodeKey,
      Readable, TableKeys, Flat, DecodeRow, PartitionPoint, CheckRow, FilterStream, Where, KeysWith, RowsAt,
      DecodedRows, SeekRows, Sound, ModelOf, Conjoined, Listed, SeekSound, Seekable, FirstAt, FirstIndexed, Without,
      IndexMatch, PkMatch, Conjuncts, ContainsOr, Yields, FirstTaken, FirstIndexTaken, Indexable;
    TableAgrees(m, schema, indexes, f, rows);
    UsableIndexes(m, schema, indexes, f, rows);
    hide IndexesUsable;
    ghost var all := TableKeys(f[0]);
    var pk := PrimaryKeyIndex(schema);
    var v;
    v, residual := ExtractPkEquality(where, schema.columns[pk].name);
    if v.Some? {
      var seek := new TableSeek(schema, EncodeKey(v.value), f[0], m);
      plan := OfTableSeek(seek);
      KeyAccess(schema, indexes, where.value, v, residual);
      KeyRead(m, schema, indexes, f, rows, v.value, who);
      if Plannable(schema, rows, where, who) {
        KeyPlanYields(m, schema, indexes, f, rows, where.value, v.value, residual, who);
      }
      return;
    }
    var found := FindIndexEquality(residual, indexes);
    if where.Some? {
      OtherAccess(schema, indexes, where.value, residual);
    }
    if found.Some? {
      var (i, value, rest) := found.value;
      IndexAgrees(m, schema, indexes, f, rows, i);
      var seek := new IndexSeek(schema, indexes[i].rootPage, EncodeKey(value), f[0], f[1 + i], m);
      plan := OfIndexSeek(seek);
      IndexAccess(schema, indexes, where.value, residual, i, value, rest);
      IndexRead(m, schema, indexes, f, rows, i, value, who);
      if Plannable(schema, rows, where, who) {
        IndexPlanYields(m, schema, indexes, f, rows, where.value, residual, i, value, rest, who);
      }
      residual := rest;
    } else {
      var scan := new SeqScan(schema, f[0], m);
      plan := OfSeqScan(scan);
      ScanYields(schema, f[0], rows);
      ScanRead(m, schema, indexes, f, rows, who);
      if where.Some? && Plannable(schema, rows, where, who) {
        ScanThenFilter(schema, all, rows, where.value, schema.columns[pk].name, residual, who);
      }
    }
  }

  method BuildSelectPlan(schema: TableSchema, indexes: seq<IndexSchema>, where: Option<Expr>, who: Caller,
                         ghost f: seq<Rooted>, ghost rows: map<Key, Row>, ghost m: map<PageNo, Page>)
    returns (plan: Operator)
    requires Planted(m, f) && Agree(schema, indexes, f, rows)
    ensures plan.Valid(m) && fresh(plan.Repr()) && plan.Object() in plan.Repr()
    ensures RowsOk(schema, rows) && IndexesUsable(schema, indexes)
    ensures Yields(plan.Rest(), schema, indexes, rows, AccessFor(schema, indexes, where),
                   Remaining(schema, indexes, where), who)
    ensures forall k :: k in TableKeys(f[0]) ==> k in rows
    ensures Plannable(schema, rows, where, who) ==> plan.Rest() == Stream(Wanted(schema, f[0], rows, where, who), None)
  {
    hide Planted, Agree, TableKeys, Plannable, Wanted, FilterStream, RowsOk, IndexesUsable, AccessFor, Remaining;
    var residual;
    plan, residual := ChooseAccess(schema, indexes, where, who, f, rows, m);
    if residual.Some? {
      var filter := new Filter(plan, schema.columns, residual.value, who, m);
      plan := OfFilter(filter);
    }
  }

  // ----- What a plan yields of any clause

  /** No row of the table that is read makes the clause fail. */
  ghost predicate ReadsAll(schema: TableSchema, indexes: seq<IndexSchema>, rows: map<Key, Row>, access: Access,
                           clause: Option<Expr>, who: Caller)
    requires RowsOk(schema, rows) && IndexesUsable(schema, indexes)
  {
    forall k :: k in rows && Read(schema, indexes, rows, access, k) ==> EvaluatesAt(schema, rows, clause, who, k)
  }

  ghost predicate EvaluatesAt(schema: TableSchema, rows: map<Key, Row>, clause: Option<Expr>, who: Caller, k: Key)
    requires k in rows
  {
    clause.Some? ==> Evaluates(clause.value, schema.columns, rows[k], who)
  }

  ghost predicate TruthyAt(schema: TableSchema, rows: map<Key, Row>, clause: Option<Expr>, who: Caller, k: Key)
    requires k in rows
  {
    clause.Some? ==> Truthy(clause.value, schema.columns, rows[k], who)
  }

  /** The error is that of the first row read, in key order, on which the clause fails. */
  ghost predicate FailsOn(schema: TableSchema, indexes: seq<IndexSchema>, rows: map<Key, Row>, access: Access,
                          clause: Option<Expr>, who: Caller, e: PlanError)
    requires RowsOk(schema, rows) && IndexesUsable(schema, indexes)
  {
    exists k ::
      && k in rows && Read(schema, indexes, rows, access, k)
      && clause.Some? && Eval(clause.value, schema.columns, rows[k], who) == Err(e)
      && forall k' :: k' in rows && Read(schema, indexes, rows, access, k') && Rank(k') < Rank(k) ==>
           EvaluatesAt(schema, rows, clause, who, k')
  }

  /** The keys of the rows that are read and of which the clause is true. */
  ghost function KeysFound(schema: TableSchema, indexes: seq<IndexSchema>, rows: map<Key, Row>, access: Access,
                           clause: Option<Expr>, who: Caller): set<Key>
    requires RowsOk(schema, rows) && IndexesUsable(schema, indexes)
  {
    set k | k in rows && Read(schema, indexes, rows, access, k) && TruthyAt(schema, rows, clause, who, k)
  }

  /** A filter fails on the first row that makes it fail; else it keeps the rows of which the clause is true. */
  lemma {:induction false} FilterKeeps(schema: TableSchema, keys: seq<Key>, rows: map<Key, Row>, e: Expr, who: Caller)
    returns (kept: seq<Key>)
    requires Increasing(keys) && forall i :: 0 <= i < |keys| ==> keys[i] in rows
    ensures var s := FilterStream(Stream(RowsAt(keys, rows), None), schema.columns, e, who);
            && Listed(s.rows, kept, rows)
            && (forall k :: k in kept ==> k in keys && Truthy(e, schema.columns, rows[k], who))
            && (s.error.None? ==>
                  && (forall i :: 0 <= i < |keys| ==> Evaluates(e, schema.columns, rows[keys[i]], who))
                  && forall k :: k in kept <==> k in keys && Truthy(e, schema.columns, rows[k], who))
            && (s.error.Some? ==> FirstFails(schema, keys, rows, e, who, s.error.value))
    decreases |keys|
  {
    hide Rank, Eval, Increasing;
    var rs := RowsAt(keys, rows);
    FilterStep(Stream(rs, None), schema.columns, e, who);
    TailIncreasing(keys);
    if keys == [] {
      kept := [];
    } else {
      var v := Eval(e, schema.columns, rs[0], who);
      if v.Err? {
        kept := [];
        assert FailsAt(schema, keys, rows, e, who, v.e, 0);
      } else {
        assert rs[1..] == RowsAt(keys[1..], rows);
        var rest := FilterKeeps(schema, keys[1..], rows, e, who);
        Prepended(keys, rest);
        RowsAtNext(keys[0], rest, rows);
        kept := if IsTruthy(v.v) then [keys[0]] + rest else rest;
        KeptNext(schema, keys, rows, e, who, rest);
      }
    }
  }

  ghost predicate FailsAt(schema: TableSchema, keys: seq<Key>, rows: map<Key, Row>, e: Expr, who: Caller,
                          error: PlanError, i: int)
  {
    && 0 <= i < |keys| && (forall j :: 0 <= j <= i ==> keys[j] in rows)
    && Eval(e, schema.columns, rows[keys[i]], who) == Err(error)
    && forall j :: 0 <= j < i ==> Evaluates(e, schema.columns, rows[keys[j]], who)
  }

  ghost predicate FirstFails(schema: TableSchema, keys: seq<Key>, rows: map<Key, Row>, e: Expr, who: Caller,
                             error: PlanError)
  {
    exists i :: FailsAt(schema, keys, rows, e, who, error, i)
  }

  lemma KeptNext(schema: TableSchema, keys: seq<Key>, rows: map<Key, Row>, e: Expr, who: Caller, rest: seq<Key>)
    requires keys != [] && (forall i :: 0 <= i < |keys| ==> keys[i] in rows)
    requires forall k :: k in rest ==> k in keys[1..] && Truthy(e, schema.columns, rows[k], who)
    requires Evaluates(e, schema.columns, rows[keys[0]], who)
    ensures var kept := if Truthy(e, schema.columns, rows[keys[0]], who) then [keys[0]] + rest else rest;
            && (forall k :: k in kept ==> k in keys && Truthy(e, schema.columns, rows[k], who))
            && ((forall k :: k in rest <==> k in keys[1..] && Truthy(e, schema.columns, rows[k], who)) ==>
                  forall k :: k in kept <==> k in keys && Truthy(e, schema.columns, rows[k], who))
    ensures (forall i :: 0 <= i < |keys| - 1 ==> Evaluates(e, schema.columns, rows[keys[1..][i]], who)) ==>
              forall i :: 0 <= i < |keys| ==> Evaluates(e, schema.columns, rows[keys[i]], who)
    ensures forall error :: FirstFails(schema, keys[1..], rows, e, who, error) ==>
              FirstFails(schema, keys, rows, e, who, error)
  {
    hide Truthy, Evaluates, Eval;
    assert keys == [keys[0]] + keys[1..];
    forall error | FirstFails(schema, keys[1..], rows, e, who, error)
      ensures FirstFails(schema, keys, rows, e, who, error)
    {
      var i :| FailsAt(schema, keys[1..], rows, e, who, error, i);
      assert FailsAt(schema, keys, rows, e, who, error, i + 1);
    }
  }

  lemma YieldsMeans(s: Stream, schema: TableSchema, indexes: seq<IndexSchema>, rows: map<Key, Row>, access: Access,
                    clause: Option<Expr>, who: Caller) returns (keys: seq<Key>)
    requires RowsOk(schema, rows) && IndexesUsable(schema, indexes)
    requires Yields(s, schema, indexes, rows, access, clause, who)
    ensures Listed(s.rows, keys, rows)
    ensures forall k :: k in keys ==> k in KeysFound(schema, indexes, rows, access, clause, who)
    ensures s.error.None? ==>
              && ReadsAll(schema, indexes, rows, access, clause, who)
              && forall k :: k in keys <==> k in KeysFound(schema, indexes, rows, access, clause, who)
    ensures s.error.Some? ==>
              && !ReadsAll(schema, indexes, rows, access, clause, who)
              && FailsOn(schema, indexes, rows, access, clause, who, s.error.value)
  {
    hide Rank, Eval, RowsOk, IndexesUsable, Read, Truthy, FilterStream, Increasing;
    var all :| ReadInOrder(all, schema, indexes, rows, access)
               && s == Filtered(RowsAt(all, rows), schema.columns, clause, who);
    assert forall i :: 0 <= i < |all| ==> all[i] in all;
    if clause.None? {
      keys := all;
    } else {
      keys := FilterKeeps(schema, all, rows, clause.value, who);
      FoundKept(s.error, schema, indexes, rows, access, clause.value, who, all, keys);
    }
  }

  lemma FoundKept(error: Option<PlanError>, schema: TableSchema, indexes: seq<IndexSchema>, rows: map<Key, Row>,
                  access: Access, e: Expr, who: Caller, all: seq<Key>, kept: seq<Key>)
    requires RowsOk(schema, rows) && IndexesUsable(schema, indexes) && ReadInOrder(all, schema, indexes, rows, access)
    requires forall k :: k in kept ==> k in all && Truthy(e, schema.columns, rows[k], who)
    requires error.None? ==>
               && (forall i :: 0 <= i < |all| ==> Evaluates(e, schema.columns, rows[all[i]], who))
               && forall k :: k in kept <==> k in all && Truthy(e, schema.columns, rows[k], who)
    requires error.Some? ==> FirstFails(schema, all, rows, e, who, error.value)
    ensures forall k :: k in kept ==> k in KeysFound(schema, indexes, rows, access, Some(e), who)
    ensures error.None? ==>
              && ReadsAll(schema, indexes, rows, access, Some(e), who)
              && forall k :: k in kept <==> k in KeysFound(schema, indexes, rows, access, Some(e), who)
    ensures error.Some? ==>
              && !ReadsAll(schema, indexes, rows, access, Some(e), who)
              && FailsOn(schema, indexes, rows, access, Some(e), who, error.value)
  {
    hide Rank, Eval, RowsOk, IndexesUsable, Read, Truthy, Evaluates, Increasing, FailsOn;
    if error.Some? {
      var i :| FailsAt(schema, all, rows, e, who, error.value, i);
      FailsFirst(schema, indexes, rows, access, e, who, error.value, all, i);
    } else {
      forall k | k in all ensures Evaluates(e, schema.columns, rows[k], who) {
        var i :| 0 <= i < |all| && all[i] == k;
      }
    }
  }

  lemma FailsFirst(schema: TableSchema, indexes: seq<IndexSchema>, rows: map<Key, Row>, access: Access, e: Expr,
                   who: Caller, error: PlanError, all: seq<Key>, i: int)
    requires RowsOk(schema, rows) && IndexesUsable(schema, indexes)
    requires ReadInOrder(all, schema, indexes, rows, access) && FailsAt(schema, all, rows, e, who, error, i)
    ensures !ReadsAll(schema, indexes, rows, access, Some(e), who)
    ensures FailsOn(schema, indexes, rows, access, Some(e), who, error)
  {
    hide Rank, Eval, RowsOk, IndexesUsable, Read;
    var k := all[i];
    assert k in all;
    forall k' | k' in rows && Read(schema, indexes, rows, access, k') && Rank(k') < Rank(k)
      ensures EvaluatesAt(schema, rows, Some(e), who, k')
    {
      var j :| 0 <= j < |all| && all[j] == k';
      assert j < i;
    }
    assert !EvaluatesAt(schema, rows, Some(e), who, k);
  }

  // ----- When the rows found are those that the clause asks for

  function ErrorOf(e: Expr, columns: seq<Column>, row: Row, who: Caller): Option<PlanError> {
    var v := Eval(e, columns, row, who);
    if v.Err? then Some(v.e) else None
  }

  function FirstError(cs: seq<Expr>, columns: seq<Column>, row: Row, who: Caller): Option<PlanError> {
    if cs == [] then None
    else if ErrorOf(cs[0], columns, row, who).Some? then ErrorOf(cs[0], columns, row, who)
    else FirstError(cs[1..], columns, row, who)
  }

  lemma {:induction false} FirstErrorConcat(a: seq<Expr>, b: seq<Expr>, columns: seq<Column>, row: Row, who: Caller)
    ensures FirstError(a + b, columns, row, who)
         == if FirstError(a, columns, row, who).Some? then FirstError(a, columns, row, who)
            else FirstError(b, columns, row, who)
  {
    hide ErrorOf;
    if a == [] {
      assert a + b == b;
    } else {
      assert (a + b)[1..] == a[1..] + b;
      FirstErrorConcat(a[1..], b, columns, row, who);
    }
  }

  lemma {:induction false} FirstErrorMeans(cs: seq<Expr>, columns: seq<Column>, row: Row, who: Caller)
    ensures FirstError(cs, columns, row, who).None? <==> AllEvaluate(cs, columns, row, who)
  {
    hide Eval;
    if cs != [] {
      FirstErrorMeans(cs[1..], columns, row, who);
      assert forall i :: 0 <= i < |cs| - 1 ==> cs[1..][i] == cs[i + 1];
    }
  }

  /** A clause fails with the error of the first conjunct that fails. */
  lemma {:induction false} ConjunctsFail(e: Expr, columns: seq<Column>, row: Row, who: Caller)
    ensures ErrorOf(e, columns, row, who) == FirstError(Conjuncts(e), columns, row, who)
  {
    match e {
      case BinaryOp(And, left, right) =>
        ConjunctsFail(left, columns, row, who);
        ConjunctsFail(right, columns, row, who);
        FirstErrorConcat(Conjuncts(left), Conjuncts(right), columns, row, who);
      case _ =>
        assert Conjuncts(e)[1..] == [];
    }
  }

  lemma {:induction false} ConjoinedFails(cs: seq<Expr>, columns: seq<Column>, row: Row, who: Caller)
    requires cs != []
    ensures ErrorOf(Conjoined(cs).value, columns, row, who) == FirstError(cs, columns, row, who)
    decreases |cs|
  {
    if |cs| == 1 {
      assert cs[1..] == [];
    } else {
      var front, last := cs[..|cs| - 1], cs[|cs| - 1];
      ConjoinedFails(front, columns, row, who);
      FirstErrorConcat(front, [last], columns, row, who);
      assert cs == front + [last] && [last][1..] == [];
    }
  }

  /** Two clauses, of which the second may be absent, fail alike and are true alike. */
  ghost predicate SameOutcome(e: Expr, e': Option<Expr>, columns: seq<Column>, row: Row, who: Caller) {
    && ErrorOf(e, columns, row, who) == (if e'.None? then None else ErrorOf(e'.value, columns, row, who))
    && (Truthy(e, columns, row, who) <==> (e'.Some? ==> Truthy(e'.value, columns, row, who)))
  }

  lemma Failing(e: Expr, columns: seq<Column>, row: Row, who: Caller)
    ensures ErrorOf(e, columns, row, who).None? <==> Evaluates(e, columns, row, who)
    ensures Truthy(e, columns, row, who) ==> Evaluates(e, columns, row, who)
  {
    hide Eval;
  }

  lemma RegroupedOutcome(e: Expr, columns: seq<Column>, row: Row, who: Caller)
    ensures SameOutcome(e, Conjoined(Conjuncts(e)), columns, row, who)
  {
    hide Eval, ErrorOf, FirstError, Conjuncts, Conjoined, Truthy, Evaluates, AllEvaluate, AllTruthy;
    var cs := Conjuncts(e);
    ConjunctsFail(e, columns, row, who);
    ConjoinedFails(cs, columns, row, who);
    Failing(e, columns, row, who);
    Failing(Conjoined(cs).value, columns, row, who);
    ConjunctsMean(e, columns, row, who);
    ConjoinedMeans(cs, columns, row, who);
  }

  /** A conjunct that is true may be left out. */
  lemma TakenOutcome(e: Expr, at: nat, columns: seq<Column>, row: Row, who: Caller)
    requires at < |Conjuncts(e)| && Truthy(Conjuncts(e)[at], columns, row, who)
    ensures SameOutcome(e, Conjoined(Without(Conjuncts(e), at)), columns, row, who)
  {
    hide Eval, ErrorOf, FirstError, Conjuncts, Conjoined, Truthy, Evaluates, AllEvaluate, AllTruthy;
    var cs := Conjuncts(e);
    var rest := Without(cs, at);
    ConjunctsFail(e, columns, row, who);
    Failing(e, columns, row, who);
    Failing(cs[at], columns, row, who);
    ConjunctsMean(e, columns, row, who);
    TakenOutMeans(cs, at, rest, columns, row, who);
    WithoutFails(cs, at, columns, row, who);
    FirstErrorMeans(cs, columns, row, who);
    if rest == [] {
      Nothing(columns, row, who);
    } else {
      ConjoinedFails(rest, columns, row, who);
      Failing(Conjoined(rest).value, columns, row, who);
      ConjoinedMeans(rest, columns, row, who);
    }
  }

  lemma Nothing(columns: seq<Column>, row: Row, who: Caller)
    ensures FirstError([], columns, row, who) == None && AllEvaluate([], columns, row, who)
    ensures AllTruthy([], columns, row, who) && Conjoined([]) == None
  {
  }

  lemma WithoutFails(cs: seq<Expr>, at: nat, columns: seq<Column>, row: Row, who: Caller)
    requires at < |cs| && ErrorOf(cs[at], columns, row, who).None?
    ensures FirstError(Without(cs, at), columns, row, who) == FirstError(cs, columns, row, who)
  {
    hide ErrorOf;
    var a, b := cs[..at], cs[at + 1..];
    assert cs == a + ([cs[at]] + b);
    FirstErrorConcat(a, [cs[at]] + b, columns, row, who);
    FirstErrorConcat(a, b, columns, row, who);
    assert ([cs[at]] + b)[1..] == b;
  }

  /** The literal that a seek looks for is taken for no other value.  A column before the key with its name, or a
      literal of another type whose bytes a value of the column has, and a seek finds rows that the clause is not true
      of. */
  predicate SeeksTrue(schema: TableSchema, indexes: seq<IndexSchema>, where: Option<Expr>)
    requires SchemaOk(schema)
  {
    match AccessFor(schema, indexes, where)
    case WholeTable => true
    case ByKey(v) => KeyColumnFirst(schema) && !Clashes(v, schema.columns[PrimaryKeyIndex(schema)].ty)
    case ByIndex(i, v) =>
      && i < |indexes| && IndexColumn(schema, indexes[i]) < |schema.columns|
      && !Strays(v, schema.columns[IndexColumn(schema, indexes[i])].ty, schema.columns[PrimaryKeyIndex(schema)].ty)
  }

  /** The row has the value that the access looks for. */
  ghost predicate Sought(schema: TableSchema, indexes: seq<IndexSchema>, access: Access, row: Row)
    requires SchemaOk(schema)
  {
    match access
    case WholeTable => true
    case ByKey(v) => PrimaryKeyIndex(schema) < |row| && row[PrimaryKeyIndex(schema)] == v
    case ByIndex(i, v) =>
      i < |indexes| && IndexColumn(schema, indexes[i]) < |row| && row[IndexColumn(schema, indexes[i])] == v
  }

  lemma ReadSought(schema: TableSchema, indexes: seq<IndexSchema>, rows: map<Key, Row>, where: Option<Expr>, k: Key)
    requires RowsOk(schema, rows) && IndexesUsable(schema, indexes) && SeeksTrue(schema, indexes, where) && k in rows
    ensures var access := AccessFor(schema, indexes, where);
            Read(schema, indexes, rows, access, k) <==> Sought(schema, indexes, access, rows[k])
  {
    hide AccessFor, Clashes, Strays, Follows, CheckRow, RowKey, EncodeKey;
    match AccessFor(schema, indexes, where) {
      case WholeTable =>
      case ByKey(v) => KeyMeans(schema, rows, v, k);
      case ByIndex(i, v) => FollowsMeans(schema, IndexColumn(schema, indexes[i]), rows, v, k);
    }
  }

  lemma {:induction false} EqualityHolds(e: Expr, column: string, v: Value, columns: seq<Column>, row: Row,
                                         who: Caller)
    requires PkMatch(e, column) == Some(v) && FindColumn(columns, column) < |columns| == |row|
    requires row[FindColumn(columns, column)] == v
    ensures Truthy(e, columns, row, who)
  {
    hide Rank, SqlCmp, CompareBytes;
    assert Eval(ColumnRef(column), columns, row, who) == Lookup(columns, row, column);
    var literal := if e.left == ColumnRef(column) then e.right else e.left;
    assert LiteralValue(literal) == Some(v) && Eval(literal, columns, row, who) == Val(v);
    assert Comparable(v, v);
    SqlCmpEqual(v, v);
  }

  /** A row that has the value does to the clause what it does to the rest of it, and the clause is true of no other. */
  lemma SoughtOutcome(schema: TableSchema, indexes: seq<IndexSchema>, e: Expr, row: Row, who: Caller)
    requires SchemaOk(schema) && SeeksTrue(schema, indexes, Some(e)) && |row| == |schema.columns|
    ensures Sought(schema, indexes, AccessFor(schema, indexes, Some(e)), row) ==>
              SameOutcome(e, Remaining(schema, indexes, Some(e)), schema.columns, row, who)
    ensures Truthy(e, schema.columns, row, who) ==>
              Sought(schema, indexes, AccessFor(schema, indexes, Some(e)), row)
  {
    hide Conjuncts, Conjoined, Truthy, ErrorOf, Clashes, Strays, PkMatch, IndexMatch, Without, SameOutcome, Evaluates;
    if ContainsOr(e) {
      Itself(e, schema.columns, row, who);
    } else {
      var cs := Conjuncts(e);
      var i, j := FirstMatch(cs, KeyName(schema)), FirstIndexMatch(cs, indexes);
      if i < |cs| {
        TakenRow(e, i, KeyName(schema), PkMatch(cs[i], KeyName(schema)).value, schema.columns, row, who);
      } else if j < |cs| {
        var (at, v) := IndexMatch(cs[j], indexes).value;
        TakenRow(e, j, indexes[at].column, v, schema.columns, row, who);
      } else {
        RegroupedOutcome(e, schema.columns, row, who);
      }
    }
  }

  lemma Itself(e: Expr, columns: seq<Column>, row: Row, who: Caller)
    ensures SameOutcome(e, Some(e), columns, row, who)
  {
    hide Eval;
  }

  lemma TakenRow(e: Expr, at: nat, column: string, v: Value, columns: seq<Column>, row: Row, who: Caller)
    requires at < |Conjuncts(e)| && PkMatch(Conjuncts(e)[at], column) == Some(v)
    requires FindColumn(columns, column) < |columns| == |row|
    ensures row[FindColumn(columns, column)] == v ==>
              SameOutcome(e, Conjoined(Without(Conjuncts(e), at)), columns, row, who)
    ensures Truthy(e, columns, row, who) ==> row[FindColumn(columns, column)] == v
  {
    hide Conjuncts, Conjoined, Truthy, Evaluates, PkMatch, Without, SameOutcome;
    if row[FindColumn(columns, column)] == v {
      EqualityHolds(Conjuncts(e)[at], column, v, columns, row, who);
      TakenOutcome(e, at, columns, row, who);
    }
    if Truthy(e, columns, row, who) {
      Failing(e, columns, row, who);
      ConjunctsMean(e, columns, row, who);
      EqualityMeans(Conjuncts(e)[at], column, v, columns, row, who);
    }
  }

  /** Then a plan finds exactly the rows that the clause is true of, and fails where and as the clause does, although it
      asks only the rest of it of the rows it reads. */
  lemma FoundExactly(schema: TableSchema, indexes: seq<IndexSchema>, rows: map<Key, Row>, where: Option<Expr>,
                     who: Caller)
    requires RowsOk(schema, rows) && IndexesUsable(schema, indexes) && SeeksTrue(schema, indexes, where)
    ensures var access, rest := AccessFor(schema, indexes, where), Remaining(schema, indexes, where);
            && (ReadsAll(schema, indexes, rows, access, rest, who) <==>
                  ReadsAll(schema, indexes, rows, access, where, who))
            && (forall e :: FailsOn(schema, indexes, rows, access, rest, who, e) <==>
                  FailsOn(schema, indexes, rows, access, where, who, e))
            && KeysFound(schema, indexes, rows, access, rest, who)
               == (set k | k in rows && TruthyAt(schema, rows, where, who, k))
  {
    if where.Some? {
      hide RowsOk, IndexesUsable, SeeksTrue, Read, AccessFor, Remaining, Truthy, Eval, Rank;
      var access, rest := AccessFor(schema, indexes, where), Remaining(schema, indexes, where);
      forall k | k in rows
        ensures Read(schema, indexes, rows, access, k) ==> SameAt(schema, rows, where.value, rest, who, k)
        ensures TruthyAt(schema, rows, where, who, k) ==> Read(schema, indexes, rows, access, k)
      {
        RowWidths(schema, rows);
        ReadSought(schema, indexes, rows, where, k);
        SoughtOutcome(schema, indexes, where.value, rows[k], who);
        SameOutcomeAt(schema, rows, where.value, rest, who, k);
      }
    }
  }

  /** What the two clauses say of one row. */
  ghost predicate SameAt(schema: TableSchema, rows: map<Key, Row>, e: Expr, rest: Option<Expr>, who: Caller, k: Key)
    requires k in rows
  {
    && (EvaluatesAt(schema, rows, Some(e), who, k) <==> EvaluatesAt(schema, rows, rest, who, k))
    && (TruthyAt(schema, rows, Some(e), who, k) <==> TruthyAt(schema, rows, rest, who, k))
    && forall error ::
      Eval(e, schema.columns, rows[k], who) == Err(error) <==>
        rest.Some? && Eval(rest.value, schema.columns, rows[k], who) == Err(error)
  }

  lemma SameOutcomeAt(schema: TableSchema, rows: map<Key, Row>, e: Expr, rest: Option<Expr>, who: Caller, k: Key)
    requires k in rows
    ensures SameOutcome(e, rest, schema.columns, rows[k], who) ==> SameAt(schema, rows, e, rest, who, k)
  {
    hide Eval;
  }

  // ----- When a seek by primary key is right

  /** A seek by primary key and the residual find the rows that the clause lets through, whatever the table holds. */
  ghost predicate SeeksRight(schema: TableSchema)
    requires SchemaOk(schema)
  {
    forall rows, e, v, residual, who ::
      RowsOk(schema, rows) && EvaluatesOn(rows, schema.columns, e, who)
          && Extracted(e, KeyName(schema), Some(v), residual)
      ==> SeekRight(schema, rows, e, v, residual, who)
  }

  ghost predicate SeekRight(schema: TableSchema, rows: map<Key, Row>, e: Expr, v: Value, residual: Option<Expr>,
                            who: Caller)
  {
    forall k :: k in rows ==>
      (Truthy(e, schema.columns, rows[k], who) <==>
         v != Null && k == EncodeKey(v) && (residual.Some? ==> Truthy(residual.value, schema.columns, rows[k], who)))
  }

  lemma LiteralTypes(e: Expr, column: string, v: Value, residual: Option<Expr>)
    requires Extracted(e, column, Some(v), residual)
    ensures v.Integer? || v.Text? || v.Boolean?
  {
    hide Conjuncts, Conjoined, TakenOut;
  }

  /** Under a JSON column that is never null the clause evaluates only where there are no rows. */
  lemma JsonFirstMeansEmpty(schema: TableSchema, rows: map<Key, Row>, e: Expr, v: Value, residual: Option<Expr>,
                            who: Caller)
    requires RowsOk(schema, rows) && SeekSound(schema) && !KeyColumnFirst(schema)
    requires EvaluatesOn(rows, schema.columns, e, who) && Extracted(e, KeyName(schema), Some(v), residual)
    ensures rows == map[]
  {
    var c := FindColumn(schema.columns, KeyName(schema));
    LiteralTypes(e, KeyName(schema), v, residual);
    hide Extracted, Truthy, Evaluates, CheckRow, RowKey;
    if k :| k in rows {
      ExtractedMeans(e, KeyName(schema), Some(v), residual, schema.columns, rows[k], who);
      KeyEncodable(schema, rows[k], c);
      assert false;
    }
  }

  lemma SeekSoundRight(schema: TableSchema, rows: map<Key, Row>, e: Expr, v: Value, residual: Option<Expr>, who: Caller)
    requires RowsOk(schema, rows) && SeekSound(schema)
    requires EvaluatesOn(rows, schema.columns, e, who) && Extracted(e, KeyName(schema), Some(v), residual)
    ensures SeekRight(schema, rows, e, v, residual, who)
  {
    LiteralTypes(e, KeyName(schema), v, residual);
    hide Extracted, Truthy, Evaluates, CheckRow, EncodeKey, Comparable;
    if KeyColumnFirst(schema) {
      var pk := PrimaryKeyIndex(schema);
      forall k | k in rows
        ensures Truthy(e, schema.columns, rows[k], who) <==>
                  k == EncodeKey(v) && (residual.Some? ==> Truthy(residual.value, schema.columns, rows[k], who))
      {
        ExtractedMeans(e, KeyName(schema), Some(v), residual, schema.columns, rows[k], who);
        KeyEncodable(schema, rows[k], pk);
        SameKey(rows[k][pk], v);
      }
    } else {
      JsonFirstMeansEmpty(schema, rows, e, v, residual, who);
    }
  }

  /** A value of each type, "1" being JSON too. */
  function Sample(ty: ColumnType): (v: Value)
    ensures Typed(v, ty) && Encodable(v)
  {
    match ty
    case IntegerType => Integer(1)
    case TextType => Text([49])
    case BooleanType => Boolean(true)
    case JsonType => Json([49])
  }

  /** The literal whose encoding is that of the sample. */
  function SampleLiteral(ty: ColumnType): (e: Expr)
    ensures LiteralValue(e).Some? && EncodeKey(LiteralValue(e).value) == EncodeKey(Sample(ty))
  {
    match ty
    case IntegerType => IntLiteral(1)
    case TextType => StringLiteral([49])
    case BooleanType => BoolLiteral(true)
    case JsonType => StringLiteral([49])
  }

  /** A literal of each type but JSON whose encoding is that of no sample. */
  function OtherLiteral(ty: ColumnType): Expr
    requires !ty.JsonType?
  {
    match ty
    case IntegerType => IntLiteral(0)
    case TextType => StringLiteral([])
    case BooleanType => BoolLiteral(false)
  }

  lemma OtherDiffers(ty: ColumnType, ty': ColumnType)
    requires !ty.JsonType?
    ensures LiteralValue(OtherLiteral(ty)).Some? && LiteralValue(OtherLiteral(ty)).value != Null
    ensures Typed(LiteralValue(OtherLiteral(ty)).value, ty) && Encodable(LiteralValue(OtherLiteral(ty)).value)
    ensures EncodeKey(LiteralValue(OtherLiteral(ty)).value) != EncodeKey(Sample(ty'))
  {
    hide BigEndian;
    var v, w := LiteralValue(OtherLiteral(ty)).value, Sample(ty');
    if Comparable(v, w) {
      SameKey(v, w);
    } else {
      assert |EncodeKey(v)| == if v.Integer? then 8 else 1;
      assert |EncodeKey(w)| == if w.Integer? then 8 else if w.Boolean? then 1 else 2;
      assert w.Boolean? ==> EncodeKey(w)[0] != EncodeKey(v)[0] || v.Integer?;
    }
  }

  /** A row of samples, but for one column. */
  function SampleRow(columns: seq<Column>, c: nat, v: Value): (r: Row)
    requires c < |columns|
    ensures |r| == |columns| && r[c] == v && forall i :: 0 <= i < |r| && i != c ==> r[i] == Sample(columns[i].ty)
  {
    seq(|columns|, i requires 0 <= i < |columns| => if i == c then v else Sample(columns[i].ty))
  }

  lemma SampleRowOk(schema: TableSchema, c: nat, v: Value)
    requires SchemaOk(schema) && c < |schema.columns| && c != PrimaryKeyIndex(schema)
    requires Typed(v, schema.columns[c].ty) && (if v == Null then !schema.columns[c].notNull else Encodable(v))
    ensures var row, k :=
            SampleRow(schema.columns, c, v), EncodeKey(Sample(schema.columns[PrimaryKeyIndex(schema)].ty));
            RowOk(schema, row) && RowKey(schema, row) == k && RowsOk(schema, map[k := row])
  {
    var row := SampleRow(schema.columns, c, v);
    CheckRowMeans(schema.columns, row, 0);
    KeyEncodable(schema, row, PrimaryKeyIndex(schema));
  }

  /** One equality is a clause of its own. */
  lemma OneEquality(column: string, literal: Expr)
    requires LiteralValue(literal).Some?
    ensures var e := BinaryOp(Eq, ColumnRef(column), literal);
            Extracted(e, column, Some(LiteralValue(literal).value), None) && Seekable(e, column)
  {
    var e := BinaryOp(Eq, ColumnRef(column), literal);
    assert Conjuncts(e) == [e] && PkMatch(e, column) == LiteralValue(literal);
    assert TakenOut(Conjuncts(e), 0, []) && Conjoined([]) == None;
    assert FirstAt(Conjuncts(e), column, 0);
  }

  lemma EqualityOn(column: string, literal: Expr, columns: seq<Column>, row: Row, who: Caller)
    requires LiteralValue(literal).Some? && FindColumn(columns, column) < |columns| == |row|
    requires var x := row[FindColumn(columns, column)]; x == Null || x == LiteralValue(literal).value
    ensures var e := BinaryOp(Eq, ColumnRef(column), literal);
            && Evaluates(e, columns, row, who)
            && (Truthy(e, columns, row, who) <==> row[FindColumn(columns, column)] != Null)
  {
    hide Rank, CompareBytes;
    var v := LiteralValue(literal).value;
    assert Eval(ColumnRef(column), columns, row, who) == Val(row[FindColumn(columns, column)]);
    assert Eval(literal, columns, row, who) == Val(v);
    SqlCmpEqual(v, v);
  }

  /** Otherwise there is a table of one row, and an equality on the key's name, on which seek and clause differ. */
  lemma SeekUnsoundWrong(schema: TableSchema, who: Caller) returns (rows: map<Key, Row>, e: Expr, v: Value)
    requires SchemaOk(schema) && !SeekSound(schema)
    ensures RowsOk(schema, rows) && EvaluatesOn(rows, schema.columns, e, who)
    ensures Extracted(e, KeyName(schema), Some(v), None) && Seekable(e, KeyName(schema))
    ensures !SeekRight(schema, rows, e, v, None, who)
  {
    hide Extracted, Seekable, Eval, Evaluates, Truthy, CheckRow, EncodeKey, RowKey, RowOk;
    var name, pk := KeyName(schema), PrimaryKeyIndex(schema);
    var c := FindColumn(schema.columns, name);
    var literal, x;
    if schema.columns[c].ty.JsonType? {
      literal, x := SampleLiteral(schema.columns[pk].ty), Null;
    } else {
      literal := OtherLiteral(schema.columns[c].ty);
      OtherDiffers(schema.columns[c].ty, schema.columns[pk].ty);
      x := LiteralValue(literal).value;
    }
    var row, k := SampleRow(schema.columns, c, x), EncodeKey(Sample(schema.columns[pk].ty));
    SampleRowOk(schema, c, x);
    rows, e, v := map[k := row], BinaryOp(Eq, ColumnRef(name), literal), LiteralValue(literal).value;
    OneEquality(name, literal);
    EqualityOn(name, literal, schema.columns, row, who);
    assert k in rows && rows[k] == row;
  }

  /** Seeks by primary key are right on every table of a schema exactly when the schema passes this test. */
  lemma SeeksRightExactly(schema: TableSchema)
    requires SchemaOk(schema)
    ensures SeeksRight(schema) <==> SeekSound(schema)
  {
    hide SeekSound, SeekRight, Extracted, EvaluatesOn, RowsOk;
    if SeekSound(schema) {
      forall rows, e, v, residual, who |
        RowsOk(schema, rows) && EvaluatesOn(rows, schema.columns, e, who)
            && Extracted(e, KeyName(schema), Some(v), residual)
        ensures SeekRight(schema, rows, e, v, residual, who)
      {
        SeekSoundRight(schema, rows, e, v, residual, who);
      }
    } else {
      var rows, e, v := SeekUnsoundWrong(schema, ANONYMOUS);
    }
  }

  // ----- When a literal of another type finds a row

  /** Of every table and every row of it that is read for the clause, the clause is true. */
  ghost predicate FindsOnlyTrue(schema: TableSchema, indexes: seq<IndexSchema>, e: Expr, who: Caller)
    requires SchemaOk(schema) && IndexesUsable(schema, indexes)
  {
    forall rows, k ::
      RowsOk(schema, rows) && k in rows && Read(schema, indexes, rows, AccessFor(schema, indexes, Some(e)), k) ==>
        Truthy(e, schema.columns, rows[k], who)
  }

  /** A seek for an equality on the primary key finds only rows of which the equality is true, in any table, exactly
      when the literal is not taken for another value of the column.  A text of seven bytes is, for an INTEGER. */
  lemma KeySeekExactly(schema: TableSchema, indexes: seq<IndexSchema>, literal: Expr, who: Caller)
    requires SchemaOk(schema) && IndexesUsable(schema, indexes) && KeyColumnFirst(schema)
    requires LiteralValue(literal).Some?
    ensures var e := BinaryOp(Eq, ColumnRef(KeyName(schema)), literal);
            SeeksTrue(schema, indexes, Some(e)) <==> FindsOnlyTrue(schema, indexes, e, who)
  {
    var e, v := BinaryOp(Eq, ColumnRef(KeyName(schema)), literal), LiteralValue(literal).value;
    OneEqualityAccess(schema, indexes, literal);
    hide RowsOk, IndexesUsable, Truthy, AccessFor, Clashes, EncodeKey;
    if SeeksTrue(schema, indexes, Some(e)) {
      forall rows, k |
        RowsOk(schema, rows) && k in rows && Read(schema, indexes, rows, AccessFor(schema, indexes, Some(e)), k)
        ensures Truthy(e, schema.columns, rows[k], who)
      {
        RowWidths(schema, rows);
        ReadSought(schema, indexes, rows, Some(e), k);
        MatchesLiteral(schema, literal);
        EqualityHolds(e, KeyName(schema), v, schema.columns, rows[k], who);
      }
    } else {
      var rows, k := TakenForAnother(schema, literal, who);
      assert Read(schema, indexes, rows, ByKey(v), k);
    }
  }

  lemma OneEqualityAccess(schema: TableSchema, indexes: seq<IndexSchema>, literal: Expr)
    requires SchemaOk(schema) && LiteralValue(literal).Some?
    ensures var e := BinaryOp(Eq, ColumnRef(KeyName(schema)), literal);
            AccessFor(schema, indexes, Some(e)) == ByKey(LiteralValue(literal).value)
  {
    var e := BinaryOp(Eq, ColumnRef(KeyName(schema)), literal);
    assert Conjuncts(e) == [e] && PkMatch(e, KeyName(schema)) == LiteralValue(literal);
    assert !ContainsOr(literal) && !ContainsOr(e);
  }

  lemma MatchesLiteral(schema: TableSchema, literal: Expr)
    requires SchemaOk(schema) && LiteralValue(literal).Some?
    ensures PkMatch(BinaryOp(Eq, ColumnRef(KeyName(schema)), literal), KeyName(schema)) == LiteralValue(literal)
  {
  }

  /** Otherwise there is a table of one row, which the seek finds and on which the equality itself panics. */
  lemma {:induction false} TakenForAnother(schema: TableSchema, literal: Expr, who: Caller)
    returns (rows: map<Key, Row>, k: Key)
    requires SchemaOk(schema) && KeyColumnFirst(schema) && LiteralValue(literal).Some?
    requires Clashes(LiteralValue(literal).value, schema.columns[PrimaryKeyIndex(schema)].ty)
    ensures RowsOk(schema, rows) && k in rows && k == EncodeKey(LiteralValue(literal).value)
    ensures Eval(BinaryOp(Eq, ColumnRef(KeyName(schema)), literal), schema.columns, rows[k], who) == Err(Panic)
  {
    var v, pk := LiteralValue(literal).value, PrimaryKeyIndex(schema);
    hide EncodeKey, Clashes, Eval, CheckRow, RowKey, RowOk;
    var w := Confusing(v, schema.columns[pk].ty);
    NotComparable(v, schema.columns[pk].ty, w);
    var row := SampleKeyed(schema, w);
    k := EncodeKey(v);
    rows := map[k := row];
    PanicsOn(KeyName(schema), literal, schema.columns, row, who);
  }

  lemma {:induction false} SampleKeyed(schema: TableSchema, w: Value) returns (row: Row)
    requires SchemaOk(schema) && Typed(w, schema.columns[PrimaryKeyIndex(schema)].ty) && Encodable(w)
    ensures RowOk(schema, row) && RowKey(schema, row) == EncodeKey(w) && row[PrimaryKeyIndex(schema)] == w
  {
    row := SampleRow(schema.columns, PrimaryKeyIndex(schema), w);
    CheckRowMeans(schema.columns, row, 0);
  }

  /** Likewise for an equality on another column, and the first index on it. */
  lemma IndexSeekExactly(schema: TableSchema, indexes: seq<IndexSchema>, i: nat, literal: Expr, who: Caller)
    requires SchemaOk(schema) && IndexesUsable(schema, indexes)
    requires i < |indexes| && IndexOn(indexes, indexes[i].column) == i && indexes[i].column != KeyName(schema)
    requires LiteralValue(literal).Some?
    ensures var e := BinaryOp(Eq, ColumnRef(indexes[i].column), literal);
            SeeksTrue(schema, indexes, Some(e)) <==> FindsOnlyTrue(schema, indexes, e, who)
  {
    var e, v := BinaryOp(Eq, ColumnRef(indexes[i].column), literal), LiteralValue(literal).value;
    OneIndexAccess(schema, indexes, i, literal);
    hide RowsOk, Truthy, AccessFor, Strays, EncodeKey, Follows;
    if SeeksTrue(schema, indexes, Some(e)) {
      forall rows, k |
        RowsOk(schema, rows) && k in rows && Read(schema, indexes, rows, AccessFor(schema, indexes, Some(e)), k)
        ensures Truthy(e, schema.columns, rows[k], who)
      {
        RowWidths(schema, rows);
        ReadSought(schema, indexes, rows, Some(e), k);
        EqualityHolds(e, indexes[i].column, v, schema.columns, rows[k], who);
      }
    } else {
      var rows, k := TakenForOthers(schema, indexes[i], literal, who);
      assert Read(schema, indexes, rows, ByIndex(i, v), k);
    }
  }

  lemma {:induction false} OneIndexAccess(schema: TableSchema, indexes: seq<IndexSchema>, i: nat, literal: Expr)
    requires SchemaOk(schema) && LiteralValue(literal).Some?
    requires i < |indexes| && IndexOn(indexes, indexes[i].column) == i && indexes[i].column != KeyName(schema)
    ensures var e, v := BinaryOp(Eq, ColumnRef(indexes[i].column), literal), LiteralValue(literal).value;
            PkMatch(e, indexes[i].column) == Some(v) && AccessFor(schema, indexes, Some(e)) == ByIndex(i, v)
  {
    var e := BinaryOp(Eq, ColumnRef(indexes[i].column), literal);
    var name := KeyName(schema);
    assert IndexMatch(e, indexes) == Some((i, LiteralValue(literal).value)) && !ContainsOr(e);
    assert Conjuncts(e) == [e] && PkMatch(e, name) == None;
    assert FirstMatch([e], name) == 1 && FirstIndexMatch([e], indexes) == 0;
  }

  /** A row with a value in column `c` and another in its primary key. */
  lemma TwoSamples(schema: TableSchema, c: nat, u: Value, w: Value) returns (row: Row)
    requires SchemaOk(schema) && c < |schema.columns| && c != PrimaryKeyIndex(schema)
    requires Typed(u, schema.columns[c].ty) && Typed(w, schema.columns[PrimaryKeyIndex(schema)].ty)
    requires Encodable(u) && Encodable(w)
    ensures RowOk(schema, row) && RowKey(schema, row) == EncodeKey(w)
    ensures row[c] == u && row[PrimaryKeyIndex(schema)] == w
  {
    row := SampleRow(schema.columns, c, u)[PrimaryKeyIndex(schema) := w];
    CheckRowMeans(schema.columns, row, 0);
  }

  /** Otherwise there is a table, of one row or two, of which the seek finds one, and the equality panics on it. */
  lemma TakenForOthers(schema: TableSchema, index: IndexSchema, literal: Expr, who: Caller)
    returns (rows: map<Key, Row>, k: Key)
    requires SchemaOk(schema) && IndexOk(schema, index) && index.column != KeyName(schema)
    requires LiteralValue(literal).Some?
    requires Strays(LiteralValue(literal).value, schema.columns[IndexColumn(schema, index)].ty,
                    schema.columns[PrimaryKeyIndex(schema)].ty)
    ensures RowsOk(schema, rows) && k in rows
    ensures Follows(schema, IndexColumn(schema, index), rows, EncodeKey(LiteralValue(literal).value), k)
    ensures Eval(BinaryOp(Eq, ColumnRef(index.column), literal), schema.columns, rows[k], who) == Err(Panic)
  {
    var v, c, pk := LiteralValue(literal).value, IndexColumn(schema, index), PrimaryKeyIndex(schema);
    var u, w, x := Straying(v, schema.columns[c].ty, schema.columns[pk].ty);
    var found := TwoSamples(schema, c, u, x);
    var other := TwoSamples(schema, c, u, w);
    k := EncodeKey(x);
    var k' := EncodeKey(w);
    SameType(w, x, schema.columns[pk].ty);
    SameKey(w, x);
    hide EncodeKey, Strays, CheckRow, IndexKey;
    rows := map[k' := other, k := found];
    assert RowsOk(schema, rows) by {
      if k == k' {
        assert rows[k] == found;
      }
    }
    var other' := rows[k'];
    assert other'[c] == u && other'[pk] == w;
    IndexKeyIs(schema, c, other');
    PanicsOn(index.column, literal, schema.columns, found, who);
  }

  lemma PanicsOn(column: string, literal: Expr, columns: seq<Column>, row: Row, who: Caller)
    requires LiteralValue(literal).Some? && FindColumn(columns, column) < |columns| == |row|
    requires var x := row[FindColumn(columns, column)]; x != Null && !Comparable(x, LiteralValue(literal).value)
    ensures Eval(BinaryOp(Eq, ColumnRef(column), literal), columns, row, who) == Err(Panic)
  {
    assert Eval(ColumnRef(column), columns, row, who) == Lookup(columns, row, column);
  }
}
