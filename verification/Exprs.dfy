/** Expressions over a row, and what they evaluate to. */
module Exprs {
  import opened Bytes
  import opened Storage
  import opened Values
  import opened Rows

  datatype BinOp = And | Or | Eq | NotEq | Lt | LtEq | Gt | GtEq

  datatype Expr =
    | ColumnRef(name: string)
    | QualifiedColumn(table: string, column: string)
    | IntLiteral(n: i64)
    | StringLiteral(s: seq<byte>)
    | BoolLiteral(b: bool)
    | NullLiteral
    | BinaryOp(op: BinOp, left: Expr, right: Expr)
    | IsNull(arg: Expr, negated: bool)
    | InList(arg: Expr, list: seq<Expr>, negated: bool)
    | AuthUid
    | Unresolved  // an aggregate or a subquery, which has no value on a single row

  datatype PlanError = NoSuchColumn(name: string) | InvalidExpression | InvalidSchema(column: string) | Panic

  datatype Evaluated = Val(v: Value) | Err(e: PlanError)

  /** Who asks: a user or nobody, and whether row-level security is skipped. */
  datatype Caller = Caller(userId: Option<i64>, isAdmin: bool)

  const ANONYMOUS := Caller(None, false)

  predicate IsTruthy(v: Value) {
    v == Boolean(true)
  }

  /** A row that is too short for its columns panics. */
  function At(row: Row, i: nat): Evaluated {
    if i < |row| then Val(row[i]) else Err(Panic)
  }

  function Lookup(columns: seq<Column>, row: Row, name: string): Evaluated {
    var i := FindColumn(columns, name);
    if i < |columns| then At(row, i) else Err(NoSuchColumn(name))
  }

  function EvalBinOp(op: BinOp, l: Value, r: Value): Evaluated {
    match op
    case And => Val(Boolean(IsTruthy(l) && IsTruthy(r)))
    case Or => Val(Boolean(IsTruthy(l) || IsTruthy(r)))
    case _ =>
      if l == Null || r == Null then Val(Boolean(false))
      else if !Comparable(l, r) then Err(Panic)
      else Val(Boolean(Compare(op, SqlCmp(l, r))))
  }

  predicate Compare(op: BinOp, ord: Ordering) {
    match op
    case Eq => ord == Equal
    case NotEq => ord != Equal
    case Lt => ord == Less
    case LtEq => ord != Greater
    case Gt => ord == Greater
    case GtEq => ord != Less
    case _ => false
  }

  /** Both operands are evaluated, whatever the first one gives. */
  function Eval(e: Expr, columns: seq<Column>, row: Row, who: Caller): Evaluated
    decreases e
  {
    match e
    case ColumnRef(name) => Lookup(columns, row, name)
    case QualifiedColumn(table, column) =>
      var qualified := table + "." + column;
      if FindColumn(columns, qualified) == |columns| && FindColumn(columns, column) < |columns| then
        Lookup(columns, row, column)
      else Lookup(columns, row, qualified)
    case IntLiteral(n) => Val(Integer(n))
    case StringLiteral(s) => Val(Text(s))
    case BoolLiteral(b) => Val(Boolean(b))
    case NullLiteral => Val(Null)
    case BinaryOp(op, left, right) =>
      var l := Eval(left, columns, row, who);
      if l.Err? then l else
        var r := Eval(right, columns, row, who);
        if r.Err? then r else EvalBinOp(op, l.v, r.v)
    case IsNull(arg, negated) =>
      var v := Eval(arg, columns, row, who);
      if v.Err? then v else Val(Boolean((v.v == Null) != negated))
    case InList(arg, list, negated) =>
      var v := Eval(arg, columns, row, who);
      if v.Err? || v.v == Null then v else
        var found := EvalIn(v.v, list, columns, row, who);
        if found.Err? then found else Val(Boolean(IsTruthy(found.v) != negated))
    case AuthUid => Val(if who.userId.Some? then Integer(who.userId.value) else Null)
    case Unresolved => Err(InvalidExpression)
  }

  /** The search stops at the first item that is equal; items after it are not evaluated. */
  function EvalIn(target: Value, list: seq<Expr>, columns: seq<Column>, row: Row, who: Caller): Evaluated
    decreases list
  {
    if list == [] then Val(Boolean(false)) else
      var v := Eval(list[0], columns, row, who);
      if v.Err? then v
      else if v.v == target then Val(Boolean(true))
      else EvalIn(target, list[1..], columns, row, who)
  }

  /** The clause lets the row through. */
  predicate Truthy(e: Expr, columns: seq<Column>, row: Row, who: Caller) {
    var v := Eval(e, columns, row, who);
    v.Val? && IsTruthy(v.v)
  }

  predicate Evaluates(e: Expr, columns: seq<Column>, row: Row, who: Caller) {
    Eval(e, columns, row, who).Val?
  }

  // ----- What expressions mean

  /** As numbers, as texts byte by byte, or false before true. */
  ghost predicate Below(a: Value, b: Value) {
    match (a, b)
    case (Integer(x), Integer(y)) => x < y
    case (Text(x), Text(y)) => BytesBelow(x, y)
    case (Json(x), Json(y)) => BytesBelow(x, y)
    case (Boolean(x), Boolean(y)) => !x && y
    case _ => false
  }

  predicate IsComparison(op: BinOp) {
    op != And && op != Or
  }

  /** Two values of one type stand in the relation that the operator names. */
  ghost predicate Related(op: BinOp, l: Value, r: Value) {
    match op
    case Eq => l == r
    case NotEq => l != r
    case Lt => Below(l, r)
    case LtEq => Below(l, r) || l == r
    case Gt => Below(r, l)
    case GtEq => Below(r, l) || l == r
    case _ => false
  }

  /** A comparison of two values: false if one is NULL, a panic if their types differ, and otherwise what its operator
      says of them. */
  lemma ComparisonMeans(op: BinOp, left: Expr, right: Expr, columns: seq<Column>, row: Row, who: Caller, l: Value,
                        r: Value)
    requires IsComparison(op)
    requires Eval(left, columns, row, who) == Val(l) && Eval(right, columns, row, who) == Val(r)
    ensures Eval(BinaryOp(op, left, right), columns, row, who)
         == if l == Null || r == Null then Val(Boolean(false))
            else if !Comparable(l, r) then Err(Panic)
            else Val(Boolean(Related(op, l, r)))
  {
    hide Rank, KeyLess, BytesBelow;
    match (l, r) {
      case (Text(x), Text(y)) => BytesCompared(x, y);
      case (Json(x), Json(y)) => BytesCompared(x, y);
      case _ =>
    }
  }

  lemma BytesCompared(x: seq<byte>, y: seq<byte>)
    ensures BytesBelow(x, y) <==> CompareBytes(x, y) == Less
    ensures BytesBelow(y, x) <==> CompareBytes(x, y) == Greater
    ensures x == y <==> CompareBytes(x, y) == Equal
  {
    hide Rank, BytesBelow;
    KeyLessMeans(x, y);
    KeyLessMeans(y, x);
    RankInjective(x, y);
  }

  /** An item that fails, and none before it is equal or fails; or an item that is equal, and none before it fails. */
  ghost predicate EndsSearch(target: Value, list: seq<Expr>, columns: seq<Column>, row: Row, who: Caller, i: nat) {
    && i < |list| && (forall j :: 0 <= j < i ==> Evaluates(list[j], columns, row, who))
    && var v := Eval(list[i], columns, row, who);
       v == Val(target) || (v.Err? && forall j :: 0 <= j < i ==> Eval(list[j], columns, row, who) != Val(target))
  }

  /** IN: an error or NULL to the left is passed on; otherwise the first item that fails or is equal decides, and
      without one it is false.  NOT IN turns truth around. */
  lemma InMeans(arg: Expr, list: seq<Expr>, negated: bool, columns: seq<Column>, row: Row, who: Caller)
    ensures var v, r := Eval(arg, columns, row, who), Eval(InList(arg, list, negated), columns, row, who);
            if v.Err? || v.v == Null then r == v
            else
              && (forall i: nat :: EndsSearch(v.v, list, columns, row, who, i) ==>
                    var item := Eval(list[i], columns, row, who);
                    r == if item.Err? then item else Val(Boolean(!negated)))
              && ((forall i: nat :: !EndsSearch(v.v, list, columns, row, who, i)) ==> r == Val(Boolean(negated)))
  {
    var v := Eval(arg, columns, row, who);
    if v.Val? && v.v != Null {
      forall i: nat | EndsSearch(v.v, list, columns, row, who, i)
        ensures var item, r := Eval(list[i], columns, row, who), EvalIn(v.v, list, columns, row, who);
                r == if item.Err? then item else Val(Boolean(true))
      {
        SearchEnds(v.v, list, columns, row, who, i);
      }
      if forall i: nat :: !EndsSearch(v.v, list, columns, row, who, i) {
        NothingFound(v.v, list, columns, row, who);
      }
    }
  }

  lemma {:induction false} SearchEnds(target: Value, list: seq<Expr>, columns: seq<Column>, row: Row, who: Caller,
                                      i: nat)
    requires EndsSearch(target, list, columns, row, who, i)
    ensures var item := Eval(list[i], columns, row, who);
            EvalIn(target, list, columns, row, who) == if item.Err? then item else Val(Boolean(true))
    decreases i
  {
    hide Eval;
    if i > 0 {
      assert Evaluates(list[0], columns, row, who);
      if Eval(list[0], columns, row, who) != Val(target) {
        assert list[1..][i - 1] == list[i];
        forall j | 0 <= j < i - 1 ensures list[1..][j] == list[j + 1] {
        }
        SearchEnds(target, list[1..], columns, row, who, i - 1);
      }
    }
  }

  lemma {:induction false} NothingFound(target: Value, list: seq<Expr>, columns: seq<Column>, row: Row, who: Caller)
    requires forall i: nat :: !EndsSearch(target, list, columns, row, who, i)
    ensures EvalIn(target, list, columns, row, who) == Val(Boolean(false))
    decreases list
  {
    hide Eval;
    if list != [] {
      assert !EndsSearch(target, list, columns, row, who, 0);
      forall i: nat ensures !EndsSearch(target, list[1..], columns, row, who, i) {
        if EndsSearch(target, list[1..], columns, row, who, i) {
          Later(target, list, columns, row, who, i);
        }
      }
      NothingFound(target, list[1..], columns, row, who);
    }
  }

  lemma Later(target: Value, list: seq<Expr>, columns: seq<Column>, row: Row, who: Caller, i: nat)
    requires list != [] && EndsSearch(target, list[1..], columns, row, who, i)
    requires Evaluates(list[0], columns, row, who) && Eval(list[0], columns, row, who) != Val(target)
    ensures EndsSearch(target, list, columns, row, who, i + 1)
  {
    hide Eval;
    forall j | 0 <= j < i + 1 ensures j > 0 ==> list[j] == list[1..][j - 1] {
    }
  }

  /** IS NULL and IS NOT NULL, which never give NULL; and who asks. */
  lemma NullTestMeans(arg: Expr, negated: bool, columns: seq<Column>, row: Row, who: Caller)
    ensures var v, r := Eval(arg, columns, row, who), Eval(IsNull(arg, negated), columns, row, who);
            if v.Err? then r == v
            else if negated then r == Val(Boolean(v.v != Null))
            else r == Val(Boolean(v.v == Null))
    ensures Eval(AuthUid, columns, row, who) == Val(match who.userId case Some(n) => Integer(n) case None => Null)
  {
  }

  /** A column is read at the first place that has its name. */
  lemma ColumnMeans(columns: seq<Column>, row: Row, who: Caller, i: nat)
    requires i < |columns| == |row| && forall j :: 0 <= j < i ==> columns[j].name != columns[i].name
    ensures Eval(ColumnRef(columns[i].name), columns, row, who) == Val(row[i])
  {
    var c := FindColumn(columns, columns[i].name);
    assert c <= i;
  }

  lemma AndMeans(l: Expr, r: Expr, columns: seq<Column>, row: Row, who: Caller)
    ensures Evaluates(BinaryOp(And, l, r), columns, row, who) <==>
            Evaluates(l, columns, row, who) && Evaluates(r, columns, row, who)
    ensures Evaluates(BinaryOp(And, l, r), columns, row, who) ==>
              (Truthy(BinaryOp(And, l, r), columns, row, who) <==>
                  Truthy(l, columns, row, who) && Truthy(r, columns, row, who))
  {
  }

  lemma OrMeans(l: Expr, r: Expr, columns: seq<Column>, row: Row, who: Caller)
    ensures Evaluates(BinaryOp(Or, l, r), columns, row, who) <==>
            Evaluates(l, columns, row, who) && Evaluates(r, columns, row, who)
    ensures Evaluates(BinaryOp(Or, l, r), columns, row, who) ==>
              (Truthy(BinaryOp(Or, l, r), columns, row, who) <==>
                  Truthy(l, columns, row, who) || Truthy(r, columns, row, who))
  {
  }

  /** Comparison with NULL is false, never unknown: `x = y` and `x <> y` can both be false. */
  lemma NullComparesFalse(op: BinOp, v: Value)
    requires op != And && op != Or
    ensures EvalBinOp(op, v, Null) == EvalBinOp(op, Null, v) == Val(Boolean(false))
  {
  }
}
