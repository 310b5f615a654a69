/** Grouping in one pass over the input. */
module Aggregates {
  import opened Bytes
  import opened Storage
  import opened Values
  import opened Rows
  import opened Exprs
  import opened Streams
  import opened Operators

  datatype AggregateFunc =
    | CountStar
    | Count(arg: Expr)
    | Sum(arg: Expr)
    | Avg(arg: Expr)
    | Min(arg: Expr)
    | Max(arg: Expr)

  datatype Accumulator =
    | CountStarAcc(c: i64)
    | CountAcc(c: i64)
    | SumAcc(s: i64)
    | AvgAcc(sum: i64, count: i64)
    | MinAcc(least: Option<Value>)
    | MaxAcc(greatest: Option<Value>)

  /** Sums wrap around, as they do in a release build. */
  function Wrap(x: int): i64 {
    (x + 0x8000_0000_0000_0000) % 0x1_0000_0000_0000_0000 - 0x8000_0000_0000_0000
  }

  function NewAccumulator(f: AggregateFunc): Accumulator {
    match f
    case CountStar => CountStarAcc(0)
    case Count(_) => CountAcc(0)
    case Sum(_) => SumAcc(0)
    case Avg(_) => AvgAcc(0, 0)
    case Min(_) => MinAcc(None)
    case Max(_) => MaxAcc(None)
  }

  /** One more value; comparing values of different types panics. */
  function Updated(acc: Accumulator, v: Value): Option<Accumulator> {
    match acc
    case CountStarAcc(c) => Some(CountStarAcc(Wrap(c + 1)))
    case CountAcc(c) => Some(CountAcc(if v == Null then c else Wrap(c + 1)))
    case SumAcc(s) => Some(SumAcc(if v.Integer? then Wrap(s + v.i) else s))
    case AvgAcc(sum, count) => Some(if v.Integer? then AvgAcc(Wrap(sum + v.i), Wrap(count + 1)) else acc)
    case MinAcc(cur) =>
      if v == Null then Some(acc)
      else if cur.None? then Some(MinAcc(Some(v)))
      else if !Comparable(v, cur.value) then None
      else Some(MinAcc(if SqlCmp(v, cur.value) == Less then Some(v) else cur))
    case MaxAcc(cur) =>
      if v == Null then Some(acc)
      else if cur.None? then Some(MaxAcc(Some(v)))
      else if !Comparable(v, cur.value) then None
      else Some(MaxAcc(if SqlCmp(v, cur.value) == Greater then Some(v) else cur))
  }

  /** Integer division that truncates towards zero. */
  function Quotient(a: int, b: int): int
    requires b != 0
  {
    if (a >= 0) == (b > 0) then (if a >= 0 then a else -a) / (if b > 0 then b else -b)
    else -((if a >= 0 then a else -a) / (if b > 0 then b else -b))
  }

  function Finalize(acc: Accumulator): Value {
    match acc
    case CountStarAcc(c) => Integer(c)
    case CountAcc(c) => Integer(c)
    case SumAcc(s) => Integer(s)
    case AvgAcc(sum, count) => if count == 0 then Null else Integer(Wrap(Quotient(sum, count)))
    case MinAcc(v) => if v.Some? then v.value else Null
    case MaxAcc(v) => if v.Some? then v.value else Null
  }

  // ----- Folding one group

  function ArgOf(f: AggregateFunc, columns: seq<Column>, row: Row): Evaluated {
    if f.CountStar? then Val(Null) else Eval(f.arg, columns, row, ANONYMOUS)
  }

  datatype Folding = Folded(acc: Accumulator) | Failing(error: PlanError)

  function FoldOne(so: Folding, f: AggregateFunc, columns: seq<Column>, row: Row): Folding {
    if so.Failing? then so else
      var v := ArgOf(f, columns, row);
      if v.Err? then Failing(v.e) else
        var acc := Updated(so.acc, v.v);
        if acc.None? then Failing(Panic) else Folded(acc.value)
  }

  /** The accumulator of one function over the rows of one group. */
  function Fold(f: AggregateFunc, columns: seq<Column>, rows: seq<Row>): Folding {
    if rows == [] then Folded(NewAccumulator(f))
    else FoldOne(Fold(f, columns, rows[..|rows| - 1]), f, columns, rows[|rows| - 1])
  }

  lemma FoldNext(f: AggregateFunc, columns: seq<Column>, rows: seq<Row>, row: Row)
    ensures Fold(f, columns, rows + [row]) == FoldOne(Fold(f, columns, rows), f, columns, row)
  {
    assert (rows + [row])[..|rows|] == rows;
  }

  // ----- What a fold computes

  /** The values of a function's argument on the rows. */
  function Args(f: AggregateFunc, columns: seq<Column>, rows: seq<Row>): (r: seq<Value>)
    requires forall i :: 0 <= i < |rows| ==> ArgOf(f, columns, rows[i]).Val?
    ensures |r| == |rows| && forall i :: 0 <= i < |r| ==> ArgOf(f, columns, rows[i]) == Val(r[i])
  {
    seq(|rows|, i requires 0 <= i < |rows| => ArgOf(f, columns, rows[i]).v)
  }

  function Present(vs: seq<Value>): seq<Value> {
    if vs == [] then [] else Present(vs[..|vs| - 1]) + (if vs[|vs| - 1] == Null then [] else [vs[|vs| - 1]])
  }

  function Integers(vs: seq<Value>): seq<int> {
    if vs == [] then [] else Integers(vs[..|vs| - 1]) + (if vs[|vs| - 1].Integer? then [vs[|vs| - 1].i] else [])
  }

  function Total(ns: seq<int>): int {
    if ns == [] then 0 else Total(ns[..|ns| - 1]) + ns[|ns| - 1]
  }

  /** `v` is the first of the least. */
  ghost predicate LeastOf(v: Option<Value>, vs: seq<Value>) {
    if vs == [] then v == None
    else v.Some? && v.value in vs && forall w :: w in vs ==> Comparable(w, v.value) && SqlCmp(w, v.value) != Less
  }

  ghost predicate GreatestOf(v: Option<Value>, vs: seq<Value>) {
    if vs == [] then v == None
    else v.Some? && v.value in vs && forall w :: w in vs ==> Comparable(w, v.value) && SqlCmp(w, v.value) != Greater
  }

  /** What each function is for, on the values of a group. */
  ghost predicate Means(f: AggregateFunc, acc: Accumulator, vs: seq<Value>) {
    match f
    case CountStar => acc == CountStarAcc(Wrap(|vs|))
    case Count(_) => acc == CountAcc(Wrap(|Present(vs)|))
    case Sum(_) => acc == SumAcc(Wrap(Total(Integers(vs))))
    case Avg(_) => acc == AvgAcc(Wrap(Total(Integers(vs))), Wrap(|Integers(vs)|))
    case Min(_) => acc.MinAcc? && LeastOf(acc.least, Present(vs))
    case Max(_) => acc.MaxAcc? && GreatestOf(acc.greatest, Present(vs))
  }

  lemma WrapOn(x: int, y: int)
    ensures Wrap(Wrap(x) + y) == Wrap(x + y)
    ensures Wrap(0) == 0
  {
  }

  lemma LessThan(w: Value, v: Value, u: Value)
    requires Comparable(w, u) && Comparable(v, u)
    ensures Comparable(w, v)
    ensures SqlCmp(v, u) == Less && SqlCmp(w, u) != Less ==> SqlCmp(w, v) != Less
    ensures SqlCmp(v, u) == Greater && SqlCmp(w, u) != Greater ==> SqlCmp(w, v) != Greater
  {
    hide Rank, KeyLess;
  }

  /** A fold that does not fail computes what its function is for. */
  lemma {:induction false} FoldMeans(f: AggregateFunc, columns: seq<Column>, rows: seq<Row>)
    requires Fold(f, columns, rows).Folded?
    ensures forall i :: 0 <= i < |rows| ==> ArgOf(f, columns, rows[i]).Val?
    ensures Means(f, Fold(f, columns, rows).acc, Args(f, columns, rows))
    decreases |rows|
  {
    hide ArgOf, Updated, Means;
    if rows == [] {
      MeansNothing(f);
    } else {
      var front := rows[..|rows| - 1];
      FoldMeans(f, columns, front);
      var vs, v := Args(f, columns, front), ArgOf(f, columns, rows[|rows| - 1]).v;
      assert Args(f, columns, rows) == vs + [v];
      MeansNext(f, Fold(f, columns, front).acc, vs, v);
    }
  }

  lemma MeansNothing(f: AggregateFunc)
    ensures Means(f, NewAccumulator(f), [])
  {
    hide Wrap;
    WrapOn(0, 0);
  }

  lemma MeansNext(f: AggregateFunc, acc: Accumulator, vs: seq<Value>, v: Value)
    requires Means(f, acc, vs) && Updated(acc, v).Some?
    ensures Means(f, Updated(acc, v).value, vs + [v])
  {
    hide SqlCmp, Comparable, Wrap;
    assert (vs + [v])[..|vs|] == vs;
    if v != Null {
      SelfCompare(v);
    }
    match f {
      case CountStar => WrapOn(|vs|, 1);
      case Count(_) => WrapOn(|Present(vs)|, 1);
      case Sum(_) =>
        NextInteger(vs, v);
      case Avg(_) =>
        NextInteger(vs, v);
        WrapOn(|Integers(vs)|, 1);
      case Min(_) =>
        if v != Null && acc.least.Some? {
          NextExtreme(Present(vs), acc.least.value, v);
        }
      case Max(_) =>
        if v != Null && acc.greatest.Some? {
          NextExtreme(Present(vs), acc.greatest.value, v);
        }
    }
  }

  lemma NextInteger(vs: seq<Value>, v: Value)
    ensures Integers(vs + [v]) == Integers(vs) + if v.Integer? then [v.i] else []
    ensures Total(Integers(vs + [v])) == Total(Integers(vs)) + if v.Integer? then v.i else 0
    ensures v.Integer? ==> Wrap(Wrap(Total(Integers(vs))) + v.i) == Wrap(Total(Integers(vs + [v])))
  {
    hide Wrap;
    assert (vs + [v])[..|vs|] == vs;
    if v.Integer? {
      assert (Integers(vs) + [v.i])[..|Integers(vs)|] == Integers(vs);
      WrapOn(Total(Integers(vs)), v.i);
    } else {
      assert Integers(vs) + [] == Integers(vs);
    }
  }

  lemma NextExtreme(vs: seq<Value>, best: Value, v: Value)
    requires Comparable(v, best)
    ensures (best in vs && forall w :: w in vs ==> Comparable(w, best) && SqlCmp(w, best) != Less) ==>
              var next := if SqlCmp(v, best) == Less then v else best;
              next in vs + [v] && forall w :: w in vs + [v] ==> Comparable(w, next) && SqlCmp(w, next) != Less
    ensures (best in vs && forall w :: w in vs ==> Comparable(w, best) && SqlCmp(w, best) != Greater) ==>
              var next := if SqlCmp(v, best) == Greater then v else best;
              next in vs + [v] && forall w :: w in vs + [v] ==> Comparable(w, next) && SqlCmp(w, next) != Greater
  {
    hide SqlCmp;
    SelfCompare(v);
    forall w | w in vs && Comparable(w, best)
      ensures Comparable(w, v)
      ensures SqlCmp(v, best) == Less && SqlCmp(w, best) != Less ==> SqlCmp(w, v) != Less
      ensures SqlCmp(v, best) == Greater && SqlCmp(w, best) != Greater ==> SqlCmp(w, v) != Greater
    {
      LessThan(w, v, best);
    }
  }

  lemma SelfCompare(v: Value)
    requires v != Null
    ensures Comparable(v, v) && SqlCmp(v, v) == Equal
  {
    SqlCmpEqual(v, v);
  }

  // ----- Groups

  datatype Keyed = Key(k: Row) | NoKey(error: PlanError)

  function EvalAll(exprs: seq<Expr>, columns: seq<Column>, row: Row): Keyed {
    if exprs == [] then Key([]) else
      var front := EvalAll(exprs[..|exprs| - 1], columns, row);
      if front.NoKey? then front else
        var v := Eval(exprs[|exprs| - 1], columns, row, ANONYMOUS);
        if v.Err? then NoKey(v.e) else Key(front.k + [v.v])
  }

  datatype Grouping =
    Grouping(groupBy: Option<seq<Expr>>, functions: seq<AggregateFunc>, having: Option<Expr>, columns: seq<Column>)

  function KeyFor(g: Grouping, row: Row): Keyed {
    if g.groupBy.None? then Key([]) else EvalAll(g.groupBy.value, g.columns, row)
  }

  /** The rows of one group, in their order. */
  function Members(g: Grouping, rows: seq<Row>, k: Row): seq<Row> {
    if rows == [] then [] else
      var last := rows[|rows| - 1];
      Members(g, rows[..|rows| - 1], k) + if KeyFor(g, last) == Key(k) then [last] else []
  }

  /** The keys, in the order in which they first appear. */
  function FirstKeys(g: Grouping, rows: seq<Row>): seq<Row> {
    if rows == [] then [] else
      var front, key := FirstKeys(g, rows[..|rows| - 1]), KeyFor(g, rows[|rows| - 1]);
      if key.NoKey? || key.k in front then front else front + [key.k]
  }

  /** The first function, from `i` on, that fails on one more row of a group. */
  function FunctionTrouble(g: Grouping, members: seq<Row>, row: Row, i: nat): Option<PlanError>
    requires i <= |g.functions|
    decreases |g.functions| - i
  {
    if i == |g.functions| then None else
      var next := FoldOne(Fold(g.functions[i], g.columns, members), g.functions[i], g.columns, row);
      if next.Failing? then Some(next.error) else FunctionTrouble(g, members, row, i + 1)
  }

  /** The error that stops the pass, if any. */
  function Trouble(g: Grouping, rows: seq<Row>): Option<PlanError> {
    if rows == [] then None else
      var front := rows[..|rows| - 1];
      if Trouble(g, front).Some? then Trouble(g, front) else RowTrouble(g, front, rows[|rows| - 1])
  }

  function RowTrouble(g: Grouping, before: seq<Row>, row: Row): Option<PlanError> {
    var key := KeyFor(g, row);
    if key.NoKey? then Some(key.error) else FunctionTrouble(g, Members(g, before, key.k), row, 0)
  }

  // ----- The groups so far

  /** Every group seen so far is in the table, each of its accumulators the fold over the group's rows. */
  ghost predicate Tabulated(g: Grouping, rows: seq<Row>, groups: map<Row, seq<Accumulator>>, order: seq<Row>) {
    && order == FirstKeys(g, rows) && (forall k :: k in groups <==> k in order)
    && forall k :: k in groups ==> FoldsOf(g, Members(g, rows, k), groups[k])
  }

  ghost predicate FoldsOf(g: Grouping, members: seq<Row>, accs: seq<Accumulator>) {
    |accs| == |g.functions| && forall i :: 0 <= i < |accs| ==>
        Fold(g.functions[i], g.columns, members) == Folded(accs[i])
  }

  lemma MembersNext(g: Grouping, rows: seq<Row>, row: Row, k: Row)
    ensures Members(g, rows + [row], k) == Members(g, rows, k) + if KeyFor(g, row) == Key(k) then [row] else []
  {
    assert (rows + [row])[..|rows|] == rows;
  }

  lemma {:induction false} NoMembersYet(g: Grouping, rows: seq<Row>, k: Row)
    requires k !in FirstKeys(g, rows)
    ensures Members(g, rows, k) == []
    decreases |rows|
  {
    hide KeyFor;
    if rows != [] {
      NoMembersYet(g, rows[..|rows| - 1], k);
    }
  }

  lemma TabulateNext(g: Grouping, rows: seq<Row>, groups: map<Row, seq<Accumulator>>, order: seq<Row>, row: Row, k: Row,
                     accs: seq<Accumulator>)
    requires Tabulated(g, rows, groups, order) && KeyFor(g, row) == Key(k)
    requires FoldsOf(g, Members(g, rows, k) + [row], accs)
    ensures Tabulated(g, rows + [row], groups[k := accs], if k in groups then order else order + [k])
  {
    hide KeyFor, Members, FoldsOf;
    assert (rows + [row])[..|rows|] == rows;
    forall x | x in groups[k := accs] ensures FoldsOf(g, Members(g, rows + [row], x), groups[k := accs][x]) {
      MembersNext(g, rows, row, x);
      assert x != k ==> Members(g, rows, x) + [] == Members(g, rows, x);
    }
  }

  method EvaluateKey(g: Grouping, row: Row) returns (r: Keyed)
    ensures r == KeyFor(g, row)
  {
    hide Eval;
    if g.groupBy.None? {
      return Key([]);
    }
    var exprs, key := g.groupBy.value, [];
    var i := 0;
    while i < |exprs|
      invariant 0 <= i <= |exprs| && EvalAll(exprs[..i], g.columns, row) == Key(key)
    {
      assert exprs[..i + 1][..i] == exprs[..i];
      var v := Eval(exprs[i], g.columns, row, ANONYMOUS);
      if v.Err? {
        KeyFails(exprs, i + 1, g.columns, row, v.e);
        return NoKey(v.e);
      }
      key := key + [v.v];
      i := i + 1;
    }
    assert exprs[..i] == exprs;
    return Key(key);
  }

  lemma {:induction false} KeyFails(exprs: seq<Expr>, i: nat, columns: seq<Column>, row: Row, e: PlanError)
    requires i <= |exprs| && EvalAll(exprs[..i], columns, row) == NoKey(e)
    ensures EvalAll(exprs, columns, row) == NoKey(e)
    decreases |exprs| - i
  {
    hide Eval;
    if i < |exprs| {
      assert exprs[..i + 1][..i] == exprs[..i];
      KeyFails(exprs, i + 1, columns, row, e);
    } else {
      assert exprs[..i] == exprs;
    }
  }

  /** The accumulators of one group take one more row. */
  method UpdateGroup(g: Grouping, accs: seq<Accumulator>, row: Row, ghost members: seq<Row>)
    returns (accs': seq<Accumulator>, error: Option<PlanError>)
    requires FoldsOf(g, members, accs)
    ensures error == FunctionTrouble(g, members, row, 0)
    ensures error.None? ==> FoldsOf(g, members + [row], accs')
  {
    hide Eval, Updated, Fold;
    accs' := [];
    var i := 0;
    while i < |accs|
      invariant 0 <= i <= |accs| == |g.functions| && |accs'| == i
      invariant FunctionTrouble(g, members, row, 0) == FunctionTrouble(g, members, row, i)
      invariant forall j :: 0 <= j < i ==> Fold(g.functions[j], g.columns, members + [row]) == Folded(accs'[j])
    {
      var f := g.functions[i];
      FoldNext(f, g.columns, members, row);
      var v := ArgOf(f, g.columns, row);
      if v.Err? {
        return accs', Some(v.e);
      }
      var acc := Updated(accs[i], v.v);
      if acc.None? {
        return accs', Some(Panic);
      }
      accs' := accs' + [acc.value];
      i := i + 1;
    }
    error := None;
  }

  // ----- The operator

  function Final(f: AggregateFunc, columns: seq<Column>, members: seq<Row>): Value {
    var r := Fold(f, columns, members);
    if r.Folded? then Finalize(r.acc) else Null
  }

  function OutputRow(g: Grouping, rows: seq<Row>, k: Row): Row {
    k + seq(|g.functions|, i requires 0 <= i < |g.functions| => Final(g.functions[i], g.columns, Members(g, rows, k)))
  }

  /** Without GROUP BY there is one group even when there are no rows. */
  function OutputKeys(g: Grouping, rows: seq<Row>): seq<Row> {
    if rows == [] && g.groupBy.None? then [[]] else FirstKeys(g, rows)
  }

  function OutputRows(g: Grouping, rows: seq<Row>): (r: seq<Row>)
    ensures |r| == |OutputKeys(g, rows)|
  {
    seq(|OutputKeys(g, rows)|, i requires 0 <= i < |OutputKeys(g, rows)| => OutputRow(g, rows, OutputKeys(g, rows)[i]))
  }

  /** The rows that HAVING lets through; when it fails on one of them there are none.

      It is evaluated on the row of the group, but by the columns of the input. */
  function Having(g: Grouping, rows: seq<Row>): Stream {
    if g.having.None? then Stream(rows, None) else
      var kept := FilterStream(Stream(rows, None), g.columns, g.having.value, ANONYMOUS);
      if kept.error.Some? then Stream([], kept.error) else kept
  }

  /** One row per group, in the order of first appearance, folded group by group. */
  function AggregateStream(g: Grouping, s: Stream): Stream {
    if Trouble(g, s.rows).Some? then Stream([], Trouble(g, s.rows))
    else if s.error.Some? then Stream([], s.error)
    else Having(g, OutputRows(g, s.rows))
  }

  lemma {:induction false} TroubleStays(g: Grouping, rows: seq<Row>, i: nat)
    requires i <= |rows| && Trouble(g, rows[..i]).Some?
    ensures Trouble(g, rows) == Trouble(g, rows[..i])
    decreases |rows| - i
  {
    hide RowTrouble;
    if i < |rows| {
      assert rows[..i + 1][..i] == rows[..i];
      TroubleStays(g, rows, i + 1);
    } else {
      assert rows[..i] == rows;
    }
  }

  lemma TroubleNext(g: Grouping, rows: seq<Row>, row: Row)
    requires Trouble(g, rows).None?
    ensures Trouble(g, rows + [row]) == RowTrouble(g, rows, row)
  {
    assert (rows + [row])[..|rows|] == rows;
  }

  class AggregateOperator {
    const child: Operator
    const g: Grouping
    var outputRows: Option<seq<Row>>
    var cursor: nat
    ghost var Repr: set<object>
    ghost var rest: Stream

    ghost predicate Valid(m: map<PageNo, Page>)
      reads this, Repr
    {
      && this in Repr && child.Object() in Repr && child.Object() in child.Repr()
      && child.Repr() <= Repr && this !in child.Repr()
      && (outputRows.None? ==> child.Valid(m) && cursor == 0 && rest == AggregateStream(g, child.Rest()))
      && (outputRows.Some? ==> cursor <= |outputRows.value| && rest == Stream(outputRows.value[cursor..], None))
    }

    constructor (child: Operator, g: Grouping, ghost m: map<PageNo, Page>)
      requires child.Valid(m) && child.Object() in child.Repr()
      ensures Valid(m) && Repr == {this} + child.Repr() && rest == AggregateStream(g, child.Rest())
    {
      this.child, this.g, outputRows, cursor := child, g, None, 0;
      rest := AggregateStream(g, child.Rest());
      Repr := {this} + child.Repr();
    }

    method ComputeAggregates(pager: Pager) returns (error: Option<PlanError>)
      requires Valid(pager.pages) && pager.Valid() && pager !in Repr && outputRows.None?
      modifies Repr
      ensures fresh(Repr - old(Repr)) && pager !in Repr
      ensures error.Some? ==> old(rest) == Stream([], error)
      ensures error.None? ==> Valid(pager.pages) && outputRows.Some? && rest == old(rest)
    {
      hide Pager.Valid, Operator.Valid, Operator.Rest, AggregateStream, Tabulated, Trouble, OutputRows, Having;
      var groups, order, failed, rows := Tabulate(g, child, pager);
      Repr := Repr + child.Repr();
      if failed.Some? {
        return failed;
      }
      NoTrouble(g, rows);
      var out;
      out, error := Finish(g, groups, order, rows);
      if error.Some? {
        return error;
      }
      outputRows := Some(out);
      assert out[0..] == out;
      return None;
    }

    method Next(pager: Pager) returns (r: Pulled)
      requires Valid(pager.pages) && pager.Valid() && pager !in Repr
      modifies Repr
      ensures Pulls(old(rest), r, rest) && fresh(Repr - old(Repr))
      ensures !r.Stopped? ==> Valid(pager.pages)
    {
      hide Pager.Valid, Operator.Valid, Operator.Rest, AggregateStream;
      if outputRows.None? {
        var error := ComputeAggregates(pager);
        if error.Some? {
          return Stopped(error.value);
        }
      }
      var rows := outputRows.value;
      if cursor < |rows| {
        r := Got(rows[cursor]);
        cursor := cursor + 1;
        rest := Stream(rows[cursor..], None);
      } else {
        r := Finished;
      }
    }
  }

  lemma NoTrouble(g: Grouping, rows: seq<Row>)
    requires Trouble(g, rows).None?
    ensures AggregateStream(g, Stream(rows, None)) == Having(g, OutputRows(g, rows))
  {
    hide Trouble, OutputRows, Having;
  }

  /** The row of one group: its key and its results. */
  method FinishGroup(g: Grouping, accs: seq<Accumulator>, k: Row, ghost rows: seq<Row>) returns (row: Row)
    requires FoldsOf(g, Members(g, rows, k), accs)
    ensures row == OutputRow(g, rows, k)
  {
    hide Members, Fold, Finalize;
    row := k;
    var i := 0;
    ghost var whole := OutputRow(g, rows, k);
    assert whole[..|k|] == k;
    while i < |accs|
      invariant 0 <= i <= |accs| && row == whole[..|k| + i]
    {
      assert whole[|k| + i] == Final(g.functions[i], g.columns, Members(g, rows, k));
      row := row + [Finalize(accs[i])];
      i := i + 1;
    }
    assert whole[..|k| + i] == whole;
  }

  /** Without GROUP BY there is a group even when there were no rows. */
  method GroupsToFinish(g: Grouping, groups: map<Row, seq<Accumulator>>, order: seq<Row>, ghost rows: seq<Row>)
    returns (groups': map<Row, seq<Accumulator>>, order': seq<Row>)
    requires Tabulated(g, rows, groups, order)
    ensures order' == OutputKeys(g, rows)
    ensures forall k :: k in order' ==> k in groups' && FoldsOf(g, Members(g, rows, k), groups'[k])
  {
    hide Members, FoldsOf, KeyFor;
    groups', order' := groups, order;
    if g.groupBy.None? {
      FirstOfSome(g, rows);
      if order == [] {
        var accumulators := seq(|g.functions|, i requires 0 <= i < |g.functions| => NewAccumulator(g.functions[i]));
        NewGroup(g, accumulators);
        groups', order' := groups[[] := accumulators], [[]];
        NoMembersYet(g, rows, []);
      }
    }
  }

  /** The groups in the order of their first appearance, those that HAVING lets through. */
  method Finish(g: Grouping, groups: map<Row, seq<Accumulator>>, order: seq<Row>, ghost rows: seq<Row>)
    returns (out: seq<Row>, error: Option<PlanError>)
    requires Tabulated(g, rows, groups, order)
    ensures error.Some? ==> Having(g, OutputRows(g, rows)) == Stream([], error)
    ensures error.None? ==> Having(g, OutputRows(g, rows)) == Stream(out, None)
  {
    hide Tabulated, Members, FoldsOf, OutputRow, OutputKeys, FilterStream, Eval;
    var groups', order' := GroupsToFinish(g, groups, order, rows);
    ghost var all := OutputRows(g, rows);
    out := [];
    var i := 0;
    assert all[0..] == all;
    while i < |order'|
      invariant 0 <= i <= |order'|
      invariant Having(g, all) == HavingFrom(g, out, all[i..])
    {
      var row := FinishGroup(g, groups'[order'[i]], order'[i], rows);
      var passes := true;
      assert row == all[i];
      HavingStep(g, out, all[i..]);
      assert all[i..][1..] == all[i + 1..];
      if g.having.Some? {
        var v := Eval(g.having.value, g.columns, row, ANONYMOUS);
        if v.Err? {
          return [], Some(v.e);
        }
        passes := IsTruthy(v.v);
      }
      if passes {
        out := out + [row];
      }
      i := i + 1;
    }
    assert all[i..] == [];
    HavingStep(g, out, all[i..]);
    error := None;
  }

  /** What HAVING gives when some rows are through and others are to come. */
  ghost function HavingFrom(g: Grouping, out: seq<Row>, rows: seq<Row>): Stream {
    var rest := Having(g, rows);
    if rest.error.Some? then rest else Then(out, rest)
  }

  lemma HavingStep(g: Grouping, out: seq<Row>, rows: seq<Row>)
    ensures rows == [] ==> HavingFrom(g, out, rows) == Stream(out, None)
    ensures rows != [] ==>
              var v := if g.having.None? then Val(Boolean(true))
                  else Eval(g.having.value, g.columns, rows[0], ANONYMOUS);
              HavingFrom(g, out, rows)
              == if v.Err? then Stream([], Some(v.e))
                 else HavingFrom(g, if IsTruthy(v.v) then out + [rows[0]] else out, rows[1..])
    ensures HavingFrom(g, [], rows) == Having(g, rows)
  {
    hide Eval;
    if rows != [] {
      assert (out + [rows[0]]) + rows[1..] == out + rows;
      if g.having.Some? {
        var kept := FilterStream(Stream(rows[1..], None), g.columns, g.having.value, ANONYMOUS);
        assert (out + [rows[0]]) + kept.rows == out + ([rows[0]] + kept.rows);
      }
    }
  }

  /** Without GROUP BY there is a group exactly when there was a row. */
  lemma {:induction false} FirstOfSome(g: Grouping, rows: seq<Row>)
    requires g.groupBy.None?
    ensures rows != [] <==> FirstKeys(g, rows) != []
    decreases |rows|
  {
    if rows != [] {
      FirstOfSome(g, rows[..|rows| - 1]);
    }
  }

  lemma TabulateStops(g: Grouping, rows: seq<Row>, row: Row, rest: Stream)
    requires Trouble(g, rows).None?
    ensures var e := RowTrouble(g, rows, row);
            if e.Some? then AggregateStream(g, Then(rows + [row], rest)) == Stream([], e)
            else Trouble(g, rows + [row]).None?
  {
    hide RowTrouble;
    var seen, all := rows + [row], Then(rows + [row], rest).rows;
    TroubleNext(g, rows, row);
    assert all[..|seen|] == seen;
    if RowTrouble(g, rows, row).Some? {
      TroubleStays(g, all, |seen|);
    }
  }

  lemma InputFails(g: Grouping, rows: seq<Row>, e: PlanError)
    requires Trouble(g, rows).None?
    ensures AggregateStream(g, Stream(rows, Some(e))) == Stream([], Some(e))
  {
    hide Trouble;
  }

  /** The one pass over the input. */
  method Tabulate(g: Grouping, child: Operator, pager: Pager)
    returns (groups: map<Row, seq<Accumulator>>, order: seq<Row>, error: Option<PlanError>, ghost rows: seq<Row>)
    requires child.Valid(pager.pages) && child.Object() in child.Repr() && pager.Valid() && pager !in child.Repr()
    modifies child.Repr()
    ensures fresh(child.Repr() - old(child.Repr()))
    ensures error.Some? ==> AggregateStream(g, old(child.Rest())) == Stream([], error)
    ensures error.None? ==>
              && old(child.Rest()) == Stream(rows, None) && Trouble(g, rows).None? && Tabulated(g, rows, groups, order)
              && child.Object() in child.Repr()
  {
    hide Pager.Valid, Operator.Valid, Operator.Rest, Tabulated, AggregateStream, Trouble, RowTrouble;
    groups, order, rows := map[], [], [];
    NothingTabulated(g);
    ghost var all, repr := child.Rest(), child.Repr();
    var pulled := child.Next(pager);
    while pulled.Got?
      invariant pager !in child.Repr() && fresh(child.Repr() - repr)
      invariant !pulled.Stopped? ==> child.Valid(pager.pages) && child.Object() in child.Repr()
      invariant Trouble(g, rows).None? && Tabulated(g, rows, groups, order)
      invariant pulled.Got? ==> all == Then(rows + [pulled.row], child.Rest())
      invariant pulled.Finished? ==> all == Stream(rows, None)
      invariant pulled.Stopped? ==> all == Stream(rows, Some(pulled.error))
      decreases if pulled.Got? then 1 + |child.Rest().rows| else 0
    {
      TabulateStops(g, rows, pulled.row, child.Rest());
      groups, order, error := TabulateRow(g, groups, order, pulled.row, rows);
      if error.Some? {
        return;
      }
      rows := rows + [pulled.row];
      ghost var owned := child.Repr();
      label L:
      pulled := child.Next(pager);
      forall o | o in child.Repr() && o !in repr ensures fresh(o) {
        assert o !in owned ==> fresh@L(o);
      }
    }
    if pulled.Stopped? {
      InputFails(g, rows, pulled.error);
      return groups, order, Some(pulled.error), rows;
    }
    error := None;
  }

  /** One row goes to its group. */
  method TabulateRow(g: Grouping, groups: map<Row, seq<Accumulator>>, order: seq<Row>, row: Row, ghost rows: seq<Row>)
    returns (groups': map<Row, seq<Accumulator>>, order': seq<Row>, error: Option<PlanError>)
    requires Tabulated(g, rows, groups, order)
    ensures error == RowTrouble(g, rows, row)
    ensures error.None? ==> Tabulated(g, rows + [row], groups', order')
  {
    hide KeyFor, FunctionTrouble, FoldsOf, Members, Tabulated;
    groups', order' := groups, order;
    var key := EvaluateKey(g, row);
    if key.NoKey? {
      return groups, order, Some(key.error);
    }
    var accs;
    accs, error := GroupWithRow(g, groups, order, key.k, row, rows);
    if error.None? {
      TabulateNext(g, rows, groups, order, row, key.k, accs);
      order' := if key.k in groups then order else order + [key.k];
      groups' := groups[key.k := accs];
    }
  }

  /** The accumulators of the row's group, new ones when the group is new, after the row. */
  method GroupWithRow(g: Grouping, groups: map<Row, seq<Accumulator>>, ghost order: seq<Row>, k: Row, row: Row,
                      ghost rows: seq<Row>)
    returns (accs: seq<Accumulator>, error: Option<PlanError>)
    requires Tabulated(g, rows, groups, order) && KeyFor(g, row) == Key(k)
    ensures error == RowTrouble(g, rows, row)
    ensures error.None? ==> FoldsOf(g, Members(g, rows, k) + [row], accs)
  {
    hide KeyFor, FunctionTrouble, FoldsOf, Members;
    if k in groups {
      accs, error := UpdateGroup(g, groups[k], row, Members(g, rows, k));
    } else {
      NoMembersYet(g, rows, k);
      var accumulators := seq(|g.functions|, i requires 0 <= i < |g.functions| => NewAccumulator(g.functions[i]));
      NewGroup(g, accumulators);
      accs, error := UpdateGroup(g, accumulators, row, []);
    }
  }

  lemma NewGroup(g: Grouping, accs: seq<Accumulator>)
    requires |accs| == |g.functions| && forall i :: 0 <= i < |accs| ==> accs[i] == NewAccumulator(g.functions[i])
    ensures FoldsOf(g, [], accs)
  {
  }

  lemma NothingTabulated(g: Grouping)
    ensures Tabulated(g, [], map[], []) && Trouble(g, []).None?
  {
  }

  // ----- Nothing is lost or counted twice

  ghost function Weigh(w: Row -> int, rows: seq<Row>): int {
    if rows == [] then 0 else Weigh(w, rows[..|rows| - 1]) + w(rows[|rows| - 1])
  }

  /** A weight, summed over the groups. */
  ghost function WeighGroups(g: Grouping, w: Row -> int, rows: seq<Row>, keys: seq<Row>): int {
    if keys == [] then 0 else WeighGroups(g, w, rows, keys[..|keys| - 1]) + Weigh(w, Members(g, rows, keys[|keys| - 1]))
  }

  ghost predicate AllKeyed(g: Grouping, rows: seq<Row>) {
    forall i :: 0 <= i < |rows| ==> KeyFor(g, rows[i]).Key?
  }

  ghost predicate Distinct(keys: seq<Row>) {
    forall i, j :: 0 <= i < j < |keys| ==> keys[i] != keys[j]
  }

  lemma {:induction false} KeysDistinct(g: Grouping, rows: seq<Row>)
    ensures Distinct(FirstKeys(g, rows))
    decreases |rows|
  {
    hide KeyFor;
    if rows != [] {
      KeysDistinct(g, rows[..|rows| - 1]);
    }
  }

  lemma WeighNext(w: Row -> int, rows: seq<Row>, row: Row)
    ensures Weigh(w, rows + [row]) == Weigh(w, rows) + w(row)
  {
    assert (rows + [row])[..|rows|] == rows;
  }

  /** One more row adds its weight to the group it belongs to. */
  lemma {:induction false} WeighGroupsNext(g: Grouping, w: Row -> int, rows: seq<Row>, row: Row, k: Row, keys: seq<Row>)
    requires KeyFor(g, row) == Key(k) && Distinct(keys)
    ensures WeighGroups(g, w, rows + [row], keys) == WeighGroups(g, w, rows, keys) + if k in keys then w(row) else 0
    decreases |keys|
  {
    hide KeyFor, Members;
    if keys != [] {
      var front, last := keys[..|keys| - 1], keys[|keys| - 1];
      WeighGroupsNext(g, w, rows, row, k, front);
      MembersNext(g, rows, row, last);
      WeighNext(w, Members(g, rows, last), row);
      assert Members(g, rows, last) + [] == Members(g, rows, last);
      assert keys == front + [last];
      assert last !in front;
    }
  }

  /** Groups partition the input: any weight summed group by group is the weight of the whole. */
  lemma {:induction false} GroupsPartition(g: Grouping, w: Row -> int, rows: seq<Row>)
    requires AllKeyed(g, rows)
    ensures WeighGroups(g, w, rows, FirstKeys(g, rows)) == Weigh(w, rows)
    decreases |rows|
  {
    hide KeyFor, Members;
    if rows != [] {
      var front, row := rows[..|rows| - 1], rows[|rows| - 1];
      var keys, k := FirstKeys(g, front), KeyFor(g, row).k;
      GroupsPartition(g, w, front);
      KeysDistinct(g, front);
      assert rows == front + [row];
      WeighGroupsNext(g, w, front, row, k, keys);
      if k !in keys {
        NoMembersYet(g, front, k);
        MembersNext(g, front, row, k);
        WeighNext(w, [], row);
        assert (keys + [k])[..|keys|] == keys;
      }
    }
  }

  // ----- The columns of the output add up

  /** What a row adds to a count or a sum. */
  ghost function Adds(f: AggregateFunc, columns: seq<Column>, row: Row): int {
    var v := ArgOf(f, columns, row);
    match f
    case CountStar => 1
    case Count(_) => if v.Val? && v.v != Null then 1 else 0
    case Sum(_) => if v.Val? && v.v.Integer? then v.v.i else 0
    case _ => 0
  }

  ghost predicate Counts(f: AggregateFunc) {
    f.CountStar? || f.Count? || f.Sum?
  }

  ghost predicate IsAdds(w: Row -> int, f: AggregateFunc, columns: seq<Column>) {
    forall row :: w(row) == Adds(f, columns, row)
  }

  lemma AddsNext(f: AggregateFunc, acc: Accumulator, columns: seq<Column>, row: Row, total: int)
    requires Counts(f) && Finalize(acc) == Integer(Wrap(total)) && FoldOne(Folded(acc), f, columns, row).Folded?
    requires acc.CountStarAcc? <==> f.CountStar?
    requires acc.CountAcc? <==> f.Count?
    requires acc.SumAcc? <==> f.Sum?
    ensures Finalize(FoldOne(Folded(acc), f, columns, row).acc) == Integer(Wrap(total + Adds(f, columns, row)))
  {
    hide ArgOf, Wrap;
    WrapOn(total, 1);
    WrapOn(total, Adds(f, columns, row));
  }

  /** A count or a sum of a group is what its rows add, wrapped. */
  lemma {:induction false} FinalAdds(f: AggregateFunc, w: Row -> int, columns: seq<Column>, rows: seq<Row>)
    requires Counts(f) && IsAdds(w, f, columns) && Fold(f, columns, rows).Folded?
    ensures var acc := Fold(f, columns, rows).acc;
            && (acc.CountStarAcc? <==> f.CountStar?) && (acc.CountAcc? <==> f.Count?) && (acc.SumAcc? <==> f.Sum?)
            && Finalize(acc) == Integer(Wrap(Weigh(w, rows)))
    decreases |rows|
  {
    hide ArgOf, Adds, Wrap;
    if rows == [] {
      WrapOn(0, 0);
    } else {
      var front, row := rows[..|rows| - 1], rows[|rows| - 1];
      FinalAdds(f, w, columns, front);
      AddsNext(f, Fold(f, columns, front).acc, columns, row, Weigh(w, front));
      assert w(row) == Adds(f, columns, row);
    }
  }

  lemma {:induction false} NoFunctionTrouble(g: Grouping, members: seq<Row>, row: Row, i: nat, j: nat)
    requires i <= j < |g.functions| && FunctionTrouble(g, members, row, i).None?
    ensures FoldOne(Fold(g.functions[j], g.columns, members), g.functions[j], g.columns, row).Folded?
    decreases |g.functions| - i
  {
    hide FoldOne;
    if i < j {
      NoFunctionTrouble(g, members, row, i + 1, j);
    }
  }

  /** A pass that is not stopped has keys for all rows and folds every group. */
  lemma {:induction false} NoTroubleFolds(g: Grouping, rows: seq<Row>, k: Row, j: nat)
    requires Trouble(g, rows).None? && j < |g.functions|
    ensures AllKeyed(g, rows) && Fold(g.functions[j], g.columns, Members(g, rows, k)).Folded?
    decreases |rows|
  {
    hide KeyFor, Fold, FoldOne, FunctionTrouble;
    if rows == [] {
      EmptyFold(g.functions[j], g.columns);
    } else {
      var front, row := rows[..|rows| - 1], rows[|rows| - 1];
      NoTroubleFolds(g, front, k, j);
      assert rows == front + [row];
      MembersNext(g, front, row, k);
      if KeyFor(g, row) == Key(k) {
        NoFunctionTrouble(g, Members(g, front, k), row, 0, j);
        FoldNext(g.functions[j], g.columns, Members(g, front, k), row);
      } else {
        assert Members(g, front, k) + [] == Members(g, front, k);
      }
    }
  }

  lemma EmptyFold(f: AggregateFunc, columns: seq<Column>)
    ensures Fold(f, columns, []) == Folded(NewAccumulator(f))
  {
  }

  /** The numbers that function `i` left in the rows of the output, summed. */
  ghost function ColumnTotal(g: Grouping, i: nat, out: seq<Row>): int {
    if out == [] then 0 else
      var v := ResultAt(g, i, out[|out| - 1]);
      ColumnTotal(g, i, out[..|out| - 1]) + if v.Integer? then v.i else 0
  }

  /** The functions' results are the last columns of a row. */
  function ResultAt(g: Grouping, i: nat, row: Row): Value {
    if i < |g.functions| <= |row| then row[|row| - |g.functions| + i] else Null
  }

  ghost predicate OutputOf(g: Grouping, rows: seq<Row>, keys: seq<Row>, out: seq<Row>) {
    |out| == |keys| && forall j :: 0 <= j < |keys| ==> out[j] == OutputRow(g, rows, keys[j])
  }

  lemma {:induction false} ColumnWeighs(g: Grouping, i: nat,
                                        w: Row -> int, rows: seq<Row>, keys: seq<Row>, out: seq<Row>)
    requires Trouble(g, rows).None? && i < |g.functions| && Counts(g.functions[i])
             && IsAdds(w, g.functions[i], g.columns)
    requires OutputOf(g, rows, keys, out)
    ensures Wrap(ColumnTotal(g, i, out)) == Wrap(WeighGroups(g, w, rows, keys))
    decreases |keys|
  {
    hide Trouble, Fold, Members, Wrap, IsAdds, Counts, Weigh;
    if keys != [] {
      var n := |keys| - 1;
      var members := Members(g, rows, keys[n]);
      ColumnWeighs(g, i, w, rows, keys[..n], out[..n]);
      NoTroubleFolds(g, rows, keys[n], i);
      FinalAdds(g.functions[i], w, g.columns, members);
      assert ResultAt(g, i, out[n]) == Integer(Wrap(Weigh(w, members)));
      WrapSum(ColumnTotal(g, i, out[..n]), WeighGroups(g, w, rows, keys[..n]), Weigh(w, members));
    }
  }

  lemma WrapSum(x: int, y: int, n: int)
    requires Wrap(x) == Wrap(y)
    ensures Wrap(x + Wrap(n)) == Wrap(y + n)
  {
    hide Wrap;
    WrapOn(x, Wrap(n));
    WrapOn(n, Wrap(y));
    WrapOn(y, n);
  }

  /** A column of counts or sums adds up, over all groups, to what all rows of the input add. */
  lemma ColumnsAddUp(g: Grouping, i: nat, w: Row -> int, rows: seq<Row>)
    requires Trouble(g, rows).None? && i < |g.functions| && Counts(g.functions[i])
             && IsAdds(w, g.functions[i], g.columns)
    ensures Wrap(ColumnTotal(g, i, OutputRows(g, rows))) == Wrap(Weigh(w, rows))
  {
    hide Trouble, Fold, Wrap, IsAdds, Counts, KeyFor;
    ColumnWeighs(g, i, w, rows, OutputKeys(g, rows), OutputRows(g, rows));
    NoTroubleFolds(g, rows, [], i);
    GroupsPartition(g, w, rows);
  }

  lemma {:induction false} CountIsWeight(w: Row -> int, rows: seq<Row>)
    requires forall row :: w(row) == 1
    ensures Weigh(w, rows) == |rows|
    decreases |rows|
  {
    if rows != [] {
      CountIsWeight(w, rows[..|rows| - 1]);
    }
  }

  lemma {:induction false} TotalIsWeight(f: AggregateFunc, w: Row -> int, columns: seq<Column>, rows: seq<Row>)
    requires f.Sum? && IsAdds(w, f, columns) && Evaluated(f, columns, rows)
    ensures Weigh(w, rows) == Total(Integers(Args(f, columns, rows)))
    decreases |rows|
  {
    hide Total, Integers, ArgOf;
    if rows == [] {
      assert Total(Integers([])) == 0 by {
        NoIntegers();
      }
    } else {
      var front, row := rows[..|rows| - 1], rows[|rows| - 1];
      TotalIsWeight(f, w, columns, front);
      assert w(row) == Adds(f, columns, row);
      assert Args(f, columns, rows) == Args(f, columns, front) + [ArgOf(f, columns, row).v];
      NextInteger(Args(f, columns, front), ArgOf(f, columns, row).v);
    }
  }

  lemma NoIntegers()
    ensures Total(Integers([])) == 0
  {
  }

  ghost predicate Evaluated(f: AggregateFunc, columns: seq<Column>, rows: seq<Row>) {
    forall i :: 0 <= i < |rows| ==> ArgOf(f, columns, rows[i]).Val?
  }

  /** The COUNT(*) column of the output adds up to the number of rows that came in. */
  lemma CountsAddUp(g: Grouping, i: nat, rows: seq<Row>)
    requires Trouble(g, rows).None? && i < |g.functions| && g.functions[i].CountStar?
    ensures Wrap(ColumnTotal(g, i, OutputRows(g, rows))) == Wrap(|rows|)
  {
    hide Trouble, OutputRows, Wrap;
    var w := (row: Row) => 1;
    ColumnsAddUp(g, i, w, rows);
    CountIsWeight(w, rows);
  }

  /** A SUM column adds up to the sum of the integers among its argument's values on all rows that came in. */
  lemma SumsAddUp(g: Grouping, i: nat, rows: seq<Row>)
    requires Trouble(g, rows).None? && i < |g.functions| && g.functions[i].Sum?
    ensures Evaluated(g.functions[i], g.columns, rows)
    ensures Wrap(ColumnTotal(g, i, OutputRows(g, rows)))
         == Wrap(Total(Integers(Args(g.functions[i], g.columns, rows))))
  {
    hide Trouble, OutputRows, Wrap, Adds, ArgOf, Total, Integers;
    var f, columns := g.functions[i], g.columns;
    var w := (row: Row) => Adds(f, columns, row);
    NoTroubleEvaluates(g, i, rows);
    ColumnsAddUp(g, i, w, rows);
    TotalIsWeight(f, w, columns, rows);
  }

  lemma {:induction false} NoTroubleEvaluates(g: Grouping, i: nat, rows: seq<Row>)
    requires Trouble(g, rows).None? && i < |g.functions|
    ensures Evaluated(g.functions[i], g.columns, rows)
    decreases |rows|
  {
    hide ArgOf, Fold, Members, FunctionTrouble, KeyFor;
    if rows != [] {
      var front, row := rows[..|rows| - 1], rows[|rows| - 1];
      NoTroubleEvaluates(g, i, front);
      NoFunctionTrouble(g, Members(g, front, KeyFor(g, row).k), row, 0, i);
      assert rows == front + [row];
    }
  }

  // ----- HAVING

  /** The clause has no names but these, and no qualified ones. */
  ghost predicate OnlyNames(e: Expr, names: set<string>) {
    match e
    case ColumnRef(name) => name in names
    case QualifiedColumn(_, _) => false
    case BinaryOp(_, left, right) => OnlyNames(left, names) && OnlyNames(right, names)
    case IsNull(arg, _) => OnlyNames(arg, names)
    case InList(arg, list, _) => OnlyNames(arg, names) && forall i :: 0 <= i < |list| ==> OnlyNames(list[i], names)
    case _ => true
  }

  /** The column is at the same place in the input and in the key. */
  ghost predicate Aligned(columns: seq<Column>, keyColumns: seq<Column>, name: string) {
    FindColumn(columns, name) == FindColumn(keyColumns, name) < |keyColumns|
  }

  /** HAVING says what it says of the group's key when the columns it names are at one place in both. */
  lemma {:induction false} HavingAligned(e: Expr, columns: seq<Column>, keyColumns: seq<Column>, key: Row, results: Row,
                                         names: set<string>)
    requires OnlyNames(e, names) && (forall n :: n in names ==> Aligned(columns, keyColumns, n))
    requires |key| == |keyColumns| <= |columns|
    ensures Eval(e, columns, key + results, ANONYMOUS) == Eval(e, keyColumns, key, ANONYMOUS)
    decreases e
  {
    match e
    case BinaryOp(_, left, right) =>
      HavingAligned(left, columns, keyColumns, key, results, names);
      HavingAligned(right, columns, keyColumns, key, results, names);
    case IsNull(arg, _) =>
      HavingAligned(arg, columns, keyColumns, key, results, names);
    case InList(arg, list, _) =>
      HavingAligned(arg, columns, keyColumns, key, results, names);
      var v := Eval(arg, keyColumns, key, ANONYMOUS);
      if v.Val? {
        HavingAlignedIn(v.v, list, columns, keyColumns, key, results, names);
      }
    case _ =>
  }

  lemma {:induction false} HavingAlignedIn(target: Value, list: seq<Expr>, columns: seq<Column>,
                                           keyColumns: seq<Column>, key: Row, results: Row, names: set<string>)
    requires (forall i :: 0 <= i < |list| ==> OnlyNames(list[i], names))
    requires (forall n :: n in names ==> Aligned(columns, keyColumns, n)) && |key| == |keyColumns| <= |columns|
    ensures EvalIn(target, list, columns, key + results, ANONYMOUS) == EvalIn(target, list, keyColumns, key, ANONYMOUS)
    decreases list
  {
    if list != [] {
      HavingAligned(list[0], columns, keyColumns, key, results, names);
      HavingAlignedIn(target, list[1..], columns, keyColumns, key, results, names);
    }
  }

  // ----- What the output shows

  /** The key of a row: the value of every expression of GROUP BY on it; nothing without GROUP BY. */
  lemma KeyMeans(g: Grouping, row: Row, k: Row)
    ensures KeyFor(g, row) == Key(k)
       <==> if g.groupBy.None? then k == []
            else
              && |k| == |g.groupBy.value|
              && forall i :: 0 <= i < |k| ==> Eval(g.groupBy.value[i], g.columns, row, ANONYMOUS) == Val(k[i])
  {
    if g.groupBy.Some? {
      AllEvaluated(g.groupBy.value, g.columns, row, k);
    }
  }

  lemma {:induction false} AllEvaluated(exprs: seq<Expr>, columns: seq<Column>, row: Row, k: Row)
    ensures EvalAll(exprs, columns, row) == Key(k)
       <==> |k| == |exprs| && forall i :: 0 <= i < |k| ==> Eval(exprs[i], columns, row, ANONYMOUS) == Val(k[i])
    decreases |exprs|
  {
    hide Eval;
    if exprs != [] {
      var n := |exprs| - 1;
      if |k| == |exprs| {
        AllEvaluated(exprs[..n], columns, row, k[..n]);
        assert k == k[..n] + [k[n]];
      }
      var front := EvalAll(exprs[..n], columns, row);
      if front.Key? {
        AllEvaluated(exprs[..n], columns, row, front.k);
      }
    }
  }

  /** There is one group for each key, in the order in which the keys come, and it has the rows with that key. */
  lemma {:induction false} GroupsMean(g: Grouping, rows: seq<Row>, k: Row, row: Row)
    ensures k in FirstKeys(g, rows) <==> exists r :: r in rows && KeyFor(g, r) == Key(k)
    ensures multiset(Members(g, rows, k))[row] == if KeyFor(g, row) == Key(k) then multiset(rows)[row] else 0
    ensures forall i, j :: 0 <= i < j < |FirstKeys(g, rows)| ==> FirstKeys(g, rows)[i] != FirstKeys(g, rows)[j]
    decreases |rows|
  {
    hide KeyFor;
    if rows != [] {
      var front, last := rows[..|rows| - 1], rows[|rows| - 1];
      GroupsMean(g, front, k, row);
      assert rows == front + [last];
      if KeyFor(g, last) == Key(k) && k !in FirstKeys(g, front) {
        assert FirstKeys(g, rows)[|FirstKeys(g, front)|] == k;
      }
    }
  }

  /** The integers among some values, added up from the front. */
  function IntegerSum(vs: seq<Value>): int {
    if vs == [] then 0 else (if vs[0].Integer? then vs[0].i else 0) + IntegerSum(vs[1..])
  }

  lemma {:induction false} SumLast(vs: seq<Value>)
    requires vs != []
    ensures var last := vs[|vs| - 1];
            IntegerSum(vs) == IntegerSum(vs[..|vs| - 1]) + if last.Integer? then last.i else 0
  {
    if |vs| > 1 {
      SumLast(vs[1..]);
      assert vs[1..][..|vs| - 2] == vs[..|vs| - 1][1..];
    }
  }

  lemma {:induction false} SumIsTotal(vs: seq<Value>)
    ensures Total(Integers(vs)) == IntegerSum(vs)
    decreases |vs|
  {
    if vs != [] {
      SumIsTotal(vs[..|vs| - 1]);
      SumLast(vs);
      assert vs == vs[..|vs| - 1] + [vs[|vs| - 1]];
      NextInteger(vs[..|vs| - 1], vs[|vs| - 1]);
    }
  }

  /** Where there are values, and where there are integers. */
  function Given(vs: seq<Value>): set<nat> {
    set i: nat | i < |vs| && vs[i] != Null
  }

  function GivenIntegers(vs: seq<Value>): set<nat> {
    set i: nat | i < |vs| && vs[i].Integer?
  }

  lemma GivenNext(vs: seq<Value>, v: Value)
    ensures Given(vs + [v]) == Given(vs) + if v == Null then {} else {|vs|}
    ensures GivenIntegers(vs + [v]) == GivenIntegers(vs) + if v.Integer? then {|vs|} else {}
    ensures |vs| !in Given(vs) && |vs| !in GivenIntegers(vs)
  {
  }

  lemma PresentNext(vs: seq<Value>, v: Value)
    ensures Present(vs + [v]) == Present(vs) + if v == Null then [] else [v]
    ensures Integers(vs + [v]) == Integers(vs) + if v.Integer? then [v.i] else []
  {
    assert (vs + [v])[..|vs|] == vs;
  }

  lemma {:induction false} PresentMeans(vs: seq<Value>)
    ensures |Present(vs)| == |Given(vs)| && |Integers(vs)| == |GivenIntegers(vs)|
    ensures forall v :: v in Present(vs) <==> v in vs && v != Null
    decreases |vs|
  {
    if vs != [] {
      var front, last := vs[..|vs| - 1], vs[|vs| - 1];
      PresentMeans(front);
      assert vs == front + [last];
      GivenNext(front, last);
      PresentNext(front, last);
      hide Present, Integers, Given, GivenIntegers;
    }
  }

  function Abs(n: int): nat {
    if n < 0 then -n else n
  }

  /** `q` is `a` divided by `b`, the fraction dropped. */
  ghost predicate Truncated(a: int, b: int, q: int)
    requires b != 0
  {
    && Abs(q) * Abs(b) <= Abs(a) < Abs(q) * Abs(b) + Abs(b)
    && (q > 0 ==> (a > 0 <==> b > 0)) && (q < 0 ==> (a > 0 <==> b < 0))
  }

  lemma Divides(x: nat, y: nat)
    requires y > 0
    ensures var q := x / y; q >= 0 && q * y <= x < q * y + y && (q > 0 ==> x > 0)
  {
    var q, r := x / y, x % y;
    assert x == q * y + r;
  }

  lemma QuotientSign(a: int, b: int, n: int)
    requires b != 0 && n == Abs(a) / Abs(b) >= 0
    ensures Quotient(a, b) == if (a >= 0) == (b > 0) then n else -n
  {
  }

  lemma SignedTruncated(a: int, b: int, n: int)
    requires b != 0 && n >= 0 && n * Abs(b) <= Abs(a) < n * Abs(b) + Abs(b) && (n > 0 ==> Abs(a) > 0)
    ensures Truncated(a, b, if (a >= 0) == (b > 0) then n else -n)
  {
  }

  lemma QuotientMeans(a: int, b: int)
    requires b != 0
    ensures Truncated(a, b, Quotient(a, b))
  {
    Divides(Abs(a), Abs(b));
    QuotientSign(a, b, Abs(a) / Abs(b));
    SignedTruncated(a, b, Abs(a) / Abs(b));
  }

  /** What a function shows of the values `vs` that its argument has on the rows of a group. */
  ghost predicate Shows(f: AggregateFunc, vs: seq<Value>, v: Value) {
    match f
    case CountStar => v == Integer(Wrap(|vs|))
    case Count(_) => v == Integer(Wrap(|Given(vs)|))
    case Sum(_) => v == Integer(Wrap(IntegerSum(vs)))
    case Avg(_) =>
      var total, n := Wrap(IntegerSum(vs)), Wrap(|GivenIntegers(vs)|);
      if n == 0 then v == Null
      else v.Integer? && exists q :: Truncated(total, n, q) && v.i == Wrap(q)
    case Min(_) =>
      if Given(vs) == {} then v == Null
      else v in vs && v != Null && forall w :: w in vs && w != Null ==> !Below(w, v)
    case Max(_) =>
      if Given(vs) == {} then v == Null
      else v in vs && v != Null && forall w :: w in vs && w != Null ==> !Below(v, w)
  }

  lemma WrapWithin(x: int)
    requires -0x8000_0000_0000_0000 <= x < 0x8000_0000_0000_0000
    ensures Wrap(x) == x
  {
  }

  lemma NotBelow(w: Value, v: Value)
    requires Comparable(w, v)
    ensures SqlCmp(w, v) != Less ==> !Below(w, v)
    ensures SqlCmp(w, v) != Greater ==> !Below(v, w)
  {
    hide Rank, KeyLess, BytesBelow;
    match (w, v) {
      case (Text(x), Text(y)) => BytesCompared(x, y);
      case (Json(x), Json(y)) => BytesCompared(x, y);
      case _ =>
    }
  }

  lemma ExtremeShows(vs: seq<Value>, v: Option<Value>, least: bool)
    requires if least then LeastOf(v, Present(vs)) else GreatestOf(v, Present(vs))
    ensures v.None? <==> Given(vs) == {}
    ensures v.Some? ==>
              && v.value in vs && v.value != Null
              && forall w :: w in vs && w != Null ==> if least then !Below(w, v.value) else !Below(v.value, w)
  {
    hide Below, SqlCmp, Comparable, Given, Present;
    PresentMeans(vs);
    if v.Some? {
      forall w | w in vs && w != Null ensures if least then !Below(w, v.value) else !Below(v.value, w) {
        assert w in Present(vs);
        NotBelow(w, v.value);
      }
    }
    EmptyLength(Present(vs), Given(vs));
  }

  lemma EmptyLength(a: seq<Value>, b: set<nat>)
    requires |a| == |b|
    ensures a == [] <==> b == {}
  {
  }

  lemma FinalShows(f: AggregateFunc, acc: Accumulator, vs: seq<Value>)
    requires Means(f, acc, vs)
    ensures Shows(f, vs, Finalize(acc))
  {
    hide Wrap, Quotient, Total, Integers, Present, Given, GivenIntegers, IntegerSum, LeastOf, GreatestOf, Below,
      Truncated;
    PresentMeans(vs);
    SumIsTotal(vs);
    match f {
      case Avg(_) =>
        if acc.count != 0 {
          QuotientMeans(acc.sum, acc.count);
        }
      case Min(_) => ExtremeShows(vs, acc.least, true);
      case Max(_) => ExtremeShows(vs, acc.greatest, false);
      case _ =>
    }
  }

  /** What a column of results shows in the row of a group: of COUNT the number of rows or values, of SUM the sum, of
      AVG the quotient with the fraction dropped, of MIN and MAX a value that none is below or above, and NULL for
      these three when there is none. */
  lemma ResultShows(g: Grouping, i: nat, rows: seq<Row>, k: Row)
    requires Trouble(g, rows).None? && i < |g.functions|
    ensures Evaluated(g.functions[i], g.columns, Members(g, rows, k))
    ensures Shows(g.functions[i], Args(g.functions[i], g.columns, Members(g, rows, k)),
                  ResultAt(g, i, OutputRow(g, rows, k)))
  {
    hide Trouble, Fold, Members, Finalize, Means, Shows, ArgOf;
    var f, members := g.functions[i], Members(g, rows, k);
    NoTroubleFolds(g, rows, k, i);
    FoldMeans(f, g.columns, members);
    FinalShows(f, Fold(f, g.columns, members).acc, Args(f, g.columns, members));
  }

  /** With fewer than 2^63 rows in a group an average is the quotient itself: nothing but the sum can wrap around. */
  lemma AverageShows(f: AggregateFunc, vs: seq<Value>, v: Value)
    requires f.Avg? && Shows(f, vs, v) && |GivenIntegers(vs)| < 0x8000_0000_0000_0000
    ensures v == Null <==> GivenIntegers(vs) == {}
    ensures v.Integer? ==> Truncated(Wrap(IntegerSum(vs)), |GivenIntegers(vs)|, v.i)
  {
    hide IntegerSum, GivenIntegers, Truncated, Wrap;
    var n, total := |GivenIntegers(vs)|, Wrap(IntegerSum(vs));
    WrapWithin(n);
    if n > 0 {
      var q :| Truncated(total, n, q) && v.i == Wrap(q);
      TruncatedWithin(total, n, q);
      WrapWithin(q);
    }
  }

  lemma TruncatedWithin(a: int, b: int, q: int)
    requires b > 0 && Truncated(a, b, q)
    ensures Abs(q) <= Abs(a) && (q > 0 ==> a > 0) && (q < 0 ==> a <= 0)
  {
    assert Abs(q) * 1 <= Abs(q) * b;
  }

  /** A text of `n` bytes. */
  function Ones(n: nat): Value {
    Text(seq(n, _ => 49))
  }

  lemma {:induction false} OnesApart(n: nat)
    ensures |set i | 0 <= i < n :: Ones(i)| == n
  {
    if n > 0 {
      OnesApart(n - 1);
      forall i | 0 <= i < n - 1 ensures Ones(i) != Ones(n - 1) {
        assert |Ones(i).s| == i;
      }
      assert (set i | 0 <= i < n :: Ones(i)) == (set i | 0 <= i < n - 1 :: Ones(i)) + {Ones(n - 1)};
    }
  }

  lemma {:induction false} ValuesIn(row: Row)
    ensures |set v | v in row| <= |row|
  {
    if row != [] {
      ValuesIn(row[1..]);
      assert (set v | v in row) == {row[0]} + (set v | v in row[1..]);
    }
  }

  /** There are more values than a row has. */
  lemma ValueNotIn(row: Row) returns (v: Value)
    ensures v.Text? && v !in row
  {
    if forall i :: 0 <= i <= |row| ==> Ones(i) in row {
      OnesApart(|row| + 1);
      ValuesIn(row);
      Within(set i | 0 <= i < |row| + 1 :: Ones(i), set w | w in row);
      assert false;
    }
    var i :| 0 <= i <= |row| && Ones(i) !in row;
    v := Ones(i);
  }

  lemma {:induction false} Within(a: set<Value>, b: set<Value>)
    requires a <= b
    ensures |a| <= |b|
  {
    if a != {} {
      var v :| v in a;
      Within(a - {v}, b - {v});
    }
  }

  /** A column of the key elsewhere in the input is read from the wrong place, or from none, for some group, whatever
      the results of its aggregates. */
  lemma HavingMisread(name: string, columns: seq<Column>, keyColumns: seq<Column>, results: Row)
    returns (key: Row, v: Value)
    requires FindColumn(keyColumns, name) < |keyColumns| && !Aligned(columns, keyColumns, name)
    ensures |key| == |keyColumns| && Eval(ColumnRef(name), keyColumns, key, ANONYMOUS) == Val(v)
    ensures Eval(ColumnRef(name), columns, key + results, ANONYMOUS) != Val(v)
  {
    var i := FindColumn(keyColumns, name);
    v := ValueNotIn(results);
    key := seq(|keyColumns|, j => if j == i then v else Null);
    var read := FindColumn(columns, name);
    assert |key| <= read < |key + results| ==> (key + results)[read] in results;
  }

  /** HAVING with an aggregate in it fails on the first group. */
  lemma HavingAggregate(g: Grouping, rows: seq<Row>, op: BinOp, right: Expr)
    requires g.having == Some(BinaryOp(op, Unresolved, right)) && rows != []
    ensures Having(g, rows) == Stream([], Some(InvalidExpression))
  {
    assert Eval(Unresolved, g.columns, rows[0], ANONYMOUS) == Err(InvalidExpression);
    FilterStep(Stream(rows, None), g.columns, g.having.value, ANONYMOUS);
  }
}
