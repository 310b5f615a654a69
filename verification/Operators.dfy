/** Pull operators: scans, seeks, filters and joins, each yielding one row at a time. */
module Operators {
  import opened Bytes
  import opened Storage
  import opened Shape
  import opened Contexts
  import opened Steps
  import opened Contents
  import opened NodeEdits
  import opened Cursors
  import opened BTrees
  import opened Rows
  import opened Tables
  import opened Exprs
  import opened Streams

  datatype Pulled = Got(row: Row) | Finished | Stopped(error: PlanError)

  /** One pull takes one row off the stream, or reports how it ends. */
  ghost predicate Pulls(before: Stream, r: Pulled, after: Stream) {
    if before.rows != [] then r == Got(before.rows[0]) && after == Stream(before.rows[1..], before.error)
    else if before.error.Some? then r == Stopped(before.error.value)
    else r == Finished && after == before
  }

  ghost function DecodedRows(es: seq<LeafEntry>, schema: TableSchema): seq<Row> {
    if es == [] then [] else [DecodeRow(schema, es[0].payload)] + DecodedRows(es[1..], schema)
  }

  /** What an index seek makes of the entries from the prefix on: the rows they point to, until the prefix ends. */
  ghost function SeekRows(es: seq<LeafEntry>, prefix: Key, schema: TableSchema, table: map<Key, seq<byte>>): seq<Row> {
    if es == [] || !(prefix <= es[0].key) then [] else
      var k := es[0].key[|prefix|..];
      (if k in table then [DecodeRow(schema, table[k])] else []) + SeekRows(es[1..], prefix, schema, table)
  }

  ghost predicate Readable(m: map<PageNo, Page>, t: Rooted) {
    Roomy(t.d) && Stored(m, t.tree, t.height, t.d)
  }

  lemma Openable(m: map<PageNo, Page>, t: Rooted)
    requires Readable(m, t)
    ensures Roomy(t.d) && Stored(m, t.tree, t.height, t.d) && ModelOf(t) == MapOf(Flat(t.tree))
  {
  }

  lemma SuffixSorted(t: Rooted, prefix: Key)
    requires Sound(t.tree, t.height)
    ensures var es := Flat(t.tree); SortedIn(es[PartitionPoint(es, prefix)..], Rank(prefix), HIGHEST)
  {
    hide Rank, KeyLess, Flat, PartitionPoint, SortedIn;
    FlatSorted(t.tree, t.height, LOWEST, HIGHEST, 0);
    SortedSuffix(Flat(t.tree), PartitionPoint(Flat(t.tree), prefix), prefix);
  }

  lemma SortedSuffix(es: seq<LeafEntry>, i: nat, key: Key)
    requires SortedIn(es, LOWEST, HIGHEST) && i <= |es| && (i < |es| ==> !KeyLess(es[i].key, key))
    ensures SortedIn(es[i..], Rank(key), HIGHEST)
  {
    hide Rank, KeyLess;
    assert i < |es| ==> Rank(key) <= Rank(es[i].key);
  }

  /** Once an entry does not have the prefix, no later one has it. */
  lemma PrefixEnds(es: seq<LeafEntry>, prefix: Key, schema: TableSchema, table: map<Key, seq<byte>>)
    requires SortedIn(es, Rank(prefix), HIGHEST)
    ensures es == [] ==> SeekRows(es, prefix, schema, table) == []
    ensures es != [] ==> SortedIn(es[1..], Rank(prefix), HIGHEST)
    ensures es != [] && !(prefix <= es[0].key) ==>
              SeekRows(es[1..], prefix, schema, table) == SeekRows(es, prefix, schema, table) == []
    ensures es != [] && prefix <= es[0].key ==>
              var k := es[0].key[|prefix|..];
              SeekRows(es, prefix, schema, table)
              == (if k in table then [DecodeRow(schema, table[k])] else []) + SeekRows(es[1..], prefix, schema, table)
  {
    hide Rank;
    if es != [] && !(prefix <= es[0].key) && |es| > 1 && prefix <= es[1].key {
      PrefixRange(prefix, es[1].key, es[0].key);
      assert false;
    }
  }

  class SeqScan {
    var cursor: Cursor
    const root: PageNo
    const schema: TableSchema
    var started: bool
    ghost const table: Rooted
    ghost var Repr: set<object>
    ghost var rest: Stream

    ghost predicate Valid(m: map<PageNo, Page>)
      reads this, Repr
    {
      && this in Repr && cursor in Repr
      && Readable(m, table) && root == table.tree.p
      && cursor.Valid(m) && cursor.Within(Footprint(table.tree))
      && rest == Stream(DecodedRows(if started then cursor.Remaining() else Flat(table.tree), schema), None)
    }

    constructor (schema: TableSchema, ghost table: Rooted, ghost m: map<PageNo, Page>)
      requires schema.rootPage == table.tree.p && Readable(m, table)
      ensures Valid(m) && fresh(Repr) && this.table == table
      ensures rest == Stream(DecodedRows(Flat(table.tree), schema), None)
    {
      cursor := new Cursor.Empty();
      root, this.schema, started, this.table := schema.rootPage, schema, false, table;
      rest := Stream(DecodedRows(Flat(table.tree), schema), None);
      new;
      Repr := {this, cursor};
    }

    /** The scan goes on over other writes, as long as its own table stays where it is. */
    lemma ScanFrame(m: map<PageNo, Page>, m': map<PageNo, Page>)
      requires Valid(m) && Readable(m', table)
      ensures Valid(m')
    {
      hide Flat, DecodedRows, Footprint, Sound, NoRepeats, RootFilled, Roomy, Held;
      HeldDetermines(m, m', table.tree);
      if !cursor.finished {
        LinksFrame(m, m', cursor.rest, cursor.nextLeaf, 0);
      }
    }

    method Next(pager: Pager) returns (r: Pulled)
      requires pager.Valid() && pager !in Repr && Valid(pager.pages)
      modifies Repr
      ensures Valid(pager.pages) && fresh(Repr - old(Repr)) && Pulls(old(rest), r, rest)
    {
      hide Stored, Roomy, Flat, Links, FlatLeaves, Pager.Valid, Cursor.Remaining, Cursor.Valid;
      if !started {
        var bt := new BTree(pager, root, table.tree, table.height, table.d);
        cursor := bt.CursorStart();
        started := true;
        Repr := Repr + {cursor};
      }
      var e := cursor.Next(pager);
      if e.None? {
        return Finished;
      }
      rest := Stream(rest.rows[1..], None);
      r := Got(DecodeRow(schema, e.value.payload));
    }
  }

  class TableSeek {
    const root: PageNo
    const schema: TableSchema
    const key: Key
    var done: bool
    ghost const table: Rooted
    ghost var Repr: set<object>
    ghost var rest: Stream

    ghost predicate Valid(m: map<PageNo, Page>)
      reads this, Repr
    {
      && this in Repr
      && Readable(m, table) && root == table.tree.p
      && rest == Stream(if !done && key in ModelOf(table) then [DecodeRow(schema, ModelOf(table)[key])] else [], None)
    }

    constructor (schema: TableSchema, key: Key, ghost table: Rooted, ghost m: map<PageNo, Page>)
      requires schema.rootPage == table.tree.p && Readable(m, table)
      ensures Valid(m) && fresh(Repr) && this.table == table
      ensures rest == Stream(if key in ModelOf(table) then [DecodeRow(schema, ModelOf(table)[key])] else [], None)
    {
      root, this.schema, this.key, done, this.table := schema.rootPage, schema, key, false, table;
      rest := Stream(if key in ModelOf(table) then [DecodeRow(schema, ModelOf(table)[key])] else [], None);
      Repr := {this};
    }

    method Next(pager: Pager) returns (r: Pulled)
      requires pager.Valid() && pager !in Repr && Valid(pager.pages)
      modifies Repr
      ensures Valid(pager.pages) && fresh(Repr - old(Repr)) && Pulls(old(rest), r, rest)
    {
      hide Stored, Roomy, MapOf, Pager.Valid;
      if done {
        return Finished;
      }
      done := true;
      rest := Stream([], None);
      var bt := new BTree(pager, root, table.tree, table.height, table.d);
      var payload := bt.Search(key);
      r := if payload.Some? then Got(DecodeRow(schema, payload.value)) else Finished;
    }
  }

  class IndexSeek {
    const indexRoot: PageNo
    const schema: TableSchema
    const prefix: Key
    var cursor: Cursor
    var started: bool
    ghost const table: Rooted
    ghost const index: Rooted
    ghost var Repr: set<object>
    ghost var rest: Stream

    ghost function Pending(): seq<LeafEntry>
      reads this, cursor
    {
      if started then cursor.Remaining() else var es := Flat(index.tree); es[PartitionPoint(es, prefix)..]
    }

    ghost predicate Valid(m: map<PageNo, Page>)
      reads this, Repr
    {
      && this in Repr && cursor in Repr
      && Readable(m, table) && schema.rootPage == table.tree.p
      && Readable(m, index) && indexRoot == index.tree.p
      && cursor.Valid(m) && SortedIn(Pending(), Rank(prefix), HIGHEST)
      && rest == Stream(SeekRows(Pending(), prefix, schema, ModelOf(table)), None)
    }

    constructor (schema: TableSchema, indexRoot: PageNo, prefix: Key, ghost table: Rooted, ghost index: Rooted,
                 ghost m: map<PageNo, Page>)
      requires schema.rootPage == table.tree.p && Readable(m, table)
      requires indexRoot == index.tree.p && Readable(m, index)
      ensures Valid(m) && fresh(Repr) && this.table == table && this.index == index
      ensures var es := Flat(index.tree);
              rest == Stream(SeekRows(es[PartitionPoint(es, prefix)..], prefix, schema, ModelOf(table)), None)
    {
      cursor := new Cursor.Empty();
      this.indexRoot, this.schema, this.prefix, started, this.table, this.index :=
          indexRoot, schema, prefix, false, table, index;
      var es := Flat(index.tree);
      rest := Stream(SeekRows(es[PartitionPoint(es, prefix)..], prefix, schema, ModelOf(table)), None);
      SuffixSorted(index, prefix);
      new;
      Repr := {this, cursor};
    }

    method Next(pager: Pager) returns (r: Pulled)
      requires pager.Valid() && pager !in Repr && Valid(pager.pages)
      modifies Repr
      ensures Valid(pager.pages) && fresh(Repr - old(Repr)) && Pulls(old(rest), r, rest)
    {
      hide Stored, Roomy, Flat, Links, FlatLeaves, Pager.Valid, Cursor.Remaining, Cursor.Valid, MapOf, PartitionPoint,
        Rank, SortedIn, Readable, ModelOf, DecodeRow, SeekRows;
      if !started {
        Openable(pager.pages, index);
        var bt := new BTree(pager, indexRoot, index.tree, index.height, index.d);
        cursor := bt.CursorSeek(prefix);
        started := true;
        Repr := Repr + {cursor};
      }
      while true
        invariant Valid(pager.pages) && started && fresh(Repr - old(Repr)) && pager !in Repr
        invariant rest == old(rest)
        decreases |cursor.Remaining()|
      {
        ghost var es := cursor.Remaining();
        PrefixEnds(es, prefix, schema, ModelOf(table));
        var e := cursor.Next(pager);
        if e.None? {
          return Finished;
        }
        var key := e.value.key;
        if !(prefix <= key) {
          return Finished;
        }
        Openable(pager.pages, table);
        var tableTree := new BTree(pager, schema.rootPage, table.tree, table.height, table.d);
        var payload := tableTree.Search(key[|prefix|..]);
        if payload.Some? {
          rest := Stream(rest.rows[1..], None);
          return Got(DecodeRow(schema, payload.value));
        }
      }
    }
  }

  // ----- Operators on operators

  datatype Operator =
    | OfSeqScan(seqScan: SeqScan)
    | OfTableSeek(tableSeek: TableSeek)
    | OfIndexSeek(indexSeek: IndexSeek)
    | OfFilter(filter: Filter)
    | OfJoin(join: NestedLoopJoin)
  {
    ghost function Object(): object {
      match this
      case OfSeqScan(o) => o
      case OfTableSeek(o) => o
      case OfIndexSeek(o) => o
      case OfFilter(o) => o
      case OfJoin(o) => o
    }

    ghost function Repr(): set<object>
      reads Object()
    {
      match this
      case OfSeqScan(o) => o.Repr
      case OfTableSeek(o) => o.Repr
      case OfIndexSeek(o) => o.Repr
      case OfFilter(o) => o.Repr
      case OfJoin(o) => o.Repr
    }

    /** What the operator has yet to yield. */
    ghost function Rest(): Stream
      reads Object()
    {
      match this
      case OfSeqScan(o) => o.rest
      case OfTableSeek(o) => o.rest
      case OfIndexSeek(o) => o.rest
      case OfFilter(o) => o.rest
      case OfJoin(o) => o.rest
    }

    /** How many operators deep it is. */
    ghost function Depth(): nat {
      match this
      case OfFilter(o) => o.depth
      case OfJoin(o) => o.depth
      case _ => 0
    }

    ghost predicate Valid(m: map<PageNo, Page>)
      reads Object(), Repr()
      decreases Depth(), 1
    {
      match this
      case OfSeqScan(o) => o.Valid(m)
      case OfTableSeek(o) => o.Valid(m)
      case OfIndexSeek(o) => o.Valid(m)
      case OfFilter(o) => o.Valid(m)
      case OfJoin(o) => o.Valid(m)
    }

    method Next(pager: Pager) returns (r: Pulled)
      requires Valid(pager.pages) && pager.Valid() && pager !in Repr()
      modifies Repr()
      ensures Pulls(old(Rest()), r, Rest()) && fresh(Repr() - old(Repr()))
      ensures !r.Stopped? ==> Valid(pager.pages) && Object() in Repr()
      decreases Depth(), 2
    {
      match this
      case OfSeqScan(o) => r := o.Next(pager);
      case OfTableSeek(o) => r := o.Next(pager);
      case OfIndexSeek(o) => r := o.Next(pager);
      case OfFilter(o) => r := o.Next(pager);
      case OfJoin(o) => r := o.Next(pager);
    }
  }

  /** Pulls to the end. */
  method Drain(op: Operator, pager: Pager) returns (rs: seq<Row>, error: Option<PlanError>)
    requires op.Valid(pager.pages) && op.Object() in op.Repr() && pager.Valid() && pager !in op.Repr()
    modifies op.Repr()
    ensures Stream(rs, error) == old(op.Rest())
    decreases op.Depth(), 3
  {
    hide Pager.Valid, Operator.Valid, Operator.Object, Operator.Repr, Operator.Rest;
    rs := [];
    ghost var all, repr := op.Rest(), op.Repr();
    var pulled := op.Next(pager);
    while pulled.Got?
      invariant pager !in op.Repr() && fresh(op.Repr() - repr)
      invariant !pulled.Stopped? ==> op.Valid(pager.pages) && op.Object() in op.Repr()
      invariant pulled.Got? ==> all == Then(rs + [pulled.row], op.Rest())
      invariant pulled.Finished? ==> all == Stream(rs, None)
      invariant pulled.Stopped? ==> all == Stream(rs, Some(pulled.error))
      decreases if pulled.Got? then 1 + |op.Rest().rows| else 0
    {
      rs := rs + [pulled.row];
      ghost var owned := op.Repr();
      label L:
      pulled := op.Next(pager);
      forall o | o in op.Repr() && o !in repr ensures fresh(o) {
        assert o !in owned ==> fresh@L(o);
      }
    }
    error := if pulled.Stopped? then Some(pulled.error) else None;
  }

  class Filter {
    const input: Operator
    const columns: seq<Column>
    const predicate_: Expr
    const who: Caller
    ghost const depth: nat
    ghost var Repr: set<object>
    ghost var rest: Stream

    ghost predicate Valid(m: map<PageNo, Page>)
      reads this, Repr
      decreases depth, 0
    {
      && this in Repr && input.Object() in Repr && input.Object() in input.Repr() && input.Repr() <= Repr
      && this !in input.Repr()
      && input.Depth() < depth && input.Valid(m)
      && rest == FilterStream(input.Rest(), columns, predicate_, who)
    }

    constructor (input: Operator, columns: seq<Column>, predicate_: Expr, who: Caller, ghost m: map<PageNo, Page>)
      requires input.Valid(m) && input.Object() in input.Repr()
      ensures Valid(m) && Repr == {this} + input.Repr()
      ensures rest == FilterStream(input.Rest(), columns, predicate_, who)
    {
      this.input, this.columns, this.predicate_, this.who := input, columns, predicate_, who;
      depth := input.Depth() + 1;
      rest := FilterStream(input.Rest(), columns, predicate_, who);
      Repr := {this} + input.Repr();
    }

    /** Pulls until a row passes. */
    method Next(pager: Pager) returns (r: Pulled)
      requires Valid(pager.pages) && pager.Valid() && pager !in Repr
      modifies Repr
      ensures Pulls(old(rest), r, rest) && fresh(Repr - old(Repr))
      ensures !r.Stopped? ==> Valid(pager.pages)
      ensures r.Got? ==> LetThrough(predicate_, columns, r.row, who)
      decreases depth, 0
    {
      hide Pager.Valid, Eval, Operator.Valid, Operator.Object, Operator.Repr, Operator.Rest, Operator.Depth,
        FilterStream, LetThrough;
      while true
        invariant Valid(pager.pages) && pager !in Repr && fresh(Repr - old(Repr)) && rest == old(rest)
        decreases |input.Rest().rows|
      {
        FilterStep(input.Rest(), columns, predicate_, who);
        var pulled := input.Next(pager);
        Repr := Repr + input.Repr();
        if !pulled.Got? {
          return pulled;
        }
        var v := Eval(predicate_, columns, pulled.row, who);
        if v.Err? {
          return Stopped(v.e);
        }
        rest := FilterStream(input.Rest(), columns, predicate_, who);
        if IsTruthy(v.v) {
          ThroughMeans(predicate_, columns, pulled.row, who);
          return pulled;
        }
      }
    }
  }

  class NestedLoopJoin {
    const left: Operator
    var rightRows: Option<seq<Row>>
    var rightOperator: Option<Operator>
    const rightWidth: nat
    const ty: JoinType
    const condition: Option<Expr>
    const columns: seq<Column>
    var currentLeft: Option<Row>
    var rightCursor: nat
    var matchedLeft: bool
    ghost const depth: nat
    ghost var Repr: set<object>
    ghost var rest: Stream

    /** What is still to come, given the rest of the left side. */
    ghost function FromHere(lefts: Stream, rights: seq<Row>): Stream
      reads this
      requires currentLeft.Some? ==> rightCursor <= |rights|
    {
      JoinFrom(currentLeft, rightCursor, matchedLeft, lefts, rights, ty, condition, columns, rightWidth)
    }

    ghost predicate Owns(op: Operator)
      reads this, op.Object()
    {
      op.Object() in Repr && op.Object() in op.Repr() && op.Repr() <= Repr && this !in op.Repr() && op.Depth() < depth
    }

    ghost predicate Valid(m: map<PageNo, Page>)
      reads this, Repr
      decreases depth, 0
    {
      && this in Repr && left.Object() in Repr && Owns(left) && left.Valid(m)
      && (rightOperator.Some? ==>
            && rightOperator.value.Object() in Repr && Owns(rightOperator.value) && rightOperator.value.Valid(m)
            && left.Repr() !! rightOperator.value.Repr())
      && (rightRows.None? ==>
            && currentLeft.None? && rightOperator.Some?
            && rest == JoinStream(left.Rest(), rightOperator.value.Rest(), ty, condition, columns, rightWidth))
      && (rightRows.Some? ==>
            && rightOperator.None? && (currentLeft.Some? ==> rightCursor <= |rightRows.value|)
            && rest == FromHere(left.Rest(), rightRows.value))
    }

    constructor (left: Operator, right: Operator, rightWidth: nat, ty: JoinType, condition: Option<Expr>,
                 columns: seq<Column>, ghost m: map<PageNo, Page>)
      requires left.Valid(m) && right.Valid(m) && left.Object() in left.Repr() && right.Object() in right.Repr()
      requires left.Repr() !! right.Repr()
      ensures Valid(m) && Repr == {this} + left.Repr() + right.Repr()
      ensures rest == JoinStream(left.Rest(), right.Rest(), ty, condition, columns, rightWidth)
    {
      hide Operator.Valid, JoinStream, JoinFrom, JoinLefts, MatchesOf, Eval;
      this.left, this.rightWidth, this.ty, this.condition, this.columns := left, rightWidth, ty, condition, columns;
      rightRows, rightOperator, currentLeft, rightCursor, matchedLeft := None, Some(right), None, 0, false;
      depth := left.Depth() + right.Depth() + 1;
      rest := JoinStream(left.Rest(), right.Rest(), ty, condition, columns, rightWidth);
      Repr := {this} + left.Repr() + right.Repr();
    }

    /** Reads the right side to its end. */
    method MaterializeRight(pager: Pager) returns (error: Option<PlanError>)
      requires Valid(pager.pages) && pager.Valid() && pager !in Repr
      modifies Repr
      ensures fresh(Repr - old(Repr)) && pager !in Repr && rest == old(rest)
      ensures error.None? ==> Valid(pager.pages) && rightRows.Some?
      ensures error.Some? ==> old(rest) == Stream([], error)
      decreases depth, 0
    {
      hide Pager.Valid, JoinLefts, JoinStream, JoinFrom, Operator.Valid, Operator.Object, Operator.Repr, Operator.Rest,
        Operator.Depth, MatchesOf;
      if rightRows.Some? {
        return None;
      }
      var right := rightOperator.value;
      rightOperator := None;
      ghost var all := right.Rest();
      var rows, failed := Drain(right, pager);
      RightRead(left.Rest(), all, rightCursor, matchedLeft, ty, condition, columns, rightWidth);
      if failed.Some? {
        return failed;
      }
      rightRows := Some(rows);
      return None;
    }

    /** The right rows that are left to try with one left row, up to the first that matches. */
    method NextMatch(l: Row, rights: seq<Row>, pager: Pager) returns (r: Option<Pulled>)
      requires Valid(pager.pages) && pager !in Repr && rightRows == Some(rights) && currentLeft == Some(l)
      modifies `rightCursor, `matchedLeft, `rest
      ensures r.Some? ==> Pulls(old(rest), r.value, rest) && (!r.value.Stopped? ==> Valid(pager.pages))
      ensures r.None? ==>
              Valid(pager.pages) && rest == old(rest) && rightCursor == |rights| && left.Rest() == old(left.Rest())
    {
      hide Pager.Valid, Eval, Operator.Valid, Operator.Object, Operator.Repr, Operator.Rest, Operator.Depth, JoinFrom,
        Matches, Panics, JoinStream, JoinLefts, MatchesOf;
      while rightCursor < |rights|
        invariant Valid(pager.pages) && rest == old(rest) && left.Rest() == old(left.Rest())
        decreases |rights| - rightCursor
      {
        JoinTried(l, rightCursor, matchedLeft, left.Rest(), rights, ty, condition, columns, rightWidth);
        var right := rights[rightCursor];
        rightCursor := rightCursor + 1;
        if Panics(l, right, condition, columns) {
          return Some(Stopped(Panic));
        }
        if Matches(l, right, condition, columns) {
          matchedLeft := true;
          rest := FromHere(left.Rest(), rights);
          return Some(Got(l + right));
        }
      }
      return None;
    }

    method PullLeft(rights: seq<Row>, pager: Pager) returns (pulled: Pulled)
      requires Valid(pager.pages) && pager.Valid() && pager !in Repr && rightRows == Some(rights) && currentLeft.None?
      modifies Repr
      ensures fresh(Repr - old(Repr)) && pager !in Repr
      ensures pulled.Got? ==>
                && Valid(pager.pages) && rest == old(rest) && rightRows == Some(rights)
                && currentLeft == Some(pulled.row)
                && |left.Rest().rows| < |old(left.Rest().rows)|
      ensures !pulled.Got? ==> Pulls(old(rest), pulled, rest) && (pulled.Finished? ==> Valid(pager.pages))
      decreases depth, 0
    {
      hide Pager.Valid, Eval, Operator.Valid, Operator.Object, Operator.Repr, Operator.Rest, Operator.Depth, JoinFrom,
        JoinStream;
      JoinPulled(rightCursor, matchedLeft, left.Rest(), rights, ty, condition, columns, rightWidth);
      pulled := left.Next(pager);
      Repr := Repr + left.Repr();
      if pulled.Got? {
        currentLeft, rightCursor, matchedLeft := Some(pulled.row), 0, false;
      }
    }

    method Next(pager: Pager) returns (r: Pulled)
      requires Valid(pager.pages) && pager.Valid() && pager !in Repr
      modifies Repr
      ensures Pulls(old(rest), r, rest) && fresh(Repr - old(Repr))
      ensures !r.Stopped? ==> Valid(pager.pages)
      decreases depth, 1
    {
      hide Pager.Valid, Eval, Operator.Valid, Operator.Object, Operator.Repr, Operator.Rest, Operator.Depth, JoinFrom,
        Matches, Panics, JoinStream, JoinLefts, MatchesOf, Nulls;
      var error := MaterializeRight(pager);
      if error.Some? {
        return Stopped(error.value);
      }
      var rights := rightRows.value;
      while true
        invariant Valid(pager.pages) && pager !in Repr && fresh(Repr - old(Repr)) && rest == old(rest)
        invariant rightRows == Some(rights)
        decreases |left.Rest().rows|, currentLeft.Some?
      {
        if currentLeft.None? {
          var pulled := PullLeft(rights, pager);
          if !pulled.Got? {
            return pulled;
          }
        }
        var l := currentLeft.value;
        var found := NextMatch(l, rights, pager);
        if found.Some? {
          return found.value;
        }
        JoinTriedAll(l, rightCursor, matchedLeft, left.Rest(), rights, ty, condition, columns, rightWidth);
        currentLeft := None;
        if ty.Left? && !matchedLeft {
          rest := FromHere(left.Rest(), rights);
          return Got(l + Nulls(rightWidth));
        }
      }
    }
  }
}
