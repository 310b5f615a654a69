/** The FROM clause: tables joined in any tree, as operators on operators. */
module TableRefs {
  import opened Storage
  import opened Shape
  import opened Contexts
  import opened Rows
  import opened Tables
  import opened Exprs
  import opened Streams
  import opened Operators
  import opened Listings
  import opened Planner
  import opened Engines

  datatype TableRef =
    | Table(name: string, alias: Option<string>)
    | Join(left: TableRef, right: TableRef, ty: JoinType, condition: Option<Expr>)

  predicate Known(ref: TableRef, catalog: map<string, TableRecord>) {
    match ref
    case Table(name, _) => name in catalog
    case Join(left, right, _, _) => Known(left, catalog) && Known(right, catalog)
  }

  /** Column names carry the alias, or the name, of their table. */
  function Qualified(columns: seq<Column>, prefix: string): seq<Column> {
    seq(|columns|, i requires 0 <= i < |columns| => columns[i].(name := prefix + "." + columns[i].name))
  }

  function ColumnsOf(ref: TableRef, catalog: map<string, TableRecord>): seq<Column>
    requires Known(ref, catalog)
  {
    match ref
    case Table(name, alias) => Qualified(catalog[name].schema.columns, if alias.Some? then alias.value else name)
    case Join(left, right, _, _) => ColumnsOf(left, catalog) + ColumnsOf(right, catalog)
  }

  ghost predicate InWorld(catalog: map<string, TableRecord>, w: World) {
    forall n :: n in catalog ==>
      && n in w.forests && n in w.rows && w.forests[n] != []
      && forall k :: k in TableKeys(w.forests[n][0]) ==> k in w.rows[n]
  }

  /** What the clause means: all rows of a table, and joins of what its parts mean. */
  ghost function RowsOf(ref: TableRef, catalog: map<string, TableRecord>, w: World): Stream
    requires Known(ref, catalog) && InWorld(catalog, w)
  {
    match ref
    case Table(name, _) => Stream(AllRows(w.forests[name][0], w.rows[name]), None)
    case Join(left, right, ty, condition) =>
      JoinStream(RowsOf(left, catalog, w), RowsOf(right, catalog, w), ty, condition,
                 ColumnsOf(left, catalog) + ColumnsOf(right, catalog), |ColumnsOf(right, catalog)|)
  }

  lemma WorldTables(declared: map<string, TableRecord>, m: map<PageNo, Page>, catalog: map<string, TableRecord>,
                    w: World)
    requires WorldOk(declared, m, catalog, w)
    ensures InWorld(catalog, w)
  {
    hide WorldOk, TableKeys;
    forall n | n in catalog
      ensures n in w.forests && n in w.rows && w.forests[n] != []
      ensures forall k :: k in TableKeys(w.forests[n][0]) ==> k in w.rows[n]
    {
      TableOpened(declared, m, catalog, w, n);
    }
  }

  lemma TableScan(declared: map<string, TableRecord>, m: map<PageNo, Page>, catalog: map<string, TableRecord>, w: World,
                  n: string)
    requires WorldOk(declared, m, catalog, w) && n in catalog
    ensures n in w.forests && n in w.rows && w.forests[n] != []
    ensures forall k :: k in TableKeys(w.forests[n][0]) ==> k in w.rows[n]
    ensures var schema, table := catalog[n].schema, w.forests[n][0];
            && schema.rootPage == table.tree.p && Readable(m, table)
            && DecodedRows(Flat(table.tree), schema) == AllRows(table, w.rows[n])
  {
    hide WorldOk, TableKeys, Planted, Agree, RowsOk, Sound, Flat, DecodedRows, RowsAt, Readable, TableIs;
    WorldTable(declared, m, catalog, w, n);
    TableAgrees(m, catalog[n].schema, catalog[n].indexes, w.forests[n], w.rows[n]);
    ScanYields(catalog[n].schema, w.forests[n][0], w.rows[n]);
  }

  /** Scans at the leaves, a nested loop for every join: together they yield what the clause means. */
  method BuildTableRefPlan(ref: TableRef, catalog: map<string, TableRecord>, ghost declared: map<string, TableRecord>,
                           ghost w: World, ghost m: map<PageNo, Page>)
    returns (plan: Option<Operator>, columns: seq<Column>)
    requires WorldOk(declared, m, catalog, w)
    ensures plan.Some? <==> Known(ref, catalog)
    ensures InWorld(catalog, w)
    ensures plan.Some? ==>
              && columns == ColumnsOf(ref, catalog)
              && plan.value.Valid(m) && fresh(plan.value.Repr()) && plan.value.Object() in plan.value.Repr()
              && plan.value.Rest() == RowsOf(ref, catalog, w)
    decreases ref
  {
    hide WorldOk, InWorld, Operator.Valid, SeqScan.Valid, NestedLoopJoin.Valid, JoinStream, AllRows, Readable,
      DecodedRows, Flat, Qualified;
    columns := [];
    WorldTables(declared, m, catalog, w);
    match ref {
      case Table(name, alias) =>
        if name !in catalog {
          return None, columns;
        }
        TableScan(declared, m, catalog, w, name);
        var schema := catalog[name].schema;
        columns := Qualified(schema.columns, if alias.Some? then alias.value else name);
        var scan := new SeqScan(schema, w.forests[name][0], m);
        ScanIs(scan, m);
        plan := Some(OfSeqScan(scan));
      case Join(left, right, ty, condition) =>
        var l, lc := BuildTableRefPlan(left, catalog, declared, w, m);
        if l.None? {
          return None, columns;
        }
        var r, rc := BuildTableRefPlan(right, catalog, declared, w, m);
        if r.None? {
          return None, columns;
        }
        columns := lc + rc;
        var join := new NestedLoopJoin(l.value, r.value, |rc|, ty, condition, columns, m);
        JoinIs(join, m);
        plan := Some(OfJoin(join));
    }
  }

  lemma ScanIs(scan: SeqScan, m: map<PageNo, Page>)
    requires scan.Valid(m)
    ensures OfSeqScan(scan).Valid(m) && scan in scan.Repr
  {
  }

  lemma JoinIs(join: NestedLoopJoin, m: map<PageNo, Page>)
    requires join.Valid(m)
    ensures OfJoin(join).Valid(m) && join in join.Repr
  {
  }
}
