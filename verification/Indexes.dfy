/** CREATE INDEX: a new tree is filled while the table is scanned. */
module Indexes {
  import opened Bytes
  import opened Storage
  import opened Shape
  import opened Contexts
  import opened Contents
  import opened NodeEdits
  import opened Forest
  import opened Values
  import opened Rows
  import opened Tables
  import opened Exprs
  import opened Streams
  import opened Operators
  import opened Listings
  import opened Planner
  import opened Statements

  datatype CreateResult = Created(index: IndexSchema) | Refused(error: StatementError)

  /** The rows under the first `j` keys. */
  ghost function RowsUpTo(keys: seq<Key>, j: nat, rows: map<Key, Row>): map<Key, Row>
    requires j <= |keys|
  {
    map k | k in rows && k in keys[..j] :: rows[k]
  }

  lemma SomeRowsOk(schema: TableSchema, keys: seq<Key>, j: nat, rows: map<Key, Row>)
    requires RowsOk(schema, rows) && j <= |keys|
    ensures RowsOk(schema, RowsUpTo(keys, j, rows))
  {
    hide CheckRow, RowKey;
  }

  lemma NextRow(schema: TableSchema, keys: seq<Key>, j: nat, rows: map<Key, Row>)
    requires RowsOk(schema, rows) && j < |keys| && Increasing(keys) && keys[j] in rows
    ensures RowOk(schema, rows[keys[j]]) && RowKey(schema, rows[keys[j]]) == keys[j]
    ensures keys[j] !in RowsUpTo(keys, j, rows)
    ensures RowsUpTo(keys, j + 1, rows) == RowsUpTo(keys, j, rows)[keys[j] := rows[keys[j]]]
  {
    hide Rank, CheckRow, RowKey;
    assert keys[..j + 1] == keys[..j] + [keys[j]];
    forall i | 0 <= i < j ensures keys[i] != keys[j] {
      assert Rank(keys[i]) < Rank(keys[j]);
    }
  }

  /** The index keys of the rows are of the width that the new tree is to be kept to. */
  ghost predicate AllFit(schema: TableSchema, c: nat, rows: map<Key, Row>, d: Discipline)
    requires RowsOk(schema, rows) && c < |schema.columns| && schema.columns[c].notNull
  {
    forall k :: k in rows ==> EntryOk(d, LeafEntry(IndexKey(schema, c, rows[k]), []))
  }

  /** The index so far: the last tree of `g`, the others being as they were. */
  ghost predicate Backfilling(m0: map<PageNo, Page>, m: map<PageNo, Page>, schema: TableSchema, c: nat, f: seq<Rooted>,
                              g: seq<Rooted>, keys: seq<Key>, j: nat, rows: map<Key, Row>, d: Discipline,
                              root: PageNo) {
    && Planted(m, g) && |g| == |f| + 1 && g[..|f|] == f && Elsewhere(m0, m, f, g)
    && g[|f|].tree.p == root && RowsOk(schema, rows) && c < |schema.columns| && schema.columns[c].notNull
    && (AllFit(schema, c, rows, d) ==> g[|f|].d == d)
    && j <= |keys| && RowsOk(schema, RowsUpTo(keys, j, rows))
    && IndexIs(schema, c, ModelOf(g[|f|]), RowsUpTo(keys, j, rows))
  }

  lemma BackfillStarts(m0: map<PageNo, Page>, m: map<PageNo, Page>, schema: TableSchema, c: nat, f: seq<Rooted>,
                       keys: seq<Key>, rows: map<Key, Row>, d: Discipline, root: PageNo)
    requires Planted(m0, f) && RowsOk(schema, rows) && c < |schema.columns| && schema.columns[c].notNull && Roomy(d)
    requires root !in m0 && m == m0[root := Blank][root := LeafPage([], 0)]
    ensures Backfilling(m0, m, schema, c, f, f + [Rooted(Leaf(root, [], 0), 0, d)], keys, 0, rows, d, root)
  {
    hide Footprint, Held, Sound, RootFilled, Roomy, CheckRow, RowKey, NoRepeats, AllFit;
    var t := Leaf(root, [], 0);
    var g := f + [Rooted(t, 0, d)];
    NewLeaf(m, root, d);
    forall i | 0 <= i < |f|
      ensures Stored(m, f[i].tree, f[i].height, f[i].d)
      ensures Apart(Footprint(f[i].tree), Footprint(t)) && Apart(Footprint(t), Footprint(f[i].tree))
    {
      HeldLive(m0, f[i].tree);
      HeldFrame(m0, m, f[i].tree);
    }
    assert Planted(m, g) by {
      forall i, j | 0 <= i < |g| && 0 <= j < |g| && i != j ensures Apart(Footprint(g[i].tree), Footprint(g[j].tree)) {
        assert i < |f| ==> g[i] == f[i];
        assert j < |f| ==> g[j] == f[j];
      }
    }
    assert Elsewhere(m0, m, f, g) by {
      forall p | p in m0 && !InForest(f, p) ensures !InForest(g, p) {
        forall i | 0 <= i < |g| ensures p !in Footprint(g[i].tree) {
          assert i < |f| ==> g[i] == f[i];
        }
      }
    }
    assert ModelOf(g[|f|]) == map[];
    assert RowsUpTo(keys, 0, rows) == map[];
  }

  lemma NewLeaf(m: map<PageNo, Page>, root: PageNo, d: Discipline)
    requires root in m && m[root] == LeafPage([], 0)
    ensures Stored(m, Leaf(root, [], 0), 0, d) && Footprint(Leaf(root, [], 0)) == multiset{root}
  {
  }

  /** The row has an index key. */
  ghost predicate Indexed(schema: TableSchema, c: nat, row: Row) {
    && HasPrimaryKey(schema) && SchemaOk(schema) && RowOk(schema, row)
    && c < |row| && schema.columns[c].notNull && PrimaryKeyIndex(schema) < |row|
    && row[c] != Null && row[PrimaryKeyIndex(schema)] != Null
    && IndexKey(schema, c, row) == EncodeCompositeKey([row[c], row[PrimaryKeyIndex(schema)]])
  }

  lemma HasIndexKey(schema: TableSchema, c: nat, row: Row)
    requires Indexed(schema, c, row)
    ensures HasPrimaryKey(schema) && SchemaOk(schema) && Keyed(schema, row) && schema.columns[c].notNull
    ensures c < |row| && PrimaryKeyIndex(schema) < |row| && row[c] != Null && row[PrimaryKeyIndex(schema)] != Null
    ensures IndexKey(schema, c, row) == EncodeCompositeKey([row[c], row[PrimaryKeyIndex(schema)]])
  {
    hide CheckRow, EncodeCompositeKey, EncodeKey;
  }

  lemma BackfillNext(m0: map<PageNo, Page>, m: map<PageNo, Page>, schema: TableSchema, c: nat, f: seq<Rooted>,
                     g: seq<Rooted>, keys: seq<Key>, j: nat, rows: map<Key, Row>, d: Discipline, root: PageNo)
    requires Backfilling(m0, m, schema, c, f, g, keys, j, rows, d, root)
    requires RowsOk(schema, rows) && j < |keys| && Increasing(keys) && keys[j] in rows
    requires f != [] && Readable(m0, f[0])
    ensures Planted(m, g) && |f| < |g| && g[|f|].tree.p == root && Readable(m, f[0])
    ensures Indexed(schema, c, rows[keys[j]]) && IndexKey(schema, c, rows[keys[j]]) !in ModelOf(g[|f|])
    ensures Splittable(d) && AllFit(schema, c, rows, d) ==>
              var key := IndexKey(schema, c, rows[keys[j]]);
              Splittable(Loosened(g[|f|].d, LeafEntry(key, []))) && SingleEntrySize(key, []) <= PAGE_SIZE
  {
    hide Rank, CheckRow, RowKey, EncodeKey, ModelOf, Increasing, Stored, Footprint, Apart, IndexIs, RowsUpTo, Roomy,
      EntryOk, EncodeCompositeKey, Sane, Loosened, Splittable;
    NextRow(schema, keys, j, rows);
    IndexPut(schema, c, ModelOf(g[|f|]), RowsUpTo(keys, j, rows), rows[keys[j]]);
    KeyEncodable(schema, rows[keys[j]], c);
    KeyEncodable(schema, rows[keys[j]], PrimaryKeyIndex(schema));
    assert g[0] == g[..|f|][0] == f[0];
    if AllFit(schema, c, rows, d) && Splittable(d) {
      Tree0(m, g, |f|);
      SplitFits(d, LeafEntry(IndexKey(schema, c, rows[keys[j]]), []));
    }
  }

  lemma BackfillDone(m0: map<PageNo, Page>, m: map<PageNo, Page>, m': map<PageNo, Page>, schema: TableSchema, c: nat,
                     f: seq<Rooted>, g: seq<Rooted>, g': seq<Rooted>, keys: seq<Key>, j: nat, rows: map<Key, Row>,
                     d: Discipline, root: PageNo, root': PageNo)
    requires Backfilling(m0, m, schema, c, f, g, keys, j, rows, d, root)
    requires RowsOk(schema, rows) && j < |keys| && Increasing(keys) && keys[j] in rows && RowOk(schema, rows[keys[j]])
             && f != []
    requires Replaced(m, m', g, g', |f|, root')
    requires TreePut(LeafEntry(IndexKey(schema, c, rows[keys[j]]), []), g[|f|], g'[|f|])
    ensures Backfilling(m0, m', schema, c, f, g', keys, j + 1, rows, d, root') && Readable(m', f[0])
  {
    hide Rank, CheckRow, RowKey, EncodeKey, ModelOf, Increasing, IndexKey, Stored, Footprint, Apart, IndexIs, RowsUpTo,
      Elsewhere, EntryOk, Sane;
    NextRow(schema, keys, j, rows);
    SomeRowsOk(schema, keys, j + 1, rows);
    IndexPut(schema, c, ModelOf(g[|f|]), RowsUpTo(keys, j, rows), rows[keys[j]]);
    ElsewhereThen(m0, m, m', f, g, g');
    assert g'[..|f|] == f;
    assert g'[0] == g'[..|f|][0] == f[0];
  }

  lemma BackfillEnds(m0: map<PageNo, Page>, m: map<PageNo, Page>, schema: TableSchema, indexes: seq<IndexSchema>,
                     idx: IndexSchema, f: seq<Rooted>, g: seq<Rooted>, keys: seq<Key>, j: nat, rows: map<Key, Row>,
                     d: Discipline)
    requires Backfilling(m0, m, schema, FindColumn(schema.columns, idx.column), f, g, keys, j, rows, d, idx.rootPage)
    requires Agree(schema, indexes, f, rows) && j == |keys| && forall k :: k in rows ==> k in keys
    ensures Planted(m, g) && Agree(schema, indexes + [idx], g, rows) && Elsewhere(m0, m, f, g)
    ensures |g| == |f| + 1 && g[..|f|] == f
    ensures var c := FindColumn(schema.columns, idx.column);
            c < |schema.columns| && schema.columns[c].notNull && RowsOk(schema, rows)
            && (AllFit(schema, c, rows, d) ==> g[|f|].d == d)
  {
    hide Planted, Elsewhere, RowsOk, TableIs, IndexIs, ModelOf, AllFit;
    assert keys[..j] == keys;
    assert RowsUpTo(keys, j, rows) == rows;
    var all := indexes + [idx];
    assert g[0] == g[..|f|][0] == f[0];
    forall i | 0 <= i < |indexes| ensures g[1 + i] == f[1 + i] && all[i] == indexes[i] {
      assert g[1 + i] == g[..|f|][1 + i];
    }
  }

  /** What the scan is known to meet. */
  ghost predicate Source(schema: TableSchema, c: nat, f: seq<Rooted>, keys: seq<Key>, rows: map<Key, Row>,
                         d: Discipline) {
    && f != [] && schema.rootPage == f[0].tree.p && Sound(f[0].tree, f[0].height)
    && RowsOk(schema, rows) && TableIs(ModelOf(f[0]), rows) && keys == TableKeys(f[0])
    && c < |schema.columns| && schema.columns[c].notNull && Roomy(d)
  }

  lemma SourceFacts(schema: TableSchema, c: nat, f: seq<Rooted>, keys: seq<Key>, rows: map<Key, Row>, d: Discipline)
    requires Source(schema, c, f, keys, rows, d)
    ensures f != [] && schema.rootPage == f[0].tree.p && SchemaOk(schema) && RowsOk(schema, rows)
    ensures Increasing(keys) && (forall k :: k in keys <==> k in rows)
            && (forall i :: 0 <= i < |keys| ==> keys[i] in rows)
    ensures DecodedRows(Flat(f[0].tree), schema) == RowsAt(keys, rows)
  {
    hide Rank, MapOf, IndexKey, CheckRow, RowKey, Flat, Sound;
    KeysListed(f[0], rows);
    ScanYields(schema, f[0], rows);
  }

  lemma SourceIs(schema: TableSchema, c: nat, f: seq<Rooted>, keys: seq<Key>, rows: map<Key, Row>, d: Discipline)
    requires Source(schema, c, f, keys, rows, d)
    ensures RowsOk(schema, rows) && c < |schema.columns| && schema.columns[c].notNull && Roomy(d)
  {
  }

  /** The key of one row goes into the new tree. */
  method IndexRow(pager: Pager, schema: TableSchema, c: nat, row: Row, root: PageNo, ghost f: seq<Rooted>,
                  ghost g: seq<Rooted>, ghost keys: seq<Key>, ghost j: nat, ghost rows: map<Key, Row>,
                  ghost d: Discipline, ghost m0: map<PageNo, Page>)
    returns (r: Outcome, root': PageNo, ghost g': seq<Rooted>)
    requires pager.Valid() && Backfilling(m0, pager.pages, schema, c, f, g, keys, j, rows, d, root)
    requires Source(schema, c, f, keys, rows, d) && Readable(m0, f[0]) && j < |keys|
    requires keys[j] in rows && row == rows[keys[j]]
    modifies pager
    ensures pager.Valid()
    ensures r.Done? ==>
            Backfilling(m0, pager.pages, schema, c, f, g', keys, j + 1, rows, d, root') && Readable(pager.pages, f[0])
    ensures RowsOk(schema, rows) && c < |schema.columns| && schema.columns[c].notNull
    ensures r.Failed? ==> !Splittable(d) || !AllFit(schema, c, rows, d)
  {
    hide *;
    SourceFacts(schema, c, f, keys, rows, d);
    SourceIs(schema, c, f, keys, rows, d);
    BackfillNext(m0, pager.pages, schema, c, f, g, keys, j, rows, d, root);
    HasIndexKey(schema, c, row);
    var pk := PrimaryKeyIndex(schema);
    var idxKey := EncodeCompositeKey([row[c], row[pk]]);
    ghost var m1 := pager.pages;
    r, root', g' := InsertAt(pager, root, idxKey, [], g, |f|);
    if r.Done? {
      BackfillDone(m0, m1, pager.pages, schema, c, f, g, g', keys, j, rows, d, root, root');
    }
  }

  /** The scan and the insertions take turns. */
  method Backfill(pager: Pager, schema: TableSchema, c: nat, root: PageNo, ghost f: seq<Rooted>, ghost g: seq<Rooted>,
                  ghost keys: seq<Key>, ghost rows: map<Key, Row>, ghost d: Discipline, ghost m0: map<PageNo, Page>)
    returns (r: Outcome, root': PageNo, ghost g': seq<Rooted>)
    requires pager.Valid() && Backfilling(m0, pager.pages, schema, c, f, g, keys, 0, rows, d, root)
    requires Source(schema, c, f, keys, rows, d) && Readable(m0, f[0]) && Readable(pager.pages, f[0])
    modifies pager
    ensures pager.Valid()
    ensures r.Done? ==> Backfilling(m0, pager.pages, schema, c, f, g', keys, |keys|, rows, d, root')
    ensures RowsOk(schema, rows) && c < |schema.columns| && schema.columns[c].notNull
    ensures r.Failed? ==> !Splittable(d) || !AllFit(schema, c, rows, d)
  {
    hide *;
    SourceFacts(schema, c, f, keys, rows, d);
    SourceIs(schema, c, f, keys, rows, d);
    ghost var all := RowsAt(keys, rows);
    WholeSuffix(all);
    root', g' := root, g;
    ghost var j := 0;
    var scan := new SeqScan(schema, f[0], pager.pages);
    ghost var before := scan.rest;
    var pulled := scan.Next(pager);
    PulledNext(all, 0, before, pulled, scan.rest);
    while pulled.Got?
      invariant pager.Valid() && scan.Valid(pager.pages) && pager !in scan.Repr && fresh(scan.Repr)
                && scan.table == f[0]
      invariant Readable(pager.pages, f[0]) && j <= |keys|
      invariant Backfilling(m0, pager.pages, schema, c, f, g', keys, j, rows, d, root')
      invariant if pulled.Got? then j < |keys| && pulled.row == all[j] && scan.rest == Stream(all[j + 1..], None)
                else j == |keys|
      decreases if pulled.Got? then 1 + |keys| - j else 0
    {
      ghost var m1 := pager.pages;
      r, root', g' := IndexRow(pager, schema, c, pulled.row, root', f, g', keys, j, rows, d, m0);
      if r.Failed? {
        return;
      }
      scan.ScanFrame(m1, pager.pages);
      before := scan.rest;
      pulled := scan.Next(pager);
      j := j + 1;
      PulledNext(all, j, before, pulled, scan.rest);
    }
    r := Done;
  }

  lemma WholeSuffix(all: seq<Row>)
    ensures all[0..] == all
  {
  }

  lemma PulledNext(all: seq<Row>, j: nat, before: Stream, r: Pulled, after: Stream)
    requires Pulls(before, r, after) && j <= |all| && before == Stream(all[j..], None)
    ensures if r.Got? then j < |all| && r.row == all[j] && after == Stream(all[j + 1..], None) else j == |all|
  {
  }

  /** The index column must be declared NOT NULL, and the name of the index be none of those taken in the database.
      The name is looked at last, when the index is filled: the rollback of the statement takes it back. */
  method CreateIndex(pager: Pager, schema: TableSchema, indexes: seq<IndexSchema>, name: string, column: string,
                     taken: set<string>, ghost f: seq<Rooted>, ghost rows: map<Key, Row>, ghost d: Discipline)
    returns (r: CreateResult, ghost g: seq<Rooted>)
    requires pager.Valid() && Planted(pager.pages, f) && Agree(schema, indexes, f, rows) && Roomy(d)
    requires DistinctNames(indexes) && forall i :: 0 <= i < |indexes| ==> indexes[i].name in taken
    modifies pager
    ensures pager.Valid() && RowsOk(schema, rows)
    ensures r.Created? ==>
              && r.index == IndexSchema(name, schema.name, column, r.index.rootPage)
              && name !in taken && DistinctNames(indexes + [r.index])
              && Planted(pager.pages, g) && Agree(schema, indexes + [r.index], g, rows)
              && Elsewhere(old(pager.pages), pager.pages, f, g) && |g| == |f| + 1 && g[..|f|] == f
    ensures var c := FindColumn(schema.columns, column);
            if c == |schema.columns| then r == Refused(Plan(NoSuchColumn(column)))
            else if !schema.columns[c].notNull then r == Refused(Plan(InvalidSchema(column)))
            else
              && (name in taken ==> !r.Created?)
              && (name !in taken && Splittable(d) && AllFit(schema, c, rows, d) ==> r.Created?)
              && (r.Created? && AllFit(schema, c, rows, d) ==> g[|f|].d == d)
              && (r.Refused? && !r.error.Exec? ==> name in taken && r.error == IndexAlreadyExists(name))
  {
    g := f;
    var c := FindColumn(schema.columns, column);
    if c == |schema.columns| {
      return Refused(Plan(NoSuchColumn(column))), f;
    }
    if !schema.columns[c].notNull {
      return Refused(Plan(InvalidSchema(column))), f;
    }
    ghost var m0, keys := pager.pages, TableKeys(f[0]);
    TableAgrees(m0, schema, indexes, f, rows);
    assert Source(schema, c, f, keys, rows, d);
    hide *;
    var root := pager.AllocatePage();
    EmptyFits();
    var _ := pager.Write(root, LeafPage([], 0));
    BackfillStarts(m0, pager.pages, schema, c, f, keys, rows, d, root);
    TableStays(m0, pager.pages, schema, c, f, f + [Rooted(Leaf(root, [], 0), 0, d)], keys, 0, rows, d, root);
    var done, root', g' :=
        Backfill(pager, schema, c, root, f, f + [Rooted(Leaf(root, [], 0), 0, d)], keys, rows, d, m0);
    if done.Failed? {
      return Refused(Exec(Store(done.error))), g';
    }
    var idx := IndexSchema(name, schema.name, column, root');
    BackfillEnds(m0, pager.pages, schema, indexes, idx, f, g', keys, |keys|, rows, d);
    if name in taken {
      return Refused(IndexAlreadyExists(name)), g';
    }
    NewName(indexes, idx, taken);
    return Created(idx), g';
  }

  lemma NewName(indexes: seq<IndexSchema>, idx: IndexSchema, taken: set<string>)
    requires DistinctNames(indexes) && (forall i :: 0 <= i < |indexes| ==> indexes[i].name in taken)
             && idx.name !in taken
    ensures DistinctNames(indexes + [idx])
  {
  }

  lemma EmptyFits()
    ensures Fits(LeafPage([], 0))
  {
  }

  lemma TableStays(m0: map<PageNo, Page>, m: map<PageNo, Page>, schema: TableSchema, c: nat, f: seq<Rooted>,
                   g: seq<Rooted>, keys: seq<Key>, j: nat, rows: map<Key, Row>, d: Discipline, root: PageNo)
    requires Backfilling(m0, m, schema, c, f, g, keys, j, rows, d, root) && f != []
    ensures Readable(m, f[0])
  {
    hide Stored, Footprint, Apart, IndexIs, RowsUpTo, RowsOk, Elsewhere, Roomy, AllFit;
    assert g[0] == g[..|f|][0] == f[0];
  }

  // ----- CREATE TABLE

  datatype ColumnDef = ColumnDef(name: string, ty: ColumnType, notNull: bool, primaryKey: bool)

  datatype TableResult = NewTable(schema: TableSchema) | NoTable(error: StatementError)

  function CountKeys(defs: seq<ColumnDef>): nat {
    if defs == [] then 0 else (if defs[0].primaryKey then 1 else 0) + CountKeys(defs[1..])
  }

  function ColumnsOf(defs: seq<ColumnDef>): (r: seq<Column>)
    ensures |r| == |defs|
  {
    seq(|defs|, i requires 0 <= i < |defs| =>
      Column(defs[i].name, defs[i].ty, defs[i].notNull || defs[i].primaryKey, defs[i].primaryKey))
  }

  lemma {:induction false} KeyFound(defs: seq<ColumnDef>)
    requires CountKeys(defs) > 0
    ensures FindPrimaryKey(ColumnsOf(defs)) < |defs|
  {
    assert ColumnsOf(defs)[1..] == ColumnsOf(defs[1..]);
    if !defs[0].primaryKey {
      KeyFound(defs[1..]);
    }
  }

  /** A table needs exactly one primary key, which is NOT NULL even if not declared so; columns may share a name.
      An empty tree is made before the name is looked at. */
  method CreateTable(pager: Pager, name: string, defs: seq<ColumnDef>, taken: set<string>, ghost d: Discipline)
    returns (r: TableResult, ghost f: seq<Rooted>)
    requires pager.Valid() && Roomy(d)
    modifies pager
    ensures pager.Valid()
    ensures CountKeys(defs) != 1 ==> r == NoTable(Plan(InvalidSchema(name))) && pager.pages == old(pager.pages)
    ensures CountKeys(defs) == 1 && name in taken ==> r == NoTable(TableAlreadyExists(name))
    ensures CountKeys(defs) == 1 && name !in taken ==>
              && r.NewTable? && r.schema == TableSchema(name, ColumnsOf(defs), r.schema.rootPage, false)
              && Planted(pager.pages, f) && Agree(r.schema, [], f, map[]) && |f| == 1 && f[0].d == d
              && Elsewhere(old(pager.pages), pager.pages, [], f) && r.schema.rootPage !in old(pager.pages)
  {
    f := [];
    if CountKeys(defs) != 1 {
      return NoTable(Plan(InvalidSchema(name))), [];
    }
    KeyFound(defs);
    hide *;
    ghost var m0 := pager.pages;
    var root := pager.AllocatePage();
    EmptyFits();
    var _ := pager.Write(root, LeafPage([], 0));
    var schema := TableSchema(name, ColumnsOf(defs), root, false);
    if name in taken {
      return NoTable(TableAlreadyExists(name)), [];
    }
    EmptyTable(m0, pager.pages, schema, defs, d);
    return NewTable(schema), [Rooted(Leaf(root, [], 0), 0, d)];
  }

  /** An empty tree agrees with a table without rows. */
  lemma EmptyTable(m0: map<PageNo, Page>, m: map<PageNo, Page>, schema: TableSchema, defs: seq<ColumnDef>,
                   d: Discipline)
    requires schema.rootPage !in m0 && m == m0[schema.rootPage := Blank][schema.rootPage := LeafPage([], 0)]
    requires schema.columns == ColumnsOf(defs) && FindPrimaryKey(schema.columns) < |schema.columns| && Roomy(d)
    ensures var f := [Rooted(Leaf(schema.rootPage, [], 0), 0, d)];
            Planted(m, f) && Agree(schema, [], f, map[]) && Elsewhere(m0, m, [], f)
  {
    var f := [Rooted(Leaf(schema.rootPage, [], 0), 0, d)];
    NewLeaf(m, schema.rootPage, d);
    hide Held, Sound, RootFilled, NoRepeats, Roomy;
    assert Flat(f[0].tree) == [] && ModelOf(f[0]) == map[];
  }
}
