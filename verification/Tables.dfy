/** Rows in a table tree, and the secondary indexes that must agree with it. */
module Tables {
  import opened Bytes
  import opened Storage
  import opened Shape
  import opened Contexts
  import opened Contents
  import opened InsertSteps
  import opened DeleteSteps
  import opened NodeEdits
  import opened BTrees
  import opened Forest
  import opened Values
  import opened Rows

  datatype ExecError =
    | NotNullViolation(column: string)
    | InvalidValue(column: string)
    | DuplicatePrimaryKey
    | Store(error: BTreeError)
    | TextTooLong  // the row is not encoded: the code panics

  /** The outcome of a write: the new roots of the table and of its indexes. */
  datatype WriteResult =
    | Written(tableRoot: PageNo, indexRoots: seq<(string, PageNo)>)
    | Rejected(error: ExecError)

  /** A tree with what its `BTree` object knows of it. */
  datatype Rooted = Rooted(tree: Tree, height: nat, d: Discipline)

  ghost function ModelOf(r: Rooted): map<Key, seq<byte>> {
    MapOf(Flat(r.tree))
  }

  // ----- Several trees in one store

  /** Trees in one page store, no two of which share a page. */
  ghost predicate Planted(m: map<PageNo, Page>, f: seq<Rooted>) {
    && (forall i :: 0 <= i < |f| ==> Roomy(f[i].d) && Stored(m, f[i].tree, f[i].height, f[i].d))
    && (forall i, j :: 0 <= i < |f| && 0 <= j < |f| && i != j ==> Apart(Footprint(f[i].tree), Footprint(f[j].tree)))
  }

  /** One of the trees is written. */
  lemma Replant(m: map<PageNo, Page>, m': map<PageNo, Page>, f: seq<Rooted>, i: nat, t: Rooted, lost: multiset<PageNo>)
    requires Planted(m, f) && i < |f| && Roomy(t.d) && Stored(m', t.tree, t.height, t.d)
    requires Rewritten(m, m', Footprint(f[i].tree), Footprint(t.tree), lost)
    ensures Planted(m', f[i := t])
  {
    hide Stored, Rewritten, Footprint, Roomy, Apart;
    var f' := f[i := t];
    forall j | 0 <= j < |f| && j != i
      ensures Stored(m', f[j].tree, f[j].height, f[j].d)
      ensures Apart(Footprint(t.tree), Footprint(f[j].tree)) && Apart(Footprint(f[j].tree), Footprint(t.tree))
    {
      OthersUntouched(m, m', Footprint(f[i].tree), Footprint(t.tree), lost, f[j].tree, f[j].height, f[j].d);
      ApartBoth(Footprint(t.tree), Footprint(f[j].tree));
    }
  }

  lemma ApartBoth(f: multiset<PageNo>, g: multiset<PageNo>)
    requires Apart(f, g)
    ensures Apart(g, f)
  {
  }

  // ----- What a table and its indexes hold

  predicate SchemaOk(schema: TableSchema) {
    HasPrimaryKey(schema) && schema.columns[PrimaryKeyIndex(schema)].notNull
  }

  /** Indexes are on existing columns that are declared NOT NULL. */
  predicate IndexOk(schema: TableSchema, idx: IndexSchema) {
    var c := FindColumn(schema.columns, idx.column);
    c < |schema.columns| && schema.columns[c].notNull
  }

  function IndexColumn(schema: TableSchema, idx: IndexSchema): nat {
    FindColumn(schema.columns, idx.column)
  }

  /** Values have the types of their columns, and JSON holds no zero byte: the parser of JSON literals lets none
      through.  Values of other types are not turned away. */
  predicate Sane(schema: TableSchema, row: Row) {
    RowTyped(schema, row) && JsonClean(row)
  }

  predicate JsonClean(row: Row) {
    forall i :: 0 <= i < |row| && row[i].Json? ==> 0 !in row[i].j
  }

  /** No value that must not be null is. */
  predicate Keyed(schema: TableSchema, row: Row) {
    |row| == |schema.columns| && forall i :: 0 <= i < |row| && schema.columns[i].notNull ==> row[i] != Null
  }

  /** A sane row that insertion accepts. */
  predicate RowOk(schema: TableSchema, row: Row)
    ensures RowOk(schema, row) ==> Keyed(schema, row)
  {
    Sane(schema, row) && (CheckRowMeans(schema.columns, row, 0); CheckRow(schema.columns, row, 0) == None)
  }

  /** The first column, from `i` on, that makes insertion refuse the row. */
  function CheckRow(columns: seq<Column>, row: Row, i: nat): Option<ExecError>
    requires |row| == |columns| && i <= |row|
    decreases |row| - i
  {
    if i == |row| then None
    else if columns[i].notNull && row[i] == Null then Some(NotNullViolation(columns[i].name))
    else if row[i].Text? && 0 in row[i].s then Some(InvalidValue(columns[i].name))
    else CheckRow(columns, row, i + 1)
  }

  lemma {:induction false} CheckRowMeans(columns: seq<Column>, row: Row, i: nat)
    requires |row| == |columns| && i <= |row|
    ensures CheckRow(columns, row, i) == None
       <==> forall j :: i <= j < |row| ==> !(columns[j].notNull && row[j] == Null) && !(row[j].Text? && 0 in row[j].s)
    ensures var e := CheckRow(columns, row, i);
            e.Some? ==> e.value.NotNullViolation? || e.value.InvalidValue?
    decreases |row| - i
  {
    if i < |row| {
      CheckRowMeans(columns, row, i + 1);
    }
  }

  lemma KeyEncodable(schema: TableSchema, row: Row, c: nat)
    requires RowOk(schema, row) && c < |row| && schema.columns[c].notNull
    ensures row[c] != Null && Encodable(row[c])
  {
    CheckRowMeans(schema.columns, row, 0);
  }

  function RowKey(schema: TableSchema, row: Row): Key
    requires SchemaOk(schema) && Keyed(schema, row)
  {
    EncodeKey(row[PrimaryKeyIndex(schema)])
  }

  function IndexKey(schema: TableSchema, c: nat, row: Row): Key
    requires SchemaOk(schema) && Keyed(schema, row) && c < |row| && schema.columns[c].notNull
  {
    EncodeCompositeKey([row[c], row[PrimaryKeyIndex(schema)]])
  }

  /** The rows of a table by their encoded primary keys. */
  ghost predicate RowsOk(schema: TableSchema, rows: map<Key, Row>) {
    SchemaOk(schema) && forall k :: k in rows ==> RowOk(schema, rows[k]) && RowKey(schema, rows[k]) == k
  }

  ghost predicate TableIs(m: map<Key, seq<byte>>, rows: map<Key, Row>) {
    m.Keys == rows.Keys && forall k :: k in rows ==> m[k] == EncodeRow(rows[k])
  }

  /** The keys of an index are those of the rows, each once, and nothing else. */
  ghost predicate IndexIs(schema: TableSchema, c: nat, m: map<Key, seq<byte>>, rows: map<Key, Row>)
    requires RowsOk(schema, rows) && c < |schema.columns| && schema.columns[c].notNull
  {
    && (forall k :: k in rows ==> IndexKey(schema, c, rows[k]) in m)
    && (forall x :: x in m ==> m[x] == [] && exists k :: k in rows && x == IndexKey(schema, c, rows[k]))
  }

  /** Indexes `from` to `to` hold the keys of the rows; index `i` is tree `1 + i`. */
  ghost predicate IndexesAre(schema: TableSchema, indexes: seq<IndexSchema>, f: seq<Rooted>, rows: map<Key, Row>,
                             from: nat, to: nat)
    requires RowsOk(schema, rows) && |f| == 1 + |indexes| && from <= to <= |indexes|
  {
    forall i :: from <= i < to ==>
      IndexOk(schema, indexes[i]) && IndexIs(schema, IndexColumn(schema, indexes[i]), ModelOf(f[1 + i]), rows)
  }

  /** A table and its indexes agree: tree 0 holds the rows, tree `1 + i` is index `i`. */
  ghost predicate Agree(schema: TableSchema, indexes: seq<IndexSchema>, f: seq<Rooted>, rows: map<Key, Row>) {
    && RowsOk(schema, rows) && |f| == 1 + |indexes|
    && f[0].tree.p == schema.rootPage && TableIs(ModelOf(f[0]), rows)
    && (forall i :: 0 <= i < |indexes| ==> f[1 + i].tree.p == indexes[i].rootPage)
    && IndexesAre(schema, indexes, f, rows, 0, |indexes|)
  }

  // ----- Index keys

  lemma IndexKeyIs(schema: TableSchema, c: nat, row: Row)
    requires SchemaOk(schema) && Keyed(schema, row) && c < |row| && schema.columns[c].notNull
    ensures row[c] != Null && row[PrimaryKeyIndex(schema)] != Null
    ensures IndexKey(schema, c, row) == EncodeKey(row[c]) + RowKey(schema, row)
  {
    hide EncodeKey;
    var parts := [row[c], row[PrimaryKeyIndex(schema)]];
    assert parts[1..] == [row[PrimaryKeyIndex(schema)]] && parts[1..][1..] == [];
    assert EncodeCompositeKey(parts[1..]) == EncodeKey(row[PrimaryKeyIndex(schema)]) + [];
  }

  /** Two rows of one table have the same index key only if they have the same primary key. */
  lemma IndexKeyInjective(schema: TableSchema, c: nat, a: Row, b: Row)
    requires SchemaOk(schema) && RowOk(schema, a) && RowOk(schema, b)
    requires c < |schema.columns| && schema.columns[c].notNull && IndexKey(schema, c, a) == IndexKey(schema, c, b)
    ensures RowKey(schema, a) == RowKey(schema, b)
  {
    hide EncodeKey;
    IndexKeyIs(schema, c, a);
    IndexKeyIs(schema, c, b);
    KeyEncodable(schema, a, c);
    KeyEncodable(schema, b, c);
    SameColumn(schema, a, b, c);
    var x, y := EncodeKey(a[c]), EncodeKey(b[c]);
    assert y <= x + RowKey(schema, a) by { assert IndexKey(schema, c, a) == y + RowKey(schema, b); }
    CompositePrefix(a[c], RowKey(schema, a), b[c]);
    assert IndexKey(schema, c, a)[|x|..] == RowKey(schema, a) && IndexKey(schema, c, b)[|x|..] == RowKey(schema, b);
  }

  lemma SameColumn(schema: TableSchema, a: Row, b: Row, c: nat)
    requires RowTyped(schema, a) && RowTyped(schema, b) && c < |schema.columns| && a[c] != Null && b[c] != Null
    ensures Comparable(a[c], b[c])
  {
    assert Typed(a[c], schema.columns[c].ty) && Typed(b[c], schema.columns[c].ty);
  }

  // ----- One row more, one row less

  lemma RowsPut(schema: TableSchema, rows: map<Key, Row>, row: Row)
    requires RowsOk(schema, rows) && RowOk(schema, row)
    ensures RowsOk(schema, rows[RowKey(schema, row) := row])
  {
  }

  lemma RowsDrop(schema: TableSchema, rows: map<Key, Row>, k: Key)
    requires RowsOk(schema, rows)
    ensures RowsOk(schema, rows - {k})
  {
  }

  lemma TablePut(schema: TableSchema, m: map<Key, seq<byte>>, rows: map<Key, Row>, row: Row)
    requires RowsOk(schema, rows) && RowOk(schema, row) && TableIs(m, rows)
    ensures var k := RowKey(schema, row); TableIs(m[k := EncodeRow(row)], rows[k := row])
  {
    hide EncodeRow;
  }

  lemma TableDrop(schema: TableSchema, m: map<Key, seq<byte>>, rows: map<Key, Row>, k: Key)
    requires TableIs(m, rows)
    ensures TableIs(m - {k}, rows - {k})
  {
    hide EncodeRow;
  }

  lemma IndexPut(schema: TableSchema, c: nat, m: map<Key, seq<byte>>, rows: map<Key, Row>, row: Row)
    requires RowsOk(schema, rows) && RowOk(schema, row) && RowKey(schema, row) !in rows
    requires c < |schema.columns| && schema.columns[c].notNull && IndexIs(schema, c, m, rows)
    ensures var rows' := rows[RowKey(schema, row) := row];
            var x := IndexKey(schema, c, row);
            x !in m && RowsOk(schema, rows') && IndexIs(schema, c, m[x := []], rows')
  {
    hide RowKey, IndexKey, CheckRow, EncodeKey, Sane;
    var key, x := RowKey(schema, row), IndexKey(schema, c, row);
    RowsPut(schema, rows, row);
    if x in m {
      var k :| k in rows && x == IndexKey(schema, c, rows[k]);
      IndexKeyInjective(schema, c, row, rows[k]);
      assert false;
    }
    var rows', m' := rows[key := row], m[x := []];
    forall y | y in m' ensures m'[y] == [] && exists k :: k in rows' && y == IndexKey(schema, c, rows'[k]) {
      if y == x {
        assert key in rows' && rows'[key] == row;
      } else {
        var k :| k in rows && y == IndexKey(schema, c, rows[k]);
        assert k in rows' && rows'[k] == rows[k];
      }
    }
  }

  lemma IndexDrop(schema: TableSchema, c: nat, m: map<Key, seq<byte>>, rows: map<Key, Row>, row: Row)
    requires RowsOk(schema, rows) && RowOk(schema, row)
    requires RowKey(schema, row) in rows ==> rows[RowKey(schema, row)] == row
    requires c < |schema.columns| && schema.columns[c].notNull && IndexIs(schema, c, m, rows)
    ensures var rows' := rows - {RowKey(schema, row)};
            RowsOk(schema, rows') && IndexIs(schema, c, m - {IndexKey(schema, c, row)}, rows')
  {
    hide RowKey, IndexKey, CheckRow, EncodeKey, Sane;
    var key, x := RowKey(schema, row), IndexKey(schema, c, row);
    RowsDrop(schema, rows, key);
    var rows', m' := rows - {key}, m - {x};
    forall k | k in rows' ensures IndexKey(schema, c, rows'[k]) in m' {
      if IndexKey(schema, c, rows[k]) == x {
        IndexKeyInjective(schema, c, rows[k], row);
      }
    }
    forall y | y in m' ensures m'[y] == [] && exists k :: k in rows' && y == IndexKey(schema, c, rows'[k]) {
      var k :| k in rows && y == IndexKey(schema, c, rows[k]);
      assert k in rows' && rows'[k] == rows[k];
    }
  }

  // ----- Writing rows

  /** Pages outside the trees stay as they are, and outside. */
  ghost predicate Elsewhere(m: map<PageNo, Page>, m': map<PageNo, Page>, f: seq<Rooted>, f': seq<Rooted>) {
    forall p :: p in m && !InForest(f, p) ==> p in m' && m'[p] == m[p] && !InForest(f', p)
  }

  ghost predicate InForest(f: seq<Rooted>, p: PageNo) {
    exists i :: 0 <= i < |f| && p in Footprint(f[i].tree)
  }

  lemma OneTreeWritten(m: map<PageNo, Page>, m': map<PageNo, Page>, f: seq<Rooted>, i: nat, t: Rooted,
                       lost: multiset<PageNo>)
    requires i < |f| && Rewritten(m, m', Footprint(f[i].tree), Footprint(t.tree), lost)
    ensures Elsewhere(m, m', f, f[i := t])
  {
    hide Footprint;
    var f' := f[i := t];
    forall p | p in m && !InForest(f, p) ensures p in m' && m'[p] == m[p] && !InForest(f', p) {
      assert p !in Footprint(f[i].tree);
      forall j | 0 <= j < |f'| ensures p !in Footprint(f'[j].tree) {
        assert j != i ==> f'[j] == f[j];
      }
    }
  }

  lemma ElsewhereThen(m: map<PageNo, Page>, m1: map<PageNo, Page>, m2: map<PageNo, Page>,
                      f: seq<Rooted>, f1: seq<Rooted>, f2: seq<Rooted>)
    requires Elsewhere(m, m1, f, f1) && Elsewhere(m1, m2, f1, f2)
    ensures Elsewhere(m, m2, f, f2)
  {
    hide InForest;
  }

  /** A tree outside the forest is still there. */
  lemma OutsideKept(m: map<PageNo, Page>, m': map<PageNo, Page>, f: seq<Rooted>, f': seq<Rooted>, u: Tree, h: nat,
                    d: Discipline)
    requires Elsewhere(m, m', f, f') && Stored(m, u, h, d) && forall p :: p in Footprint(u) ==> !InForest(f, p)
    ensures Stored(m', u, h, d) && forall p :: p in Footprint(u) ==> !InForest(f', p)
  {
    hide Held, Footprint, InForest, Sound, RootFilled;
    HeldLive(m, u);
    HeldFrame(m, m', u);
  }

  /** Tree `i` of `f` became another; the other trees of `f` are the same. */
  ghost predicate Replaced(m: map<PageNo, Page>, m': map<PageNo, Page>, f: seq<Rooted>, f': seq<Rooted>, i: nat,
                           root: PageNo) {
    && i < |f| && |f'| == |f| && f' == f[i := f'[i]] && f'[i].tree.p == root
    && Planted(m', f') && Elsewhere(m, m', f, f')
  }

  /** A tree that has taken an entry, which was new to it. */
  ghost predicate TreePut(e: LeafEntry, t: Rooted, t': Rooted) {
    e.key !in ModelOf(t) && ModelOf(t') == ModelOf(t)[e.key := e.payload] && t'.d == Loosened(t.d, e)
  }

  /** A tree that has lost a key, if it had it. */
  ghost predicate TreeTook(key: Key, t: Rooted, t': Rooted) {
    ModelOf(t') == ModelOf(t) - {key} && t'.d == t.d
  }

  /** Opens a tree, inserts into it, and tells its root. */
  method InsertAt(pager: Pager, root: PageNo, key: Key, payload: seq<byte>, ghost f: seq<Rooted>, ghost i: nat)
    returns (r: Outcome, root': PageNo, ghost f': seq<Rooted>)
    requires pager.Valid() && Planted(pager.pages, f) && i < |f| && root == f[i].tree.p
    modifies pager
    ensures pager.Valid()
    ensures SingleEntrySize(key, payload) > PAGE_SIZE ==>
              r == Failed(RowTooLarge(SingleEntrySize(key, payload), PAGE_SIZE))
    ensures SingleEntrySize(key, payload) <= PAGE_SIZE && key in ModelOf(f[i]) ==> r == Failed(DuplicateKey)
    ensures SingleEntrySize(key, payload) <= PAGE_SIZE && key !in ModelOf(f[i]) ==>
              r == Done ||
                (&& r == Failed(PageOverflow) && !Splittable(Loosened(f[i].d, LeafEntry(key, payload)))
                 && NoRoomFor(f[i].tree, key, payload))
    ensures r.Failed? && !r.error.PageOverflow? ==> pager.pages == old(pager.pages)
    ensures r.Done? ==>
              && Replaced(old(pager.pages), pager.pages, f, f', i, root')
              && TreePut(LeafEntry(key, payload), f[i], f'[i])
  {
    ghost var d := Loosened(f[i].d, LeafEntry(key, payload));
    hide Rewritten, Stored, MapOf, Flat, Footprint, EntryOk, Roomy, Loosened, Weaker, NoRoomFor, Splittable;
    Tree0(pager.pages, f, i);
    LoosenedStored(pager.pages, f[i].tree, f[i].height, f[i].d, d);
    var bt := new BTree(pager, root, f[i].tree, f[i].height, d);
    r := bt.Insert(key, payload);
    root', f' := bt.root, f;
    if r.Done? {
      ghost var t := Rooted(bt.tree, bt.height, d);
      Replant(old(pager.pages), pager.pages, f, i, t, multiset{});
      OneTreeWritten(old(pager.pages), pager.pages, f, i, t, multiset{});
      f' := f[i := t];
    }
  }

  lemma Tree0(m: map<PageNo, Page>, f: seq<Rooted>, i: nat)
    requires Planted(m, f) && i < |f|
    ensures Roomy(f[i].d) && Stored(m, f[i].tree, f[i].height, f[i].d)
  {
  }

  /** Opens a tree, deletes from it, and tells its root. */
  method DeleteAt(pager: Pager, root: PageNo, key: Key, ghost f: seq<Rooted>, ghost i: nat)
    returns (r: Outcome, root': PageNo, ghost f': seq<Rooted>)
    requires pager.Valid() && Planted(pager.pages, f) && i < |f| && root == f[i].tree.p
    modifies pager
    ensures pager.Valid()
    ensures r.Failed? ==> r.error.PageOverflow? && !f[i].d.FixedWidth? && NoRepair(f[i].tree, key)
    ensures r.Done? ==> Replaced(old(pager.pages), pager.pages, f, f', i, root') && TreeTook(key, f[i], f'[i])
  {
    hide Rewritten, Stored, MapOf, Flat, Footprint, Roomy, Lost, NoRepair;
    Tree0(pager.pages, f, i);
    var bt := new BTree(pager, root, f[i].tree, f[i].height, f[i].d);
    var done, _ := bt.Delete(key);
    r, root', f' := done, bt.root, f;
    if r.Done? {
      ghost var t := Rooted(bt.tree, bt.height, bt.d);
      Replant(old(pager.pages), pager.pages, f, i, t, Lost(root, root'));
      OneTreeWritten(old(pager.pages), pager.pages, f, i, t, Lost(root, root'));
      f' := f[i := t];
    }
  }

  // ----- New roots

  function RootFor(roots: seq<(string, PageNo)>, idx: IndexSchema): PageNo {
    if roots == [] then idx.rootPage else if roots[0].0 == idx.name then roots[0].1 else RootFor(roots[1..], idx)
  }

  /** The catalog's records of the indexes, after their roots have moved. */
  function Repointed(indexes: seq<IndexSchema>, roots: seq<(string, PageNo)>): (r: seq<IndexSchema>)
    ensures |r| == |indexes|
  {
    seq(|indexes|, i requires 0 <= i < |indexes| => indexes[i].(rootPage := RootFor(roots, indexes[i])))
  }

  predicate DistinctNames(indexes: seq<IndexSchema>) {
    forall i, j :: 0 <= i < j < |indexes| ==> indexes[i].name != indexes[j].name
  }

  predicate IndexesOk(schema: TableSchema, indexes: seq<IndexSchema>) {
    forall i :: 0 <= i < |indexes| ==> IndexOk(schema, indexes[i])
  }

  /** The records of a table and its indexes point to the trees: tree 0 is the table's, tree `1 + i` index `i`'s. */
  ghost predicate RootedAt(schema: TableSchema, indexes: seq<IndexSchema>, f: seq<Rooted>) {
    && SchemaOk(schema) && IndexesOk(schema, indexes) && |f| == 1 + |indexes| && f[0].tree.p == schema.rootPage
    && forall i :: 0 <= i < |indexes| ==> f[1 + i].tree.p == indexes[i].rootPage
  }

  /** The trees are in the store, and the records, whose names differ, point to them. */
  ghost predicate Grounded(m: map<PageNo, Page>, schema: TableSchema, indexes: seq<IndexSchema>, f: seq<Rooted>) {
    Planted(m, f) && RootedAt(schema, indexes, f) && DistinctNames(indexes)
  }

  lemma GroundedFacts(m: map<PageNo, Page>, schema: TableSchema, indexes: seq<IndexSchema>, f: seq<Rooted>)
    requires Grounded(m, schema, indexes, f)
    ensures Planted(m, f) && RootedAt(schema, indexes, f) && DistinctNames(indexes)
    ensures SchemaOk(schema) && HasPrimaryKey(schema) && IndexesOk(schema, indexes) && |f| == 1 + |indexes|
    ensures f[0].tree.p == schema.rootPage
  {
    hide Planted, DistinctNames;
  }

  lemma AgreeRooted(schema: TableSchema, indexes: seq<IndexSchema>, f: seq<Rooted>, rows: map<Key, Row>)
    requires Agree(schema, indexes, f, rows)
    ensures RootedAt(schema, indexes, f) && RowsOk(schema, rows)
  {
    hide RowsOk, TableIs, IndexIs, ModelOf, IndexOk;
    forall i | 0 <= i < |indexes| ensures IndexOk(schema, indexes[i]) {
    }
    SchemaOfRows(schema, rows);
  }

  lemma SchemaOfRows(schema: TableSchema, rows: map<Key, Row>)
    requires RowsOk(schema, rows)
    ensures SchemaOk(schema)
  {
  }

  /** The roots that a write returns, one for each index, in order. */
  ghost predicate RootsOf(indexes: seq<IndexSchema>, roots: seq<(string, PageNo)>, f: seq<Rooted>)
    requires |f| == 1 + |indexes|
  {
    |roots| <= |indexes| && forall i :: 0 <= i < |roots| ==> roots[i] == (indexes[i].name, f[1 + i].tree.p)
  }

  predicate NamesOf(indexes: seq<IndexSchema>, roots: seq<(string, PageNo)>) {
    |roots| == |indexes| && forall i :: 0 <= i < |roots| ==> roots[i].0 == indexes[i].name
  }

  lemma {:induction false} FindRoot(indexes: seq<IndexSchema>, roots: seq<(string, PageNo)>, i: nat)
    requires DistinctNames(indexes) && |roots| == |indexes| && i < |indexes|
    requires forall j :: 0 <= j < |roots| ==> roots[j].0 == indexes[j].name
    ensures RootFor(roots, indexes[i]) == roots[i].1
  {
    if i > 0 {
      FindRoot(indexes[1..], roots[1..], i - 1);
    }
  }

  /** The write went through: the records with the returned roots point to the trees. */
  ghost predicate Moved(m: map<PageNo, Page>, m': map<PageNo, Page>, schema: TableSchema, indexes: seq<IndexSchema>,
                        f: seq<Rooted>, f': seq<Rooted>, r: WriteResult) {
    && r.Written? && NamesOf(indexes, r.indexRoots)
    && Grounded(m', schema.(rootPage := r.tableRoot), Repointed(indexes, r.indexRoots), f')
    && Elsewhere(m, m', f, f') && |f'| == |f|
  }

  lemma MovedDone(m: map<PageNo, Page>, m': map<PageNo, Page>, schema: TableSchema, indexes: seq<IndexSchema>,
                  f: seq<Rooted>, g: seq<Rooted>, root: PageNo, roots: seq<(string, PageNo)>)
    requires RootedAt(schema, indexes, f) && DistinctNames(indexes) && |g| == |f|
    requires g[0].tree.p == root && RootsOf(indexes, roots, g) && |roots| == |indexes|
    requires Planted(m', g) && Elsewhere(m, m', f, g)
    ensures Moved(m, m', schema, indexes, f, g, Written(root, roots))
  {
    hide Planted, Elsewhere, RootFor;
    var indexes' := Repointed(indexes, roots);
    forall i | 0 <= i < |indexes|
      ensures indexes'[i].rootPage == g[1 + i].tree.p && IndexOk(schema.(rootPage := root), indexes'[i])
    {
      FindRoot(indexes, roots, i);
      assert IndexOk(schema, indexes[i]);
    }
  }

  // ----- What a row is in each tree

  /** The row has a key for the table and for each index. */
  predicate Enterable(schema: TableSchema, indexes: seq<IndexSchema>, row: Row) {
    SchemaOk(schema) && Keyed(schema, row) && IndexesOk(schema, indexes)
  }

  ghost predicate Fitting(schema: TableSchema, indexes: seq<IndexSchema>, row: Row, f: seq<Rooted>) {
    Enterable(schema, indexes, row) && |f| == 1 + |indexes|
  }

  /** What a row puts into tree `j`. */
  function EntryFor(schema: TableSchema, indexes: seq<IndexSchema>, row: Row, j: nat): LeafEntry
    requires Enterable(schema, indexes, row) && j <= |indexes|
  {
    if j == 0 then LeafEntry(RowKey(schema, row), EncodeRow(row))
    else
      assert IndexOk(schema, indexes[j - 1]);
      LeafEntry(IndexKey(schema, IndexColumn(schema, indexes[j - 1]), row), [])
  }

  /** The row's entries were new to the first `n` trees of `f` and are in those of `g`; the others are the same. */
  ghost predicate PutIn(schema: TableSchema, indexes: seq<IndexSchema>, row: Row, f: seq<Rooted>, g: seq<Rooted>,
                        n: nat)
    requires Fitting(schema, indexes, row, f)
  {
    && |g| == |f| && n <= |f| && (forall j :: n <= j < |f| ==> g[j] == f[j])
    && forall j :: 0 <= j < n ==> TreePut(EntryFor(schema, indexes, row, j), f[j], g[j])
  }

  /** The row's entries are gone from the first `n` trees. */
  ghost predicate TakenFrom(schema: TableSchema, indexes: seq<IndexSchema>, row: Row, f: seq<Rooted>, g: seq<Rooted>,
                            n: nat)
    requires Fitting(schema, indexes, row, f)
  {
    && |g| == |f| && n <= |f| && (forall j :: n <= j < |f| ==> g[j] == f[j])
    && forall j :: 0 <= j < n ==> TreeTook(EntryFor(schema, indexes, row, j).key, f[j], g[j])
  }

  /** The row is new to every tree from `n` on. */
  ghost predicate NewTo(schema: TableSchema, indexes: seq<IndexSchema>, row: Row, f: seq<Rooted>, n: nat)
    requires Fitting(schema, indexes, row, f)
  {
    forall j :: n <= j < |f| ==> EntryFor(schema, indexes, row, j).key !in ModelOf(f[j])
  }

  ghost predicate AllFixed(f: seq<Rooted>) {
    forall i :: 0 <= i < |f| ==> f[i].d.FixedWidth?
  }

  /** Full pages of these trees can always be split. */
  ghost predicate AllSplit(f: seq<Rooted>) {
    forall i :: 0 <= i < |f| ==> Splittable(f[i].d)
  }

  lemma FixedSplit(f: seq<Rooted>)
    ensures AllFixed(f) ==> AllSplit(f)
  {
  }

  ghost predicate SameDisciplines(f: seq<Rooted>, f': seq<Rooted>) {
    |f'| == |f| && forall i :: 0 <= i < |f| ==> f'[i].d == f[i].d
  }

  /** The keys and payloads that a row puts into the trees are of the widths that these are kept to. */
  ghost predicate Accepts(schema: TableSchema, indexes: seq<IndexSchema>, f: seq<Rooted>, row: Row) {
    Fitting(schema, indexes, row, f) ==>
      forall j :: 0 <= j < |f| ==> EntryOk(f[j].d, EntryFor(schema, indexes, row, j))
  }

  lemma AcceptedSame(schema: TableSchema, indexes: seq<IndexSchema>, row: Row, f: seq<Rooted>, g: seq<Rooted>)
    requires Fitting(schema, indexes, row, f)
    requires PutIn(schema, indexes, row, f, g, |f|) && Accepts(schema, indexes, f, row)
    ensures SameDisciplines(f, g)
  {
    hide EntryFor, ModelOf, EntryOk, Keyed, IndexesOk;
    forall j | 0 <= j < |f| ensures g[j].d == f[j].d {
      assert TreePut(EntryFor(schema, indexes, row, j), f[j], g[j]);
    }
  }

  lemma TakenSame(schema: TableSchema, indexes: seq<IndexSchema>, row: Row, f: seq<Rooted>, g: seq<Rooted>)
    requires Fitting(schema, indexes, row, f)
    requires TakenFrom(schema, indexes, row, f, g, |f|)
    ensures SameDisciplines(f, g)
  {
    hide EntryFor, ModelOf, Keyed, IndexesOk;
    forall j | 0 <= j < |f| ensures g[j].d == f[j].d {
      assert TreeTook(EntryFor(schema, indexes, row, j).key, f[j], g[j]);
    }
  }

  /** Where the discipline of an entry is kept to, the entry fits a page. */
  lemma SplitFits(d: Discipline, e: LeafEntry)
    requires Roomy(d) && Splittable(d) && EntryOk(d, e)
    ensures SingleEntrySize(e.key, e.payload) <= PAGE_SIZE && Loosened(d, e) == d
  {
  }

  lemma TreeOf(schema: TableSchema, indexes: seq<IndexSchema>, row: Row, m: map<PageNo, Page>, f: seq<Rooted>,
               g: seq<Rooted>, n: nat)
    requires RootedAt(schema, indexes, f) && Fitting(schema, indexes, row, f) && n < |f|
    requires PutIn(schema, indexes, row, f, g, n) && Planted(m, g)
    ensures |g| == |f| && g[n] == f[n] && g[n].tree.p == if n == 0 then schema.rootPage else indexes[n - 1].rootPage
    ensures AllSplit(f) && Accepts(schema, indexes, f, row) ==>
              var e := EntryFor(schema, indexes, row, n);
              Splittable(Loosened(g[n].d, e)) && SingleEntrySize(e.key, e.payload) <= PAGE_SIZE
  {
    hide EntryFor, ModelOf, EntryOk, Roomy, Stored, Apart, Footprint, Keyed, IndexesOk, Loosened, Splittable;
    if AllSplit(f) && Accepts(schema, indexes, f, row) {
      SplitFits(f[n].d, EntryFor(schema, indexes, row, n));
    }
  }

  lemma PutNext(schema: TableSchema, indexes: seq<IndexSchema>, row: Row, m0: map<PageNo, Page>, m: map<PageNo, Page>,
                m': map<PageNo, Page>, f: seq<Rooted>, g: seq<Rooted>, g': seq<Rooted>, n: nat, root: PageNo)
    requires Fitting(schema, indexes, row, f) && n < |f|
    requires PutIn(schema, indexes, row, f, g, n) && Elsewhere(m0, m, f, g) && Replaced(m, m', g, g', n, root)
    requires TreePut(EntryFor(schema, indexes, row, n), g[n], g'[n])
    ensures PutIn(schema, indexes, row, f, g', n + 1) && Planted(m', g') && Elsewhere(m0, m', f, g')
    ensures |g'| == |g| == |f| && g'[n].tree.p == root && forall j :: 0 <= j < |f| && j != n ==> g'[j] == g[j]
  {
    hide EntryFor, TreePut, Planted, Elsewhere, Keyed, IndexesOk;
    ElsewhereThen(m0, m, m', f, g, g');
  }

  lemma TakenNext(schema: TableSchema, indexes: seq<IndexSchema>, row: Row, m0: map<PageNo, Page>, m: map<PageNo, Page>,
                  m': map<PageNo, Page>, f: seq<Rooted>, g: seq<Rooted>, g': seq<Rooted>, n: nat, root: PageNo)
    requires Fitting(schema, indexes, row, f) && n < |f|
    requires TakenFrom(schema, indexes, row, f, g, n) && Elsewhere(m0, m, f, g) && Replaced(m, m', g, g', n, root)
    requires TreeTook(EntryFor(schema, indexes, row, n).key, g[n], g'[n])
    ensures TakenFrom(schema, indexes, row, f, g', n + 1) && Planted(m', g') && Elsewhere(m0, m', f, g')
    ensures |g'| == |g| == |f| && g'[n].tree.p == root && forall j :: 0 <= j < |f| && j != n ==> g'[j] == g[j]
  {
    hide EntryFor, TreeTook, Planted, Elsewhere, Keyed, IndexesOk;
    ElsewhereThen(m0, m, m', f, g, g');
  }

  lemma ElsewhereStart(m: map<PageNo, Page>, f: seq<Rooted>)
    ensures Elsewhere(m, m, f, f)
  {
  }

  /** The entry for an index, as the code computes it. */
  lemma IndexEntry(schema: TableSchema, indexes: seq<IndexSchema>, row: Row, i: nat)
    requires Enterable(schema, indexes, row) && i < |indexes|
    ensures var c, pk := FindColumn(schema.columns, indexes[i].column), PrimaryKeyIndex(schema);
            && c < |row| && pk < |row| && row[c] != Null && row[pk] != Null
            && EntryFor(schema, indexes, row, 1 + i) == LeafEntry(EncodeCompositeKey([row[c], row[pk]]), [])
  {
    hide EncodeKey, EncodeRow, EncodeCompositeKey;
    assert IndexOk(schema, indexes[i]);
  }

  lemma TableEntry(schema: TableSchema, indexes: seq<IndexSchema>, row: Row)
    requires Enterable(schema, indexes, row)
    ensures var pk := PrimaryKeyIndex(schema);
            && pk < |row| && row[pk] != Null
            && EntryFor(schema, indexes, row, 0) == LeafEntry(EncodeKey(row[pk]), EncodeRow(row))
            && RowKey(schema, row) == EncodeKey(row[pk])
  {
    hide EncodeKey, EncodeRow, EncodeCompositeKey;
  }

  // ----- Writing one row

  predicate TooLong(row: Row) {
    exists i :: 0 <= i < |row| && ((row[i].Text? && |row[i].s| > MAX_TEXT) || (row[i].Json? && |row[i].j| > MAX_TEXT))
  }

  /** Why a row is turned away before anything is written. */
  function RowError(columns: seq<Column>, row: Row): Option<ExecError>
    requires |row| == |columns|
  {
    var e := CheckRow(columns, row, 0);
    if e.None? && TooLong(row) then Some(TextTooLong) else e
  }

  lemma RowErrorMeans(schema: TableSchema, row: Row)
    requires |row| == |schema.columns|
    ensures RowError(schema.columns, row) == None ==> CheckRow(schema.columns, row, 0) == None && Keyed(schema, row)
    ensures RowError(schema.columns, row).Some? ==> !RowError(schema.columns, row).value.Store?
    ensures RowTyped(schema, row) ==> RowError(schema.columns, row) == CheckRow(schema.columns, row, 0)
    ensures Sane(schema, row) && RowError(schema.columns, row) == None ==> RowOk(schema, row)
  {
    CheckRowMeans(schema.columns, row, 0);
    assert RowTyped(schema, row) ==> forall i :: 0 <= i < |row| ==> Typed(row[i], schema.columns[i].ty);
  }

  /** Tree `n` has no room for the row's entry: it does not fit a page, or the leaf that it belongs to cannot be
      split. */
  ghost predicate Crowded(schema: TableSchema, indexes: seq<IndexSchema>, row: Row, f: seq<Rooted>, n: nat,
                          e: BTreeError)
    requires Fitting(schema, indexes, row, f) && n < |f|
  {
    var entry := EntryFor(schema, indexes, row, n);
    if e.RowTooLarge? then SingleEntrySize(entry.key, entry.payload) > PAGE_SIZE
    else NoRoomFor(f[n].tree, entry.key, entry.payload)
  }

  ghost predicate SomeCrowded(schema: TableSchema, indexes: seq<IndexSchema>, row: Row, f: seq<Rooted>, e: BTreeError) {
    Fitting(schema, indexes, row, f) && exists n :: 0 <= n < |f| && Crowded(schema, indexes, row, f, n, e)
  }

  /** Why an entry is not put: its key is known, or it does not fit a page, or a page that it needs does not fit; the
      latter two do not happen where full pages can always be split. */
  ghost predicate PutFails(schema: TableSchema, indexes: seq<IndexSchema>, row: Row, f: seq<Rooted>, n: nat,
                           e: BTreeError)
    requires Fitting(schema, indexes, row, f) && n < |f|
  {
    && (e.DuplicateKey? ==> EntryFor(schema, indexes, row, n).key in ModelOf(f[n]))
    && (!e.DuplicateKey? ==> Crowded(schema, indexes, row, f, n, e))
    && (AllSplit(f) && Accepts(schema, indexes, f, row) ==> e.DuplicateKey?)
  }

  lemma PutFailsWhen(schema: TableSchema, indexes: seq<IndexSchema>, row: Row, f: seq<Rooted>, n: nat)
    requires Fitting(schema, indexes, row, f) && n < |f|
    ensures EntryFor(schema, indexes, row, n).key in ModelOf(f[n]) ==>
            PutFails(schema, indexes, row, f, n, DuplicateKey)
    ensures !(AllSplit(f) && Accepts(schema, indexes, f, row)) ==>
              forall e: BTreeError :: !e.DuplicateKey? && Crowded(schema, indexes, row, f, n, e) ==>
                PutFails(schema, indexes, row, f, n, e)
  {
    hide Crowded, EntryFor, ModelOf, AllSplit, Accepts;
  }

  lemma CrowdedIs(schema: TableSchema, indexes: seq<IndexSchema>, row: Row, f: seq<Rooted>, n: nat, key: Key,
                  payload: seq<byte>)
    requires Fitting(schema, indexes, row, f) && n < |f|
    requires EntryFor(schema, indexes, row, n) == LeafEntry(key, payload)
    ensures Crowded(schema, indexes, row, f, n, PageOverflow) <==> NoRoomFor(f[n].tree, key, payload)
    ensures forall e: BTreeError :: e.RowTooLarge? ==>
              (Crowded(schema, indexes, row, f, n, e) <==> SingleEntrySize(key, payload) > PAGE_SIZE)
  {
    hide EntryFor, NoRoomFor;
  }

  lemma OneFailed(schema: TableSchema, indexes: seq<IndexSchema>, row: Row, f: seq<Rooted>, n: nat, e: BTreeError)
    requires Fitting(schema, indexes, row, f) && n < |f| && PutFails(schema, indexes, row, f, n, e)
    ensures e.DuplicateKey? ==>
            !NewTo(schema, indexes, row, f, if n == 0 then 0 else 1) && !NewTo(schema, indexes, row, f, 0)
    ensures AllSplit(f) && Accepts(schema, indexes, f, row) ==> e.DuplicateKey?
    ensures !e.DuplicateKey? ==> SomeCrowded(schema, indexes, row, f, e)
    ensures n == 0 && e.DuplicateKey? ==> RowKey(schema, row) in ModelOf(f[0])
  {
    hide EntryFor, ModelOf, Accepts, Crowded, AllSplit;
    assert EntryFor(schema, indexes, row, 0).key == RowKey(schema, row) by {
      TableEntry(schema, indexes, row);
    }
  }

  /** Puts the entry of a row into one of the trees. */
  method PutEntry(pager: Pager, ghost schema: TableSchema, ghost indexes: seq<IndexSchema>, root: PageNo, key: Key,
                  payload: seq<byte>, ghost row: Row, ghost f: seq<Rooted>, ghost g: seq<Rooted>, ghost n: nat,
                  ghost m0: map<PageNo, Page>)
    returns (r: Outcome, root': PageNo, ghost g': seq<Rooted>)
    requires pager.Valid() && Planted(pager.pages, g) && Elsewhere(m0, pager.pages, f, g)
    requires RootedAt(schema, indexes, f) && Fitting(schema, indexes, row, f) && n < |f|
    requires PutIn(schema, indexes, row, f, g, n) && EntryFor(schema, indexes, row, n) == LeafEntry(key, payload)
    requires root == if n == 0 then schema.rootPage else indexes[n - 1].rootPage
    modifies pager
    ensures pager.Valid()
    ensures r.Done? ==>
              && PutIn(schema, indexes, row, f, g', n + 1) && Planted(pager.pages, g')
              && Elsewhere(m0, pager.pages, f, g')
              && |g'| == |g| == |f| && g'[n].tree.p == root' && forall j :: 0 <= j < |f| && j != n ==> g'[j] == g[j]
    ensures r.Failed? && !r.error.PageOverflow? ==> pager.pages == old(pager.pages)
    ensures r.Failed? ==> PutFails(schema, indexes, row, f, n, r.error)
  {
    hide *;
    TreeOf(schema, indexes, row, pager.pages, f, g, n);
    PutFailsWhen(schema, indexes, row, f, n);
    CrowdedIs(schema, indexes, row, f, n, key, payload);
    ghost var m := pager.pages;
    r, root', g' := InsertAt(pager, root, key, payload, g, n);
    if r.Done? {
      PutNext(schema, indexes, row, m0, m, pager.pages, f, g, g', n, root');
    }
  }

  /** Puts a row into the table and its indexes, whatever its values. */
  method InsertRow(pager: Pager, schema: TableSchema, indexes: seq<IndexSchema>, row: Row, ghost f: seq<Rooted>)
    returns (r: WriteResult, ghost f': seq<Rooted>)
    requires pager.Valid() && Grounded(pager.pages, schema, indexes, f)
    requires |row| == |schema.columns|
    modifies pager
    ensures pager.Valid()
    ensures var e := RowError(schema.columns, row); e.Some? ==> r == Rejected(e.value)
    ensures r.Rejected? && !r.error.Store? ==> pager.pages == old(pager.pages) && f' == f
    ensures r.Written? ==>
              && Moved(old(pager.pages), pager.pages, schema, indexes, f, f', r)
              && Keyed(schema, row) && PutIn(schema, indexes, row, f, f', |f|)
    ensures RowError(schema.columns, row) == None ==> Keyed(schema, row)
    ensures RowError(schema.columns, row) == None && r.Rejected? && !r.error.Store? ==>
              r.error.DuplicatePrimaryKey? && RowKey(schema, row) in ModelOf(f[0])
    ensures RowError(schema.columns, row) == None && r == Rejected(Store(DuplicateKey)) ==>
              !NewTo(schema, indexes, row, f, 1) && RowKey(schema, row) !in ModelOf(f[0])
    ensures r.Rejected? && r.error.Store? && !r.error.error.DuplicateKey? ==>
              SomeCrowded(schema, indexes, row, f, r.error.error)
    ensures RowError(schema.columns, row) == None && AllSplit(f) && Accepts(schema, indexes, f, row) && r.Rejected? ==>
              !NewTo(schema, indexes, row, f, 0) && (r.error.Store? ==> r.error == Store(DuplicateKey))
  {
    var e := RowError(schema.columns, row);
    RowErrorMeans(schema, row);
    hide *;
    f' := f;
    GroundedFacts(pager.pages, schema, indexes, f);
    if e.Some? {
      return Rejected(e.value), f;
    }
    RootedFits(schema, indexes, row, f);
    TableEntry(schema, indexes, row);
    PutNone(schema, indexes, row, f);
    ElsewhereStart(pager.pages, f);
    var pkIdx := PrimaryKeyIndex(schema);
    ghost var m0 := pager.pages;
    var done, tableRoot, g :=
        PutEntry(pager, schema, indexes, schema.rootPage, EncodeKey(row[pkIdx]), EncodeRow(row), row, f, f, 0, m0);
    if done.Failed? {
      OneFailed(schema, indexes, row, f, 0, done.error);
      return Rejected(if done.error.DuplicateKey? then DuplicatePrimaryKey else Store(done.error)), f;
    }
    FillingStarts(m0, pager.pages, schema, indexes, row, tableRoot, f, g);
    KeyWasFree(schema, indexes, row, f, g);
    r, f' := InsertIndexEntries(pager, schema, indexes, row, tableRoot, f, g, m0);
    if r.Rejected? {
      IndexFailed(schema, indexes, row, f, r.error.error);
    }
  }

  /** The row is in the table's tree and in those of the first indexes, whose new roots are known. */
  ghost predicate Filling(m0: map<PageNo, Page>, m: map<PageNo, Page>, schema: TableSchema, indexes: seq<IndexSchema>,
                          row: Row, tableRoot: PageNo, roots: seq<(string, PageNo)>, f: seq<Rooted>, g: seq<Rooted>) {
    && RootedAt(schema, indexes, f) && DistinctNames(indexes) && Fitting(schema, indexes, row, f)
    && Planted(m, g) && Elsewhere(m0, m, f, g) && |g| == |f| && g[0].tree.p == tableRoot
    && RootsOf(indexes, roots, g) && |roots| <= |indexes| && PutIn(schema, indexes, row, f, g, 1 + |roots|)
  }

  lemma FillingFacts(m0: map<PageNo, Page>, m: map<PageNo, Page>, schema: TableSchema, indexes: seq<IndexSchema>,
                     row: Row, tableRoot: PageNo, roots: seq<(string, PageNo)>, f: seq<Rooted>, g: seq<Rooted>)
    requires Filling(m0, m, schema, indexes, row, tableRoot, roots, f, g) && |roots| < |indexes|
    ensures RootedAt(schema, indexes, f) && Fitting(schema, indexes, row, f) && |f| == 1 + |indexes|
    ensures Planted(m, g) && Elsewhere(m0, m, f, g) && PutIn(schema, indexes, row, f, g, 1 + |roots|)
    ensures HasPrimaryKey(schema)
    ensures var c, pk := FindColumn(schema.columns, indexes[|roots|].column), PrimaryKeyIndex(schema);
            && c < |row| && pk < |row| && row[c] != Null && row[pk] != Null
            && EntryFor(schema, indexes, row, 1 + |roots|) == LeafEntry(EncodeCompositeKey([row[c], row[pk]]), [])
  {
    IndexEntry(schema, indexes, row, |roots|);
    hide RootedAt, Planted, Elsewhere, PutIn, EntryFor;
  }

  lemma FillingNext(m0: map<PageNo, Page>, m: map<PageNo, Page>, m': map<PageNo, Page>, schema: TableSchema,
                    indexes: seq<IndexSchema>, row: Row, tableRoot: PageNo, roots: seq<(string, PageNo)>,
                    f: seq<Rooted>, g: seq<Rooted>, g': seq<Rooted>, root: PageNo)
    requires Filling(m0, m, schema, indexes, row, tableRoot, roots, f, g) && |roots| < |indexes|
    requires PutIn(schema, indexes, row, f, g', 2 + |roots|) && Planted(m', g') && Elsewhere(m0, m', f, g')
    requires |g'| == |g| == |f| && g'[1 + |roots|].tree.p == root
    requires forall j :: 0 <= j < |f| && j != 1 + |roots| ==> g'[j] == g[j]
    ensures Filling(m0, m', schema, indexes, row, tableRoot, roots + [(indexes[|roots|].name, root)], f, g')
  {
    hide RootedAt, Planted, Elsewhere, PutIn, DistinctNames;
  }

  lemma FillingDone(m0: map<PageNo, Page>, m: map<PageNo, Page>, schema: TableSchema, indexes: seq<IndexSchema>,
                    row: Row, tableRoot: PageNo, roots: seq<(string, PageNo)>, f: seq<Rooted>, g: seq<Rooted>)
    requires Filling(m0, m, schema, indexes, row, tableRoot, roots, f, g) && |roots| == |indexes|
    ensures Fitting(schema, indexes, row, f)
    ensures Moved(m0, m, schema, indexes, f, g, Written(tableRoot, roots)) && PutIn(schema, indexes, row, f, g, |f|)
  {
    hide Planted, Elsewhere, PutIn, DistinctNames, Moved;
    MovedDone(m0, m, schema, indexes, f, g, tableRoot, roots);
  }

  /** The part of an insertion that deals with the next index. */
  method InsertIndexEntry(pager: Pager, schema: TableSchema, indexes: seq<IndexSchema>, row: Row,
                          roots: seq<(string, PageNo)>, ghost tableRoot: PageNo, ghost f: seq<Rooted>,
                          ghost g: seq<Rooted>, ghost m0: map<PageNo, Page>)
    returns (r: Outcome, root: PageNo, ghost g': seq<Rooted>)
    requires |roots| < |indexes|
    requires pager.Valid() && Filling(m0, pager.pages, schema, indexes, row, tableRoot, roots, f, g)
    modifies pager
    ensures pager.Valid()
    ensures r.Done? ==>
              Filling(m0, pager.pages, schema, indexes, row, tableRoot, roots + [(indexes[|roots|].name, root)], f, g')
    ensures r.Failed? ==> IndexFails(schema, indexes, row, f, r.error)
  {
    hide *;
    ghost var m := pager.pages;
    FillingFacts(m0, m, schema, indexes, row, tableRoot, roots, f, g);
    var idx := indexes[|roots|];
    var col := FindColumn(schema.columns, idx.column);
    var idxKey := EncodeCompositeKey([row[col], row[PrimaryKeyIndex(schema)]]);
    r, root, g' := PutEntry(pager, schema, indexes, idx.rootPage, idxKey, [], row, f, g, 1 + |roots|, m0);
    if r.Failed? {
      IndexFailsSo(schema, indexes, row, f, 1 + |roots|, r.error);
    } else {
      FillingNext(m0, m, pager.pages, schema, indexes, row, tableRoot, roots, f, g, g', root);
    }
  }

  /** An index refuses the row only if it knows its key, or for want of room. */
  ghost predicate IndexFails(schema: TableSchema, indexes: seq<IndexSchema>, row: Row, f: seq<Rooted>, e: BTreeError) {
    Fitting(schema, indexes, row, f) ==>
      && (e.DuplicateKey? ==> !NewTo(schema, indexes, row, f, 1))
      && (!e.DuplicateKey? ==> SomeCrowded(schema, indexes, row, f, e))
      && (AllSplit(f) && Accepts(schema, indexes, f, row) ==> e.DuplicateKey?)
  }

  lemma IndexFailsSo(schema: TableSchema, indexes: seq<IndexSchema>, row: Row, f: seq<Rooted>, n: nat, e: BTreeError)
    requires Fitting(schema, indexes, row, f) && 0 < n < |f| && PutFails(schema, indexes, row, f, n, e)
    ensures IndexFails(schema, indexes, row, f, e)
  {
    hide EntryFor, ModelOf, Accepts, Fitting, NewTo, PutFails, SomeCrowded;
    OneFailed(schema, indexes, row, f, n, e);
  }

  /** The part of an insertion that deals with the indexes. */
  method InsertIndexEntries(pager: Pager, schema: TableSchema, indexes: seq<IndexSchema>, row: Row, tableRoot: PageNo,
                            ghost f: seq<Rooted>, ghost g0: seq<Rooted>, ghost m0: map<PageNo, Page>)
    returns (r: WriteResult, ghost g: seq<Rooted>)
    requires pager.Valid() && Filling(m0, pager.pages, schema, indexes, row, tableRoot, [], f, g0)
    modifies pager
    ensures pager.Valid() && Fitting(schema, indexes, row, f)
    ensures r.Written? ==>
              Moved(m0, pager.pages, schema, indexes, f, g, r) && PutIn(schema, indexes, row, f, g, |f|)
    ensures r.Rejected? ==> r.error.Store? && IndexFails(schema, indexes, row, f, r.error.error)
  {
    assert Fitting(schema, indexes, row, f);
    hide *;
    var roots := [];
    g := g0;
    while |roots| < |indexes|
      invariant pager.Valid() && |roots| <= |indexes|
      invariant Filling(m0, pager.pages, schema, indexes, row, tableRoot, roots, f, g)
      decreases |indexes| - |roots|
    {
      var put, root, g' := InsertIndexEntry(pager, schema, indexes, row, roots, tableRoot, f, g, m0);
      if put.Failed? {
        return Rejected(Store(put.error)), g;
      }
      roots := roots + [(indexes[|roots|].name, root)];
      g := g';
    }
    FillingDone(m0, pager.pages, schema, indexes, row, tableRoot, roots, f, g);
    return Written(tableRoot, roots), g;
  }

  lemma FillingStarts(m0: map<PageNo, Page>, m: map<PageNo, Page>, schema: TableSchema, indexes: seq<IndexSchema>,
                      row: Row, tableRoot: PageNo, f: seq<Rooted>, g: seq<Rooted>)
    requires RootedAt(schema, indexes, f) && DistinctNames(indexes) && Fitting(schema, indexes, row, f)
    requires Planted(m, g) && Elsewhere(m0, m, f, g) && |g| == |f| && g[0].tree.p == tableRoot
    requires PutIn(schema, indexes, row, f, g, 1)
    ensures Filling(m0, m, schema, indexes, row, tableRoot, [], f, g)
  {
    hide RootedAt, Planted, Elsewhere, PutIn, DistinctNames;
  }

  lemma IndexFailed(schema: TableSchema, indexes: seq<IndexSchema>, row: Row, f: seq<Rooted>, e: BTreeError)
    requires Fitting(schema, indexes, row, f) && IndexFails(schema, indexes, row, f, e)
    ensures e.DuplicateKey? ==> !NewTo(schema, indexes, row, f, 1)
    ensures !e.DuplicateKey? ==> SomeCrowded(schema, indexes, row, f, e)
    ensures AllSplit(f) && Accepts(schema, indexes, f, row) ==>
            e.DuplicateKey? && !NewTo(schema, indexes, row, f, 0)
  {
  }

  lemma KeyWasFree(schema: TableSchema, indexes: seq<IndexSchema>, row: Row, f: seq<Rooted>, g: seq<Rooted>)
    requires Fitting(schema, indexes, row, f) && PutIn(schema, indexes, row, f, g, 1)
    ensures RowKey(schema, row) !in ModelOf(f[0])
  {
    hide ModelOf, EntryFor;
    TableEntry(schema, indexes, row);
  }

  lemma RootedFacts(schema: TableSchema, indexes: seq<IndexSchema>, f: seq<Rooted>)
    requires RootedAt(schema, indexes, f)
    ensures SchemaOk(schema) && HasPrimaryKey(schema) && IndexesOk(schema, indexes) && |f| == 1 + |indexes|
    ensures f[0].tree.p == schema.rootPage
  {
  }

  lemma RootedFits(schema: TableSchema, indexes: seq<IndexSchema>, row: Row, f: seq<Rooted>)
    requires RootedAt(schema, indexes, f) && Keyed(schema, row)
    ensures Fitting(schema, indexes, row, f) && Enterable(schema, indexes, row)
  {
  }

  lemma PutNone(schema: TableSchema, indexes: seq<IndexSchema>, row: Row, f: seq<Rooted>)
    requires Fitting(schema, indexes, row, f)
    ensures PutIn(schema, indexes, row, f, f, 0) && TakenFrom(schema, indexes, row, f, f, 0)
  {
  }

  lemma NoRoots(indexes: seq<IndexSchema>, f: seq<Rooted>)
    requires |f| == 1 + |indexes|
    ensures RootsOf(indexes, [], f)
  {
  }

  lemma MoreRoots(indexes: seq<IndexSchema>, roots: seq<(string, PageNo)>, g: seq<Rooted>, g': seq<Rooted>,
                  root: PageNo)
    requires |g| == |g'| == 1 + |indexes| && |roots| < |indexes| && RootsOf(indexes, roots, g)
    requires g'[1 + |roots|].tree.p == root && forall j :: 0 <= j < |g| && j != 1 + |roots| ==> g'[j] == g[j]
    ensures RootsOf(indexes, roots + [(indexes[|roots|].name, root)], g')
  {
  }

  /** In one of the trees the leaf that holds the row's entry can neither spare it nor be repaired: a page that would
      be written does not fit. */
  ghost predicate SomeStuck(schema: TableSchema, indexes: seq<IndexSchema>, row: Row, f: seq<Rooted>) {
    && Fitting(schema, indexes, row, f)
    && exists n :: 0 <= n < |f| && NoRepair(f[n].tree, EntryFor(schema, indexes, row, n).key)
  }

  /** Takes a row, as it was read from the table, out of the table and its indexes. */
  method DeleteRow(pager: Pager, schema: TableSchema, indexes: seq<IndexSchema>, row: Row, ghost f: seq<Rooted>)
    returns (r: WriteResult, ghost f': seq<Rooted>)
    requires pager.Valid() && Grounded(pager.pages, schema, indexes, f)
    requires Keyed(schema, row)
    modifies pager
    ensures pager.Valid()
    ensures r.Written? ==>
              && Moved(old(pager.pages), pager.pages, schema, indexes, f, f', r)
              && TakenFrom(schema, indexes, row, f, f', |f|)
    ensures r.Rejected? ==> r.error == Store(PageOverflow) && !AllFixed(f) && SomeStuck(schema, indexes, row, f)
  {
    hide *;
    f' := f;
    GroundedFacts(pager.pages, schema, indexes, f);
    RootedFits(schema, indexes, row, f);
    TableEntry(schema, indexes, row);
    PutNone(schema, indexes, row, f);
    ElsewhereStart(pager.pages, f);
    var pkIdx := PrimaryKeyIndex(schema);
    ghost var m0 := pager.pages;
    var done, tableRoot, g := DeleteAt(pager, schema.rootPage, EncodeKey(row[pkIdx]), f, 0);
    if done.Failed? {
      StuckAt(schema, indexes, row, f, 0);
      return Rejected(Store(done.error)), f;
    }
    TakenNext(schema, indexes, row, m0, m0, pager.pages, f, f, g, 0, tableRoot);
    NoRoots(indexes, g);
    var roots := [];
    while |roots| < |indexes|
      invariant pager.Valid() && Planted(pager.pages, g) && Elsewhere(m0, pager.pages, f, g)
      invariant |g| == |f| && g[0].tree.p == tableRoot && RootsOf(indexes, roots, g) && |roots| <= |indexes|
      invariant TakenFrom(schema, indexes, row, f, g, 1 + |roots|)
      decreases |indexes| - |roots|
    {
      var idx := indexes[|roots|];
      IndexEntry(schema, indexes, row, |roots|);
      Untaken(schema, indexes, row, f, g, 1 + |roots|);
      var col := FindColumn(schema.columns, idx.column);
      ghost var m1 := pager.pages;
      var erased, root, g' := DeleteAt(pager, idx.rootPage, EncodeCompositeKey([row[col], row[pkIdx]]), g, 1 + |roots|);
      if erased.Failed? {
        StuckAt(schema, indexes, row, f, 1 + |roots|);
        return Rejected(Store(erased.error)), g;
      }
      TakenNext(schema, indexes, row, m0, m1, pager.pages, f, g, g', 1 + |roots|, root);
      MoreRoots(indexes, roots, g, g', root);
      roots := roots + [(idx.name, root)];
      g := g';
    }
    MovedDone(m0, pager.pages, schema, indexes, f, g, tableRoot, roots);
    return Written(tableRoot, roots), g;
  }

  lemma StuckAt(schema: TableSchema, indexes: seq<IndexSchema>, row: Row, f: seq<Rooted>, n: nat)
    requires Fitting(schema, indexes, row, f) && n < |f| && !f[n].d.FixedWidth?
    requires NoRepair(f[n].tree, EntryFor(schema, indexes, row, n).key)
    ensures !AllFixed(f) && SomeStuck(schema, indexes, row, f)
  {
    hide NoRepair, EntryFor;
  }

  lemma Untaken(schema: TableSchema, indexes: seq<IndexSchema>, row: Row, f: seq<Rooted>, g: seq<Rooted>, n: nat)
    requires RootedAt(schema, indexes, f) && Fitting(schema, indexes, row, f) && n < |f|
    requires TakenFrom(schema, indexes, row, f, g, n)
    ensures |g| == |f| && g[n] == f[n] && g[n].tree.p == if n == 0 then schema.rootPage else indexes[n - 1].rootPage
  {
  }

  /** Replaces a row by deleting it and inserting the new one.  The new primary key may be another one.
      When the new row is refused, the old one is already gone. */
  method UpdateRow(pager: Pager, schema: TableSchema, indexes: seq<IndexSchema>, oldRow: Row, newRow: Row,
                   ghost f: seq<Rooted>)
    returns (r: WriteResult, ghost g: seq<Rooted>, ghost f': seq<Rooted>)
    requires pager.Valid() && Grounded(pager.pages, schema, indexes, f)
    requires Keyed(schema, oldRow) && |newRow| == |schema.columns|
    modifies pager
    ensures pager.Valid()
    ensures r.Written? ==>
              && RowError(schema.columns, newRow) == None && Keyed(schema, newRow)
              && Moved(old(pager.pages), pager.pages, schema, indexes, f, f', r)
              && TakenFrom(schema, indexes, oldRow, f, g, |f|) && PutIn(schema, indexes, newRow, g, f', |f|)
    ensures r.Rejected? && !r.error.Store? ==>
              && Planted(pager.pages, f') && Elsewhere(old(pager.pages), pager.pages, f, f')
              && f' == g && TakenFrom(schema, indexes, oldRow, f, g, |f|)
    ensures r.Rejected? && r.error.Store? && !r.error.error.DuplicateKey? ==>
              || SomeStuck(schema, indexes, oldRow, f)
              || (TakenFrom(schema, indexes, oldRow, f, g, |f|)
                  && SomeCrowded(schema, indexes, newRow, g, r.error.error))
    ensures r.Rejected? && !r.error.Store? ==>
              if RowError(schema.columns, newRow) == None then
                Keyed(schema, newRow) && r.error.DuplicatePrimaryKey? && RowKey(schema, newRow) in ModelOf(g[0])
              else r.error == RowError(schema.columns, newRow).value
    ensures r.Rejected? && AllFixed(f) && RowError(schema.columns, newRow).Some? ==>
              r.error == RowError(schema.columns, newRow).value && !r.error.Store?
    ensures r.Rejected? && AllFixed(f) && RowError(schema.columns, newRow) == None ==>
              && Keyed(schema, newRow) && TakenFrom(schema, indexes, oldRow, f, g, |f|)
              && (Accepts(schema, indexes, f, newRow) ==> !NewTo(schema, indexes, newRow, g, 0))
  {
    hide *;
    GroundedFacts(pager.pages, schema, indexes, f);
    RootedFits(schema, indexes, oldRow, f);
    var erased;
    erased, g := DeleteRow(pager, schema, indexes, oldRow, f);
    f' := g;
    if erased.Rejected? {
      return erased, g, g;
    }
    var schema' := schema.(rootPage := erased.tableRoot);
    var indexes' := Repointed(indexes, erased.indexRoots);
    ghost var m1 := pager.pages;
    MovedFacts(old(pager.pages), m1, schema, indexes, f, g, erased);
    GroundedFacts(m1, schema', indexes', g);
    RowErrorMeans(schema, newRow);
    if Keyed(schema, newRow) {
      RootedFits(schema, indexes, newRow, f);
      SameEntries(schema, schema', indexes, indexes', newRow);
    }
    TakenSame(schema, indexes, oldRow, f, g);
    FixedSplit(g);
    r, f' := InsertRow(pager, schema', indexes', newRow, g);
    if RowError(schema.columns, newRow) == None {
      PutMoved(schema, schema', indexes, indexes', newRow, f, g, f');
      CrowdedMoved(schema, schema', indexes, indexes', newRow, g);
    }
    if r.Written? {
      MovedThen(old(pager.pages), m1, pager.pages, schema, indexes, f, g, f', erased, r);
    }
  }

  lemma CrowdedMoved(schema: TableSchema, schema': TableSchema, indexes: seq<IndexSchema>, indexes': seq<IndexSchema>,
                     row: Row, g: seq<Rooted>)
    requires SameButRoots(schema, schema', indexes, indexes')
    requires Enterable(schema, indexes, row) && |g| == 1 + |indexes|
    ensures forall e :: SomeCrowded(schema', indexes', row, g, e) ==> SomeCrowded(schema, indexes, row, g, e)
  {
    hide EntryFor, NoRoomFor, Keyed, IndexesOk, SchemaOk;
    SameEntries(schema, schema', indexes, indexes', row);
    forall e | SomeCrowded(schema', indexes', row, g, e) ensures SomeCrowded(schema, indexes, row, g, e) {
      var n :| 0 <= n < |g| && Crowded(schema', indexes', row, g, n, e);
      assert EntryFor(schema', indexes', row, n) == EntryFor(schema, indexes, row, n);
      assert Crowded(schema, indexes, row, g, n, e);
    }
  }

  /** The key of a row that was taken out is free. */
  lemma KeyFree(schema: TableSchema, indexes: seq<IndexSchema>, row: Row, f: seq<Rooted>, g: seq<Rooted>)
    requires Fitting(schema, indexes, row, f) && TakenFrom(schema, indexes, row, f, g, |f|)
    ensures |g| == |f| > 0 && RowKey(schema, row) !in ModelOf(g[0])
  {
    hide ModelOf, EntryFor;
    TableEntry(schema, indexes, row);
  }

  lemma MovedFacts(m: map<PageNo, Page>, m': map<PageNo, Page>, schema: TableSchema, indexes: seq<IndexSchema>,
                   f: seq<Rooted>, f': seq<Rooted>, r: WriteResult)
    requires Moved(m, m', schema, indexes, f, f', r)
    ensures r.Written? && Elsewhere(m, m', f, f') && |f'| == |f|
    ensures var schema', indexes' := schema.(rootPage := r.tableRoot), Repointed(indexes, r.indexRoots);
            && Grounded(m', schema', indexes', f')
            && SameButRoots(schema, schema', indexes, indexes') && schema'.columns == schema.columns
            && SchemaOk(schema') && IndexesOk(schema', indexes') && |f'| == 1 + |indexes'|
  {
    hide Planted, Elsewhere, RootFor;
  }

  /** Records that differ in nothing but the roots. */
  predicate SameButRoots(schema: TableSchema, schema': TableSchema, indexes: seq<IndexSchema>,
                         indexes': seq<IndexSchema>) {
    && schema' == schema.(rootPage := schema'.rootPage) && |indexes'| == |indexes|
    && forall i :: 0 <= i < |indexes| ==> indexes'[i] == indexes[i].(rootPage := indexes'[i].rootPage)
  }

  lemma AlikeMoved(schema: TableSchema, schema': TableSchema, indexes: seq<IndexSchema>, indexes': seq<IndexSchema>,
                   f: seq<Rooted>, rows: map<Key, Row>)
    requires SameButRoots(schema, schema', indexes, indexes')
    ensures Alike(schema', indexes', f, rows) <==> Alike(schema, indexes, f, rows)
  {
    hide TableIs, ModelOf, RowsOk, IndexIs;
    RowsMoved(schema, schema', rows);
    if |f| == 1 + |indexes| && RowsOk(schema, rows) {
      forall i | 0 <= i < |indexes|
        ensures IndexOk(schema', indexes'[i]) <==> IndexOk(schema, indexes[i])
        ensures IndexColumn(schema', indexes'[i]) == IndexColumn(schema, indexes[i])
        ensures IndexOk(schema, indexes[i]) ==>
                  var c := IndexColumn(schema, indexes[i]);
                  (IndexIs(schema', c, ModelOf(f[1 + i]), rows) <==> IndexIs(schema, c, ModelOf(f[1 + i]), rows))
      {
        if IndexOk(schema, indexes[i]) {
          IndexIsMoved(schema, schema', IndexColumn(schema, indexes[i]), ModelOf(f[1 + i]), rows);
        }
      }
    }
  }

  lemma RowsMoved(schema: TableSchema, schema': TableSchema, rows: map<Key, Row>)
    requires schema'.columns == schema.columns
    ensures RowsOk(schema', rows) <==> RowsOk(schema, rows)
  {
    hide CheckRow, EncodeKey;
  }

  lemma IndexIsMoved(schema: TableSchema, schema': TableSchema, c: nat, m: map<Key, seq<byte>>, rows: map<Key, Row>)
    requires schema'.columns == schema.columns && RowsOk(schema, rows) && RowsOk(schema', rows)
    requires c < |schema.columns| && schema.columns[c].notNull
    ensures IndexIs(schema', c, m, rows) <==> IndexIs(schema, c, m, rows)
  {
    hide CheckRow, EncodeKey, EncodeCompositeKey, RowKey;
  }

  /** A row puts the same entries whatever the roots are. */
  lemma SameEntries(schema: TableSchema, schema': TableSchema, indexes: seq<IndexSchema>, indexes': seq<IndexSchema>,
                    row: Row)
    requires SameButRoots(schema, schema', indexes, indexes') && Enterable(schema, indexes, row)
    ensures Enterable(schema', indexes', row) && RowKey(schema', row) == RowKey(schema, row)
    ensures forall j :: 0 <= j <= |indexes| ==> EntryFor(schema', indexes', row, j) == EntryFor(schema, indexes, row, j)
  {
    hide EncodeKey, EncodeRow, EncodeCompositeKey;
    forall i | 0 <= i < |indexes| ensures IndexOk(schema', indexes'[i]) {
      assert IndexOk(schema, indexes[i]);
    }
    forall j | 0 <= j <= |indexes| ensures EntryFor(schema', indexes', row, j) == EntryFor(schema, indexes, row, j) {
    }
  }

  /** What fits the trees fits them after writes that kept their disciplines. */
  lemma AcceptsMoved(schema: TableSchema, schema': TableSchema, indexes: seq<IndexSchema>, indexes': seq<IndexSchema>,
                     f: seq<Rooted>, f': seq<Rooted>, row: Row)
    requires SameButRoots(schema, schema', indexes, indexes') && SameDisciplines(f, f')
    requires Accepts(schema, indexes, f, row)
    ensures Accepts(schema', indexes', f', row)
  {
    hide EntryFor, EntryOk, Keyed;
    if Fitting(schema', indexes', row, f') {
      RootsAside(schema, schema', indexes, indexes', row);
      SameEntries(schema, schema', indexes, indexes', row);
    }
  }

  lemma RootsAside(schema: TableSchema, schema': TableSchema, indexes: seq<IndexSchema>, indexes': seq<IndexSchema>,
                   row: Row)
    requires SameButRoots(schema, schema', indexes, indexes')
    ensures Enterable(schema, indexes, row) <==> Enterable(schema', indexes', row)
  {
    forall i | 0 <= i < |indexes| ensures IndexOk(schema', indexes'[i]) <==> IndexOk(schema, indexes[i]) {
    }
  }

  /** What is said of the trees for the records before a write holds for the records after it. */
  lemma PutMoved(schema: TableSchema, schema': TableSchema, indexes: seq<IndexSchema>, indexes': seq<IndexSchema>,
                 row: Row, f: seq<Rooted>, g: seq<Rooted>, f': seq<Rooted>)
    requires SameButRoots(schema, schema', indexes, indexes')
    requires Enterable(schema, indexes, row) && |f| == |g| == 1 + |indexes| && SameDisciplines(f, g)
    ensures Enterable(schema', indexes', row)
    ensures PutIn(schema', indexes', row, g, f', |g|) <==> PutIn(schema, indexes, row, g, f', |g|)
    ensures NewTo(schema', indexes', row, g, 0) <==> NewTo(schema, indexes, row, g, 0)
    ensures (Accepts(schema, indexes, f, row) ==> Accepts(schema', indexes', g, row)) && (AllFixed(f) ==> AllFixed(g))
  {
    hide EntryFor, TreePut, ModelOf, EntryOk, IndexesOk, SchemaOk, Keyed;
    SameEntries(schema, schema', indexes, indexes', row);
  }

  lemma MovedThen(m: map<PageNo, Page>, m1: map<PageNo, Page>, m2: map<PageNo, Page>, schema: TableSchema,
                  indexes: seq<IndexSchema>, f: seq<Rooted>, f1: seq<Rooted>, f2: seq<Rooted>, r1: WriteResult,
                  r2: WriteResult)
    requires Moved(m, m1, schema, indexes, f, f1, r1) && DistinctNames(indexes)
    requires var schema', indexes' := schema.(rootPage := r1.tableRoot), Repointed(indexes, r1.indexRoots);
             Moved(m1, m2, schema', indexes', f1, f2, r2)
    ensures Moved(m, m2, schema, indexes, f, f2, r2)
  {
    hide Grounded, Elsewhere, RootFor;
    var indexes' := Repointed(indexes, r1.indexRoots);
    ElsewhereThen(m, m1, m2, f, f1, f2);
    forall i | 0 <= i < |indexes|
      ensures Repointed(indexes', r2.indexRoots)[i] == Repointed(indexes, r2.indexRoots)[i]
    {
      FindRoot(indexes, r2.indexRoots, i);
      FindRoot(indexes', r2.indexRoots, i);
    }
    assert Repointed(indexes', r2.indexRoots) == Repointed(indexes, r2.indexRoots);
  }

  // ----- Table and indexes still agree

  /** Table and indexes hold the rows; nothing is said of the roots. */
  ghost predicate Alike(schema: TableSchema, indexes: seq<IndexSchema>, f: seq<Rooted>, rows: map<Key, Row>) {
    && RowsOk(schema, rows) && |f| == 1 + |indexes| && TableIs(ModelOf(f[0]), rows)
    && IndexesAre(schema, indexes, f, rows, 0, |indexes|)
  }

  lemma AgreeAlike(schema: TableSchema, indexes: seq<IndexSchema>, f: seq<Rooted>, rows: map<Key, Row>)
    requires Agree(schema, indexes, f, rows)
    ensures RootedAt(schema, indexes, f) && Alike(schema, indexes, f, rows) && SchemaOk(schema)
            && IndexesOk(schema, indexes)
  {
    hide TableIs, IndexIs, ModelOf;
    AgreeRooted(schema, indexes, f, rows);
  }

  /** To a table that agrees with its indexes a sane row is new everywhere when its primary key is. */
  lemma NewEverywhere(schema: TableSchema, indexes: seq<IndexSchema>, f: seq<Rooted>, row: Row, rows: map<Key, Row>)
    requires Alike(schema, indexes, f, rows) && IndexesOk(schema, indexes) && RowOk(schema, row)
    ensures RowKey(schema, row) in ModelOf(f[0]) <==> RowKey(schema, row) in rows
    ensures NewTo(schema, indexes, row, f, 0) <==> RowKey(schema, row) !in rows
    ensures RowKey(schema, row) !in rows ==> NewTo(schema, indexes, row, f, 1)
  {
    hide ModelOf, EncodeKey, EncodeRow, RowKey, IndexKey, CheckRow, IndexIs, Keyed, Sane;
    assert EntryFor(schema, indexes, row, 0).key == RowKey(schema, row);
    if RowKey(schema, row) !in rows {
      forall j | 1 <= j < |f| ensures EntryFor(schema, indexes, row, j).key !in ModelOf(f[j]) {
        assert IndexOk(schema, indexes[j - 1]);
        IndexPut(schema, IndexColumn(schema, indexes[j - 1]), ModelOf(f[j]), rows, row);
      }
    }
  }

  /** With one sane row more they agree on one row more. */
  lemma PutAgrees(schema: TableSchema, indexes: seq<IndexSchema>, f: seq<Rooted>, g: seq<Rooted>, row: Row,
                  rows: map<Key, Row>)
    requires Alike(schema, indexes, f, rows) && IndexesOk(schema, indexes) && RowOk(schema, row)
    requires PutIn(schema, indexes, row, f, g, |f|)
    ensures RowKey(schema, row) !in rows && Alike(schema, indexes, g, rows[RowKey(schema, row) := row])
  {
    hide ModelOf, EncodeKey, EncodeRow, RowKey, IndexKey, CheckRow, IndexIs, TableIs, Keyed, Sane, EntryFor;
    assert TreePut(EntryFor(schema, indexes, row, 0), f[0], g[0]);
    TableEntry(schema, indexes, row);
    NewEverywhere(schema, indexes, f, row, rows);
    RowsPut(schema, rows, row);
    TablePut(schema, ModelOf(f[0]), rows, row);
    forall i | 0 <= i < |indexes|
      ensures IndexOk(schema, indexes[i])
      ensures IndexIs(schema, IndexColumn(schema, indexes[i]), ModelOf(g[1 + i]), rows[RowKey(schema, row) := row])
    {
      assert IndexOk(schema, indexes[i]) && TreePut(EntryFor(schema, indexes, row, 1 + i), f[1 + i], g[1 + i]);
      IndexEntryIs(schema, indexes, row, i);
      IndexPut(schema, IndexColumn(schema, indexes[i]), ModelOf(f[1 + i]), rows, row);
    }
  }

  lemma IndexEntryIs(schema: TableSchema, indexes: seq<IndexSchema>, row: Row, i: nat)
    requires Enterable(schema, indexes, row) && i < |indexes|
    ensures IndexOk(schema, indexes[i])
    ensures EntryFor(schema, indexes, row, 1 + i)
         == LeafEntry(IndexKey(schema, IndexColumn(schema, indexes[i]), row), [])
  {
    hide IndexKey;
  }

  /** With one row less they agree on one row less. */
  lemma TakenAgrees(schema: TableSchema, indexes: seq<IndexSchema>, f: seq<Rooted>, g: seq<Rooted>, row: Row,
                    rows: map<Key, Row>)
    requires Alike(schema, indexes, f, rows) && IndexesOk(schema, indexes) && RowOk(schema, row)
    requires RowKey(schema, row) in rows ==> rows[RowKey(schema, row)] == row
    requires TakenFrom(schema, indexes, row, f, g, |f|)
    ensures Alike(schema, indexes, g, rows - {RowKey(schema, row)})
  {
    hide ModelOf, EncodeKey, EncodeRow, RowKey, IndexKey, CheckRow, IndexIs, TableIs, Keyed, Sane, EntryFor;
    assert TreeTook(EntryFor(schema, indexes, row, 0).key, f[0], g[0]);
    TableEntry(schema, indexes, row);
    RowsDrop(schema, rows, RowKey(schema, row));
    TableDrop(schema, ModelOf(f[0]), rows, RowKey(schema, row));
    forall i | 0 <= i < |indexes|
      ensures IndexOk(schema, indexes[i])
      ensures IndexIs(schema, IndexColumn(schema, indexes[i]), ModelOf(g[1 + i]), rows - {RowKey(schema, row)})
    {
      assert IndexOk(schema, indexes[i]) && TreeTook(EntryFor(schema, indexes, row, 1 + i).key, f[1 + i], g[1 + i]);
      IndexEntryIs(schema, indexes, row, i);
      IndexDrop(schema, IndexColumn(schema, indexes[i]), ModelOf(f[1 + i]), rows, row);
    }
  }

  /** The write went through, and table and indexes agree on `rows'`. */
  ghost predicate Committed(m: map<PageNo, Page>, m': map<PageNo, Page>, schema: TableSchema, indexes: seq<IndexSchema>,
                            f: seq<Rooted>, f': seq<Rooted>, r: WriteResult, rows': map<Key, Row>) {
    && Moved(m, m', schema, indexes, f, f', r)
    && Agree(schema.(rootPage := r.tableRoot), Repointed(indexes, r.indexRoots), f', rows')
  }

  lemma MovedAgrees(m: map<PageNo, Page>, m': map<PageNo, Page>, schema: TableSchema, indexes: seq<IndexSchema>,
                    f: seq<Rooted>, f': seq<Rooted>, r: WriteResult, rows: map<Key, Row>)
    requires Moved(m, m', schema, indexes, f, f', r) && Alike(schema, indexes, f', rows)
    ensures Committed(m, m', schema, indexes, f, f', r, rows)
  {
    hide Planted, Elsewhere, ModelOf, EncodeRow, EncodeKey, CheckRow, RootFor;
    var schema', indexes' := schema.(rootPage := r.tableRoot), Repointed(indexes, r.indexRoots);
    SameRows(schema, schema', rows);
    forall i | 0 <= i < |indexes'|
      ensures IndexOk(schema', indexes'[i])
              && IndexIs(schema', IndexColumn(schema', indexes'[i]), ModelOf(f'[1 + i]), rows)
    {
      assert IndexOk(schema, indexes[i]);
      SameIndex(schema, schema', IndexColumn(schema, indexes[i]), ModelOf(f'[1 + i]), rows);
    }
  }

  lemma SameRows(schema: TableSchema, schema': TableSchema, rows: map<Key, Row>)
    requires RowsOk(schema, rows) && schema'.columns == schema.columns
    ensures RowsOk(schema', rows)
  {
    hide EncodeKey, CheckRow;
    forall k | k in rows ensures RowOk(schema', rows[k]) && RowKey(schema', rows[k]) == k {
      assert RowOk(schema, rows[k]) && RowKey(schema, rows[k]) == k;
    }
  }

  lemma SameIndex(schema: TableSchema, schema': TableSchema, c: nat, m: map<Key, seq<byte>>, rows: map<Key, Row>)
    requires RowsOk(schema, rows) && RowsOk(schema', rows) && schema'.columns == schema.columns
    requires c < |schema.columns| && schema.columns[c].notNull && IndexIs(schema, c, m, rows)
    ensures IndexIs(schema', c, m, rows)
  {
    hide EncodeKey, CheckRow, EncodeCompositeKey;
    forall k | k in rows ensures IndexKey(schema', c, rows[k]) == IndexKey(schema, c, rows[k]) {
    }
  }

  /** An inserted row that is sane leaves a table that agrees with its indexes in agreement. */
  lemma InsertAgrees(m: map<PageNo, Page>, m': map<PageNo, Page>, schema: TableSchema, indexes: seq<IndexSchema>,
                     f: seq<Rooted>, f': seq<Rooted>, r: WriteResult, row: Row, rows: map<Key, Row>)
    requires Agree(schema, indexes, f, rows) && RootedAt(schema, indexes, f) && RowOk(schema, row)
    requires Moved(m, m', schema, indexes, f, f', r) && PutIn(schema, indexes, row, f, f', |f|)
    ensures RowKey(schema, row) !in rows
    ensures Committed(m, m', schema, indexes, f, f', r, rows[RowKey(schema, row) := row])
  {
    hide *;
    AgreeAlike(schema, indexes, f, rows);
    PutAgrees(schema, indexes, f, f', row, rows);
    MovedAgrees(m, m', schema, indexes, f, f', r, rows[RowKey(schema, row) := row]);
  }

  /** So does a deleted one. */
  lemma DeleteAgrees(m: map<PageNo, Page>, m': map<PageNo, Page>, schema: TableSchema, indexes: seq<IndexSchema>,
                     f: seq<Rooted>, f': seq<Rooted>, r: WriteResult, row: Row, rows: map<Key, Row>)
    requires Agree(schema, indexes, f, rows) && RootedAt(schema, indexes, f) && RowOk(schema, row)
    requires RowKey(schema, row) in rows ==> rows[RowKey(schema, row)] == row
    requires Moved(m, m', schema, indexes, f, f', r) && TakenFrom(schema, indexes, row, f, f', |f|)
    ensures Committed(m, m', schema, indexes, f, f', r, rows - {RowKey(schema, row)})
  {
    hide *;
    AgreeAlike(schema, indexes, f, rows);
    TakenAgrees(schema, indexes, f, f', row, rows);
    MovedAgrees(m, m', schema, indexes, f, f', r, rows - {RowKey(schema, row)});
  }

  /** And so does one row that gives way to another, under the same primary key or a free one. */
  lemma UpdateAgrees(m: map<PageNo, Page>, m': map<PageNo, Page>, schema: TableSchema, indexes: seq<IndexSchema>,
                     f: seq<Rooted>, g: seq<Rooted>, f': seq<Rooted>, r: WriteResult, oldRow: Row, newRow: Row,
                     rows: map<Key, Row>)
    requires Agree(schema, indexes, f, rows) && RootedAt(schema, indexes, f) && RowOk(schema, oldRow)
             && RowOk(schema, newRow)
    requires RowKey(schema, oldRow) in rows && rows[RowKey(schema, oldRow)] == oldRow
    requires Moved(m, m', schema, indexes, f, f', r)
    requires TakenFrom(schema, indexes, oldRow, f, g, |f|) && PutIn(schema, indexes, newRow, g, f', |f|)
    ensures var rest := rows - {RowKey(schema, oldRow)};
            && RowKey(schema, newRow) !in rest
            && Committed(m, m', schema, indexes, f, f', r, rest[RowKey(schema, newRow) := newRow])
  {
    assert |g| == |f|;
    hide *;
    AgreeAlike(schema, indexes, f, rows);
    RootedFacts(schema, indexes, f);
    var rest := rows - {RowKey(schema, oldRow)};
    TakenAgrees(schema, indexes, f, g, oldRow, rows);
    PutAgrees(schema, indexes, g, f', newRow, rest);
    MovedAgrees(m, m', schema, indexes, f, f', r, rest[RowKey(schema, newRow) := newRow]);
  }
}
