/** What scans and seeks yield, in terms of the rows of the table: always a listing in primary key order. */
module Listings {
  import opened Bytes
  import opened Storage
  import opened Shape
  import opened Contexts
  import opened Steps
  import opened Contents
  import opened NodeEdits
  import opened Runs
  import opened Values
  import opened Rows
  import opened Mistyped
  import opened Tables
  import opened Streams
  import opened Operators

  ghost function KeysOf(es: seq<LeafEntry>): (r: seq<Key>)
    ensures |r| == |es| && forall i :: 0 <= i < |r| ==> r[i] == es[i].key
  {
    seq(|es|, i requires 0 <= i < |es| => es[i].key)
  }

  /** The primary keys of the table, as a scan meets them. */
  ghost function TableKeys(t: Rooted): seq<Key> {
    KeysOf(Flat(t.tree))
  }

  /** All rows of the table in key order. */
  ghost function AllRows(t: Rooted, rows: map<Key, Row>): seq<Row>
    requires forall k :: k in TableKeys(t) ==> k in rows
  {
    RowsAt(TableKeys(t), rows)
  }

  /** Keys are listed once each, in order, and no row is left out. */
  lemma KeysListed(t: Rooted, rows: map<Key, Row>)
    requires Sound(t.tree, t.height) && TableIs(ModelOf(t), rows)
    ensures Increasing(TableKeys(t)) && forall k :: k in TableKeys(t) <==> k in rows
  {
    hide Rank, MapOf;
    FlatSorted(t.tree, t.height, LOWEST, HIGHEST, 0);
    var es := Flat(t.tree);
    forall k ensures k in TableKeys(t) <==> k in rows {
      KeyListed(es, k);
    }
  }

  lemma KeyListed(es: seq<LeafEntry>, k: Key)
    ensures k in KeysOf(es) <==> k in MapOf(es)
  {
    hide MapOf;
    MapKeys(es, k);
    if k in KeysOf(es) {
      var i :| 0 <= i < |es| && KeysOf(es)[i] == k;
      assert es[i].key == k;
    }
    if k in MapOf(es) {
      var i :| 0 <= i < |es| && es[i].key == k;
      assert KeysOf(es)[i] == k;
    }
  }

  /** A full scan yields all rows in key order. */
  lemma ScanYields(schema: TableSchema, t: Rooted, rows: map<Key, Row>)
    requires Sound(t.tree, t.height) && TableIs(ModelOf(t), rows) && RowsOk(schema, rows)
    ensures forall k :: k in TableKeys(t) <==> k in rows
    ensures DecodedRows(Flat(t.tree), schema) == AllRows(t, rows)
  {
    hide Rank, MapOf, DecodeRow, EncodeRow, RowKey, CheckRow;
    KeysListed(t, rows);
    FlatSorted(t.tree, t.height, LOWEST, HIGHEST, 0);
    var es := Flat(t.tree);
    forall i | 0 <= i < |es| ensures es[i].key in rows && DecodeRow(schema, es[i].payload) == rows[es[i].key] {
      MapAt(es, i, LOWEST, HIGHEST);
      RowRoundTrip(schema, rows[es[i].key]);
    }
    DecodedAt(es, schema, rows);
  }

  lemma {:induction false} DecodedAt(es: seq<LeafEntry>, schema: TableSchema, rows: map<Key, Row>)
    requires forall i :: 0 <= i < |es| ==> es[i].key in rows && DecodeRow(schema, es[i].payload) == rows[es[i].key]
    ensures DecodedRows(es, schema) == RowsAt(KeysOf(es), rows)
  {
    hide DecodeRow;
    if es != [] {
      DecodedAt(es[1..], schema, rows);
      assert RowsAt(KeysOf(es), rows) == [rows[es[0].key]] + RowsAt(KeysOf(es[1..]), rows);
    }
  }

  // ----- Seeking in an index

  /** What follows the prefix in the keys that have it, up to the first that does not. */
  ghost function Suffixes(es: seq<LeafEntry>, prefix: Key): seq<Key> {
    if es == [] || !(prefix <= es[0].key) then [] else [es[0].key[|prefix|..]] + Suffixes(es[1..], prefix)
  }

  lemma {:induction false} CommonPrefix(p: Key, a: Key, b: Key)
    ensures Rank(p + a) < Rank(p + b) <==> Rank(a) < Rank(b)
    ensures Rank(p) <= Rank(p + a)
  {
    if p == [] {
      assert p + a == a && p + b == b;
    } else {
      CommonPrefix(p[1..], a, b);
      assert (p + a)[1..] == p[1..] + a && (p + b)[1..] == p[1..] + b;
    }
  }

  lemma SuffixOrder(p: Key, x: Key, y: Key)
    requires p <= x && p <= y && Rank(x) < Rank(y)
    ensures Rank(x[|p|..]) < Rank(y[|p|..])
  {
    hide Rank;
    assert x == p + x[|p|..] && y == p + y[|p|..];
    CommonPrefix(p, x[|p|..], y[|p|..]);
  }

  /** The suffixes are in order, and are those of all entries that have the prefix. */
  lemma {:induction false} SuffixesAre(es: seq<LeafEntry>, prefix: Key)
    requires SortedIn(es, Rank(prefix), HIGHEST)
    ensures Increasing(Suffixes(es, prefix))
    ensures forall k :: k in Suffixes(es, prefix) <==> prefix + k in KeysOf(es)
  {
    hide Rank;
    if es != [] {
      SuffixesAre(es[1..], prefix);
      var rest := Suffixes(es[1..], prefix);
      if prefix <= es[0].key {
        var s := es[0].key[|prefix|..];
        assert es[0].key == prefix + s;
        forall j | 0 <= j < |rest| ensures Rank(s) < Rank(rest[j]) {
          assert rest[j] in rest;
          var i :| 0 <= i < |es[1..]| && KeysOf(es[1..])[i] == prefix + rest[j];
          assert Rank(es[0].key) < Rank(es[1 + i].key);
          assert (prefix + rest[j])[|prefix|..] == rest[j];
          SuffixOrder(prefix, es[0].key, prefix + rest[j]);
        }
        forall k ensures k in Suffixes(es, prefix) <==> prefix + k in KeysOf(es) {
          HeadOrTail(es, prefix + k);
          assert prefix + k == es[0].key ==> k == s by { assert (prefix + k)[|prefix|..] == k; }
        }
      } else {
        forall k ensures prefix + k !in KeysOf(es) {
          if prefix + k in KeysOf(es) {
            var i :| 0 <= i < |es| && KeysOf(es)[i] == prefix + k;
            assert i > 0;
            PrefixRange(prefix, prefix + k, es[0].key);
            assert false;
          }
        }
      }
    }
  }

  lemma HeadOrTail(es: seq<LeafEntry>, k: Key)
    requires es != []
    ensures k in KeysOf(es) <==> k == es[0].key || k in KeysOf(es[1..])
  {
    assert KeysOf(es) == [es[0].key] + KeysOf(es[1..]);
  }

  lemma {:induction false} SeekRowsAt(es: seq<LeafEntry>, prefix: Key, schema: TableSchema, table: map<Key, seq<byte>>,
                                      rows: map<Key, Row>)
    requires forall k :: k in Suffixes(es, prefix) ==> k in table && k in rows && DecodeRow(schema, table[k]) == rows[k]
    ensures SeekRows(es, prefix, schema, table) == RowsAt(Suffixes(es, prefix), rows)
  {
    hide DecodeRow;
    if es != [] && prefix <= es[0].key {
      var s := es[0].key[|prefix|..];
      assert Suffixes(es, prefix) == [s] + Suffixes(es[1..], prefix);
      assert s in Suffixes(es, prefix);
      SeekRowsAt(es[1..], prefix, schema, table, rows);
      assert RowsAt(Suffixes(es, prefix), rows) == [rows[s]] + RowsAt(Suffixes(es[1..], prefix), rows);
    }
  }

  /** In an index that agrees with the table, the keys with the encoding of `v` in front are those of the
      rows that have `v` in the column. */
  lemma IndexedKeys(schema: TableSchema, c: nat, m: map<Key, seq<byte>>, rows: map<Key, Row>, v: Value, k: Key)
    requires RowsOk(schema, rows) && c < |schema.columns| && schema.columns[c].notNull && IndexIs(schema, c, m, rows)
    requires Encodable(v) && forall k :: k in rows ==> Comparable(rows[k][c], v)
    ensures EncodeKey(v) + k in m <==> k in rows && rows[k][c] == v
  {
    hide EncodeKey, RowKey, CheckRow, IndexKey, EncodeCompositeKey, Rank;
    var x := EncodeKey(v) + k;
    if x in m {
      var k' :| k' in rows && x == IndexKey(schema, c, rows[k']);
      IndexKeyIs(schema, c, rows[k']);
      KeyEncodable(schema, rows[k'], c);
      CompositePrefix(rows[k'][c], k', v);
      assert x[|EncodeKey(v)|..] == k && (EncodeKey(v) + k')[|EncodeKey(v)|..] == k';
    }
    if k in rows && rows[k][c] == v {
      IndexKeyIs(schema, c, rows[k]);
    }
  }

  /** A table's tree, and the rows it holds. */
  ghost predicate Backs(schema: TableSchema, t: Rooted, rows: map<Key, Row>) {
    Sound(t.tree, t.height) && TableIs(ModelOf(t), rows) && RowsOk(schema, rows)
  }

  /** The rows that have the value, in primary key order, none left out. */
  ghost predicate AllWith(found: seq<Row>, t: Rooted, rows: map<Key, Row>, c: nat, v: Value) {
    && (forall k :: k in TableKeys(t) <==> k in rows) && (forall k :: k in rows ==> c < |rows[k]|)
    && found == RowsAt(KeysWith(TableKeys(t), rows, c, v), rows)
  }

  /** What a seek in an index finds. */
  ghost function IndexFinds(schema: TableSchema, t: Rooted, index: Rooted, prefix: Key): seq<Row> {
    var es := Flat(index.tree);
    SeekRows(es[PartitionPoint(es, prefix)..], prefix, schema, ModelOf(t))
  }

  /** What a seek in the table finds. */
  ghost function TableFinds(schema: TableSchema, t: Rooted, key: Key): seq<Row> {
    if key in ModelOf(t) then [DecodeRow(schema, ModelOf(t)[key])] else []
  }

  /** A seek in an index yields the rows that have the value, in primary key order, and misses none. */
  lemma IndexSeekYields(schema: TableSchema, c: nat, t: Rooted, index: Rooted, rows: map<Key, Row>, v: Value)
    requires Backs(schema, t, rows) && Sound(index.tree, index.height)
    requires c < |schema.columns| && schema.columns[c].notNull && IndexIs(schema, c, ModelOf(index), rows)
    requires v != Null && forall k :: k in rows ==> Comparable(rows[k][c], v)
    ensures AllWith(IndexFinds(schema, t, index, EncodeKey(v)), t, rows, c, v)
  {
    hide AllWith, Rank, KeyLess, MapOf, DecodeRow, EncodeRow, EncodeKey, RowKey, CheckRow, Flat, IndexIs, Sound,
      PartitionPoint, Sane, SeekRows, IndexFinds;
    if Encodable(v) {
      CleanSeekYields(schema, c, t, index, rows, v);
    } else {
      StraySeekYields(schema, c, t, index, rows, v);
    }
  }

  /** The literal has a zero byte, so no row has it, and none is found. */
  lemma StraySeekYields(schema: TableSchema, c: nat, t: Rooted, index: Rooted, rows: map<Key, Row>, v: Value)
    requires Backs(schema, t, rows) && Sound(index.tree, index.height)
    requires c < |schema.columns| && schema.columns[c].notNull && IndexIs(schema, c, ModelOf(index), rows)
    requires v != Null && !Encodable(v) && forall k :: k in rows ==> Comparable(rows[k][c], v)
    ensures AllWith(IndexFinds(schema, t, index, EncodeKey(v)), t, rows, c, v)
  {
    hide AllWith, Rank, KeyLess, MapOf, DecodeRow, EncodeRow, EncodeKey, RowKey, CheckRow, Flat, IndexIs, Sound,
      PartitionPoint, Sane, SeekRows, Encodable;
    KeysListed(t, rows);
    RowWidths(schema, rows);
    var es, prefix := Flat(index.tree), EncodeKey(v);
    SuffixSorted(index, prefix);
    var tail := es[PartitionPoint(es, prefix)..];
    SuffixesAre(tail, prefix);
    Decodable(schema, ModelOf(t), rows);
    forall k | k in Suffixes(tail, prefix) ensures k !in ModelOf(t) {
      TailKeys(index, prefix, k);
      StrayKey(schema, c, ModelOf(index), rows, v, k);
    }
    NothingSought(tail, prefix, schema, ModelOf(t));
    forall k | k in rows ensures rows[k][c] != v {
      KeyEncodable(schema, rows[k], c);
    }
    NoneWith(TableKeys(t), rows, c, v);
    AllWithIs([], t, rows, c, v);
  }

  lemma StrayKey(schema: TableSchema, c: nat, m: map<Key, seq<byte>>, rows: map<Key, Row>, v: Value, k: Key)
    requires RowsOk(schema, rows) && c < |schema.columns| && schema.columns[c].notNull && IndexIs(schema, c, m, rows)
    requires v != Null && !Encodable(v) && forall k :: k in rows ==> Comparable(rows[k][c], v)
    requires EncodeKey(v) + k in m
    ensures k !in rows
  {
    hide EncodeKey, CheckRow, IndexKey, EncodeCompositeKey, Rank, Encodable;
    var k' :| k' in rows && EncodeKey(v) + k == IndexKey(schema, c, rows[k']);
    IndexKeyIs(schema, c, rows[k']);
    KeyEncodable(schema, rows[k'], c);
    var pk := PrimaryKeyIndex(schema);
    KeyEncodable(schema, rows[k'], pk);
    if k in rows {
      KeyEncodable(schema, rows[k], pk);
      SameType(rows[k'][pk], rows[k][pk], schema.columns[pk].ty);
      StrayEntry(v, rows[k'][c], rows[k'][pk], rows[k][pk], k);
    }
  }

  lemma SameType(a: Value, b: Value, ty: ColumnType)
    requires Typed(a, ty) && Typed(b, ty) && a != Null && b != Null
    ensures Comparable(a, b)
  {
  }

  lemma {:induction false} NothingSought(es: seq<LeafEntry>, prefix: Key, schema: TableSchema,
                                         table: map<Key, seq<byte>>)
    requires forall k :: k in Suffixes(es, prefix) ==> k !in table
    ensures SeekRows(es, prefix, schema, table) == []
  {
    hide DecodeRow;
    if es != [] && prefix <= es[0].key {
      assert Suffixes(es, prefix) == [es[0].key[|prefix|..]] + Suffixes(es[1..], prefix);
      assert es[0].key[|prefix|..] in Suffixes(es, prefix);
      NothingSought(es[1..], prefix, schema, table);
    }
  }

  lemma {:induction false} NoneWith(keys: seq<Key>, rows: map<Key, Row>, c: nat, v: Value)
    requires forall i :: 0 <= i < |keys| ==> keys[i] in rows && c < |rows[keys[i]]| && rows[keys[i]][c] != v
    ensures KeysWith(keys, rows, c, v) == [] && RowsAt([], rows) == []
  {
    if keys != [] {
      NoneWith(keys[1..], rows, c, v);
    }
  }

  lemma CleanSeekYields(schema: TableSchema, c: nat, t: Rooted, index: Rooted, rows: map<Key, Row>, v: Value)
    requires Backs(schema, t, rows) && Sound(index.tree, index.height)
    requires c < |schema.columns| && schema.columns[c].notNull && IndexIs(schema, c, ModelOf(index), rows)
    requires Encodable(v) && forall k :: k in rows ==> Comparable(rows[k][c], v)
    ensures AllWith(IndexFinds(schema, t, index, EncodeKey(v)), t, rows, c, v)
  {
    hide AllWith, Rank, KeyLess, MapOf, DecodeRow, EncodeRow, EncodeKey, RowKey, CheckRow, Flat, IndexIs, Sound,
      PartitionPoint, Sane, SeekRows;
    KeysListed(t, rows);
    RowWidths(schema, rows);
    var es, prefix := Flat(index.tree), EncodeKey(v);
    SuffixSorted(index, prefix);
    var tail := es[PartitionPoint(es, prefix)..];
    SuffixesAre(tail, prefix);
    var a, b := Suffixes(tail, prefix), KeysWith(TableKeys(t), rows, c, v);
    SameKeys(schema, c, t, index, rows, v, a, b);
    Decodable(schema, ModelOf(t), rows);
    SeekRowsAt(tail, prefix, schema, ModelOf(t), rows);
    AllWithIs(SeekRows(tail, prefix, schema, ModelOf(t)), t, rows, c, v);
  }

  /** The suffixes found are the keys of the rows that have the value, in the same order. */
  lemma SameKeys(schema: TableSchema, c: nat, t: Rooted, index: Rooted, rows: map<Key, Row>, v: Value, a: seq<Key>,
                 b: seq<Key>)
    requires Backs(schema, t, rows) && Sound(index.tree, index.height)
    requires c < |schema.columns| && schema.columns[c].notNull && IndexIs(schema, c, ModelOf(index), rows)
    requires Encodable(v) && forall k :: k in rows ==> Comparable(rows[k][c], v)
    requires (forall k :: k in TableKeys(t) <==> k in rows) && Increasing(TableKeys(t))
    requires b == KeysWith(TableKeys(t), rows, c, v) && Increasing(a)
    requires var es, prefix := Flat(index.tree), EncodeKey(v);
             forall k :: k in a <==> prefix + k in KeysOf(es[PartitionPoint(es, prefix)..])
    ensures a == b
  {
    hide Rank, KeyLess, MapOf, DecodeRow, EncodeRow, EncodeKey, RowKey, CheckRow, Flat, IndexIs, Sound, PartitionPoint,
      TableIs, Sane;
    forall k ensures k in a <==> k in b {
      TailKeys(index, EncodeKey(v), k);
      IndexedKeys(schema, c, ModelOf(index), rows, v, k);
    }
    KeysWithIncreasing(TableKeys(t), rows, c, v);
    OneListing(a, b);
  }

  lemma RowWidths(schema: TableSchema, rows: map<Key, Row>)
    requires RowsOk(schema, rows)
    ensures forall k :: k in rows ==> |rows[k]| == |schema.columns|
  {
    hide CheckRow, RowKey;
  }

  lemma AllWithIs(found: seq<Row>, t: Rooted, rows: map<Key, Row>, c: nat, v: Value)
    requires (forall k :: k in TableKeys(t) <==> k in rows) && (forall k :: k in rows ==> c < |rows[k]|)
    requires found == RowsAt(KeysWith(TableKeys(t), rows, c, v), rows)
    ensures AllWith(found, t, rows, c, v)
  {
    hide TableKeys, RowsAt, KeysWith;
  }

  lemma TailKeys(index: Rooted, prefix: Key, k: Key)
    requires Sound(index.tree, index.height)
    ensures var es := Flat(index.tree);
            prefix + k in KeysOf(es[PartitionPoint(es, prefix)..]) <==> prefix + k in ModelOf(index)
  {
    hide Rank, KeyLess, MapOf, Flat, PartitionPoint;
    var es := Flat(index.tree);
    FlatSorted(index.tree, index.height, LOWEST, HIGHEST, 0);
    SeekModel(es, prefix);
    KeyListed(es[PartitionPoint(es, prefix)..], prefix + k);
    CommonPrefix(prefix, k, []);
    assert KeyLess(prefix + k, prefix) <==> Rank(prefix + k) < Rank(prefix);
  }

  // ----- Seeking in the table

  /** A seek by primary key yields the row that has it. */
  lemma TableSeekYields(schema: TableSchema, t: Rooted, rows: map<Key, Row>, v: Value)
    requires Backs(schema, t, rows) && v != Null
    requires forall k :: k in rows ==> Comparable(rows[k][PrimaryKeyIndex(schema)], v)
    ensures AllWith(TableFinds(schema, t, EncodeKey(v)), t, rows, PrimaryKeyIndex(schema), v)
  {
    hide AllWith, Rank, MapOf, DecodeRow, EncodeRow, EncodeKey, CheckRow, Flat, Sound, Sane;
    KeysListed(t, rows);
    RowWidths(schema, rows);
    var key, pk := EncodeKey(v), PrimaryKeyIndex(schema);
    var b := KeysWith(TableKeys(t), rows, pk, v);
    KeysWithIncreasing(TableKeys(t), rows, pk, v);
    forall k | k in rows ensures rows[k][pk] == v <==> k == key {
      KeyEncodable(schema, rows[k], pk);
      SameKey(rows[k][pk], v);
    }
    var a := if key in rows then [key] else [];
    OneListing(a, b);
    Decodable(schema, ModelOf(t), rows);
    AllWithIs(TableFinds(schema, t, key), t, rows, pk, v);
  }

  // ----- Literals of any type

  predicate OfType(v: Value, ty: ColumnType)
    requires IsLiteral(v)
  {
    match v
    case Integer(_) => ty.IntegerType?
    case Text(_) => ty.TextType?
    case Boolean(_) => ty.BooleanType?
  }

  /** A column holds values that may all be compared with a literal, or none that may. */
  lemma AllOrNone(schema: TableSchema, rows: map<Key, Row>, c: nat, v: Value)
    requires RowsOk(schema, rows) && c < |schema.columns| && schema.columns[c].notNull && IsLiteral(v)
    ensures forall k :: k in rows ==> c < |rows[k]| && Typed(rows[k][c], schema.columns[c].ty) && Encodable(rows[k][c])
    ensures forall k :: k in rows ==> (Comparable(rows[k][c], v) <==> OfType(v, schema.columns[c].ty))
  {
    hide CheckRow, RowKey;
    forall k | k in rows
      ensures c < |rows[k]| && Typed(rows[k][c], schema.columns[c].ty) && Encodable(rows[k][c])
      ensures Comparable(rows[k][c], v) <==> OfType(v, schema.columns[c].ty)
    {
      KeyEncodable(schema, rows[k], c);
    }
  }

  /** A literal that does not stray is followed by the keys of the rows that have it. */
  lemma FollowsMeans(schema: TableSchema, c: nat, rows: map<Key, Row>, v: Value, k: Key)
    requires RowsOk(schema, rows) && c < |schema.columns| && schema.columns[c].notNull && IsLiteral(v) && k in rows
    requires !Strays(v, schema.columns[c].ty, schema.columns[PrimaryKeyIndex(schema)].ty)
    ensures Follows(schema, c, rows, EncodeKey(v), k) <==> rows[k][c] == v
  {
    hide EncodeKey, CheckRow, RowKey, Strays, Encodable, IndexIs, Follows;
    var m := IndexModel(schema, c, rows, EncodeKey(v), k);
    AllOrNone(schema, rows, c, v);
    if !OfType(v, schema.columns[c].ty) {
      if EncodeKey(v) + k in m {
        NoStray(schema, c, m, rows, v, k);
      }
    } else if Encodable(v) {
      IndexedKeys(schema, c, m, rows, v, k);
    } else if EncodeKey(v) + k in m {
      StrayKey(schema, c, m, rows, v, k);
    }
  }

  lemma IndexModel(schema: TableSchema, c: nat, rows: map<Key, Row>, prefix: Key, k: Key)
    returns (m: map<Key, seq<byte>>)
    requires RowsOk(schema, rows) && c < |schema.columns| && schema.columns[c].notNull
    ensures IndexIs(schema, c, m, rows) && (Follows(schema, c, rows, prefix, k) <==> prefix + k in m)
  {
    hide EncodeKey, CheckRow, IndexKey, RowKey;
    var ks := set k | k in rows :: IndexKey(schema, c, rows[k]);
    m := map x | x in ks :: [];
  }

  /** And one that does not clash is the key of the row that has it. */
  lemma KeyMeans(schema: TableSchema, rows: map<Key, Row>, v: Value, k: Key)
    requires RowsOk(schema, rows) && IsLiteral(v) && k in rows
    requires !Clashes(v, schema.columns[PrimaryKeyIndex(schema)].ty)
    ensures k == EncodeKey(v) <==> rows[k][PrimaryKeyIndex(schema)] == v
  {
    hide EncodeKey, CheckRow, Clashes;
    var pk := PrimaryKeyIndex(schema);
    AllOrNone(schema, rows, pk, v);
    if k == EncodeKey(v) && rows[k][pk] != v {
      ConfusedClashes(v, schema.columns[pk].ty, rows[k][pk]);
    }
  }

  lemma NoStray(schema: TableSchema, c: nat, m: map<Key, seq<byte>>, rows: map<Key, Row>, v: Value, k: Key)
    requires RowsOk(schema, rows) && c < |schema.columns| && schema.columns[c].notNull && IndexIs(schema, c, m, rows)
    requires IsLiteral(v) && !OfType(v, schema.columns[c].ty)
    requires !Strays(v, schema.columns[c].ty, schema.columns[PrimaryKeyIndex(schema)].ty)
    requires EncodeKey(v) + k in m
    ensures k !in rows
  {
    hide EncodeKey, CheckRow, IndexKey, EncodeCompositeKey, Rank, Encodable, Strays;
    var k' :| k' in rows && EncodeKey(v) + k == IndexKey(schema, c, rows[k']);
    IndexKeyIs(schema, c, rows[k']);
    var pk := PrimaryKeyIndex(schema);
    AllOrNone(schema, rows, c, v);
    KeyEncodable(schema, rows[k'], pk);
    if k in rows {
      KeyEncodable(schema, rows[k], pk);
      assert Strayed(v, schema.columns[c].ty, schema.columns[pk].ty, rows[k'][c], rows[k'][pk], rows[k][pk]);
      StrayedStrays(v, schema.columns[c].ty, schema.columns[pk].ty, rows[k'][c], rows[k'][pk], rows[k][pk]);
    }
  }

  // ----- Whatever is sought, rows of the table are found

  /** The entries may have any suffixes: those that are keys of the table give its rows. */
  lemma {:induction false} SeekFromTable(es: seq<LeafEntry>, prefix: Key, schema: TableSchema,
                                         table: map<Key, seq<byte>>, rows: map<Key, Row>) returns (found: seq<Key>)
    requires Increasing(Suffixes(es, prefix))
    requires table.Keys == rows.Keys && forall k :: k in rows ==> DecodeRow(schema, table[k]) == rows[k]
    ensures Listed(SeekRows(es, prefix, schema, table), found, rows)
    ensures forall k :: k in found <==> k in Suffixes(es, prefix) && k in rows
  {
    hide DecodeRow, Rank, Increasing;
    var keys := Suffixes(es, prefix);
    if keys == [] {
      found := [];
    } else {
      TailIncreasing(keys);
      assert keys[1..] == Suffixes(es[1..], prefix);
      var rest := SeekFromTable(es[1..], prefix, schema, table, rows);
      var k := keys[0];
      found := if k in table then [k] + rest else rest;
      Sifted(keys, rest, rows.Keys);
      if k in table {
        Prepended(keys, rest);
        RowsAtNext(k, rest, rows);
      }
    }
  }

  lemma RowsAtNext(k: Key, rest: seq<Key>, rows: map<Key, Row>)
    requires k in rows && forall i :: 0 <= i < |rest| ==> rest[i] in rows
    ensures (forall i :: 0 <= i < |[k] + rest| ==> ([k] + rest)[i] in rows)
    ensures RowsAt([k] + rest, rows) == [rows[k]] + RowsAt(rest, rows)
  {
  }

  lemma Sifted(keys: seq<Key>, rest: seq<Key>, of: set<Key>)
    requires keys != [] && forall k :: k in rest <==> k in keys[1..] && k in of
    ensures forall k :: k in (if keys[0] in of then [keys[0]] + rest else rest) <==> k in keys && k in of
  {
    assert keys == [keys[0]] + keys[1..];
  }

  lemma Decodable(schema: TableSchema, table: map<Key, seq<byte>>, rows: map<Key, Row>)
    requires TableIs(table, rows) && RowsOk(schema, rows)
    ensures table.Keys == rows.Keys && forall k :: k in rows ==> DecodeRow(schema, table[k]) == rows[k]
  {
    hide DecodeRow, EncodeRow, RowKey, CheckRow;
    forall k | k in rows ensures DecodeRow(schema, table[k]) == rows[k] {
      RowRoundTrip(schema, rows[k]);
    }
  }

  /** In the index the prefix is followed by the primary key. */
  ghost predicate Follows(schema: TableSchema, c: nat, rows: map<Key, Row>, prefix: Key, k: Key)
    requires RowsOk(schema, rows) && c < |schema.columns| && schema.columns[c].notNull
  {
    exists k' :: k' in rows && IndexKey(schema, c, rows[k']) == prefix + k
  }

  lemma IndexSeekFromTable(schema: TableSchema, c: nat, t: Rooted, index: Rooted, rows: map<Key, Row>, prefix: Key)
    returns (found: seq<Key>)
    requires TableIs(ModelOf(t), rows) && RowsOk(schema, rows) && Sound(index.tree, index.height)
    requires c < |schema.columns| && schema.columns[c].notNull && IndexIs(schema, c, ModelOf(index), rows)
    ensures Listed(IndexFinds(schema, t, index, prefix), found, rows)
    ensures forall k :: k in found <==> k in rows && Follows(schema, c, rows, prefix, k)
  {
    hide Rank, KeyLess, MapOf, Flat, PartitionPoint, Sound, DecodeRow, TableIs, RowsOk, IndexKey;
    var es := Flat(index.tree);
    SuffixSorted(index, prefix);
    SuffixesAre(es[PartitionPoint(es, prefix)..], prefix);
    Decodable(schema, ModelOf(t), rows);
    found := SeekFromTable(es[PartitionPoint(es, prefix)..], prefix, schema, ModelOf(t), rows);
    forall k ensures k in found <==> k in rows && Follows(schema, c, rows, prefix, k) {
      TailKeys(index, prefix, k);
    }
  }

  lemma TableSeekFromTable(schema: TableSchema, t: Rooted, rows: map<Key, Row>, key: Key)
    requires TableIs(ModelOf(t), rows) && RowsOk(schema, rows)
    ensures Listed(TableFinds(schema, t, key), if key in rows then [key] else [], rows)
  {
    hide MapOf, DecodeRow, TableIs, RowsOk;
    Decodable(schema, ModelOf(t), rows);
  }

  lemma ScanFromTable(schema: TableSchema, t: Rooted, rows: map<Key, Row>)
    requires Sound(t.tree, t.height) && TableIs(ModelOf(t), rows) && RowsOk(schema, rows)
    ensures Listed(DecodedRows(Flat(t.tree), schema), TableKeys(t), rows)
    ensures forall k :: k in TableKeys(t) <==> k in rows
  {
    hide MapOf, DecodeRow, TableIs, RowsOk, Sound;
    ScanYields(schema, t, rows);
    KeysListed(t, rows);
  }

  /** The rows whose index keys begin with the encoding of a string literal: those that hold the string, and, when the
      literal has a zero byte, those that hold the part before it and whose primary keys go on with the rest. */
  lemma SeekMatches(s: seq<byte>, x: seq<byte>, k: Key)
    requires 0 !in x
    ensures EncodeKey(Text(s)) <= EncodeKey(Text(x)) + k <==> s == x || (x + [0] <= s && s[|x| + 1..] + [0] <= k)
  {
    if |s| < |x| {
      EndsTooSoon(s, x, k);
    } else if |s| == |x| {
      SameLength(s, x, k);
    } else {
      LongerSeek(s, x, k);
    }
  }

  lemma EndsTooSoon(s: seq<byte>, x: seq<byte>, k: Key)
    requires 0 !in x && |s| < |x|
    ensures !(s + [0] <= x + [0] + k)
  {
    assert (x + [0] + k)[|s|] == x[|s|] && x[|s|] in x;
    assert (s + [0])[|s|] == 0;
  }

  lemma SameLength(s: seq<byte>, x: seq<byte>, k: Key)
    requires |s| == |x|
    ensures s + [0] <= x + [0] + k <==> s == x
  {
    assert (x + [0] + k)[..|s| + 1] == x + [0];
    assert (s + [0])[..|s|] == s && (x + [0])[..|s|] == x;
  }

  lemma LongerSeek(s: seq<byte>, x: seq<byte>, k: Key)
    requires |s| > |x|
    ensures s + [0] <= x + [0] + k <==> x + [0] <= s && s[|x| + 1..] + [0] <= k
  {
    var a, b, n := s + [0], x + [0] + k, |x| + 1;
    assert a == s[..n] + (s[n..] + [0]);
    assert b[..n] == x + [0] && b[n..] == k && a[..n] == s[..n] && a[n..] == s[n..] + [0];
    if a <= b {
      assert s[..n] == a[..n] == b[..n];
      assert a[n..] == b[n..|a|] == k[..|a| - n];
    }
    if x + [0] <= s && s[n..] + [0] <= k {
      assert b[..|a|] == x + [0] + k[..|a| - n];
    }
  }

  /** An entry that a literal with a zero byte finds, and that belongs to a row with another value, leads nowhere: what
      is left of its key is no primary key.  So the row is not found, although the equality is not checked again. */
  lemma StrayEntry(v: Value, u: Value, w: Value, w': Value, k: Key)
    requires v != Null && Comparable(v, u) && !Encodable(v) && Encodable(u)
    requires Encodable(w) && Encodable(w') && Comparable(w, w')
    requires EncodeKey(v) + k == EncodeKey(u) + EncodeKey(w)
    ensures k != EncodeKey(w')
  {
    match (v, u) {
      case (Text(s), Text(x)) => StrayText(s, x, w, w', k);
      case (Json(s), Json(x)) => StrayText(s, x, w, w', k);
    }
  }

  lemma StrayText(s: seq<byte>, x: seq<byte>, w: Value, w': Value, k: Key)
    requires 0 in s && 0 !in x && Encodable(w) && Encodable(w') && Comparable(w, w')
    requires s + [0] + k == x + [0] + EncodeKey(w)
    ensures k != EncodeKey(w')
  {
    hide BigEndian;
    assert EncodeKey(Text(s)) <= EncodeKey(Text(x)) + EncodeKey(w) by { assert s + [0] <= s + [0] + k; }
    SeekMatches(s, x, EncodeKey(w));
    var rest := s[|x| + 1..];
    KeyLeft(x, s, rest, w, k);
    RestOfKey(rest, w, w', k);
  }

  /** What follows the first zero byte in a key is no key of the type. */
  lemma RestOfKey(rest: seq<byte>, w: Value, w': Value, k: Key)
    requires Encodable(w) && Encodable(w') && Comparable(w, w') && EncodeKey(w) == rest + [0] + k
    ensures k != EncodeKey(w')
  {
    hide BigEndian;
    assert EncodeKey(w)[|rest|] == 0;
    assert |EncodeKey(w)| == |rest| + 1 + |k|;
  }

  lemma KeyLeft(x: seq<byte>, s: seq<byte>, rest: seq<byte>, w: Value, k: Key)
    requires w != Null && x + [0] <= s && rest == s[|x| + 1..] && s + [0] + k == x + [0] + EncodeKey(w)
    ensures EncodeKey(w) == rest + [0] + k
  {
    assert s == x + [0] + rest;
    assert x + [0] + EncodeKey(w) == x + [0] + (rest + [0] + k);
    assert (x + [0] + EncodeKey(w))[|x| + 1..] == EncodeKey(w);
    assert (x + [0] + (rest + [0] + k))[|x| + 1..] == rest + [0] + k;
  }
}
