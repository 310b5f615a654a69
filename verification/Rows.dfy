/** Table schemas, and rows as bytes. */
module Rows {
  import opened Bytes
  import opened Storage
  import opened Values

  datatype ColumnType = IntegerType | TextType | BooleanType | JsonType

  datatype Column = Column(name: string, ty: ColumnType, notNull: bool, isPrimaryKey: bool)

  datatype TableSchema = TableSchema(name: string, columns: seq<Column>, rootPage: PageNo, rlsEnabled: bool)

  datatype IndexSchema = IndexSchema(name: string, table: string, column: string, rootPage: PageNo)

  type Row = seq<Value>

  const MAX_TEXT := 65535

  /** The position of the first column with a name, or the number of columns. */
  function FindColumn(columns: seq<Column>, name: string): (i: nat)
    ensures i <= |columns|
    ensures i < |columns| ==> columns[i].name == name
    ensures forall j :: 0 <= j < i ==> columns[j].name != name
  {
    if columns == [] || columns[0].name == name then 0 else 1 + FindColumn(columns[1..], name)
  }

  function FindPrimaryKey(columns: seq<Column>): (i: nat)
    ensures i <= |columns|
    ensures i < |columns| ==> columns[i].isPrimaryKey
    ensures forall j :: 0 <= j < i ==> !columns[j].isPrimaryKey
  {
    if columns == [] || columns[0].isPrimaryKey then 0 else 1 + FindPrimaryKey(columns[1..])
  }

  /** Schemas have a primary key, without which looking for it panics. */
  predicate HasPrimaryKey(schema: TableSchema) {
    FindPrimaryKey(schema.columns) < |schema.columns|
  }

  function PrimaryKeyIndex(schema: TableSchema): (i: nat)
    requires HasPrimaryKey(schema)
    ensures i < |schema.columns| && schema.columns[i].isPrimaryKey
    ensures forall j :: 0 <= j < i ==> !schema.columns[j].isPrimaryKey
  {
    FindPrimaryKey(schema.columns)
  }

  predicate Typed(v: Value, ty: ColumnType) {
    match v
    case Null => true
    case Integer(_) => ty.IntegerType?
    case Text(s) => ty.TextType? && |s| <= MAX_TEXT
    case Boolean(_) => ty.BooleanType?
    case Json(s) => ty.JsonType? && |s| <= MAX_TEXT
  }

  predicate RowTyped(schema: TableSchema, row: Row) {
    |row| == |schema.columns| && forall i :: 0 <= i < |row| ==> Typed(row[i], schema.columns[i].ty)
  }

  // ----- Numbers and bits

  function LittleEndian(v: nat, n: nat): (r: seq<byte>)
    ensures |r| == n
  {
    if n == 0 then [] else [v % 256] + LittleEndian(v / 256, n - 1)
  }

  function FromLittleEndian(s: seq<byte>): nat {
    if s == [] then 0 else s[0] as int + 256 * FromLittleEndian(s[1..])
  }

  lemma {:induction false} LittleEndianRoundTrip(v: nat, n: nat)
    requires v < Pow256(n)
    ensures FromLittleEndian(LittleEndian(v, n)) == v
  {
    if n > 0 {
      LittleEndianRoundTrip(v / 256, n - 1);
      assert LittleEndian(v, n)[1..] == LittleEndian(v / 256, n - 1);
    }
  }

  /** The first bit is the lowest. */
  function FromBits(bits: seq<bool>): nat {
    if bits == [] then 0 else (if bits[0] then 1 else 0) + 2 * FromBits(bits[1..])
  }

  function Bit(b: nat, j: nat): bool {
    if j == 0 then b % 2 == 1 else Bit(b / 2, j - 1)
  }

  lemma {:induction false} BitRoundTrip(bits: seq<bool>, j: nat)
    requires j < |bits|
    ensures Bit(FromBits(bits), j) == bits[j]
  {
    if j > 0 {
      BitRoundTrip(bits[1..], j - 1);
    }
  }

  lemma {:induction false} EightBits(bits: seq<bool>)
    requires |bits| <= 8
    ensures FromBits(bits) < 256
  {
    BitsBound(bits, 8);
  }

  lemma {:induction false} BitsBound(bits: seq<bool>, n: nat)
    requires |bits| <= n <= 8
    ensures FromBits(bits) < [1, 2, 4, 8, 16, 32, 64, 128, 256][n]
  {
    if bits != [] {
      BitsBound(bits[1..], n - 1);
    }
  }

  // ----- Rows as bytes

  /** Whether columns `from` to `from + 8` of a row are null. */
  function NullBits(row: Row, from: nat): (r: seq<bool>)
    ensures |r| == 8
    ensures forall j :: 0 <= j < 8 ==> r[j] == (from + j < |row| && row[from + j] == Null)
  {
    seq(8, j requires 0 <= j < 8 => from + j < |row| && row[from + j] == Null)
  }

  function NullByte(row: Row, from: nat): byte {
    EightBits(NullBits(row, from));
    FromBits(NullBits(row, from))
  }

  function Bitmap(row: Row): (r: seq<byte>)
    ensures |r| == (|row| + 7) / 8
  {
    seq((|row| + 7) / 8, k requires 0 <= k < (|row| + 7) / 8 => NullByte(row, 8 * k))
  }

  function EncodeValue(v: Value): seq<byte> {
    match v
    case Null => []
    case Integer(i) => LittleEndian(if i < 0 then i + 0x1_0000_0000_0000_0000 else i, 8)
    case Boolean(b) => [if b then 1 else 0]
    case Text(s) => LittleEndian(|s|, 2) + s
    case Json(s) => LittleEndian(|s|, 2) + s
  }

  function EncodeValues(row: Row): seq<byte> {
    if row == [] then [] else EncodeValue(row[0]) + EncodeValues(row[1..])
  }

  function EncodeRow(row: Row): seq<byte> {
    Bitmap(row) + EncodeValues(row)
  }

  /** One value of a type from the front of the data, and how many bytes it took. */
  function DecodeValue(ty: ColumnType, data: seq<byte>): (r: (Value, nat))
    ensures r.1 <= |data|
  {
    match ty
    case IntegerType =>
      if |data| < 8 then (Null, |data|) else
        var v := FromLittleEndian(data[..8]);
        (Integer(if v < 0x8000_0000_0000_0000 then v
                 else if v < 0x1_0000_0000_0000_0000 then v - 0x1_0000_0000_0000_0000 else 0), 8)
    case BooleanType => if |data| < 1 then (Null, 0) else (Boolean(data[0] != 0), 1)
    case TextType =>
      if |data| < 2 || |data| < 2 + FromLittleEndian(data[..2]) then (Null, 0) else
        var n := FromLittleEndian(data[..2]);
        (Text(data[2..2 + n]), 2 + n)
    case JsonType =>
      if |data| < 2 || |data| < 2 + FromLittleEndian(data[..2]) then (Null, 0) else
        var n := FromLittleEndian(data[..2]);
        (Json(data[2..2 + n]), 2 + n)
  }

  /** Columns from `i` on, given the null bitmap. */
  function DecodeValues(columns: seq<Column>, i: nat, bitmap: seq<byte>, data: seq<byte>): Row
    requires i <= |columns|
    decreases |columns| - i
  {
    if i == |columns| then []
    else if i / 8 < |bitmap| && Bit(bitmap[i / 8], i % 8) then [Null] + DecodeValues(columns, i + 1, bitmap, data)
    else
      var (v, n) := DecodeValue(columns[i].ty, data);
      [v] + DecodeValues(columns, i + 1, bitmap, data[n..])
  }

  function DecodeRow(schema: TableSchema, data: seq<byte>): Row {
    var n := (|schema.columns| + 7) / 8;
    if |data| < n then [] else DecodeValues(schema.columns, 0, data[..n], data[n..])
  }

  lemma DecodeOne(v: Value, ty: ColumnType, rest: seq<byte>)
    requires Typed(v, ty) && v != Null
    ensures DecodeValue(ty, EncodeValue(v) + rest) == (v, |EncodeValue(v)|)
  {
    var data := EncodeValue(v) + rest;
    match v {
      case Integer(i) =>
        Pow256Of8();
        LittleEndianRoundTrip(if i < 0 then i + 0x1_0000_0000_0000_0000 else i, 8);
        assert data[..8] == EncodeValue(v);
      case Boolean(_) =>
      case Text(s) => DecodeText(s, data, rest);
      case Json(s) => DecodeText(s, data, rest);
    }
  }

  lemma DecodeText(s: seq<byte>, data: seq<byte>, rest: seq<byte>)
    requires |s| <= MAX_TEXT && data == LittleEndian(|s|, 2) + s + rest
    ensures FromLittleEndian(data[..2]) == |s| && data[2..2 + |s|] == s
  {
    assert Pow256(2) == 0x1_0000;
    LittleEndianRoundTrip(|s|, 2);
    assert data[..2] == LittleEndian(|s|, 2);
  }

  lemma NullInBitmap(row: Row, i: nat)
    requires i < |row|
    ensures i / 8 < |Bitmap(row)| && (Bit(Bitmap(row)[i / 8], i % 8) <==> row[i] == Null)
  {
    hide FromBits, Bit, NullBits;
    var k := i / 8;
    assert 8 * k + i % 8 == i;
    assert Bitmap(row)[k] == NullByte(row, 8 * k) == FromBits(NullBits(row, 8 * k));
    BitRoundTrip(NullBits(row, 8 * k), i % 8);
  }

  lemma {:induction false} DecodeFrom(schema: TableSchema, row: Row, i: nat)
    requires RowTyped(schema, row) && i <= |row|
    ensures DecodeValues(schema.columns, i, Bitmap(row), EncodeValues(row[i..])) == row[i..]
    decreases |row| - i
  {
    hide Bitmap, Bit, EncodeValue, DecodeValue;
    if i < |row| {
      NullInBitmap(row, i);
      DecodeFrom(schema, row, i + 1);
      assert row[i..][1..] == row[i + 1..] && row[i..] == [row[i]] + row[i + 1..];
      var data := EncodeValues(row[i..]);
      assert data == EncodeValue(row[i]) + EncodeValues(row[i + 1..]);
      if row[i] == Null {
        NullIsEmpty();
        assert data == EncodeValues(row[i + 1..]);
      } else {
        DecodeOne(row[i], schema.columns[i].ty, EncodeValues(row[i + 1..]));
        assert data[|EncodeValue(row[i])|..] == EncodeValues(row[i + 1..]);
      }
    }
  }

  lemma NullIsEmpty()
    ensures EncodeValue(Null) == []
  {
  }

  /** What is stored for a row is read back as that row. */
  lemma RowRoundTrip(schema: TableSchema, row: Row)
    requires RowTyped(schema, row)
    ensures DecodeRow(schema, EncodeRow(row)) == row
  {
    hide Bitmap, EncodeValues, DecodeValues;
    DecodeFrom(schema, row, 0);
    var data, n := EncodeRow(row), (|row| + 7) / 8;
    assert row[0..] == row && data[..n] == Bitmap(row) && data[n..] == EncodeValues(row);
  }

  lemma {:induction false} DecodedTyped(columns: seq<Column>, i: nat, bitmap: seq<byte>, data: seq<byte>)
    requires i <= |columns|
    ensures var row := DecodeValues(columns, i, bitmap, data);
            |row| == |columns| - i && forall j :: 0 <= j < |row| ==> Typed(row[j], columns[i + j].ty)
    decreases |columns| - i
  {
    if i < |columns| {
      if i / 8 < |bitmap| && Bit(bitmap[i / 8], i % 8) {
        DecodedTyped(columns, i + 1, bitmap, data);
      } else {
        var (v, n) := DecodeValue(columns[i].ty, data);
        DecodedTyped(columns, i + 1, bitmap, data[n..]);
        ValueTyped(columns[i].ty, data);
      }
    }
  }

  lemma ValueTyped(ty: ColumnType, data: seq<byte>)
    ensures Typed(DecodeValue(ty, data).0, ty)
  {
    if |data| >= 2 {
      assert data[..2][1..] == [data[1]] && [data[1]][1..] == [];
      assert FromLittleEndian(data[..2]) == data[0] + 256 * FromLittleEndian([data[1]]);
      assert FromLittleEndian([data[1]]) == data[1];
    }
  }

  /** A row is read back as it was exactly when its values have the types of the columns; the writer does not check. */
  lemma RoundTripExactly(schema: TableSchema, row: Row)
    requires |row| == |schema.columns|
    ensures DecodeRow(schema, EncodeRow(row)) == row <==> RowTyped(schema, row)
  {
    hide EncodeValues, DecodeValues, Typed;
    if RowTyped(schema, row) {
      RowRoundTrip(schema, row);
    }
    var data, n := EncodeRow(row), (|row| + 7) / 8;
    DecodedTyped(schema.columns, 0, data[..n], data[n..]);
  }
}
