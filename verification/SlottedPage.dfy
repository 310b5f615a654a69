/** Nodes as bytes: a header, an array of slots that grows up, and cells that grow down. */
module SlottedPages {
  import opened Bytes
  import opened Storage

  const PAGE_TYPE_INTERNAL: byte := 1
  const PAGE_TYPE_LEAF: byte := 2

  // ----- Numbers

  function U16(v: nat): (r: seq<byte>)
    ensures |r| == 2
  {
    [v / 256 % 256, v % 256]
  }

  function U32(v: nat): (r: seq<byte>)
    ensures |r| == 4
  {
    [v / 0x100_0000 % 256, v / 0x1_0000 % 256, v / 256 % 256, v % 256]
  }

  function ReadU16(s: seq<byte>, offset: nat): nat
    requires offset + 2 <= |s|
  {
    s[offset] as int * 256 + s[offset + 1] as int
  }

  function ReadU32(s: seq<byte>, offset: nat): nat
    requires offset + 4 <= |s|
  {
    s[offset] as int * 0x100_0000 + s[offset + 1] as int * 0x1_0000 + s[offset + 2] as int * 256 + s[offset + 3] as int
  }

  lemma U16RoundTrip(s: seq<byte>, offset: nat, v: nat)
    requires offset + 2 <= |s| && v < 0x1_0000 && s[offset..offset + 2] == U16(v)
    ensures ReadU16(s, offset) == v
  {
    assert s[offset] == s[offset..offset + 2][0] && s[offset + 1] == s[offset..offset + 2][1];
  }

  lemma U32RoundTrip(s: seq<byte>, offset: nat, v: nat)
    requires offset + 4 <= |s| && v < 0x1_0000_0000 && s[offset..offset + 4] == U32(v)
    ensures ReadU32(s, offset) == v
  {
    var b := s[offset..offset + 4];
    assert s[offset] == b[0] && s[offset + 1] == b[1] && s[offset + 2] == b[2] && s[offset + 3] == b[3];
    Base256(v);
  }

  lemma Base256(v: nat)
    requires v < 0x1_0000_0000
    ensures v / 0x100_0000 % 256 * 0x100_0000 + v / 0x1_0000 % 256 * 0x1_0000 + v / 256 % 256 * 256 + v % 256 == v
  {
    var a := v / 256;
    var b := v / 0x1_0000;
    var c := v / 0x100_0000;
    assert a / 256 == b && b / 256 == c && c < 256;
  }

  // ----- Writing into a page

  /** `s` with the bytes from `offset` on replaced by `b`. */
  function Splice(s: seq<byte>, offset: nat, b: seq<byte>): (r: seq<byte>)
    requires offset + |b| <= |s|
    ensures |r| == |s|
    ensures r[offset..offset + |b|] == b
    ensures forall i, j :: 0 <= i <= j <= offset ==> r[i..j] == s[i..j]
    ensures forall i, j :: offset + |b| <= i <= j <= |s| ==> r[i..j] == s[i..j]
  {
    s[..offset] + b + s[offset + |b|..]
  }

  lemma SpliceTwice(s: seq<byte>, offset: nat, a: seq<byte>, b: seq<byte>)
    requires offset + |a| + |b| <= |s|
    ensures Splice(Splice(s, offset, a), offset + |a|, b) == Splice(s, offset, a + b)
  {
  }

  method WriteBytes(page: array<byte>, offset: nat, bytes: seq<byte>)
    requires page.Length == PAGE_SIZE
    requires offset + |bytes| <= PAGE_SIZE
    modifies page
    ensures page[..] == Splice(old(page[..]), offset, bytes)
  {
    var i := 0;
    while i < |bytes|
      invariant 0 <= i <= |bytes|
      invariant forall k :: 0 <= k < PAGE_SIZE ==>
                  page[k] == if offset <= k < offset + i then bytes[k - offset] else old(page[k])
    {
      page[offset + i] := bytes[i];
      i := i + 1;
    }
    var s, r := old(page[..]), page[..];
    assert forall k :: 0 <= k < PAGE_SIZE ==> r[k] == Splice(s, offset, bytes)[k];
  }

  // ----- Cells and where they go

  function LeafCell(e: LeafEntry): seq<byte> {
    U16(|e.key|) + e.key + U16(|e.payload|) + e.payload
  }

  function InternalCell(e: InternalEntry): seq<byte> {
    U16(|e.key|) + e.key + U32(e.leftChild)
  }

  function LeafCellsOf(es: seq<LeafEntry>): (r: seq<seq<byte>>)
    ensures |r| == |es| && forall i :: 0 <= i < |r| ==> r[i] == LeafCell(es[i])
  {
    seq(|es|, i requires 0 <= i < |es| => LeafCell(es[i]))
  }

  function InternalCellsOf(es: seq<InternalEntry>): (r: seq<seq<byte>>)
    ensures |r| == |es| && forall i :: 0 <= i < |r| ==> r[i] == InternalCell(es[i])
  {
    seq(|es|, i requires 0 <= i < |es| => InternalCell(es[i]))
  }

  /** Where the cell area starts once the given cells are in it; negative if they are too many. */
  function Start(cells: seq<seq<byte>>): int {
    if cells == [] then PAGE_SIZE else Start(cells[..|cells| - 1]) - |cells[|cells| - 1]|
  }

  lemma {:induction false} StartOrder(cells: seq<seq<byte>>, i: nat, j: nat)
    requires i <= j <= |cells|
    ensures Start(cells[..j]) <= Start(cells[..i]) <= PAGE_SIZE
    decreases j
  {
    if j > 0 {
      assert cells[..j][..j - 1] == cells[..j - 1];
      StartOrder(cells, if i < j then i else i - 1, j - 1);
    }
  }

  lemma StartStep(cells: seq<seq<byte>>, i: nat)
    requires i < |cells|
    ensures Start(cells[..i + 1]) == Start(cells[..i]) - |cells[i]|
  {
    assert cells[..i + 1][..i] == cells[..i];
  }

  /** A node fits its page exactly when its lowest cell stays clear of its slots. */
  lemma LeafStart(es: seq<LeafEntry>, next: PageNo)
    ensures Start(LeafCellsOf(es)) - (NODE_HEADER_SIZE + 2 * |es|) == PAGE_SIZE - EncodedSize(LeafPage(es, next))
  {
    LeafStartCells(es);
  }

  lemma {:induction false} LeafStartCells(es: seq<LeafEntry>)
    ensures Start(LeafCellsOf(es)) == PAGE_SIZE - LeafCells(es)
  {
    if es != [] {
      LeafStartCells(es[..|es| - 1]);
      assert LeafCellsOf(es)[..|es| - 1] == LeafCellsOf(es[..|es| - 1]);
    }
  }

  lemma InternalStart(es: seq<InternalEntry>, last: PageNo)
    ensures Start(InternalCellsOf(es)) - (NODE_HEADER_SIZE + 2 * |es|)
            == PAGE_SIZE - EncodedSize(InternalPage(es, last))
  {
    InternalStartCells(es);
  }

  lemma {:induction false} InternalStartCells(es: seq<InternalEntry>)
    ensures Start(InternalCellsOf(es)) == PAGE_SIZE - InternalCells(es)
  {
    if es != [] {
      InternalStartCells(es[..|es| - 1]);
      assert InternalCellsOf(es)[..|es| - 1] == InternalCellsOf(es[..|es| - 1]);
    }
  }

  // ----- The layout of a page

  predicate HeaderIs(s: seq<byte>, kind: byte, count: nat, link: PageNo)
    requires |s| == PAGE_SIZE
  {
    s[0..1] == [kind] && s[2..4] == U16(count) && s[8..12] == U32(link)
  }

  /** Slot `i` holds an offset, and cell `i` is there. */
  predicate CellIs(s: seq<byte>, i: nat, offset: int, cell: seq<byte>)
    requires |s| == PAGE_SIZE && NODE_HEADER_SIZE + 2 * i + 2 <= PAGE_SIZE
  {
    && 0 <= offset && offset + |cell| <= PAGE_SIZE
    && s[NODE_HEADER_SIZE + 2 * i..NODE_HEADER_SIZE + 2 * i + 2] == U16(offset)
    && s[offset..offset + |cell|] == cell
  }

  predicate CellsAre(s: seq<byte>, cells: seq<seq<byte>>, n: nat)
    requires |s| == PAGE_SIZE && n <= |cells| && NODE_HEADER_SIZE + 2 * |cells| <= PAGE_SIZE
  {
    forall i :: 0 <= i < n ==> CellIs(s, i, Start(cells[..i + 1]), cells[i])
  }

  /** The bytes of a node: header, slots and cells. */
  predicate Layout(s: seq<byte>, kind: byte, cells: seq<seq<byte>>, link: PageNo) {
    && |s| == PAGE_SIZE && NODE_HEADER_SIZE + 2 * |cells| <= PAGE_SIZE
    && HeaderIs(s, kind, |cells|, link) && CellsAre(s, cells, |cells|)
  }

  /** Slots and cells of one page never overlap: a cell lies above all slots and below the cells before it. */
  lemma Disjoint(cells: seq<seq<byte>>, i: nat, j: nat)
    requires i < j < |cells| && NODE_HEADER_SIZE + 2 * |cells| <= Start(cells)
    ensures NODE_HEADER_SIZE + 2 * |cells| <= Start(cells[..j + 1])
    ensures Start(cells[..j + 1]) + |cells[j]| <= Start(cells[..i + 1])
    ensures Start(cells[..i + 1]) + |cells[i]| <= PAGE_SIZE
  {
    assert cells[..|cells|] == cells;
    StartOrder(cells, j + 1, |cells|);
    StartStep(cells, j);
    StartStep(cells, i);
    StartOrder(cells, i + 1, j);
    StartOrder(cells, 0, i);
  }

  /** One more cell and its slot. */
  lemma AddCell(s: seq<byte>, kind: byte, cells: seq<seq<byte>>, i: nat, link: PageNo)
    requires |s| == PAGE_SIZE && i < |cells| && NODE_HEADER_SIZE + 2 * |cells| <= PAGE_SIZE
    requires NODE_HEADER_SIZE + 2 * |cells| <= Start(cells)
    requires HeaderIs(s, kind, |cells|, link) && CellsAre(s, cells, i)
    ensures var o := Start(cells[..i + 1]);
            && 0 <= o && o + |cells[i]| <= PAGE_SIZE && NODE_HEADER_SIZE + 2 * i + 2 <= o
            && var s' := Splice(Splice(s, o, cells[i]), NODE_HEADER_SIZE + 2 * i, U16(o));
               HeaderIs(s', kind, |cells|, link) && CellsAre(s', cells, i + 1)
  {
    hide Start, U16, U32, CellIs, HeaderIs, Splice;
    assert cells[..|cells|] == cells;
    StartStep(cells, i);
    StartOrder(cells, 0, i);
    StartOrder(cells, i + 1, |cells|);
    var o := Start(cells[..i + 1]);
    var s1 := Splice(s, o, cells[i]);
    var s2 := Splice(s1, NODE_HEADER_SIZE + 2 * i, U16(o));
    NewCell(s, s1, s2, kind, |cells|, link, o, cells[i], i);
    forall j | 0 <= j < i + 1 ensures CellIs(s2, j, Start(cells[..j + 1]), cells[j]) {
      if j < i {
        Disjoint(cells, j, i);
        KeepCell(s, s1, s2, j, Start(cells[..j + 1]), cells[j], o, cells[i], i);
      }
    }
  }

  lemma NewCell(s: seq<byte>, s1: seq<byte>, s2: seq<byte>, kind: byte, count: nat, link: PageNo, o: int,
                cell: seq<byte>, i: nat)
    requires |s| == PAGE_SIZE && NODE_HEADER_SIZE + 2 * i + 2 <= o && o + |cell| <= PAGE_SIZE
    requires s1 == Splice(s, o, cell) && s2 == Splice(s1, NODE_HEADER_SIZE + 2 * i, U16(o))
    requires HeaderIs(s, kind, count, link)
    ensures HeaderIs(s2, kind, count, link) && CellIs(s2, i, o, cell)
  {
    hide U16, U32;
    var a := NODE_HEADER_SIZE + 2 * i;
    assert s2[a..a + 2] == U16(o);
    assert s2[o..o + |cell|] == s1[o..o + |cell|] == cell;
  }

  lemma KeepCell(s: seq<byte>, s1: seq<byte>, s2: seq<byte>, j: nat, oj: int, cj: seq<byte>, o: int, cell: seq<byte>,
                 i: nat)
    requires |s| == PAGE_SIZE && j < i && NODE_HEADER_SIZE + 2 * i + 2 <= o && o + |cell| <= oj
             && oj + |cj| <= PAGE_SIZE
    requires s1 == Splice(s, o, cell) && s2 == Splice(s1, NODE_HEADER_SIZE + 2 * i, U16(o))
    requires CellIs(s, j, oj, cj)
    ensures CellIs(s2, j, oj, cj)
  {
    hide U16;
    var a := NODE_HEADER_SIZE + 2 * j;
    assert s1[a..a + 2] == s[a..a + 2] && s2[a..a + 2] == s1[a..a + 2];
    assert s1[oj..oj + |cj|] == s[oj..oj + |cj|] && s2[oj..oj + |cj|] == s1[oj..oj + |cj|];
  }

  // ----- Encoding

  method WriteHeader(page: array<byte>, kind: byte, count: nat, link: PageNo)
    requires page.Length == PAGE_SIZE
    modifies page
    ensures HeaderIs(page[..], kind, count, link)
  {
    forall k | 0 <= k < PAGE_SIZE {
      page[k] := 0;
    }
    WriteBytes(page, 0, [kind]);
    ghost var s1 := page[..];
    WriteBytes(page, 2, U16(count));
    ghost var s2 := page[..];
    WriteBytes(page, 8, U32(link));
    assert s2[0..1] == s1[0..1] && page[..][0..1] == s2[0..1] && page[..][2..4] == s2[2..4];
  }

  /** The two free-space pointers of the header, which decoding ignores. */
  method WriteFreeSpace(page: array<byte>, ghost kind: byte, ghost cells: seq<seq<byte>>, ghost link: PageNo,
                        count: nat, cellEnd: nat)
    requires page.Length == PAGE_SIZE && count == |cells|
    requires Layout(page[..], kind, cells, link) && NODE_HEADER_SIZE + 2 * |cells| <= Start(cells)
    modifies page
    ensures Layout(page[..], kind, cells, link)
    ensures page[..][4..6] == U16(NODE_HEADER_SIZE + 2 * |cells|) && page[..][6..8] == U16(cellEnd)
  {
    hide U16, U32, Start;
    ghost var s0 := page[..];
    WriteBytes(page, 4, U16(NODE_HEADER_SIZE + 2 * count));
    ghost var s1 := page[..];
    WriteBytes(page, 6, U16(cellEnd));
    ghost var s2 := page[..];
    assert s2[4..6] == s1[4..6];
    assert HeaderIs(s2, kind, |cells|, link) by {
      assert s1[0..1] == s0[0..1] && s1[2..4] == s0[2..4] && s1[8..12] == s0[8..12];
    }
    forall i | 0 <= i < |cells| ensures CellIs(s2, i, Start(cells[..i + 1]), cells[i]) {
      var a, o, n := NODE_HEADER_SIZE + 2 * i, Start(cells[..i + 1]), |cells[i]|;
      assert cells[..|cells|] == cells;
      StartOrder(cells, i + 1, |cells|);
      assert CellIs(s0, i, o, cells[i]);
      assert s1[a..a + 2] == s0[a..a + 2] && s2[a..a + 2] == s1[a..a + 2];
      assert s1[o..o + n] == s0[o..o + n] && s2[o..o + n] == s1[o..o + n];
    }
  }

  method WriteLeafCell(page: array<byte>, offset: nat, e: LeafEntry)
    requires page.Length == PAGE_SIZE && offset + |LeafCell(e)| <= PAGE_SIZE
    modifies page
    ensures page[..] == Splice(old(page[..]), offset, LeafCell(e))
  {
    hide U16, Splice;
    ghost var s := page[..];
    WriteBytes(page, offset, U16(|e.key|));
    WriteBytes(page, offset + 2, e.key);
    WriteBytes(page, offset + 2 + |e.key|, U16(|e.payload|));
    WriteBytes(page, offset + 2 + |e.key| + 2, e.payload);
    SpliceFour(s, offset, U16(|e.key|), e.key, U16(|e.payload|), e.payload);
  }

  method WriteInternalCell(page: array<byte>, offset: nat, e: InternalEntry)
    requires page.Length == PAGE_SIZE && offset + |InternalCell(e)| <= PAGE_SIZE
    modifies page
    ensures page[..] == Splice(old(page[..]), offset, InternalCell(e))
  {
    hide U16, U32, Splice;
    ghost var s := page[..];
    WriteBytes(page, offset, U16(|e.key|));
    WriteBytes(page, offset + 2, e.key);
    WriteBytes(page, offset + 2 + |e.key|, U32(e.leftChild));
    SpliceTwice(s, offset, U16(|e.key|), e.key);
    SpliceTwice(s, offset, U16(|e.key|) + e.key, U32(e.leftChild));
  }

  method EncodeLeaf(page: array<byte>, entries: seq<LeafEntry>, nextLeaf: PageNo)
    requires page.Length == PAGE_SIZE
    requires Fits(LeafPage(entries, nextLeaf))
    modifies page
    ensures Layout(page[..], PAGE_TYPE_LEAF, LeafCellsOf(entries), nextLeaf)
    ensures page[..][6..8] == U16(PAGE_SIZE - LeafCells(entries))
  {
    hide U16, U32, Start, LeafCells, CellsAre, Splice, HeaderIs;
    ghost var cells := LeafCellsOf(entries);
    LeafStart(entries, nextLeaf);
    LeafStartCells(entries);
    WriteHeader(page, PAGE_TYPE_LEAF, |entries|, nextLeaf);
    var cellEnd: int := PAGE_SIZE;
    NoCells(page[..], cells);
    var i := 0;
    while i < |entries|
      invariant 0 <= i <= |entries| && cellEnd == Start(cells[..i])
      invariant HeaderIs(page[..], PAGE_TYPE_LEAF, |cells|, nextLeaf) && CellsAre(page[..], cells, i)
    {
      var e := entries[i];
      ghost var s := page[..];
      AddCell(s, PAGE_TYPE_LEAF, cells, i, nextLeaf);
      StartStep(cells, i);
      var cellOffset := cellEnd - (2 + |e.key| + 2 + |e.payload|);
      WriteLeafCell(page, cellOffset, e);
      WriteBytes(page, NODE_HEADER_SIZE + i * 2, U16(cellOffset));
      cellEnd := cellOffset;
      i := i + 1;
    }
    assert cells[..|cells|] == cells;
    WriteFreeSpace(page, PAGE_TYPE_LEAF, cells, nextLeaf, |entries|, cellEnd);
  }

  method EncodeInternal(page: array<byte>, seps: seq<InternalEntry>, rightmostChild: PageNo)
    requires page.Length == PAGE_SIZE
    requires Fits(InternalPage(seps, rightmostChild))
    modifies page
    ensures Layout(page[..], PAGE_TYPE_INTERNAL, InternalCellsOf(seps), rightmostChild)
    ensures page[..][6..8] == U16(PAGE_SIZE - InternalCells(seps))
  {
    hide U16, U32, Start, InternalCells, CellsAre, Splice, HeaderIs;
    ghost var cells := InternalCellsOf(seps);
    InternalStart(seps, rightmostChild);
    InternalStartCells(seps);
    WriteHeader(page, PAGE_TYPE_INTERNAL, |seps|, rightmostChild);
    var cellEnd: int := PAGE_SIZE;
    NoCells(page[..], cells);
    var i := 0;
    while i < |seps|
      invariant 0 <= i <= |seps| && cellEnd == Start(cells[..i])
      invariant HeaderIs(page[..], PAGE_TYPE_INTERNAL, |cells|, rightmostChild) && CellsAre(page[..], cells, i)
    {
      var e := seps[i];
      ghost var s := page[..];
      AddCell(s, PAGE_TYPE_INTERNAL, cells, i, rightmostChild);
      StartStep(cells, i);
      var cellOffset := cellEnd - (2 + |e.key| + 4);
      WriteInternalCell(page, cellOffset, e);
      WriteBytes(page, NODE_HEADER_SIZE + i * 2, U16(cellOffset));
      cellEnd := cellOffset;
      i := i + 1;
    }
    assert cells[..|cells|] == cells;
    WriteFreeSpace(page, PAGE_TYPE_INTERNAL, cells, rightmostChild, |seps|, cellEnd);
  }

  lemma NoCells(s: seq<byte>, cells: seq<seq<byte>>)
    requires |s| == PAGE_SIZE && NODE_HEADER_SIZE + 2 * |cells| <= PAGE_SIZE
    ensures CellsAre(s, cells, 0) && Start(cells[..0]) == PAGE_SIZE
  {
  }

  lemma SpliceFour(s: seq<byte>, offset: nat, a: seq<byte>, b: seq<byte>, c: seq<byte>, e: seq<byte>)
    requires offset + |a| + |b| + |c| + |e| <= |s|
    ensures Splice(Splice(Splice(Splice(s, offset, a), offset + |a|, b), offset + |a| + |b|, c),
                   offset + |a| + |b| + |c|, e)
         == Splice(s, offset, a + b + c + e)
  {
    hide Splice;
    SpliceTwice(s, offset, a, b);
    SpliceTwice(s, offset, a + b, c);
    SpliceTwice(s, offset, a + b + c, e);
  }

  // ----- Decoding

  /** Part of a cell, read from the page. */
  lemma CellPart(s: seq<byte>, offset: nat, cell: seq<byte>, a: nat, b: nat)
    requires offset + |cell| <= |s| && s[offset..offset + |cell|] == cell && a <= b <= |cell|
    ensures s[offset + a..offset + b] == cell[a..b]
  {
    var part := s[offset + a..offset + b];
    forall i | 0 <= i < b - a ensures part[i] == cell[a..b][i] {
      assert part[i] == s[offset + a + i] == s[offset..offset + |cell|][a + i];
    }
  }

  lemma LeafCellParts(s: seq<byte>, offset: nat, e: LeafEntry)
    requires |s| == PAGE_SIZE && offset + |LeafCell(e)| <= |s| && s[offset..offset + |LeafCell(e)|] == LeafCell(e)
    ensures var kl := |e.key|;
            && offset + 2 + kl + 2 + |e.payload| <= |s|
            && ReadU16(s, offset) == kl && s[offset + 2..offset + 2 + kl] == e.key
            && ReadU16(s, offset + 2 + kl) == |e.payload|
            && s[offset + 2 + kl + 2..offset + 2 + kl + 2 + |e.payload|] == e.payload
  {
    hide U16, ReadU16;
    var kl, pl, cell := |e.key|, |e.payload|, LeafCell(e);
    CellPart(s, offset, cell, 0, 2);
    CellPart(s, offset, cell, 2, 2 + kl);
    CellPart(s, offset, cell, 2 + kl, 2 + kl + 2);
    CellPart(s, offset, cell, 2 + kl + 2, 2 + kl + 2 + pl);
    U16RoundTrip(s, offset, kl);
    U16RoundTrip(s, offset + 2 + kl, pl);
  }

  lemma InternalCellParts(s: seq<byte>, offset: nat, e: InternalEntry)
    requires |s| == PAGE_SIZE && offset + |InternalCell(e)| <= |s| && e.leftChild < 0x1_0000_0000
    requires s[offset..offset + |InternalCell(e)|] == InternalCell(e)
    ensures var kl := |e.key|;
            && offset + 2 + kl + 4 <= |s|
            && ReadU16(s, offset) == kl && s[offset + 2..offset + 2 + kl] == e.key
            && ReadU32(s, offset + 2 + kl) == e.leftChild
  {
    hide U16, U32, ReadU16, ReadU32;
    var kl, cell := |e.key|, InternalCell(e);
    CellPart(s, offset, cell, 0, 2);
    CellPart(s, offset, cell, 2, 2 + kl);
    CellPart(s, offset, cell, 2 + kl, 2 + kl + 4);
    U16RoundTrip(s, offset, kl);
    U32RoundTrip(s, offset + 2 + kl, e.leftChild);
  }

  method ReadLeafCell(page: array<byte>, cellOffset: nat, ghost e: LeafEntry) returns (r: LeafEntry)
    requires page.Length == PAGE_SIZE && cellOffset + |LeafCell(e)| <= PAGE_SIZE
    requires page[..][cellOffset..cellOffset + |LeafCell(e)|] == LeafCell(e)
    ensures r == e
  {
    hide U16, ReadU16, LeafCell;
    LeafCellParts(page[..], cellOffset, e);
    var keyLen := ReadU16(page[..], cellOffset);
    var key := page[..][cellOffset + 2..cellOffset + 2 + keyLen];
    var payloadLenOffset := cellOffset + 2 + keyLen;
    var payloadLen := ReadU16(page[..], payloadLenOffset);
    var payload := page[..][payloadLenOffset + 2..payloadLenOffset + 2 + payloadLen];
    r := LeafEntry(key, payload);
  }

  method DecodeLeaf(page: array<byte>, ghost entries: seq<LeafEntry>, ghost nextLeaf: PageNo) returns (r: Page)
    requires page.Length == PAGE_SIZE
    requires Layout(page[..], PAGE_TYPE_LEAF, LeafCellsOf(entries), nextLeaf) && nextLeaf < 0x1_0000_0000
    ensures r == LeafPage(entries, nextLeaf)
  {
    hide U16, U32, ReadU16, ReadU32, Start, LeafCell;
    ghost var cells := LeafCellsOf(entries);
    U16RoundTrip(page[..], 2, |entries|);
    U32RoundTrip(page[..], 8, nextLeaf);
    var count := ReadU16(page[..], 2);
    var next := ReadU32(page[..], 8);
    var es: seq<LeafEntry> := [];
    var i := 0;
    while i < count
      invariant 0 <= i <= count == |entries| && es == entries[..i]
    {
      ghost var o := Start(cells[..i + 1]);
      assert CellIs(page[..], i, o, cells[i]);
      U16RoundTrip(page[..], NODE_HEADER_SIZE + 2 * i, o);
      var cellOffset := ReadU16(page[..], NODE_HEADER_SIZE + i * 2);
      var e := ReadLeafCell(page, cellOffset, entries[i]);
      es := es + [e];
      i := i + 1;
    }
    r := LeafPage(es, next);
  }

  method ReadInternalCell(page: array<byte>, cellOffset: nat, ghost e: InternalEntry) returns (r: InternalEntry)
    requires page.Length == PAGE_SIZE && cellOffset + |InternalCell(e)| <= PAGE_SIZE && e.leftChild < 0x1_0000_0000
    requires page[cellOffset..cellOffset + |InternalCell(e)|] == InternalCell(e)
    ensures r == e
  {
    hide U16, U32, ReadU16, ReadU32, InternalCell;
    assert page[..][cellOffset..cellOffset + |InternalCell(e)|] == InternalCell(e);
    InternalCellParts(page[..], cellOffset, e);
    var keyLen := ReadU16(page[..], cellOffset);
    var key := page[cellOffset + 2..cellOffset + 2 + keyLen];
    r := InternalEntry(key, ReadU32(page[..], cellOffset + 2 + keyLen));
  }

  method DecodeInternal(page: array<byte>, ghost seps: seq<InternalEntry>, ghost rightmostChild: PageNo)
    returns (r: Page)
    requires page.Length == PAGE_SIZE
    requires Layout(page[..], PAGE_TYPE_INTERNAL, InternalCellsOf(seps), rightmostChild)
    requires rightmostChild < 0x1_0000_0000 && forall i :: 0 <= i < |seps| ==> seps[i].leftChild < 0x1_0000_0000
    ensures r == InternalPage(seps, rightmostChild)
  {
    hide U16, U32, ReadU16, ReadU32, Start, InternalCell;
    ghost var cells := InternalCellsOf(seps);
    U16RoundTrip(page[..], 2, |seps|);
    U32RoundTrip(page[..], 8, rightmostChild);
    var count := ReadU16(page[..], 2);
    var last := ReadU32(page[..], 8);
    var es: seq<InternalEntry> := [];
    var i := 0;
    while i < count
      invariant 0 <= i <= count == |seps| && es == seps[..i]
    {
      ghost var o := Start(cells[..i + 1]);
      assert CellIs(page[..], i, o, cells[i]);
      U16RoundTrip(page[..], NODE_HEADER_SIZE + 2 * i, o);
      var cellOffset := ReadU16(page[..], NODE_HEADER_SIZE + i * 2);
      var e := ReadInternalCell(page, cellOffset, seps[i]);
      es := es + [e];
      i := i + 1;
    }
    r := InternalPage(es, last);
  }

  // ----- Round trip

  /** Page numbers take four bytes. */
  predicate Addressable(page: Page) {
    match page
    case Blank => false
    case LeafPage(_, next) => next < 0x1_0000_0000
    case InternalPage(seps, last) => last < 0x1_0000_0000 && forall i :: 0 <= i < |seps| ==>
        seps[i].leftChild < 0x1_0000_0000
  }

  /** What is written to a page is what is read from it. */
  method WriteThenRead(node: Page) returns (r: Page)
    requires Fits(node) && Addressable(node)
    ensures r == node
  {
    var page := new byte[PAGE_SIZE](_ => 0);
    match node {
      case LeafPage(es, next) =>
        EncodeLeaf(page, es, next);
        r := DecodeLeaf(page, es, next);
      case InternalPage(seps, last) =>
        EncodeInternal(page, seps, last);
        r := DecodeInternal(page, seps, last);
    }
  }
}
