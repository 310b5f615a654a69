/** Whole runs: the random test of the repository, for every sequence of operations. */
module Runs {
  import opened Bytes
  import opened Storage
  import opened Shape
  import opened Contexts
  import opened Steps
  import opened Contents
  import opened NodeEdits
  import opened InsertSteps
  import opened DeleteSteps
  import opened Cursors
  import opened BTrees
  import opened Forest

  datatype Op = Insert(key: Key, payload: seq<byte>) | Delete(key: Key)

  /** What an operation means for a sorted map that keeps the first payload of a key, and takes no entry larger than
      a page. */
  function Apply(m: map<Key, seq<byte>>, op: Op): map<Key, seq<byte>> {
    match op
    case Insert(k, v) => if k in m || SingleEntrySize(k, v) > PAGE_SIZE then m else m[k := v]
    case Delete(k) => m - {k}
  }

  function ApplyAll(m: map<Key, seq<byte>>, ops: seq<Op>): map<Key, seq<byte>> {
    if ops == [] then m else Apply(ApplyAll(m, ops[..|ops| - 1]), ops[|ops| - 1])
  }

  lemma ApplyNext(m: map<Key, seq<byte>>, ops: seq<Op>, i: nat)
    requires i < |ops|
    ensures ApplyAll(m, ops[..i + 1]) == Apply(ApplyAll(m, ops[..i]), ops[i])
  {
    assert ops[..i + 1][..i] == ops[..i];
  }

  /** The operation keeps to the discipline; `AnyKeys` allows all. */
  ghost predicate OpOk(d: Discipline, op: Op) {
    op.Insert? ==> EntryOk(d, LeafEntry(op.key, op.payload))
  }

  /** Only these can overflow a page: an insertion into a leaf that is full, and a deletion that leaves a leaf short. */
  ghost predicate MayOverflow(t: Tree, op: Op) {
    match op
    case Insert(k, v) => k !in MapOf(Flat(t)) && SingleEntrySize(k, v) <= PAGE_SIZE && NoRoomFor(t, k, v)
    case Delete(k) => k in MapOf(Flat(t)) && NoRepair(t, k)
  }

  /** Runs operations one after the other, until one overflows a page.  `last` is the tree before that one. */
  method RunOps(bt: BTree, ops: seq<Op>) returns (done: nat, ghost last: Tree)
    requires bt.Valid() && forall i :: 0 <= i < |ops| ==> OpOk(bt.d, ops[i])
    modifies bt, bt.pager
    ensures done <= |ops| && (bt.d.FixedWidth? ==> done == |ops|)
    ensures Splittable(bt.d) && done < |ops| ==> ops[done].Delete?
    ensures done == |ops| ==> bt.Valid() && bt.Model() == ApplyAll(old(bt.Model()), ops)
    ensures done < |ops| ==> MapOf(Flat(last)) == ApplyAll(old(bt.Model()), ops[..done]) && MayOverflow(last, ops[done])
    ensures done == 0 < |ops| ==> last == old(bt.tree)
  {
    ghost var m0 := bt.Model();
    done, last := 0, bt.tree;
    while done < |ops|
      invariant done <= |ops| && bt.Valid() && bt.Model() == ApplyAll(m0, ops[..done])
      invariant done == 0 ==> bt.tree == old(bt.tree)
    {
      last := bt.tree;
      hide NoRoomFor, NoRepair;
      ApplyNext(m0, ops, done);
      assert OpOk(bt.d, ops[done]);
      match ops[done] {
        case Insert(k, v) =>
          var r := bt.Insert(k, v);
          if r.Failed? && r.error.PageOverflow? {
            return;
          }
        case Delete(k) =>
          var r, _ := bt.Delete(k);
          if r.Failed? {
            return;
          }
      }
      done := done + 1;
    }
    assert ops[..done] == ops;
  }

  method Drain(cursor: Cursor, pager: Pager) returns (out: seq<LeafEntry>)
    requires pager.Valid() && cursor.Valid(pager.pages)
    modifies cursor
    ensures out == old(cursor.Remaining())
  {
    hide Links, FlatLeaves, Cursor.Remaining, Cursor.Valid, Pager.Valid;
    out := [];
    ghost var all := cursor.Remaining();
    var e := cursor.Next(pager);
    while e.Some?
      invariant cursor.Valid(pager.pages)
      invariant if e.Some? then all == out + [e.value] + cursor.Remaining() else all == out
      decreases |cursor.Remaining()|, e.Some?
    {
      out := out + [e.value];
      ghost var before := cursor.Remaining();
      e := cursor.Next(pager);
      assert e.Some? ==> before == [e.value] + cursor.Remaining();
    }
  }

  ghost predicate StrictlyIncreasing(es: seq<LeafEntry>) {
    forall i, j :: 0 <= i < j < |es| ==> KeyLess(es[i].key, es[j].key)
  }

  /** A full scan yields every entry once, in key order. */
  method ScanAll(bt: BTree) returns (out: seq<LeafEntry>)
    requires bt.Valid()
    ensures StrictlyIncreasing(out) && MapOf(out) == bt.Model()
  {
    var cursor := bt.CursorStart();
    out := Drain(cursor, bt.pager);
    FlatSorted(bt.tree, bt.height, LOWEST, HIGHEST, 0);
  }

  /** A scan from a key yields exactly the entries that are not below it, in key order. */
  method ScanFromKey(bt: BTree, key: Key) returns (out: seq<LeafEntry>)
    requires bt.Valid()
    ensures StrictlyIncreasing(out)
    ensures forall k :: k in MapOf(out) <==> k in bt.Model() && !KeyLess(k, key)
    ensures forall k :: k in MapOf(out) ==> MapOf(out)[k] == bt.Model()[k]
  {
    var cursor := bt.CursorSeek(key);
    out := Drain(cursor, bt.pager);
    FlatSorted(bt.tree, bt.height, LOWEST, HIGHEST, 0);
    SeekModel(Flat(bt.tree), key);
  }

  lemma SeekModel(es: seq<LeafEntry>, key: Key)
    requires SortedIn(es, LOWEST, HIGHEST)
    ensures var out := es[PartitionPoint(es, key)..];
            && StrictlyIncreasing(out)
            && (forall k :: k in MapOf(out) <==> k in MapOf(es) && !KeyLess(k, key))
            && (forall k :: k in MapOf(out) ==> MapOf(out)[k] == MapOf(es)[k])
  {
    hide Rank, KeyLess, MapOf;
    var n := PartitionPoint(es, key);
    var a, out := es[..n], es[n..];
    assert es == a + out;
    MapConcat(a, out);
    forall k ensures k in MapOf(out) <==> k in MapOf(es) && !KeyLess(k, key) {
      MapKeys(a, k);
      MapKeys(out, k);
    }
  }

  /** Under fixed widths every page of the tree fits and is at least as full as the code intends. */
  lemma SizeBound(m: map<PageNo, Page>, t: Tree, h: nat, d: Discipline)
    requires Stored(m, t, h, d) && d.FixedWidth? && forall p :: p in m ==> Fits(m[p])
    ensures forall p :: p in Footprint(t) ==>
              p in m && EncodedSize(m[p]) <= PAGE_SIZE && (p != t.p ==> CountOn(m[p]) >= MIN_ENTRIES)
  {
    MinimumKept(m, t, RootFill(t, d), d);
  }
}
