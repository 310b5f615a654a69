/** What insertion does to a leaf and to the branches above it. */
module InsertSteps {
  import opened Bytes
  import opened Storage
  import opened Shape
  import opened Contexts
  import opened Contents
  import opened Sizes
  import opened Focus
  import opened NodeEdits
  import opened DescendSteps

  lemma SortedInsert(es: seq<LeafEntry>, pos: nat, e: LeafEntry, lo: real, hi: real)
    requires SortedIn(es, lo, hi) && pos <= |es| && lo <= Rank(e.key) < hi
    requires forall j :: 0 <= j < pos ==> Rank(es[j].key) < Rank(e.key)
    requires forall j :: pos <= j < |es| ==> Rank(e.key) < Rank(es[j].key)
    ensures SortedIn(es[..pos] + [e] + es[pos..], lo, hi)
  {
    hide Rank;
    var r := es[..pos] + [e] + es[pos..];
    assert forall k :: 0 <= k < |r| ==> r[k] == if k < pos then es[k] else if k == pos then e else es[k - 1];
  }

  /** The new entry goes where the keys stay in order. */
  lemma InsertedEntries(es: seq<LeafEntry>, key: Key, payload: seq<byte>, lo: real, hi: real, d: Discipline)
    requires SortedIn(es, lo, hi) && lo <= Rank(key) < hi && KeyPosition(es, key) == |es|
    requires EntriesOk(d, es) && EntryOk(d, LeafEntry(key, payload))
    ensures var es' := InsertEntry(es, key, payload); SortedIn(es', lo, hi) && EntriesOk(d, es')
  {
    hide Rank, KeyLess, EntryOk, KeyPosition, PartitionPoint;
    var pos := PartitionPoint(es, key);
    var e := LeafEntry(key, payload);
    forall j | pos <= j < |es| ensures Rank(key) < Rank(es[j].key) {
      RankInjective(es[pos].key, key);
    }
    SortedInsert(es, pos, e, lo, hi);
    assert es[..pos] + es[pos..] == es;
    ConcatEntriesOk(d, es[..pos], es[pos..]);
    ConcatEntriesOk(d, es[..pos] + [e], es[pos..]);
    ConcatEntriesOk(d, es[..pos], [e]);
  }

  lemma InsertedContents(c: Context, es: seq<LeafEntry>, key: Key, payload: seq<byte>)
    requires key !in MapOf(Before(c) + es + After(c))
    ensures MapOf(Before(c) + InsertEntry(es, key, payload) + After(c))
         == MapOf(Before(c) + es + After(c))[key := payload]
  {
    hide MapOf, Before, After, KeyLess, Rank;
    var pos := PartitionPoint(es, key);
    var e := LeafEntry(key, payload);
    assert Before(c) + es + After(c) == (Before(c) + es[..pos]) + (es[pos..] + After(c));
    assert Before(c) + (es[..pos] + [e] + es[pos..]) + After(c)
        == (Before(c) + es[..pos]) + [e] + (es[pos..] + After(c));
    MapConcat(Before(c) + es[..pos], es[pos..] + After(c));
    MapPut(Before(c) + es[..pos], e, es[pos..] + After(c));
  }

  /** Both halves of the entries are enough for a node, and fit if widths are fixed. */
  ghost predicate Halvable(es: seq<LeafEntry>, next: PageNo, d: Discipline) {
    var mid := |es| / 2;
    && 0 < mid < |es| && mid >= MinFill(d) && |es| - mid >= MinFill(d)
    && (d.FixedWidth? ==> forall q: PageNo :: Fits(LeafPage(es[..mid], q)))
    && (d.FixedWidth? ==> Fits(LeafPage(es[mid..], next)))
  }

  /** A leaf that the new entry overflows can be cut in the middle. */
  lemma InsertOverflow(es: seq<LeafEntry>, key: Key, payload: seq<byte>, next: PageNo, d: Discipline)
    requires var es' := InsertEntry(es, key, payload);
             EntriesOk(d, es') && !Fits(LeafPage(es', next))
    requires EntriesOk(d, es) && Fits(LeafPage(es, next))
    requires Roomy(d) && SingleEntrySize(key, payload) <= PAGE_SIZE
    ensures Halvable(InsertEntry(es, key, payload), next, d)
  {
    hide EntriesOk, EntryOk;
    var pos, e := PartitionPoint(es, key), LeafEntry(key, payload);
    assert LeafCells([e]) == 4 + |key| + |payload| by {
      assert [e][..0] == [];
    }
    LeafOverflow(es[..pos], e, es[pos..], next, d);
    if d.FixedWidth? {
      var es' := InsertEntry(es, key, payload);
      forall q: PageNo ensures Fits(LeafPage(es'[..|es'| / 2], q)) {
        CutLeafFits(es, es', |es'| / 2, next, q, d);
      }
      CutLeafFits(es, es', |es'| / 2, next, 0, d);
    }
  }

  /** The leaf has room for the new entry. */
  lemma InsertInPlace(m: map<PageNo, Page>, m': map<PageNo, Page>, c: Context, leaf: Tree, key: Key, payload: seq<byte>,
                      h: nat, d: Discipline)
    requires Shaped(c) && leaf.Leaf? && Depth(c) == h && Stored(m, Plug(c, leaf), h, d)
    requires Lo(c) <= Rank(key) < Hi(c) && key !in MapOf(Flat(Plug(c, leaf)))
    requires EntryOk(d, LeafEntry(key, payload))
    requires m' == m[leaf.p := LeafPage(InsertEntry(leaf.es, key, payload), leaf.next)]
    ensures var t := Plug(c, Leaf(leaf.p, InsertEntry(leaf.es, key, payload), leaf.next));
            && Stored(m', t, h, d) && t.p == Plug(c, leaf).p
            && MapOf(Flat(t)) == MapOf(Flat(Plug(c, leaf)))[key := payload]
            && Grown(m, m', Footprint(Plug(c, leaf)), t)
  {
    hide Rank, Lo, Hi, End, Stored, Around, Plug, Before, After, Flat, Footprint, MapOf, HeldAround, Shaped, Depth,
      EntryOk, InsertEntry, EntriesOk, SortedIn, Rewritten;
    LeafInHole(m, c, leaf, h, d);
    LeafLookup(m, c, leaf, key, h, d);
    InsertedEntries(leaf.es, key, payload, Lo(c), Hi(c), d);
    InsertedContents(c, leaf.es, key, payload);
    LeafChange(m, m', c, leaf, InsertEntry(leaf.es, key, payload), h, d);
  }

  ghost predicate FullAt(t: Tree, c: Context, leaf: Tree, key: Key, payload: seq<byte>) {
    && leaf.Leaf? && Plug(c, leaf) == t && Lo(c) <= Rank(key) < Hi(c)
    && !Fits(LeafPage(InsertEntry(leaf.es, key, payload), leaf.next))
  }

  // ----- When the pages that a split writes do not fit

  lemma NewRootFits(k: Key, left: PageNo, right: PageNo)
    ensures Fits(InternalPage([InternalEntry(k, left)], right)) <==> KeysFit([k])
  {
    assert BranchPage([k], [left, right]) == InternalPage([InternalEntry(k, left)], right);
    BranchFits([k], [left, right]);
  }

  /** The separator `k` of a split finds no room above: the new root does not fit a page, or the parent does not and
      cannot be split in its turn. */
  ghost predicate NoRoomAbove(c: Context, k: Key)
    decreases c, 1
  {
    if c.Top? then !KeysFit([k])
    else !KeysFit(c.lk + [k] + c.rk) && NoCut(c.up, c.lk + [k] + c.rk)
  }

  /** A node with these keys cannot be split: a part to one side of its middle key does not fit, or that key finds no
      room above. */
  ghost predicate NoCut(c: Context, keys: seq<Key>)
    requires keys != []
    decreases c, 2
  {
    var s := |keys| / 2;
    !KeysFit(keys[..s]) || !KeysFit(keys[s + 1..]) || NoRoomAbove(c, keys[s])
  }

  /** A leaf with these entries cannot be split. */
  ghost predicate NoHalves(c: Context, es: seq<LeafEntry>)
    requires es != []
  {
    var mid := |es| / 2;
    !Fits(LeafPage(es[..mid], 0)) || !Fits(LeafPage(es[mid..], 0)) || NoRoomAbove(c, es[mid].key)
  }

  /** The leaf that the key belongs to does not fit its page with the entry, and cannot be split. */
  ghost predicate NoRoomFor(t: Tree, key: Key, payload: seq<byte>) {
    exists c, leaf :: FullAt(t, c, leaf, key, payload) && NoHalves(c, InsertEntry(leaf.es, key, payload))
  }

  /** The leaf has no room for the new entry. */
  lemma InsertOverflows(m: map<PageNo, Page>, c: Context, leaf: Tree, key: Key, payload: seq<byte>, h: nat,
                        d: Discipline)
    requires Shaped(c) && leaf.Leaf? && Depth(c) == h && Stored(m, Plug(c, leaf), h, d) && leaf.p in m
             && Fits(m[leaf.p])
    requires Lo(c) <= Rank(key) < Hi(c) && key !in MapOf(Flat(Plug(c, leaf)))
    requires EntryOk(d, LeafEntry(key, payload)) && Roomy(d) && SingleEntrySize(key, payload) <= PAGE_SIZE
    requires !Fits(LeafPage(InsertEntry(leaf.es, key, payload), leaf.next))
    ensures var es := InsertEntry(leaf.es, key, payload);
            && SortedIn(es, Lo(c), Hi(c)) && EntriesOk(d, es) && Halvable(es, leaf.next, d)
            && MapOf(Before(c) + es + After(c)) == MapOf(Flat(Plug(c, leaf)))[key := payload]
  {
    hide Rank, Lo, Hi, End, Stored, Around, Plug, Before, After, Flat, Footprint, MapOf, HeldAround, Shaped, Depth,
      EntryOk, InsertEntry, EntriesOk, SortedIn, Fits, Roomy;
    LeafInHole(m, c, leaf, h, d);
    LeafLookup(m, c, leaf, key, h, d);
    InsertedEntries(leaf.es, key, payload, Lo(c), Hi(c), d);
    InsertedContents(c, leaf.es, key, payload);
    InsertOverflow(leaf.es, key, payload, leaf.next, d);
  }

  lemma LeafHalves(c: Context, p: PageNo, q: PageNo, es: seq<LeafEntry>, mid: nat, next: PageNo)
    requires mid <= |es|
    ensures var left, right := Leaf(p, es[..mid], q), Leaf(q, es[mid..], next);
            && Flat(left) + Flat(right) == es
            && Around(c) + (Footprint(left) + Footprint(right)) == Around(c) + multiset{p, q}
            && Around(c) + multiset{p} <= Around(c) + multiset{p, q}
  {
  }

  lemma CutPage(keys: seq<Key>, kids: seq<Tree>, s: nat)
    requires |kids| == |keys| + 1 && s < |keys|
    ensures var node := BranchPage(keys, Roots(kids));
            && InternalPage(node.seps[..s], node.seps[s].leftChild) == BranchPage(keys[..s], Roots(kids[..s + 1]))
            && InternalPage(node.seps[s + 1..], node.rightmostChild) == BranchPage(keys[s + 1..], Roots(kids[s + 1..]))
    ensures Roots(kids[..s + 1]) == Roots(kids)[..s + 1] && Roots(kids[s + 1..]) == Roots(kids)[s + 1..]
  {
  }

  /** Both halves of a branch that is too large, and the entry between them. */
  lemma OversizeCut(m: map<PageNo, Page>, c: Context, p: PageNo, keys: seq<Key>, kids: seq<Tree>, s: nat,
                    h: nat, d: Discipline)
    requires Oversize(m, c, p, keys, kids, h, d) && Roomy(d)
    requires var node := BranchPage(keys, Roots(kids)); !Fits(node) && s == |node.seps| / 2
    ensures p in m && s < |keys| && |kids| == |keys| + 1
    ensures s >= MinFill(d) && |keys| - s - 1 >= MinFill(d)
    ensures var node := BranchPage(keys, Roots(kids));
            var left := InternalPage(node.seps[..s], node.seps[s].leftChild);
            var right := InternalPage(node.seps[s + 1..], node.rightmostChild);
            && left == BranchPage(keys[..s], Roots(kids[..s + 1]))
            && right == BranchPage(keys[s + 1..], Roots(kids[s + 1..]))
            && node.seps[s].key == keys[s]
            && (d.FixedWidth? ==> Fits(left) && Fits(right))
  {
    hide Rank, HeldAround, OrderedAround, FilledAround, OrderedAll, HeldAll, FilledAll, FootprintAll, Lo, Hi, End,
      First, Around;
    OverflowEnough(keys, Roots(kids), d);
    CutPage(keys, kids, s);
    if d.FixedWidth? {
      CutBranchFits(keys, Roots(kids), s, d);
    }
  }

  lemma OversizeSplit(m: map<PageNo, Page>, m': map<PageNo, Page>, c: Context, p: PageNo, q: PageNo,
                      keys: seq<Key>, kids: seq<Tree>, s: nat, h: nat, d: Discipline)
    requires Oversize(m, c, p, keys, kids, h, d) && q !in m && s < |keys|
    requires s >= MinFill(d) && |keys| - s - 1 >= MinFill(d)
    requires m' == m[q := Blank][p := BranchPage(keys[..s], Roots(kids[..s + 1]))]
                    [q := BranchPage(keys[s + 1..], Roots(kids[s + 1..]))]
    ensures var left, right := Branch(p, keys[..s], kids[..s + 1]), Branch(q, keys[s + 1..], kids[s + 1..]);
            && Pending(m', c, [keys[s]], [left, right], h + 1, d)
            && FlatAll(kids) == Flat(left) + Flat(right)
            && var f, f' :=
               Around(c) + multiset{p} + FootprintAll(kids), Around(c) + (Footprint(left) + Footprint(right));
               f <= f' && Rewritten(m, m', f, f', multiset{})
  {
    hide Rank, HeldAround, OrderedAround, FilledAround, OrderedAll, HeldAll, FilledAll, FlatAll, FootprintAll, Lo, Hi,
      End, First, Around, Pending, BranchPage;
    SplitBranch(m, m', c, p, q, keys, kids, s, h, d);
    var left, right := Branch(p, keys[..s], kids[..s + 1]), Branch(q, keys[s + 1..], kids[s + 1..]);
    assert Around(c) + (Footprint(left) + Footprint(right)) == Around(c) + multiset{p, q} + FootprintAll(kids);
  }

  lemma GrownThen(m: map<PageNo, Page>, m1: map<PageNo, Page>, m2: map<PageNo, Page>,
                  f: multiset<PageNo>, f1: multiset<PageNo>, t: Tree)
    requires Rewritten(m, m1, f, f1, multiset{}) && f <= f1 && Grown(m1, m2, f1, t)
    ensures Grown(m, m2, f, t)
  {
    RewrittenThen(m, m1, m2, f, f1, Footprint(t), multiset{});
  }

  lemma NotAmong(c: Context, left: Tree, right: Tree, m: map<PageNo, Page>, d: Discipline)
    requires c.In? && NoRepeats(Around(c) + FootprintAll([left, right]))
    ensures left.p !in Roots(c.ls)
  {
    hide FootprintAll, Footprint;
    Concat([left], [right], m, d);
    assert [left] + [right] == [left, right];
    RootsInFootprint([left, right]);
    assert [left, right][0].p in FootprintAll([left, right]);
    RootsInFootprint(c.ls);
    assert (Around(c) + FootprintAll([left, right]))[left.p] <= 1;
  }

  lemma SplitChildEntries(lk: seq<Key>, ls: seq<PageNo>, left: PageNo, k: Key, right: PageNo,
                          rk: seq<Key>, rs: seq<PageNo>)
    requires |lk| == |ls| && |rk| == |rs| && left !in ls
    ensures WithSplitChild(BranchPage(lk + rk, ls + [left] + rs), left, k, right)
         == BranchPage(lk + [k] + rk, ls + [left, right] + rs)
  {
    HoleEntry(lk, ls, left, rk, rs);
    var old', new' := BranchPage(lk + rk, ls + [left] + rs), BranchPage(lk + [k] + rk, ls + [left, right] + rs);
    var r := WithSplitChild(old', left, k, right);
    assert ChildPosition(old'.seps, left) == |lk|;
    assert r.rightmostChild == new'.rightmostChild;
    assert |r.seps| == |new'.seps|;
    forall i | 0 <= i < |r.seps| ensures r.seps[i] == new'.seps[i] {
    }
  }

  /** The page of the parent once it knows of the split. */
  lemma SplitChildPage(m: map<PageNo, Page>, c: Context, k: Key, left: Tree, right: Tree, h: nat, d: Discipline)
    requires c.In? && Pending(m, c, [k], [left, right], h, d)
    ensures c.p in m && m[c.p].InternalPage?
    ensures WithSplitChild(m[c.p], left.p, k, right.p)
         == BranchPage(c.lk + [k] + c.rk, Roots(c.ls) + [left.p, right.p] + Roots(c.rs))
    ensures Roots(c.ls) + [left.p, right.p] + Roots(c.rs) == Roots(c.ls + [left, right] + c.rs)
    ensures Fits(WithSplitChild(m[c.p], left.p, k, right.p)) <==> KeysFit(c.lk + [k] + c.rk)
  {
    hide Rank, OrderedAround, FilledAround, OrderedAll, FilledAll, HeldAll, Lo, Hi, End, First, WithSplitChild,
      FootprintAll;
    NotAmong(c, left, right, m, d);
    SplitChildEntries(c.lk, Roots(c.ls), left.p, k, right.p, c.rk, Roots(c.rs));
    BranchFits(c.lk + [k] + c.rk, Roots(c.ls) + [left.p, right.p] + Roots(c.rs));
  }
}
