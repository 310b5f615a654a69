/** The rewrites that insertion and deletion apply to a run of children: splitting a node in two,
    merging two neighbours, and moving the cut between them. */
module Steps {
  import opened Bytes
  import opened Storage
  import opened Shape

  lemma Pair(x: Tree, k: Key, y: Tree, h: nat, lo: real, hi: real, end: PageNo,
             m: map<PageNo, Page>, d: Discipline)
    ensures OrderedAll([k], [x, y], h, lo, hi, end)
       <==> lo < Rank(k) < hi && Ordered(x, h, lo, Rank(k), First(y)) && Ordered(y, h, Rank(k), hi, end)
    ensures FlatAll([x, y]) == Flat(x) + Flat(y)
    ensures FootprintAll([x, y]) == Footprint(x) + Footprint(y)
    ensures HeldAll(m, [x, y]) <==> Held(m, x) && Held(m, y)
    ensures FilledAll([x, y], d) <==> Filled(x, d, MinFill(d)) && Filled(y, d, MinFill(d))
  {
    hide Rank, First, Ordered, Flat, Footprint, Held, Filled, MinFill;
    assert [x] + [y] == [x, y] && [] + [k] + [] == [k];
    assert [x, y][1..] == [y] && [k][1..] == [];
    Concat([x], [y], m, d);
    Single(x, m, d);
    Single(y, m, d);
  }

  // ----- Leaves

  /** Two neighbouring leaves are a sorted run cut at a separator. */
  lemma LeavesJoin(px: PageNo, ex: seq<LeafEntry>, k: Key, py: PageNo, ey: seq<LeafEntry>,
                   nx: PageNo, next: PageNo, lo: real, hi: real, end: PageNo)
    requires OrderedAll([k], [Leaf(px, ex, nx), Leaf(py, ey, next)], 0, lo, hi, end)
    ensures nx == py && next == end && SortedIn(ex + ey, lo, hi)
  {
    hide Rank;
    Pair(Leaf(px, ex, nx), k, Leaf(py, ey, next), 0, lo, hi, end, map[], AnyKeys);
  }

  /** A sorted run may be cut before any entry but the first, the key of that entry as separator. */
  lemma LeavesCut(px: PageNo, es: seq<LeafEntry>, cut: nat, py: PageNo, next: PageNo, lo: real, hi: real)
    requires 0 < cut < |es| && SortedIn(es, lo, hi)
    ensures OrderedAll([es[cut].key], [Leaf(px, es[..cut], py), Leaf(py, es[cut..], next)], 0, lo, hi, next)
  {
    hide Rank;
    Pair(Leaf(px, es[..cut], py), es[cut].key, Leaf(py, es[cut..], next), 0, lo, hi, next, map[], AnyKeys);
    assert Rank(es[0].key) < Rank(es[cut].key);
  }

  // ----- Branches

  /** Two neighbouring branches are a run of children cut at a separator. */
  lemma BranchesJoin(px: PageNo, kx: seq<Key>, cx: seq<Tree>, k: Key, py: PageNo, ky: seq<Key>, cy: seq<Tree>,
                     h: nat, lo: real, hi: real, end: PageNo)
    requires |cx| == |kx| + 1 && |cy| == |ky| + 1
    ensures OrderedAll([k], [Branch(px, kx, cx), Branch(py, ky, cy)], h + 1, lo, hi, end)
       <==> OrderedAll(kx + [k] + ky, cx + cy, h, lo, hi, end)
  {
    hide Rank, OrderedAll;
    Pair(Branch(px, kx, cx), k, Branch(py, ky, cy), h + 1, lo, hi, end, map[], AnyKeys);
    JoinOrdered(kx, cx, k, ky, cy, h, lo, hi, end);
  }

  /** A run of children may be cut at any separator. */
  lemma BranchesCut(px: PageNo, keys: seq<Key>, kids: seq<Tree>, cut: nat, py: PageNo,
                    h: nat, lo: real, hi: real, end: PageNo)
    requires cut < |keys| && |kids| == |keys| + 1
    requires OrderedAll(keys, kids, h, lo, hi, end)
    ensures OrderedAll([keys[cut]], [Branch(px, keys[..cut], kids[..cut + 1]),
                                     Branch(py, keys[cut + 1..], kids[cut + 1..])], h + 1, lo, hi, end)
  {
    hide OrderedAll;
    assert keys == keys[..cut] + [keys[cut]] + keys[cut + 1..];
    assert kids == kids[..cut + 1] + kids[cut + 1..];
    BranchesJoin(px, keys[..cut], kids[..cut + 1], keys[cut], py, keys[cut + 1..], kids[cut + 1..], h, lo, hi, end);
  }

  // ----- Order of the entries as a whole

  lemma {:induction false} FlatSorted(t: Tree, h: nat, lo: real, hi: real, end: PageNo)
    requires Ordered(t, h, lo, hi, end)
    ensures SortedIn(Flat(t), lo, hi)
    decreases t
  {
    hide Rank;
    if t.Branch? {
      FlatAllSorted(t.keys, t.kids, h - 1, lo, hi, end);
    }
  }

  lemma {:induction false} FlatAllSorted(keys: seq<Key>, kids: seq<Tree>, h: nat, lo: real, hi: real, end: PageNo)
    requires OrderedAll(keys, kids, h, lo, hi, end)
    ensures SortedIn(FlatAll(kids), lo, hi)
    decreases kids
  {
    hide Rank;
    if keys == [] {
      FlatSorted(kids[0], h, lo, hi, end);
      assert kids[1..] == [];
      assert FlatAll(kids) == Flat(kids[0]);
    } else {
      FlatSorted(kids[0], h, lo, Rank(keys[0]), First(kids[1]));
      FlatAllSorted(keys[1..], kids[1..], h, Rank(keys[0]), hi, end);
    }
  }
}
