/** What deletion writes: the pages of a borrow or a merge, and why they fit. */
module PairPages {
  import opened Bytes
  import opened Storage
  import opened Shape
  import opened Contexts
  import opened Sizes
  import opened Pairs
  import opened NodeEdits

  ghost predicate AllFit(m: map<PageNo, Page>) {
    forall p :: p in m ==> Fits(m[p])
  }

  // ----- The parent

  lemma PairEntries(lk: seq<Key>, ls: seq<PageNo>, x: PageNo, k: Key, y: PageNo, rk: seq<Key>, rs: seq<PageNo>)
    requires |lk| == |ls| && |rk| == |rs| && x !in ls && y !in ls && y !in rs && x != y
    ensures var node := BranchPage(lk + [k] + rk, ls + [x, y] + rs);
            && ChildPosition(node.seps, x) == |lk| < |node.seps| && node.seps[|lk|].key == k
            && (forall k' :: WithSeparator(node, x, k') == BranchPage(lk + [k'] + rk, ls + [x, y] + rs))
            && WithMergedChild(node, x, y) == BranchPage(lk + rk, ls + [x] + rs)
  {
    var node := BranchPage(lk + [k] + rk, ls + [x, y] + rs);
    HoleEntry(lk, ls, x, [k] + rk, [y] + rs);
    assert lk + [k] + rk == lk + ([k] + rk) && ls + [x, y] + rs == ls + [x] + ([y] + rs);
    forall k' ensures WithSeparator(node, x, k') == BranchPage(lk + [k'] + rk, ls + [x, y] + rs) {
      var a, b := WithSeparator(node, x, k'), BranchPage(lk + [k'] + rk, ls + [x, y] + rs);
      assert a.seps == b.seps;
    }
    MergedEntries(lk, ls, x, k, y, rk, rs);
  }

  lemma MergedEntries(lk: seq<Key>, ls: seq<PageNo>, x: PageNo, k: Key, y: PageNo, rk: seq<Key>, rs: seq<PageNo>)
    requires |lk| == |ls| && |rk| == |rs| && y !in ls && y !in rs && x != y
    requires ChildPosition(BranchPage(lk + [k] + rk, ls + [x, y] + rs).seps, x) == |lk|
    ensures WithMergedChild(BranchPage(lk + [k] + rk, ls + [x, y] + rs), x, y) == BranchPage(lk + rk, ls + [x] + rs)
  {
    hide ChildPosition;
    var node, r := BranchPage(lk + [k] + rk, ls + [x, y] + rs), BranchPage(lk + rk, ls + [x] + rs);
    var seps := node.seps[..|lk|] + node.seps[|lk| + 1..];
    assert seps == BranchPage(lk + rk, ls + [y] + rs).seps;
    HoleEntry(lk, ls, y, rk, rs);
    if rs == [] {
      assert node.rightmostChild == y;
      assert seps == r.seps;
    } else {
      assert node.rightmostChild == rs[|rs| - 1] && rs[|rs| - 1] in rs;
      assert seps[|lk| := seps[|lk|].(leftChild := x)] == r.seps;
    }
  }

  lemma ParentOfPair(m: map<PageNo, Page>, c: Context, x: Tree, k: Key, y: Tree, h: nat, d: Discipline, fx: nat,
                     fy: nat)
    requires Paired(m, c, x, k, y, h, d, fx, fy)
    ensures c.In? && c.p in m && x.p in m && y.p in m && c.p != x.p && c.p != y.p && x.p != y.p
    ensures m[c.p] == BranchPage(c.lk + [k] + c.rk, Roots(c.ls) + [x.p, y.p] + Roots(c.rs))
    ensures var node := m[c.p];
            && ChildPosition(node.seps, x.p) == |c.lk| < |node.seps| && node.seps[|c.lk|].key == k
            && (forall k' :: WithSeparator(node, x.p, k')
                          == BranchPage(c.lk + [k'] + c.rk, Roots(c.ls) + [x.p, y.p] + Roots(c.rs)))
            && WithMergedChild(node, x.p, y.p) == BranchPage(c.lk + c.rk, Roots(c.ls) + [x.p] + Roots(c.rs))
  {
    hide Rank, HeldAll, HeldAround, FootprintAll, OrderedAll, OrderedAround, Filled, FilledBeside, ChildPosition,
      WithSeparator, WithMergedChild, BranchPage;
    PairApart(m, c, x, k, y, h, d, fx, fy);
    PairEntries(c.lk, Roots(c.ls), x.p, k, y.p, c.rk, Roots(c.rs));
  }

  /** With fixed widths the parent fits with another separator, and with one less. */
  lemma ParentFits(m: map<PageNo, Page>, c: Context, x: Tree, k: Key, y: Tree, k': Key, h: nat, d: Discipline,
                   fx: nat, fy: nat)
    requires Paired(m, c, x, k, y, h, d, fx, fy) && AllFit(m) && KeyOk(d, k') && d.FixedWidth?
    ensures Fits(BranchPage(c.lk + [k'] + c.rk, Roots(c.ls) + [x.p, y.p] + Roots(c.rs)))
    ensures Fits(BranchPage(c.lk + c.rk, Roots(c.ls) + [x.p] + Roots(c.rs)))
  {
    hide Rank, HeldAll, HeldAround, Held, FootprintAll, OrderedAll, OrderedAround, Filled, FilledAll, BranchPage, KeyOk;
    var pages := Roots(c.ls) + [x.p, y.p] + Roots(c.rs);
    assert KeysOk(d, [k]) && KeysOk(d, [k']);
    ConcatKeysOk(d, c.lk + [k], c.rk);
    ConcatKeysOk(d, c.lk, [k]);
    ConcatKeysOk(d, c.lk + [k'], c.rk);
    ConcatKeysOk(d, c.lk, [k']);
    ConcatKeysOk(d, c.lk, c.rk);
    BranchShrinks(c.lk + [k] + c.rk, pages, c.lk + [k'] + c.rk, pages, d);
    BranchShrinks(c.lk + [k] + c.rk, pages, c.lk + c.rk, Roots(c.ls) + [x.p] + Roots(c.rs), d);
  }

  // ----- Leaves

  lemma LeafPartFits(part: seq<LeafEntry>, next: PageNo, es: seq<LeafEntry>, next': PageNo, d: Discipline)
    requires EntriesOk(d, part) && EntriesOk(d, es) && Roomy(d) && d.FixedWidth?
    requires |part| <= 3 || (|part| <= |es| && Fits(LeafPage(es, next')))
    ensures Fits(LeafPage(part, next))
  {
    if |part| <= 3 {
      SmallLeafFits(part, next, d);
    } else {
      LeafShrinks(es, next', part, next, d);
    }
  }

  lemma BranchPartFits(part: seq<Key>, pages: seq<PageNo>, keys: seq<Key>, pages': seq<PageNo>, d: Discipline)
    requires |pages| == |part| + 1 && |pages'| == |keys| + 1
    requires KeysOk(d, part) && KeysOk(d, keys) && Roomy(d) && d.FixedWidth?
    requires |part| <= 4 || (|part| <= |keys| && Fits(BranchPage(keys, pages')))
    ensures Fits(BranchPage(part, pages))
  {
    if |part| <= 4 {
      SmallBranchFits(part, pages, d);
    } else {
      BranchShrinks(keys, pages', part, pages, d);
    }
  }

  /** Everything a borrow between leaves writes, for any cut. */
  lemma RecutLeavesFit(m: map<PageNo, Page>, c: Context, x: Tree, k: Key, y: Tree, cut: nat, d: Discipline,
                       fx: nat, fy: nat)
    requires Paired(m, c, x, k, y, 0, d, fx, fy) && AllFit(m) && Roomy(d) && d.FixedWidth? && x.Leaf? && y.Leaf?
    requires cut < |x.es| + |y.es| && (cut <= 3 || cut <= |x.es|)
    requires |x.es| + |y.es| - cut <= 3 || |x.es| + |y.es| - cut <= |y.es|
    ensures var es := x.es + y.es;
            && Fits(LeafPage(es[..cut], x.next)) && Fits(LeafPage(es[cut..], y.next))
            && Fits(BranchPage(c.lk + [es[cut].key] + c.rk, Roots(c.ls) + [x.p, y.p] + Roots(c.rs)))
  {
    hide Rank, HeldAll, HeldAround, FootprintAll, OrderedAll, OrderedAround, FilledAll, FilledBeside, BranchPage, Fits;
    var es := x.es + y.es;
    assert es == es[..cut] + es[cut..];
    ConcatEntriesOk(d, x.es, y.es);
    ConcatEntriesOk(d, es[..cut], es[cut..]);
    LeafPartFits(es[..cut], x.next, x.es, x.next, d);
    LeafPartFits(es[cut..], y.next, y.es, y.next, d);
    assert EntryOk(d, es[cut]);
    ParentFits(m, c, x, k, y, es[cut].key, 0, d, fx, fy);
  }

  lemma RecutBranchesFit(m: map<PageNo, Page>, c: Context, x: Tree, k: Key, y: Tree, cut: nat, h: nat, d: Discipline,
                         fx: nat, fy: nat)
    requires Paired(m, c, x, k, y, h, d, fx, fy) && AllFit(m) && Roomy(d) && d.FixedWidth? && x.Branch? && y.Branch?
    requires |x.kids| == |x.keys| + 1 && |y.kids| == |y.keys| + 1
    requires cut < |x.keys| + 1 + |y.keys| && (cut <= 4 || cut <= |x.keys|)
    requires |x.keys| + |y.keys| - cut <= 4 || |x.keys| + |y.keys| - cut <= |y.keys|
    ensures var keys, kids := x.keys + [k] + y.keys, x.kids + y.kids;
            && Fits(BranchPage(keys[..cut], Roots(kids[..cut + 1])))
            && Fits(BranchPage(keys[cut + 1..], Roots(kids[cut + 1..])))
            && Fits(BranchPage(c.lk + [keys[cut]] + c.rk, Roots(c.ls) + [x.p, y.p] + Roots(c.rs)))
  {
    hide Rank, HeldAll, HeldAround, FootprintAll, OrderedAll, OrderedAround, FilledAll, FilledBeside, BranchPage, Fits,
      KeyOk;
    var keys, kids := x.keys + [k] + y.keys, x.kids + y.kids;
    CutBranchesKeys(x.keys, k, y.keys, cut, d);
    BranchPartFits(keys[..cut], Roots(kids[..cut + 1]), x.keys, Roots(x.kids), d);
    BranchPartFits(keys[cut + 1..], Roots(kids[cut + 1..]), y.keys, Roots(y.kids), d);
    ParentFits(m, c, x, k, y, keys[cut], h, d, fx, fy);
  }

  // ----- Entries of a branch that took a child from its neighbour

  lemma BorrowRightEntries(kx: seq<Key>, px: seq<PageNo>, k: Key, ky: seq<Key>, py: seq<PageNo>)
    requires |px| == |kx| + 1 && |py| == |ky| + 1 && ky != []
    ensures var (x, y) := (BranchPage(kx, px), BranchPage(ky, py));
            var keys, pages, cut := kx + [k] + ky, px + py, |kx| + 1;
            && InternalPage(x.seps + [InternalEntry(k, x.rightmostChild)], y.seps[0].leftChild)
               == BranchPage(keys[..cut], pages[..cut + 1])
            && InternalPage(y.seps[1..], y.rightmostChild) == BranchPage(keys[cut + 1..], pages[cut + 1..])
            && y.seps[0].key == keys[cut]
  {
    var keys, pages, cut := kx + [k] + ky, px + py, |kx| + 1;
    assert keys[..cut] == kx + [k] && pages[..cut + 1] == px + [py[0]];
    assert keys[cut + 1..] == ky[1..] && pages[cut + 1..] == py[1..];
  }

  lemma BorrowLeftEntries(kx: seq<Key>, px: seq<PageNo>, k: Key, ky: seq<Key>, py: seq<PageNo>)
    requires |px| == |kx| + 1 && |py| == |ky| + 1 && kx != []
    ensures var (x, y) := (BranchPage(kx, px), BranchPage(ky, py));
            var keys, pages, cut := kx + [k] + ky, px + py, |kx| - 1;
            && InternalPage(x.seps[..cut], x.seps[cut].leftChild) == BranchPage(keys[..cut], pages[..cut + 1])
            && InternalPage([InternalEntry(k, x.rightmostChild)] + y.seps, y.rightmostChild)
               == BranchPage(keys[cut + 1..], pages[cut + 1..])
            && x.seps[cut].key == keys[cut]
  {
    var keys, pages, cut := kx + [k] + ky, px + py, |kx| - 1;
    assert keys[..cut] == kx[..cut] && pages[..cut + 1] == px[..|kx|];
    assert keys[cut + 1..] == [k] + ky && pages[cut + 1..] == [px[|kx|]] + py;
  }

  lemma MergeEntries(kx: seq<Key>, px: seq<PageNo>, k: Key, ky: seq<Key>, py: seq<PageNo>)
    requires |px| == |kx| + 1 && |py| == |ky| + 1
    ensures var (x, y) := (BranchPage(kx, px), BranchPage(ky, py));
            InternalPage(x.seps + [InternalEntry(k, x.rightmostChild)] + y.seps, y.rightmostChild)
            == BranchPage(kx + [k] + ky, px + py)
  {
  }
}
