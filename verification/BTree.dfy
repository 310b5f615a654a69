/** The B+tree: search, insertion and deletion on pages, climbing a stack of page numbers. */
module BTrees {
  import opened Bytes
  import opened Storage
  import opened Shape
  import opened Contexts
  import opened Contents
  import opened Sizes
  import opened Focus
  import opened NodeEdits
  import opened Pairs
  import opened PairPages
  import opened DescendSteps
  import opened InsertSteps
  import opened Limits
  import opened DeleteSteps
  import opened Cursors
  import opened ScanSteps
  import opened CheckSteps

  class BTree {
    const pager: Pager
    var root: PageNo
    ghost const d: Discipline
    ghost var tree: Tree
    ghost var height: nat

    ghost predicate Valid()
      reads this, pager
    {
      pager.Valid() && Roomy(d) && root == tree.p && Stored(pager.pages, tree, height, d)
    }

    ghost function Model(): map<Key, seq<byte>>
      reads this
    {
      MapOf(Flat(tree))
    }

    /** Opens the tree that is stored at a page. */
    constructor (pager: Pager, root: PageNo, ghost tree: Tree, ghost height: nat, ghost d: Discipline)
      requires pager.Valid() && Roomy(d) && root == tree.p && Stored(pager.pages, tree, height, d)
      ensures this.pager == pager && this.root == root && this.d == d
      ensures this.tree == tree && this.height == height && Valid()
    {
      this.pager, this.root, this.d, this.tree, this.height := pager, root, d, tree, height;
    }

    /** Follows the separators down to the leaf that can hold the key. */
    method Descend(key: Key) returns (path: seq<PageNo>, current: PageNo, ghost c: Context, ghost leaf: Tree)
      requires Valid()
      ensures Shaped(c) && path == PathOf(c) && Depth(c) == height
      ensures leaf.Leaf? && leaf.p == current && Plug(c, leaf) == tree
      ensures HeldAround(pager.pages, c, current) && Held(pager.pages, leaf)
      ensures Lo(c) <= Rank(key) < Hi(c)
    {
      hide Rank, OrderedAround, OrderedAll, HeldAround, HeldAll, First, Lo, Hi, End, RouteIndex, ChildForKey, Plug,
        Sound, RootFilled, NoRepeats, Roomy;
      path, current := [], root;
      c, leaf := Top, tree;
      AtTop(pager.pages, tree, height);
      while pager.pages[current].InternalPage?
        invariant Shaped(c) && path == PathOf(c) && leaf.p == current && Plug(c, leaf) == tree
        invariant HeldAround(pager.pages, c, current) && Held(pager.pages, leaf)
        invariant Depth(c) <= height && OrderedAround(c, height - Depth(c), First(leaf))
        invariant Ordered(leaf, height - Depth(c), Lo(c), Hi(c), End(c))
        invariant Lo(c) <= Rank(key) < Hi(c)
        decreases leaf
      {
        var page := pager.pages[current];
        ghost var i := RouteIndex(page.seps, key);
        DescendStep(pager.pages, c, leaf, key, height - Depth(c));
        DepthInto(c, leaf, i);
        path := path + [current];
        current := ChildForKey(page, key);
        c, leaf := Into(c, leaf, i), leaf.kids[i];
      }
      assert height == Depth(c);
    }

    method Search(key: Key) returns (r: Option<seq<byte>>)
      requires Valid()
      ensures r == if key in Model() then Some(Model()[key]) else None
    {
      var _, leafNo, c, leaf := Descend(key);
      var es := pager.pages[leafNo].entries;
      var i := KeyPosition(es, key);
      LeafLookup(pager.pages, c, leaf, key, height, d);
      if i < |es| {
        r := Some(es[i].payload);
      } else {
        r := None;
      }
    }

    method Insert(key: Key, payload: seq<byte>) returns (r: Outcome)
      requires Valid() && EntryOk(d, LeafEntry(key, payload))
      modifies this, pager
      ensures pager.Valid() && pager.freed == old(pager.freed)
      ensures SingleEntrySize(key, payload) > PAGE_SIZE ==>
                r == Failed(RowTooLarge(SingleEntrySize(key, payload), PAGE_SIZE))
      ensures SingleEntrySize(key, payload) <= PAGE_SIZE && key in old(Model()) ==> r == Failed(DuplicateKey)
      ensures SingleEntrySize(key, payload) <= PAGE_SIZE && key !in old(Model()) ==>
                r == Done || (r == Failed(PageOverflow) && !Splittable(d) && NoRoomFor(old(tree), key, payload))
      ensures r.Failed? && !r.error.PageOverflow? ==> pager.pages == old(pager.pages) && unchanged(this)
      ensures r.Done? ==>
                && Valid() && Model() == old(Model())[key := payload]
                && Grown(old(pager.pages), pager.pages, old(Footprint(tree)), tree)
    {
      if SingleEntrySize(key, payload) > PAGE_SIZE {
        return Failed(RowTooLarge(SingleEntrySize(key, payload), PAGE_SIZE));
      }
      hide Rank, Lo, Hi, End, Pending, Grown, Rewritten, Stored, Around, Plug, Before, After, Flat, Footprint, MapOf,
        HeldAround, Held, Shaped, PathOf, Depth, EntryOk, Roomy, KeyPosition, InsertEntry, EntriesOk, SortedIn, RootOf,
        Least, MinFill, NoRepeats, Halvable;
      var path, leafNo, c, leaf := Descend(key);
      LeafLookup(pager.pages, c, leaf, key, height, d);
      var es, oldNext := pager.pages[leafNo].entries, pager.pages[leafNo].nextLeaf;
      if KeyPosition(es, key) < |es| {
        return Failed(DuplicateKey);
      }
      var entries := InsertEntry(es, key, payload);
      var page := LeafPage(entries, oldNext);
      if EncodedSize(page) <= PAGE_SIZE {
        WriteLeafNode(leafNo, entries, oldNext, c, leaf, key, payload);
        return Done;
      }
      InsertOverflows(pager.pages, c, leaf, key, payload, height, d);
      assert FullAt(tree, c, leaf, key, payload);
      if d.ShortKeys? && d.small {
        SmallLeafSplits(pager.pages, c, leaf, key, payload, height, d);
      }
      r := SplitLeafNode(path, leafNo, entries, oldNext, c, leaf);
    }

    /** The part of `insert` that deals with a leaf that still fits its page. */
    method WriteLeafNode(leafNo: PageNo, entries: seq<LeafEntry>, next: PageNo,
                         ghost c: Context, ghost leaf: Tree, ghost key: Key, ghost payload: seq<byte>)
      requires Valid() && Shaped(c) && leaf.Leaf? && Plug(c, leaf) == tree && Depth(c) == height
      requires leafNo == leaf.p && next == leaf.next && leafNo in pager.pages
      requires Lo(c) <= Rank(key) < Hi(c) && key !in Model() && EntryOk(d, LeafEntry(key, payload))
      requires entries == InsertEntry(leaf.es, key, payload) && Fits(LeafPage(entries, next))
      modifies this, pager
      ensures Valid() && pager.freed == old(pager.freed)
      ensures Model() == old(Model())[key := payload]
      ensures Grown(old(pager.pages), pager.pages, old(Footprint(tree)), tree)
    {
      hide Rank, Lo, Hi, Grown, Stored, Plug, Flat, Footprint, MapOf, Shaped, Depth, EntryOk, Roomy, InsertEntry;
      InsertInPlace(pager.pages, pager.pages[leafNo := LeafPage(entries, next)], c, leaf, key, payload, height, d);
      var _ := pager.Write(leafNo, LeafPage(entries, next));
      tree := Plug(c, Leaf(leafNo, entries, next));
    }

    /** The part of `insert` that deals with a leaf that no longer fits its page. */
    method SplitLeafNode(path: seq<PageNo>, leafNo: PageNo, entries: seq<LeafEntry>, oldNext: PageNo,
                         ghost c: Context, ghost leaf: Tree)
      returns (r: Outcome)
      requires Valid() && Shaped(c) && leaf.Leaf? && Plug(c, leaf) == tree && Depth(c) == height
      requires path == PathOf(c) && leafNo == leaf.p && oldNext == leaf.next
      requires SortedIn(entries, Lo(c), Hi(c)) && EntriesOk(d, entries)
      requires Halvable(entries, oldNext, d)
      modifies this, pager
      ensures pager.Valid() && pager.freed == old(pager.freed)
      ensures r.Done? ==>
                && Valid() && Flat(tree) == Before(c) + entries + After(c)
                && Grown(old(pager.pages), pager.pages, old(Footprint(tree)), tree)
      ensures r.Failed? ==> r.error.PageOverflow? && !d.FixedWidth?
      ensures r.Failed? <==> NoHalves(c, entries)
    {
      hide Rank, Lo, Hi, End, Pending, Grown, Rewritten, Stored, Around, Plug, Before, After, Flat, Footprint, MapOf,
        HeldAround, Held, Shaped, PathOf, Depth, EntryOk, Roomy, EntriesOk, SortedIn, RootOf, Least, MinFill;
      LeafInHole(pager.pages, c, leaf, height, d);
      var mid := |entries| / 2;
      var rightNo := pager.AllocatePage();
      var separator := entries[mid].key;
      :- pager.Write(leafNo, LeafPage(entries[..mid], rightNo));
      :- pager.Write(rightNo, LeafPage(entries[mid..], oldNext));
      ghost var left, right := Leaf(leafNo, entries[..mid], rightNo), Leaf(rightNo, entries[mid..], oldNext);
      SplitLeaf(old(pager.pages), pager.pages, c, leafNo, rightNo, entries, mid, oldNext, d);
      LeafHalves(c, leafNo, rightNo, entries, mid, oldNext);
      ghost var m1 := pager.pages;
      r := InsertIntoParent(path, leafNo, separator, rightNo, c, left, right, 0);
      if r.Done? {
        GrownThen(old(pager.pages), m1, pager.pages, Around(c) + multiset{leafNo},
          Around(c) + (Footprint(left) + Footprint(right)), tree);
      }
    }

    method InsertIntoParent(path: seq<PageNo>, leftChild: PageNo, separator: Key, rightChild: PageNo,
                            ghost c: Context, ghost left: Tree, ghost right: Tree, ghost h: nat)
      returns (r: Outcome)
      requires pager.Valid() && Roomy(d) && Pending(pager.pages, c, [separator], [left, right], h, d)
      requires path == PathOf(c) && leftChild == left.p && rightChild == right.p && root == RootOf(c, leftChild)
      modifies this, pager
      ensures pager.Valid() && pager.freed == old(pager.freed)
      ensures r.Done? ==>
                && Valid() && Flat(tree) == Before(c) + (Flat(left) + Flat(right)) + After(c)
                && Grown(old(pager.pages), pager.pages, Around(c) + (Footprint(left) + Footprint(right)), tree)
      ensures r.Failed? ==> r.error.PageOverflow? && !d.FixedWidth?
      ensures r.Failed? <==> NoRoomAbove(c, separator)
      decreases c, 0
    {
      hide Rank, HeldAround, OrderedAround, FilledAround, OrderedAll, HeldAll, FilledAll, FlatAll, FootprintAll, Lo, Hi,
        End, Footprint, Flat, First, MinFill, Ordered, Filled, KeysOk, Held, Grown, Pending, Around, Before, After,
        Stored, Roomy, Oversize, WithSplitChild, BranchPage;
      PathEnds(c);
      if path == [] {
        var newRootNo := pager.AllocatePage();
        var newRoot := InternalPage([InternalEntry(separator, leftChild)], rightChild);
        NewRoot(old(pager.pages), pager.pages[newRootNo := newRoot], newRootNo, separator, left, right, h, d);
        NewRootFits(separator, leftChild, rightChild);
        :- pager.Write(newRootNo, newRoot);
        root, tree, height := newRootNo, Branch(newRootNo, [separator], [left, right]), h + 1;
        AtTop(pager.pages, left, h);
        assert Before(c) + (Flat(left) + Flat(right)) + After(c) == Flat(left) + Flat(right);
        return Done;
      }
      var parentNo := path[|path| - 1];
      ToOversize(pager.pages, c, separator, left, right, h, d);
      SplitChildPage(pager.pages, c, separator, left, right, h, d);
      var node := WithSplitChild(pager.pages[parentNo], leftChild, separator, rightChild);
      if EncodedSize(node) <= PAGE_SIZE {
        AbsorbSplit(pager.pages, pager.pages[parentNo := node], c, separator, left, right, h, d);
        var _ := pager.Write(parentNo, node);
        tree, height := Graft(c, [separator], [left, right]), h + Depth(c);
        PlugRoot(c.up, Branch(c.p, c.lk + [separator] + c.rk, c.ls + [left, right] + c.rs));
        return Done;
      }
      r := SplitInternal(path[..|path| - 1], parentNo, node, c.up, c.lk + [separator] + c.rk,
          c.ls + [left, right] + c.rs, h);
      Beside(c);
      Regroup(Before(c.up), FlatAll(c.ls), Flat(left) + Flat(right), FlatAll(c.rs), After(c.up));
    }

    method SplitInternal(path: seq<PageNo>, parentNo: PageNo, node: Page,
                         ghost c: Context, ghost keys: seq<Key>, ghost kids: seq<Tree>, ghost h: nat)
      returns (r: Outcome)
      requires pager.Valid() && Roomy(d) && Oversize(pager.pages, c, parentNo, keys, kids, h, d)
      requires node == BranchPage(keys, Roots(kids)) && !Fits(node)
      requires path == PathOf(c) && root == RootOf(c, parentNo)
      modifies this, pager
      ensures pager.Valid() && pager.freed == old(pager.freed)
      ensures r.Done? ==>
                && Valid() && Flat(tree) == Before(c) + FlatAll(kids) + After(c)
                && Grown(old(pager.pages), pager.pages, Around(c) + multiset{parentNo} + FootprintAll(kids), tree)
      ensures r.Failed? ==> r.error.PageOverflow? && !d.FixedWidth?
      ensures r.Failed? <==> NoCut(c, keys)
      decreases c, 1
    {
      hide Rank, HeldAround, OrderedAround, FilledAround, OrderedAll, HeldAll, FilledAll, FlatAll, FootprintAll, Lo, Hi,
        End, First, MinFill, KeysOk, Grown, Pending, Around, Before, After, Stored, Roomy, Held, Oversize, Flat,
        Footprint, Roots, Rewritten;
      var s := |node.seps| / 2;
      OversizeCut(pager.pages, c, parentNo, keys, kids, s, h, d);
      var promote := node.seps[s];
      var rightNo := pager.AllocatePage();
      var leftNode := InternalPage(node.seps[..s], promote.leftChild);
      var rightNode := InternalPage(node.seps[s + 1..], node.rightmostChild);
      BranchFits(keys[..s], Roots(kids[..s + 1]));
      BranchFits(keys[s + 1..], Roots(kids[s + 1..]));
      :- pager.Write(parentNo, leftNode);
      :- pager.Write(rightNo, rightNode);
      ghost var left := Branch(parentNo, keys[..s], kids[..s + 1]);
      ghost var right := Branch(rightNo, keys[s + 1..], kids[s + 1..]);
      OversizeSplit(old(pager.pages), pager.pages, c, parentNo, rightNo, keys, kids, s, h, d);
      ghost var m1 := pager.pages;
      r := InsertIntoParent(path, parentNo, promote.key, rightNo, c, left, right, h + 1);
      if r.Done? {
        GrownThen(old(pager.pages), m1, pager.pages, Around(c) + multiset{parentNo} + FootprintAll(kids),
          Around(c) + (Footprint(left) + Footprint(right)), tree);
      }
    }

    /** What a borrow or a merge leaves: the same entries, on no new page. */
    ghost predicate Rebalanced(m: map<PageNo, Page>, root0: PageNo, c: Context, x: Tree, y: Tree)
      reads this, pager
    {
      && Valid() && Flat(tree) == Before(c) + (Flat(x) + Flat(y)) + After(c)
      && Shrunk(m, pager.pages, Around(c) + (Footprint(x) + Footprint(y)), tree, Lost(root0, root))
    }

    method FindSiblings(parentNo: PageNo, childNo: PageNo, ghost c: Context)
      returns (left: Option<PageNo>, right: Option<PageNo>)
      requires c.In? && HeldAround(pager.pages, c, childNo) && parentNo == c.p && childNo !in Roots(c.ls)
      ensures left == if c.ls == [] then None else Some(c.ls[|c.ls| - 1].p)
      ensures right == if c.rs == [] then None else Some(c.rs[0].p)
    {
      var children := Children(pager.pages[parentNo]);
      SiblingPages(pager.pages[parentNo], c, childNo);
      var idx := IndexOf(children, childNo);
      left := if idx > 0 then Some(children[idx - 1]) else None;
      right := if idx + 1 < |children| then Some(children[idx + 1]) else None;
    }

    method UpdateSeparator(parentNo: PageNo, leftChild: PageNo, newKey: Key) returns (r: Outcome)
      requires pager.Valid() && parentNo in pager.pages
      requires var node := pager.pages[parentNo];
               node.InternalPage? && ChildPosition(node.seps, leftChild) < |node.seps|
      modifies pager
      ensures pager.Valid() && pager.freed == old(pager.freed)
      ensures var node := WithSeparator(old(pager.pages)[parentNo], leftChild, newKey);
              if Fits(node) then r == Done && pager.pages == old(pager.pages)[parentNo := node]
              else r == Failed(PageOverflow)
    {
      r := pager.Write(parentNo, WithSeparator(pager.pages[parentNo], leftChild, newKey));
    }

    method BorrowFromRightLeaf(parentNo: PageNo, nodeNo: PageNo, rightNo: PageNo, ghost c: Context, ghost x: Tree,
                               ghost k: Key, ghost y: Tree, ghost fx: nat, ghost fy: nat)
      returns (r: Outcome)
      requires pager.Valid() && Roomy(d) && Paired(pager.pages, c, x, k, y, 0, d, fx, fy)
      requires parentNo == c.p && root == RootOf(c.up, c.p)
      requires x.Leaf? && y.Leaf? && nodeNo == x.p && rightNo == y.p
      requires Under(MinFill(d)) <= |x.es| < MIN_ENTRIES < |y.es|
      modifies this, pager
      ensures pager.Valid() && old(pager.freed) <= pager.freed
      ensures r.Done? ==> Rebalanced(old(pager.pages), old(root), c, x, y)
      ensures r.Failed? ==> r.error.PageOverflow? && !d.FixedWidth?
      ensures r.Failed? <==> NoRecut(c, x.es + y.es, |x.es| + 1)
    {
      hide Rank, HeldAll, HeldAround, FootprintAll, FlatAll, OrderedAll, OrderedAround, FilledAll, FilledBeside,
        BranchPage, Fits, Paired, Stored, Graft, Before, After, Around, Rewritten, Roomy, ChildPosition, WithSeparator,
        WithMergedChild, RootOf, Depth, KeyOk, MinFill, KeysFit, Flat, Footprint, First, Least, Held,
        NoRepeats;
      ghost var es, cut := x.es + y.es, |x.es| + 1;
      AllMinFills(d);
      ParentOfPair(pager.pages, c, x, k, y, 0, d, fx, fy);
      PairLeafPages(pager.pages, c, x, k, y, d, fx, fy);
      ParentSizes(pager.pages, c, x, k, y, 0, d, fx, fy);
      LeafFitsAnywhere(es[..cut], x.next, 0);
      LeafFitsAnywhere(es[cut..], y.next, 0);
      if d.FixedWidth? {
        RecutLeavesFit(pager.pages, c, x, k, y, cut, d, fx, fy);
      }
      var node, right := pager.pages[nodeNo], pager.pages[rightNo];
      var moved := right.entries[0];
      var newSeparator := right.entries[1].key;
      assert es[..cut] == node.entries + [moved] && es[cut..] == right.entries[1..] && es[cut].key == newSeparator;
      :- pager.Write(nodeNo, LeafPage(node.entries + [moved], node.nextLeaf));
      :- pager.Write(rightNo, LeafPage(right.entries[1..], right.nextLeaf));
      ghost var m1 := pager.pages;
      :- UpdateSeparator(parentNo, nodeNo, newSeparator);
      LeavesRecut(old(pager.pages), m1, pager.pages, c, x, k, y, cut, d, fx, fy);
      tree := Graft(c, [newSeparator], [Leaf(x.p, es[..cut], x.next), Leaf(y.p, es[cut..], y.next)]);
      height := Depth(c);
      return Done;
    }

    method BorrowFromLeftLeaf(parentNo: PageNo, leftNo: PageNo, nodeNo: PageNo, ghost c: Context, ghost x: Tree,
                              ghost k: Key, ghost y: Tree, ghost fx: nat, ghost fy: nat)
      returns (r: Outcome)
      requires pager.Valid() && Roomy(d) && Paired(pager.pages, c, x, k, y, 0, d, fx, fy)
      requires parentNo == c.p && root == RootOf(c.up, c.p)
      requires x.Leaf? && y.Leaf? && leftNo == x.p && nodeNo == y.p
      requires Under(MinFill(d)) <= |y.es| < MIN_ENTRIES < |x.es|
      modifies this, pager
      ensures pager.Valid() && old(pager.freed) <= pager.freed
      ensures r.Done? ==> Rebalanced(old(pager.pages), old(root), c, x, y)
      ensures r.Failed? ==> r.error.PageOverflow? && !d.FixedWidth?
      ensures r.Failed? <==> NoRecut(c, x.es + y.es, |x.es| - 1)
    {
      hide Rank, HeldAll, HeldAround, FootprintAll, FlatAll, OrderedAll, OrderedAround, FilledAll, FilledBeside,
        BranchPage, Fits, Paired, Stored, Graft, Before, After, Around, Rewritten, Roomy, ChildPosition, WithSeparator,
        WithMergedChild, RootOf, Depth, KeyOk, MinFill, KeysFit, Flat, Footprint, First, Least, Held,
        NoRepeats;
      ghost var es, cut := x.es + y.es, |x.es| - 1;
      AllMinFills(d);
      ParentOfPair(pager.pages, c, x, k, y, 0, d, fx, fy);
      PairLeafPages(pager.pages, c, x, k, y, d, fx, fy);
      ParentSizes(pager.pages, c, x, k, y, 0, d, fx, fy);
      LeafFitsAnywhere(es[..cut], x.next, 0);
      LeafFitsAnywhere(es[cut..], y.next, 0);
      if d.FixedWidth? {
        RecutLeavesFit(pager.pages, c, x, k, y, cut, d, fx, fy);
      }
      var left, node := pager.pages[leftNo], pager.pages[nodeNo];
      var last := |left.entries| - 1;
      var moved := left.entries[last];
      var newSeparator := moved.key;
      LastMoves(left.entries, node.entries);
      :- pager.Write(leftNo, LeafPage(left.entries[..last], left.nextLeaf));
      :- pager.Write(nodeNo, LeafPage([moved] + node.entries, node.nextLeaf));
      ghost var m1 := pager.pages;
      :- UpdateSeparator(parentNo, leftNo, newSeparator);
      LeavesRecut(old(pager.pages), m1, pager.pages, c, x, k, y, cut, d, fx, fy);
      tree := Graft(c, [newSeparator], [Leaf(x.p, es[..cut], x.next), Leaf(y.p, es[cut..], y.next)]);
      height := Depth(c);
      return Done;
    }

    static lemma LastMoves(a: seq<LeafEntry>, b: seq<LeafEntry>)
      requires a != []
      ensures var es, cut := a + b, |a| - 1;
              es[..cut] == a[..cut] && es[cut..] == [a[cut]] + b && es[cut] == a[cut]
    {
    }

    method BorrowFromRightInternal(parentNo: PageNo, nodeNo: PageNo, rightNo: PageNo, ghost c: Context, ghost x: Tree,
                                   ghost k: Key, ghost y: Tree, ghost h: nat, ghost fx: nat, ghost fy: nat)
      returns (r: Outcome)
      requires pager.Valid() && Roomy(d) && Paired(pager.pages, c, x, k, y, h + 1, d, fx, fy)
      requires parentNo == c.p && root == RootOf(c.up, c.p)
      requires x.Branch? && y.Branch? && nodeNo == x.p && rightNo == y.p
      requires Under(MinFill(d)) <= |x.keys| < MIN_ENTRIES < |y.keys|
      modifies this, pager
      ensures pager.Valid() && old(pager.freed) <= pager.freed
      ensures r.Done? ==> Rebalanced(old(pager.pages), old(root), c, x, y)
      ensures r.Failed? ==> r.error.PageOverflow? && !d.FixedWidth?
      ensures r.Failed? <==> NoRecutKeys(c, x.keys + [k] + y.keys, |x.keys| + 1)
    {
      hide Rank, HeldAll, HeldAround, FootprintAll, FlatAll, OrderedAll, OrderedAround, FilledAll, FilledBeside,
        BranchPage, Fits, Paired, Stored, Graft, Before, After, Around, Rewritten, Roomy, ChildPosition, WithSeparator,
        WithMergedChild, RootOf, Depth, KeyOk, MinFill, KeysFit, Flat, Footprint, First, Least, Held,
        NoRepeats;
      AllMinFills(d);
      ParentOfPair(pager.pages, c, x, k, y, h + 1, d, fx, fy);
      PairBranchPages(pager.pages, c, x, k, y, h + 1, d, fx, fy);
      ghost var keys, kids, cut := x.keys + [k] + y.keys, x.kids + y.kids, |x.keys| + 1;
      ParentSizes(pager.pages, c, x, k, y, h + 1, d, fx, fy);
      if d.FixedWidth? {
        RecutBranchesFit(pager.pages, c, x, k, y, cut, h + 1, d, fx, fy);
      }
      BorrowedRight(x.keys, x.kids, k, y.keys, y.kids);
      var node, right, parent := pager.pages[nodeNo], pager.pages[rightNo], pager.pages[parentNo];
      var sepIdx := ChildPosition(parent.seps, nodeNo);
      var sepKey := parent.seps[sepIdx].key;
      var moved := right.seps[0];
      :- pager.Write(nodeNo, InternalPage(node.seps + [InternalEntry(sepKey, node.rightmostChild)], moved.leftChild));
      :- pager.Write(rightNo, InternalPage(right.seps[1..], right.rightmostChild));
      ghost var m1 := pager.pages;
      :- pager.Write(parentNo, WithSeparator(parent, nodeNo, moved.key));
      BranchesRecut(old(pager.pages), m1, pager.pages, c, x, k, y, cut, h, d, fx, fy);
      tree := Graft(c, [keys[cut]], [Branch(x.p, keys[..cut], kids[..cut + 1]),
                                     Branch(y.p, keys[cut + 1..], kids[cut + 1..])]);
      height := h + 1 + Depth(c);
      return Done;
    }

    method BorrowFromLeftInternal(parentNo: PageNo, leftNo: PageNo, nodeNo: PageNo, ghost c: Context, ghost x: Tree,
                                  ghost k: Key, ghost y: Tree, ghost h: nat, ghost fx: nat, ghost fy: nat)
      returns (r: Outcome)
      requires pager.Valid() && Roomy(d) && Paired(pager.pages, c, x, k, y, h + 1, d, fx, fy)
      requires parentNo == c.p && root == RootOf(c.up, c.p)
      requires x.Branch? && y.Branch? && leftNo == x.p && nodeNo == y.p
      requires Under(MinFill(d)) <= |y.keys| < MIN_ENTRIES < |x.keys|
      modifies this, pager
      ensures pager.Valid() && old(pager.freed) <= pager.freed
      ensures r.Done? ==> Rebalanced(old(pager.pages), old(root), c, x, y)
      ensures r.Failed? ==> r.error.PageOverflow? && !d.FixedWidth?
      ensures r.Failed? <==> NoRecutKeys(c, x.keys + [k] + y.keys, |x.keys| - 1)
    {
      hide Rank, HeldAll, HeldAround, FootprintAll, FlatAll, OrderedAll, OrderedAround, FilledAll, FilledBeside,
        BranchPage, Fits, Paired, Stored, Graft, Before, After, Around, Rewritten, Roomy, ChildPosition, WithSeparator,
        WithMergedChild, RootOf, Depth, KeyOk, MinFill, KeysFit, Flat, Footprint, First, Least, Held,
        NoRepeats;
      AllMinFills(d);
      ParentOfPair(pager.pages, c, x, k, y, h + 1, d, fx, fy);
      PairBranchPages(pager.pages, c, x, k, y, h + 1, d, fx, fy);
      ghost var keys, kids, cut := x.keys + [k] + y.keys, x.kids + y.kids, |x.keys| - 1;
      ParentSizes(pager.pages, c, x, k, y, h + 1, d, fx, fy);
      if d.FixedWidth? {
        RecutBranchesFit(pager.pages, c, x, k, y, cut, h + 1, d, fx, fy);
      }
      BorrowedLeft(x.keys, x.kids, k, y.keys, y.kids);
      var left, node, parent := pager.pages[leftNo], pager.pages[nodeNo], pager.pages[parentNo];
      var sepIdx := ChildPosition(parent.seps, leftNo);
      var sepKey := parent.seps[sepIdx].key;
      var movedChild := left.rightmostChild;
      var last := |left.seps| - 1;
      var lastEntry := left.seps[last];
      :- pager.Write(leftNo, InternalPage(left.seps[..last], lastEntry.leftChild));
      :- pager.Write(nodeNo, InternalPage([InternalEntry(sepKey, movedChild)] + node.seps, node.rightmostChild));
      ghost var m1 := pager.pages;
      :- pager.Write(parentNo, WithSeparator(parent, leftNo, lastEntry.key));
      BranchesRecut(old(pager.pages), m1, pager.pages, c, x, k, y, cut, h, d, fx, fy);
      tree := Graft(c, [keys[cut]], [Branch(x.p, keys[..cut], kids[..cut + 1]),
                                     Branch(y.p, keys[cut + 1..], kids[cut + 1..])]);
      height := h + 1 + Depth(c);
      return Done;
    }

    method MergeLeaves(path: seq<PageNo>, parentNo: PageNo, leftNo: PageNo, rightNo: PageNo,
                       ghost c: Context, ghost x: Tree, ghost k: Key, ghost y: Tree, ghost fx: nat, ghost fy: nat)
      returns (r: Outcome)
      requires pager.Valid() && Roomy(d) && Paired(pager.pages, c, x, k, y, 0, d, fx, fy)
      requires parentNo == c.p && leftNo == x.p && rightNo == y.p && root == RootOf(c.up, c.p) && path == PathOf(c.up)
      requires x.Leaf? && y.Leaf? && MinFill(d) <= |x.es| + |y.es| <= 3
      modifies this, pager
      ensures pager.Valid() && old(pager.freed) <= pager.freed
      ensures r.Done? ==> Rebalanced(old(pager.pages), old(root), c, x, y)
      ensures r.Failed? ==> r.error.PageOverflow? && !d.FixedWidth?
      ensures r.Failed? <==> !Fits(LeafPage(x.es + y.es, 0)) || NodeStuck(c.up, c.lk + c.rk)
    {
      hide Rank, HeldAll, HeldAround, FootprintAll, FlatAll, OrderedAll, OrderedAround, FilledAll, FilledBeside,
        FilledAround, BranchPage, Fits, Paired, Focused, Stored, Graft, Plug, Before, After, Around, Rewritten, Roomy,
        ChildPosition, WithMergedChild, RootOf, Depth, KeyOk, MinFill, Roots, Flat, Footprint, Least, Shrunk, Lost,
        PathOf, First, LessLeft, LessRight, KeysFit, NodeStuck;
      ParentOfPair(pager.pages, c, x, k, y, 0, d, fx, fy);
      PairLeafPages(pager.pages, c, x, k, y, d, fx, fy);
      ParentSizes(pager.pages, c, x, k, y, 0, d, fx, fy);
      LeafFitsAnywhere(x.es + y.es, y.next, 0);
      if d.FixedWidth? {
        MergedLeavesFit(pager.pages, c, x, k, y, d, fx, fy);
      }
      var left, right := pager.pages[leftNo], pager.pages[rightNo];
      :- pager.Write(leftNo, LeafPage(left.entries + right.entries, right.nextLeaf));
      pager.FreePage(rightNo);
      ghost var m1 := pager.pages;
      var _ := pager.Write(parentNo, WithMergedChild(pager.pages[parentNo], leftNo, rightNo));
      ghost var m2 := pager.pages;
      ghost var node := Branch(c.p, c.lk + c.rk, c.ls + [Leaf(x.p, x.es + y.es, y.next)] + c.rs);
      LeavesMerged(old(pager.pages), m1, m2, c, x, k, y, d, fx, fy);
      MergedNode(old(pager.pages), m2, c, x, k, y, node, 0, d, fx, fy);
      r := RebalanceInternal(path, parentNo, c.up, node, 1);
      if r.Done? {
        ShrunkThen(old(pager.pages), m2, pager.pages, Around(c) + (Footprint(x) + Footprint(y)),
          Around(c.up) + Footprint(node), tree, Lost(old(root), root));
      }
    }

    method MergeInternal(path: seq<PageNo>, parentNo: PageNo, leftNo: PageNo, rightNo: PageNo, ghost c: Context,
                         ghost x: Tree, ghost k: Key, ghost y: Tree, ghost h: nat, ghost fx: nat, ghost fy: nat)
      returns (r: Outcome)
      requires pager.Valid() && Roomy(d) && Paired(pager.pages, c, x, k, y, h + 1, d, fx, fy)
      requires parentNo == c.p && leftNo == x.p && rightNo == y.p && root == RootOf(c.up, c.p) && path == PathOf(c.up)
      requires x.Branch? && y.Branch? && MinFill(d) <= |x.keys| + 1 + |y.keys| <= 4
      modifies this, pager
      ensures pager.Valid() && old(pager.freed) <= pager.freed
      ensures r.Done? ==> Rebalanced(old(pager.pages), old(root), c, x, y)
      ensures r.Failed? ==> r.error.PageOverflow? && !d.FixedWidth?
      ensures r.Failed? <==> !KeysFit(x.keys + [k] + y.keys) || NodeStuck(c.up, c.lk + c.rk)
      decreases |path|, 1
    {
      hide Rank, HeldAll, HeldAround, FootprintAll, FlatAll, OrderedAll, OrderedAround, FilledAll, FilledBeside,
        FilledAround, BranchPage, Fits, Paired, Focused, Stored, Graft, Plug, Before, After, Around, Rewritten, Roomy,
        ChildPosition, WithMergedChild, RootOf, Depth, KeyOk, MinFill, Roots, Flat, Footprint, Least, Shrunk, Lost,
        PathOf, First, LessLeft, LessRight, KeysFit, NodeStuck;
      ParentOfPair(pager.pages, c, x, k, y, h + 1, d, fx, fy);
      PairBranchPages(pager.pages, c, x, k, y, h + 1, d, fx, fy);
      ParentSizes(pager.pages, c, x, k, y, h + 1, d, fx, fy);
      BranchFits(x.keys + [k] + y.keys, Roots(x.kids + y.kids));
      if d.FixedWidth? {
        MergedBranchesFit(pager.pages, c, x, k, y, h + 1, d, fx, fy);
      }
      MergeEntries(x.keys, Roots(x.kids), k, y.keys, Roots(y.kids));
      ConcatRoots(x.kids, y.kids);
      var left, right, parent := pager.pages[leftNo], pager.pages[rightNo], pager.pages[parentNo];
      var sepIdx := ChildPosition(parent.seps, leftNo);
      var sepKey := parent.seps[sepIdx].key;
      var seps := left.seps + [InternalEntry(sepKey, left.rightmostChild)] + right.seps;
      :- pager.Write(leftNo, InternalPage(seps, right.rightmostChild));
      pager.FreePage(rightNo);
      ghost var m1 := pager.pages;
      var _ := pager.Write(parentNo, WithMergedChild(parent, leftNo, rightNo));
      ghost var m2 := pager.pages;
      ghost var z := Branch(x.p, x.keys + [k] + y.keys, x.kids + y.kids);
      ghost var node := Branch(c.p, c.lk + c.rk, c.ls + [z] + c.rs);
      BranchesMerged(old(pager.pages), m1, m2, c, x, k, y, h, d, fx, fy);
      MergedNode(old(pager.pages), m2, c, x, k, y, node, h + 1, d, fx, fy);
      r := RebalanceInternal(path, parentNo, c.up, node, h + 2);
      if r.Done? {
        ShrunkThen(old(pager.pages), m2, pager.pages, Around(c) + (Footprint(x) + Footprint(y)),
          Around(c.up) + Footprint(node), tree, Lost(old(root), root));
      }
    }

    method RebalanceInternal(path: seq<PageNo>, nodeNo: PageNo, ghost c: Context, ghost node: Tree, ghost h: nat)
      returns (r: Outcome)
      requires pager.Valid() && Roomy(d) && node.Branch?
      requires Focused(pager.pages, c, node, h, d, Under(Least(c, node, d)))
      requires path == PathOf(c) && nodeNo == node.p && root == RootOf(c, nodeNo)
      modifies this, pager
      ensures pager.Valid() && old(pager.freed) <= pager.freed
      ensures r.Done? ==>
                && Valid() && Flat(tree) == Before(c) + Flat(node) + After(c)
                && Shrunk(old(pager.pages), pager.pages, Around(c) + Footprint(node), tree, Lost(old(root), root))
      ensures r.Failed? ==> r.error.PageOverflow? && !d.FixedWidth?
      ensures r.Failed? <==> NodeStuck(c, node.keys)
      decreases |path|, 0
    {
      hide Rank, HeldAll, HeldAround, FootprintAll, FlatAll, OrderedAll, OrderedAround, FilledAll, FilledBeside,
        FilledAround, BranchPage, Fits, Paired, Focused, Stored, Graft, Plug, Before, After, Around, Rewritten, Roomy,
        ChildPosition, WithMergedChild, RootOf, Depth, KeyOk, MinFill, Roots, Flat, Footprint, Least, Shrunk, Lost,
        PathOf, First, LessLeft, LessRight, KeysFit;
      AllMinFills(d);
      RootIsTop(pager.pages, c, node, h, d, Under(Least(c, node, d)));
      FocusedNode(pager.pages, c, node, h, d, Under(Least(c, node, d)));
      var page := pager.pages[nodeNo];
      if nodeNo == root {
        if page.seps == [] {
          CollapseRoot(pager.pages, node, h, d, Under(Least(c, node, d)));
          root, tree, height := page.rightmostChild, node.kids[0], h - 1;
        } else {
          KeepRoot(pager.pages, node, h, d, Under(Least(c, node, d)));
          tree, height := node, h;
        }
        return Done;
      }
      if |page.seps| >= MIN_ENTRIES {
        KeepNode(pager.pages, c, node, h, d, Under(Least(c, node, d)));
        tree, height := Plug(c, node), h + Depth(c);
        return Done;
      }
      PathEnds(c);
      var parentNo := path[|path| - 1];
      var up := path[..|path| - 1];
      var leftSib, rightSib := FindSiblings(parentNo, nodeNo, c);
      ghost var least := Under(Least(c, node, d));
      if rightSib.Some? {
        WithRight(pager.pages, c, node, h, d, least);
        var rightNo := rightSib.value;
        var right := pager.pages[rightNo];
        if |right.seps| > MIN_ENTRIES {
          r := BorrowFromRightInternal(parentNo, nodeNo, rightNo, LessRight(c), node, c.rk[0], c.rs[0], h - 1, least,
              MinFill(d));
          return;
        }
      }
      if leftSib.Some? {
        WithLeft(pager.pages, c, node, h, d, least);
        var leftNo := leftSib.value;
        var left := pager.pages[leftNo];
        if |left.seps| > MIN_ENTRIES {
          r := BorrowFromLeftInternal(parentNo, leftNo, nodeNo, LessLeft(c), c.ls[|c.ls| - 1], c.lk[|c.lk| - 1], node,
            h - 1, MinFill(d), least);
          return;
        }
      }
      if rightSib.Some? {
        r := MergeInternal(up, parentNo, nodeNo, rightSib.value, LessRight(c), node, c.rk[0], c.rs[0], h - 1, least,
            MinFill(d));
        return;
      }
      if leftSib.Some? {
        r := MergeInternal(up, parentNo, leftSib.value, nodeNo, LessLeft(c), c.ls[|c.ls| - 1], c.lk[|c.lk| - 1], node,
          h - 1, MinFill(d), least);
        return;
      }
      OnlyChild(pager.pages, c, node, h, d, least);
      tree, height := Plug(c, node), h + Depth(c);
      return Done;
    }

    method RebalanceLeaf(path: seq<PageNo>, nodeNo: PageNo, ghost c: Context, ghost leaf: Tree) returns (r: Outcome)
      requires pager.Valid() && Roomy(d) && leaf.Leaf? && c.In?
      requires Focused(pager.pages, c, leaf, 0, d, Under(Least(c, leaf, d)))
      requires path == PathOf(c) && nodeNo == leaf.p && root == RootOf(c, nodeNo)
      modifies this, pager
      ensures pager.Valid() && old(pager.freed) <= pager.freed
      ensures r.Done? ==>
                && Valid() && Flat(tree) == Before(c) + Flat(leaf) + After(c)
                && Shrunk(old(pager.pages), pager.pages, Around(c) + Footprint(leaf), tree, Lost(old(root), root))
      ensures r.Failed? ==> r.error.PageOverflow? && !d.FixedWidth?
      ensures r.Failed? <==> LeafStuck(c, leaf.es)
    {
      hide Rank, HeldAll, HeldAround, FootprintAll, FlatAll, OrderedAll, OrderedAround, FilledAll, FilledBeside,
        FilledAround, BranchPage, Fits, Paired, Focused, Stored, Graft, Plug, Before, After, Around, Rewritten, Roomy,
        ChildPosition, WithMergedChild, RootOf, Depth, KeyOk, MinFill, Roots, Flat, Footprint, Least, Shrunk, Lost,
        PathOf, First, LessLeft, LessRight, KeysFit;
      AllMinFills(d);
      RootIsTop(pager.pages, c, leaf, 0, d, Under(Least(c, leaf, d)));
      FocusedLeaf(pager.pages, c, leaf, d, Under(Least(c, leaf, d)));
      if |pager.pages[nodeNo].entries| >= MIN_ENTRIES {
        KeepNode(pager.pages, c, leaf, 0, d, Under(Least(c, leaf, d)));
        tree, height := Plug(c, leaf), Depth(c);
        return Done;
      }
      PathEnds(c);
      var parentNo := path[|path| - 1];
      var up := path[..|path| - 1];
      var leftSib, rightSib := FindSiblings(parentNo, nodeNo, c);
      ghost var least := Under(Least(c, leaf, d));
      if rightSib.Some? {
        WithRight(pager.pages, c, leaf, 0, d, least);
        var rightNo := rightSib.value;
        var right := pager.pages[rightNo];
        if |right.entries| > MIN_ENTRIES {
          r := BorrowFromRightLeaf(parentNo, nodeNo, rightNo, LessRight(c), leaf, c.rk[0], c.rs[0], least, MinFill(d));
          return;
        }
      }
      if leftSib.Some? {
        WithLeft(pager.pages, c, leaf, 0, d, least);
        var leftNo := leftSib.value;
        var left := pager.pages[leftNo];
        if |left.entries| > MIN_ENTRIES {
          r := BorrowFromLeftLeaf(parentNo, leftNo, nodeNo, LessLeft(c), c.ls[|c.ls| - 1], c.lk[|c.lk| - 1], leaf,
            MinFill(d), least);
          return;
        }
      }
      if rightSib.Some? {
        r := MergeLeaves(up, parentNo, nodeNo, rightSib.value, LessRight(c), leaf, c.rk[0], c.rs[0], least, MinFill(d));
        return;
      }
      if leftSib.Some? {
        r := MergeLeaves(up, parentNo, leftSib.value, nodeNo, LessLeft(c), c.ls[|c.ls| - 1], c.lk[|c.lk| - 1], leaf,
          MinFill(d), least);
        return;
      }
      OnlyChild(pager.pages, c, leaf, 0, d, least);
      tree, height := Plug(c, leaf), 0 + Depth(c);
      return Done;
    }

    method Delete(key: Key) returns (r: Outcome, found: bool)
      requires Valid()
      modifies this, pager
      ensures pager.Valid() && old(pager.freed) <= pager.freed
      ensures found <==> key in old(Model())
      ensures !found ==> r == Done && pager.pages == old(pager.pages) && unchanged(this)
      ensures r.Done? ==>
                && Valid() && Model() == old(Model()) - {key}
                && Shrunk(old(pager.pages), pager.pages, old(Footprint(tree)), tree, Lost(old(root), root))
      ensures r.Failed? ==> r.error.PageOverflow? && !d.FixedWidth? && NoRepair(old(tree), key)
    {
      hide Rank, Lo, Hi, Stored, Around, Plug, Before, After, Flat, Footprint, MapOf, HeldAround, Shaped, PathOf, Depth,
        Roomy, KeyPosition, RemoveEntry, RootOf, Least, MinFill, Shrunk, Lost, Focused, Rewritten, EncodedSize;
      var path, leafNo, c, leaf := Descend(key);
      LeafLookup(pager.pages, c, leaf, key, height, d);
      var es, next := pager.pages[leafNo].entries, pager.pages[leafNo].nextLeaf;
      var pos := KeyPosition(es, key);
      if pos == |es| {
        Absent(pager.pages, tree, height, d, key, root);
        return Done, false;
      }
      var page := LeafPage(RemoveEntry(es, pos), next);
      ghost var leaf' := Leaf(leafNo, RemoveEntry(es, pos), next);
      DeleteStep(pager.pages, pager.pages[leafNo := page], c, leaf, key, height, d);
      var _ := pager.Write(leafNo, page);
      ghost var m1 := pager.pages;
      found := true;
      PathEnds(c);
      if path == [] {
        AtTop(m1, leaf', 0);
        KeepNode(m1, c, leaf', 0, d, Under(Least(c, leaf, d)));
        tree := leaf';
        r := Done;
      } else {
        r := RebalanceLeaf(path, leafNo, c, leaf');
        assert ShortAt(old(tree), c, leaf, key);
      }
      if r.Done? {
        ShrunkThen(old(pager.pages), m1, pager.pages, old(Footprint(tree)), old(Footprint(tree)), tree,
            Lost(old(root), root));
      }
    }

    // ----- Scans

    method CursorStart() returns (cursor: Cursor)
      requires Valid()
      ensures fresh(cursor) && cursor.Valid(pager.pages) && cursor.Within(Footprint(tree))
      ensures cursor.Remaining() == Flat(tree)
    {
      hide Rank, OrderedAround, OrderedAll, HeldAround, HeldAll, First, Lo, Hi, End, Plug, Sound, RootFilled, NoRepeats,
        Roomy, Flat, FlatLeaves, LeavesAfter, Links;
      var current := root;
      ghost var c, leaf := Top, tree;
      AtTop(pager.pages, tree, height);
      while pager.pages[current].InternalPage?
        invariant Shaped(c) && leaf.p == current && Plug(c, leaf) == tree && Before(c) == []
        invariant HeldAround(pager.pages, c, current) && Held(pager.pages, leaf)
        invariant Depth(c) <= height && OrderedAround(c, height - Depth(c), First(leaf))
        invariant Ordered(leaf, height - Depth(c), Lo(c), Hi(c), End(c))
        decreases leaf
      {
        var node := pager.pages[current];
        FirstChild(pager.pages, c, leaf, height - Depth(c));
        current := if node.seps != [] then node.seps[0].leftChild else node.rightmostChild;
        c, leaf := Into(c, leaf, 0), leaf.kids[0];
      }
      ScanFrom(pager.pages, c, leaf, height);
      AfterWithin(c, leaf);
      var node := pager.pages[current];
      cursor := new Cursor.FromLeaf(node.entries, 0, node.nextLeaf, LeavesAfter(c));
      assert leaf.es[0..] == leaf.es && [] + leaf.es == leaf.es;
    }

    method CursorSeek(key: Key) returns (cursor: Cursor)
      requires Valid()
      ensures fresh(cursor) && cursor.Valid(pager.pages) && cursor.Within(Footprint(tree))
      ensures cursor.Remaining() == Flat(tree)[PartitionPoint(Flat(tree), key)..]
    {
      var _, leafNo, c, leaf := Descend(key);
      ScanFrom(pager.pages, c, leaf, height);
      AfterWithin(c, leaf);
      SeekSuffix(pager.pages, c, leaf, key, height);
      var node := pager.pages[leafNo];
      var start := PartitionPoint(node.entries, key);
      cursor := new Cursor.FromLeaf(node.entries, start, node.nextLeaf, LeavesAfter(c));
    }

    // ----- The repository's own check

    method CheckInvariants(ghost t: Tree) returns (r: Option<nat>)
      requires pager.Valid() && Held(pager.pages, t) && t.p == root
      ensures r.Some? ==> Passes(t, None, None, r.value)
      ensures r.Some? && NoGap(t, None, None) ==> InOrder(t, None, None, r.value)
      ensures r.None? ==> forall h :: !InOrder(t, None, None, h)
      ensures t == tree && Valid() && !d.AnyKeys? ==> r == Some(height)
    {
      r := CheckNode(root, None, None, t);
      if r.Some? && NoGap(t, None, None) {
        PassesInOrder(t, None, None, r.value);
      }
      forall h | InOrder(t, None, None, h) ensures Passes(t, None, None, h) {
        InOrderPasses(t, None, None, h);
      }
      if t == tree && Valid() && !d.AnyKeys? {
        OrderedInOrder(t, height, LOWEST, HIGHEST, 0, None, None, d, RootFill(t, d));
        if r.Some? {
          OneHeight(t, None, None, height, None, None, r.value);
        }
      }
    }

    /** Keys in order and within the bounds. */
    static method CheckLeaf(entries: seq<LeafEntry>, lower: Option<Key>, upper: Option<Key>) returns (ok: bool)
      ensures ok <==> SortedIn(entries, Low(lower), High(upper))
    {
      hide Rank;
      LeafSorted(entries, lower, upper);
      var i := 0;
      while i + 1 < |entries|
        invariant 0 <= i && forall j :: 0 <= j < i && j + 1 < |entries| ==> KeyLess(entries[j].key, entries[j + 1].key)
      {
        if !KeyLess(entries[i].key, entries[i + 1].key) {
          return false;
        }
        i := i + 1;
      }
      if entries != [] && lower.Some? && KeyLess(entries[0].key, lower.value) {
        return false;
      }
      if entries != [] && upper.Some? && !KeyLess(entries[|entries| - 1].key, upper.value) {
        return false;
      }
      return true;
    }

    /** The depth of the subtree at a page, or nothing if the check does not accept it. */
    method CheckNode(pageNo: PageNo, lower: Option<Key>, upper: Option<Key>, ghost t: Tree) returns (r: Option<nat>)
      requires pageNo == t.p && Held(pager.pages, t)
      ensures r.Some? ==> Passes(t, lower, upper, r.value)
      ensures r.None? ==> Fails(t, lower, upper)
      decreases t
    {
      hide *;
      HeldPage(pager.pages, t);
      var page := pager.pages[pageNo];
      if page.LeafPage? {
        LeafDecided(t, lower, upper);
        var ok := CheckLeaf(page.entries, lower, upper);
        return if ok then Some(0) else None;
      }
      if page.seps == [] {
        BranchWithout(t, lower, upper);
        return None;
      }
      var depths: seq<nat> := [];
      var low := lower;
      NoneChecked(t, lower, upper);
      var i := 0;
      while i < |page.seps|
        invariant 0 <= i <= |page.seps| == |t.keys| && |depths| == i
        invariant low == (if i == 0 then lower else Some(t.keys[i - 1])) && Checked(t, lower, upper, depths)
      {
        var e := page.seps[i];
        BoundsOf(t.keys, i, lower, upper);
        var depth := CheckNode(e.leftChild, low, Some(e.key), t.kids[i]);
        if depth == None {
          ChildFails(t, lower, upper, i);
          return None;
        }
        MoreChecked(t, lower, upper, depths, depth.value);
        depths := depths + [depth.value];
        low := Some(e.key);
        i := i + 1;
      }
      BoundsOf(t.keys, i, lower, upper);
      var depth := CheckNode(page.rightmostChild, low, upper, t.kids[i]);
      if depth == None {
        ChildFails(t, lower, upper, i);
        return None;
      }
      MoreChecked(t, lower, upper, depths, depth.value);
      depths := depths + [depth.value];
      ChildrenPassed(t, lower, upper, depths);
      if exists j :: 0 <= j < |depths| && depths[j] != depths[0] {
        return None;
      }
      return Some(depths[0] + 1);
    }
  }
}
