/** Where scans start, and what they yield. */
module ScanSteps {
  import opened Bytes
  import opened Storage
  import opened Shape
  import opened Contexts
  import opened Contents
  import opened NodeEdits
  import opened DescendSteps
  import opened Cursors

  lemma FirstChild(m: map<PageNo, Page>, c: Context, node: Tree, h: nat)
    requires Shaped(c) && node.Branch? && HeldAround(m, c, node.p) && Held(m, node) && Before(c) == []
    requires OrderedAround(c, h, First(node)) && Ordered(node, h, Lo(c), Hi(c), End(c))
    ensures h > 0 && |node.kids| == |node.keys| + 1
    ensures var page := m[node.p];
            node.kids[0].p == if page.seps != [] then page.seps[0].leftChild else page.rightmostChild
    ensures var c', kid := Into(c, node, 0), node.kids[0];
            && Plug(c', kid) == Plug(c, node) && Shaped(c') && Depth(c') == Depth(c) + 1 && Before(c') == []
            && HeldAround(m, c', kid.p) && Held(m, kid)
            && OrderedAround(c', h - 1, First(kid)) && Ordered(kid, h - 1, Lo(c'), Hi(c'), End(c'))
  {
    hide Rank, OrderedAround, OrderedAll, HeldAround, HeldAll, First, Lo, Hi, End, Plug;
    Refocus(c, node, 0);
    DepthInto(c, node, 0);
    IntoHeld(m, c, node, 0);
    IntoOrdered(c, node, 0, h);
    assert Before(Into(c, node, 0)) == Before(c) + FlatAll([]);
  }

  /** A cursor on the leaf in the hole goes on to what follows the hole. */
  lemma ScanFrom(m: map<PageNo, Page>, c: Context, leaf: Tree, h: nat)
    requires Shaped(c) && leaf.Leaf? && Held(m, Plug(c, leaf)) && Sound(Plug(c, leaf), h) && Depth(c) == h
    ensures Links(m, LeavesAfter(c), leaf.next, 0)
    ensures Flat(Plug(c, leaf)) == Before(c) + leaf.es + FlatLeaves(LeavesAfter(c))
  {
    hide Rank, Held, HeldAround, OrderedAround, Plug, Lo, Hi, End, Links, FlatLeaves, LeavesAfter, After, Before;
    ChainAfter(m, c, leaf, h);
    PlugHeld(m, c, leaf);
    PlugOrdered(c, leaf, 0);
    PlugContents(c, leaf);
    FlatLeavesAfter(m, c, leaf.p, 0, leaf.p);
  }

  lemma PartitionUnique(es: seq<LeafEntry>, key: Key, i: nat)
    requires i <= |es| && forall j :: 0 <= j < i ==> KeyLess(es[j].key, key)
    requires i < |es| ==> !KeyLess(es[i].key, key)
    ensures PartitionPoint(es, key) == i
  {
  }

  /** The entries from the partition point of the leaf on are those not below the key. */
  lemma SeekSuffix(m: map<PageNo, Page>, c: Context, leaf: Tree, key: Key, h: nat)
    requires Shaped(c) && leaf.Leaf? && Held(m, Plug(c, leaf)) && Sound(Plug(c, leaf), h) && Depth(c) == h
    requires Lo(c) <= Rank(key) < Hi(c)
    ensures var all := Flat(Plug(c, leaf));
            all[PartitionPoint(all, key)..]
            == leaf.es[PartitionPoint(leaf.es, key)..] + FlatLeaves(LeavesAfter(c))
  {
    hide Rank, KeyLess, Held, HeldAround, OrderedAround, Plug, Lo, Hi, End, Links, FlatLeaves, LeavesAfter, After,
      Before, PartitionPoint, Flat, Sound, Shaped, Depth, SortedIn;
    ScanFrom(m, c, leaf, h);
    PlugOrdered(c, leaf, 0);
    PlugHeld(m, c, leaf);
    FlatLeavesAfter(m, c, leaf.p, 0, leaf.p);
    SidesOfKey(c, leaf.p, key);
    var b, es, a, i := Before(c), leaf.es, After(c), PartitionPoint(leaf.es, key);
    PartitionMiddle(b, es, a, key);
    DropMiddle(b, es, a, i);
  }

  lemma DropMiddle<T>(b: seq<T>, es: seq<T>, a: seq<T>, i: nat)
    requires i <= |es|
    ensures (b + es + a)[|b| + i..] == es[i..] + a
  {
  }

  lemma SidesOfKey(c: Context, first: PageNo, key: Key)
    requires Shaped(c) && OrderedAround(c, 0, first) && Lo(c) <= Rank(key) < Hi(c)
    ensures forall j :: 0 <= j < |Before(c)| ==> KeyLess(Before(c)[j].key, key)
    ensures forall j :: 0 <= j < |After(c)| ==> !KeyLess(After(c)[j].key, key)
  {
    hide Rank, KeyLess, Before, After, OrderedAround, Lo, Hi;
    Sides(c, 0, first);
  }

  lemma PartitionMiddle(b: seq<LeafEntry>, es: seq<LeafEntry>, a: seq<LeafEntry>, key: Key)
    requires forall j :: 0 <= j < |b| ==> KeyLess(b[j].key, key)
    requires forall j :: 0 <= j < |a| ==> !KeyLess(a[j].key, key)
    ensures PartitionPoint(b + es + a, key) == |b| + PartitionPoint(es, key)
  {
    hide Rank, KeyLess, PartitionPoint;
    var all, i := b + es + a, PartitionPoint(es, key);
    forall j | 0 <= j < |b| + i ensures KeyLess(all[j].key, key) {
      if j >= |b| {
        assert all[j] == es[j - |b|];
      }
    }
    if |b| + i < |all| {
      assert all[|b| + i] == if i < |es| then es[i] else a[0];
    }
    PartitionUnique(all, key, |b| + i);
  }
}
