/** Descending from the root to a leaf, one child at a time. */
module DescendSteps {
  import opened Bytes
  import opened Storage
  import opened Shape
  import opened Contexts
  import opened Contents
  import opened Focus
  import opened NodeEdits

  lemma Beside(c: Context)
    requires c.In?
    ensures Before(c) == Before(c.up) + FlatAll(c.ls) && After(c) == FlatAll(c.rs) + After(c.up)
  {
  }

  lemma PathEnds(c: Context)
    ensures PathOf(c) == [] <==> c.Top?
    ensures c.In? ==> PathOf(c)[|PathOf(c)| - 1] == c.p && PathOf(c)[..|PathOf(c)| - 1] == PathOf(c.up)
  {
  }

  /** The context of the `i`-th child of a branch. */
  ghost function Into(c: Context, node: Tree, i: nat): Context
    requires node.Branch? && |node.kids| == |node.keys| + 1 && i <= |node.keys|
  {
    In(c, node.p, node.keys[..i], node.kids[..i], node.keys[i..], node.kids[i + 1..])
  }

  lemma Refocus(c: Context, node: Tree, i: nat)
    requires node.Branch? && |node.kids| == |node.keys| + 1 && i <= |node.keys|
    ensures Plug(Into(c, node, i), node.kids[i]) == Plug(c, node)
  {
    assert node.keys[..i] + [] + node.keys[i..] == node.keys;
    assert node.kids[..i] + [node.kids[i]] + node.kids[i + 1..] == node.kids;
  }

  lemma DepthInto(c: Context, node: Tree, i: nat)
    requires node.Branch? && |node.kids| == |node.keys| + 1 && i <= |node.keys|
    ensures Depth(Into(c, node, i)) == Depth(c) + 1
  {
  }

  lemma IntoHeld(m: map<PageNo, Page>, c: Context, node: Tree, i: nat)
    requires Shaped(c) && node.Branch? && HeldAround(m, c, node.p) && Held(m, node)
    requires |node.kids| == |node.keys| + 1 && i <= |node.keys|
    ensures HeldAround(m, Into(c, node, i), node.kids[i].p) && Held(m, node.kids[i])
  {
    hide Held, HeldAround;
    Refocus(c, node, i);
    PlugHeld(m, c, node);
    PlugHeld(m, Into(c, node, i), node.kids[i]);
  }

  lemma IntoOrdered(c: Context, node: Tree, i: nat, h: nat)
    requires Shaped(c) && node.Branch? && |node.kids| == |node.keys| + 1 && i <= |node.keys|
    requires OrderedAround(c, h, First(node)) && Ordered(node, h, Lo(c), Hi(c), End(c))
    ensures h > 0
    ensures var c', kid := Into(c, node, i), node.kids[i];
            OrderedAround(c', h - 1, First(kid)) && Ordered(kid, h - 1, Lo(c'), Hi(c'), End(c'))
  {
    hide Rank, OrderedAround, OrderedAll, First, Lo, Hi, End;
    Refocus(c, node, i);
    PlugOrdered(c, node, h);
    PlugOrdered(Into(c, node, i), node.kids[i], h - 1);
  }

  lemma IntoBounds(c: Context, node: Tree, key: Key, page: Page)
    requires node.Branch? && |node.kids| == |node.keys| + 1
    requires page == BranchPage(node.keys, Roots(node.kids))
    requires Lo(c) <= Rank(key) < Hi(c)
    ensures var i := RouteIndex(page.seps, key);
            && i <= |node.keys|
            && node.kids[i].p == ChildForKey(page, key)
            && Lo(Into(c, node, i)) <= Rank(key) < Hi(Into(c, node, i))
  {
    hide Rank, KeyLess;
    var i := RouteIndex(page.seps, key);
    if i > 0 {
      assert !KeyLess(key, page.seps[i - 1].key);
    }
  }

  lemma DescendStep(m: map<PageNo, Page>, c: Context, node: Tree, key: Key, h: nat)
    requires Shaped(c) && node.Branch? && HeldAround(m, c, node.p) && Held(m, node)
    requires OrderedAround(c, h, First(node)) && Ordered(node, h, Lo(c), Hi(c), End(c))
    requires Lo(c) <= Rank(key) < Hi(c)
    ensures h > 0
    ensures var page := m[node.p];
            var i := RouteIndex(page.seps, key);
            && i <= |node.keys|
            && var c', kid := Into(c, node, i), node.kids[i];
            && kid.p == ChildForKey(page, key) && Plug(c', kid) == Plug(c, node)
            && HeldAround(m, c', kid.p) && Held(m, kid)
            && OrderedAround(c', h - 1, First(kid)) && Ordered(kid, h - 1, Lo(c'), Hi(c'), End(c'))
            && Lo(c') <= Rank(key) < Hi(c')
  {
    hide Rank, OrderedAround, OrderedAll, HeldAround, HeldAll, First, Lo, Hi, End, RouteIndex, ChildForKey, Plug;
    var i := RouteIndex(m[node.p].seps, key);
    IntoBounds(c, node, key, m[node.p]);
    Refocus(c, node, i);
    IntoHeld(m, c, node, i);
    IntoOrdered(c, node, i, h);
  }

  /** A key is in the tree exactly when it is in the leaf that `descend` reaches. */
  lemma LeafLookup(m: map<PageNo, Page>, c: Context, leaf: Tree, key: Key, h: nat, d: Discipline)
    requires Shaped(c) && leaf.Leaf? && Depth(c) == h && Stored(m, Plug(c, leaf), h, d)
    requires Lo(c) <= Rank(key) < Hi(c)
    ensures var i := KeyPosition(leaf.es, key);
            var m := MapOf(Flat(Plug(c, leaf)));
            if i < |leaf.es| then key in m && m[key] == leaf.es[i].payload else key !in m
  {
    LeafInHole(m, c, leaf, h, d);
    OnlyInHole(c, 0, leaf.p, key);
    MapConcat(Before(c) + leaf.es, After(c));
    MapConcat(Before(c), leaf.es);
    MapKeys(leaf.es, key);
    var i := KeyPosition(leaf.es, key);
    if i < |leaf.es| {
      MapAt(leaf.es, i, Lo(c), Hi(c));
    }
  }
}
