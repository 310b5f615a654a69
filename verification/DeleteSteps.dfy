/** What deletion does to a leaf and to the nodes that run short. */
module DeleteSteps {
  import opened Bytes
  import opened Storage
  import opened Shape
  import opened Contexts
  import opened Contents
  import opened Sizes
  import opened Focus
  import opened NodeEdits
  import opened Pairs
  import opened PairPages

  /** The old root, if it is no longer the root: its page is given up without being freed. */
  ghost function Lost(root: PageNo, root': PageNo): multiset<PageNo> {
    if root == root' then multiset{} else multiset{root}
  }

  /** The tree took no page and gave some back; those of `lost` stay live. */
  ghost predicate Shrunk(m: map<PageNo, Page>, m': map<PageNo, Page>, f: multiset<PageNo>, t: Tree,
                         lost: multiset<PageNo>) {
    Rewritten(m, m', f, Footprint(t), lost) && Footprint(t) + lost <= f
  }

  ghost function Under(least: nat): nat {
    if least == 0 then 0 else least - 1
  }

  /** Nothing to delete: nothing changes. */
  lemma Absent(m: map<PageNo, Page>, t: Tree, h: nat, d: Discipline, key: Key, root: PageNo)
    requires Stored(m, t, h, d) && key !in MapOf(Flat(t))
    ensures MapOf(Flat(t)) == MapOf(Flat(t)) - {key}
    ensures Shrunk(m, m, Footprint(t), t, Lost(root, root))
  {
    hide MapOf, Flat, Footprint, Held, Sound, RootFilled;
    HeldLive(m, t);
  }

  lemma LeastOfLeaf(c: Context, leaf: Tree, leaf': Tree, d: Discipline)
    requires leaf.Leaf? && leaf'.Leaf?
    ensures Least(c, leaf', d) == Least(c, leaf, d) && (c.Top? ==> Least(c, leaf, d) == 0)
  {
  }

  lemma RemovedEntries(es: seq<LeafEntry>, pos: nat, next: PageNo, lo: real, hi: real, d: Discipline)
    requires pos < |es| && SortedIn(es, lo, hi) && EntriesOk(d, es) && Fits(LeafPage(es, next))
    ensures var es' := RemoveEntry(es, pos);
            SortedIn(es', lo, hi) && EntriesOk(d, es') && Fits(LeafPage(es', next))
  {
    hide Rank, EntryOk, LeafCells;
    assert es == es[..pos] + [es[pos]] + es[pos + 1..];
    LeafCellsConcat(es[..pos] + [es[pos]], es[pos + 1..]);
    LeafCellsConcat(es[..pos], [es[pos]]);
    LeafCellsConcat(es[..pos], es[pos + 1..]);
  }

  lemma RemovedContents(c: Context, es: seq<LeafEntry>, pos: nat, lo: real, hi: real)
    requires pos < |es| && SortedIn(es, lo, hi)
    requires es[pos].key !in MapOf(Before(c)) && es[pos].key !in MapOf(After(c))
    ensures MapOf(Before(c) + RemoveEntry(es, pos) + After(c)) == MapOf(Before(c) + es + After(c)) - {es[pos].key}
  {
    hide MapOf, Before, After, Rank, SortedIn;
    var a, e, b := es[..pos], es[pos], es[pos + 1..];
    MapAt(es, pos, lo, hi);
    MapConcat(Before(c), a);
    MapConcat(b, After(c));
    assert Before(c) + es + After(c) == (Before(c) + a) + [e] + (b + After(c)) by {
      assert es == a + [e] + b;
    }
    assert Before(c) + RemoveEntry(es, pos) + After(c) == (Before(c) + a) + (b + After(c));
    MapPut(Before(c) + a, e, b + After(c));
  }

  // ----- When the pages that a deletion writes do not fit

  /** Two leaves whose entries are cut anew: a leaf does not fit, or the parent with the new separator. */
  ghost predicate NoRecut(c: Context, es: seq<LeafEntry>, cut: nat)
    requires c.In? && cut < |es|
  {
    !Fits(LeafPage(es[..cut], 0)) || !Fits(LeafPage(es[cut..], 0)) || !KeysFit(c.lk + [es[cut].key] + c.rk)
  }

  /** Two internal nodes, likewise. */
  ghost predicate NoRecutKeys(c: Context, keys: seq<Key>, cut: nat)
    requires c.In? && cut < |keys|
  {
    !KeysFit(keys[..cut]) || !KeysFit(keys[cut + 1..]) || !KeysFit(c.lk + [keys[cut]] + c.rk)
  }

  /** A node with too few keys that can neither borrow nor merge: what it would write does not fit. */
  ghost predicate NodeStuck(c: Context, keys: seq<Key>)
    decreases c
  {
    && c.In? && |keys| < MIN_ENTRIES
    && if RightKeys(c) > MIN_ENTRIES then NoRecutKeys(LessRight(c), keys + [c.rk[0]] + c.rs[0].keys, |keys| + 1)
       else if LeftKeys(c) > MIN_ENTRIES then
         var x := c.ls[|c.ls| - 1].keys;
         NoRecutKeys(LessLeft(c), x + [c.lk[|c.lk| - 1]] + keys, |x| - 1)
       else if HasRight(c) && c.rs[0].Branch? then
         !KeysFit(keys + [c.rk[0]] + c.rs[0].keys) || NodeStuck(c.up, LessRight(c).lk + LessRight(c).rk)
       else if HasLeft(c) && c.ls[|c.ls| - 1].Branch? then
         || !KeysFit(c.ls[|c.ls| - 1].keys + [c.lk[|c.lk| - 1]] + keys)
         || NodeStuck(c.up, LessLeft(c).lk + LessLeft(c).rk)
       else false
  }

  ghost predicate HasRight(c: Context) {
    c.In? && c.rs != [] && c.rk != []
  }

  ghost predicate HasLeft(c: Context) {
    c.In? && c.ls != [] && c.lk != []
  }

  ghost function RightKeys(c: Context): nat {
    if HasRight(c) && c.rs[0].Branch? then |c.rs[0].keys| else 0
  }

  ghost function LeftKeys(c: Context): nat {
    if HasLeft(c) && c.ls[|c.ls| - 1].Branch? then |c.ls[|c.ls| - 1].keys| else 0
  }

  ghost function RightEntries(c: Context): nat {
    if HasRight(c) && c.rs[0].Leaf? then |c.rs[0].es| else 0
  }

  ghost function LeftEntries(c: Context): nat {
    if HasLeft(c) && c.ls[|c.ls| - 1].Leaf? then |c.ls[|c.ls| - 1].es| else 0
  }

  /** A leaf with too few entries, likewise. */
  ghost predicate LeafStuck(c: Context, es: seq<LeafEntry>) {
    && c.In? && |es| < MIN_ENTRIES
    && if RightEntries(c) > MIN_ENTRIES then NoRecut(LessRight(c), es + c.rs[0].es, |es| + 1)
       else if LeftEntries(c) > MIN_ENTRIES then
         var x := c.ls[|c.ls| - 1].es;
         NoRecut(LessLeft(c), x + es, |x| - 1)
       else if HasRight(c) && c.rs[0].Leaf? then
         !Fits(LeafPage(es + c.rs[0].es, 0)) || NodeStuck(c.up, LessRight(c).lk + LessRight(c).rk)
       else if HasLeft(c) && c.ls[|c.ls| - 1].Leaf? then
         !Fits(LeafPage(c.ls[|c.ls| - 1].es + es, 0)) || NodeStuck(c.up, LessLeft(c).lk + LessLeft(c).rk)
       else false
  }

  /** Without the key its leaf has too few entries, and can neither borrow nor merge. */
  ghost predicate NoRepair(t: Tree, key: Key) {
    exists c, leaf :: ShortAt(t, c, leaf, key) && LeafStuck(c, RemoveEntry(leaf.es, KeyPosition(leaf.es, key)))
  }

  ghost predicate ShortAt(t: Tree, c: Context, leaf: Tree, key: Key) {
    && leaf.Leaf? && Plug(c, leaf) == t && Lo(c) <= Rank(key) < Hi(c)
    && KeyPosition(leaf.es, key) < |leaf.es|
  }

  /** The parent of a pair with another separator, and with one less, which always fits. */
  lemma ParentSizes(m: map<PageNo, Page>, c: Context, x: Tree, k: Key, y: Tree, h: nat, d: Discipline, fx: nat, fy: nat)
    requires Paired(m, c, x, k, y, h, d, fx, fy) && AllFit(m)
    ensures c.In? && |Roots(c.ls)| == |c.lk| && |Roots(c.rs)| == |c.rk|
    ensures forall k' :: Fits(BranchPage(c.lk + [k'] + c.rk, Roots(c.ls) + [x.p, y.p] + Roots(c.rs))) <==>
              KeysFit(c.lk + [k'] + c.rk)
    ensures Fits(BranchPage(c.lk + c.rk, Roots(c.ls) + [x.p] + Roots(c.rs)))
  {
    hide Rank, HeldAll, FootprintAll, OrderedAll, OrderedAround, Filled, FilledBeside, BranchPage, Fits, KeysFit;
    ParentOfPair(m, c, x, k, y, h, d, fx, fy);
    forall k'
      ensures Fits(BranchPage(c.lk + [k'] + c.rk, Roots(c.ls) + [x.p, y.p] + Roots(c.rs))) <==>
                KeysFit(c.lk + [k'] + c.rk)
    {
      BranchFits(c.lk + [k'] + c.rk, Roots(c.ls) + [x.p, y.p] + Roots(c.rs));
    }
    KeysFitWithout(c.lk, k, c.rk);
    BranchFits(c.lk + c.rk, Roots(c.ls) + [x.p] + Roots(c.rs));
  }

  /** The leaf without the entry, before anything is done about it having too few. */
  lemma DeleteStep(m: map<PageNo, Page>, m': map<PageNo, Page>, c: Context, leaf: Tree, key: Key, h: nat, d: Discipline)
    requires Shaped(c) && leaf.Leaf? && Depth(c) == h && Stored(m, Plug(c, leaf), h, d) && AllFit(m)
    requires Lo(c) <= Rank(key) < Hi(c) && KeyPosition(leaf.es, key) < |leaf.es|
    requires m' == m[leaf.p := LeafPage(RemoveEntry(leaf.es, KeyPosition(leaf.es, key)), leaf.next)]
    ensures Fits(LeafPage(RemoveEntry(leaf.es, KeyPosition(leaf.es, key)), leaf.next))
    ensures var leaf' := Leaf(leaf.p, RemoveEntry(leaf.es, KeyPosition(leaf.es, key)), leaf.next);
            var f := Footprint(Plug(c, leaf));
            && Focused(m', c, leaf', 0, d, Under(Least(c, leaf, d))) && Least(c, leaf', d) == Least(c, leaf, d)
            && MapOf(Before(c) + Flat(leaf') + After(c)) == MapOf(Flat(Plug(c, leaf))) - {key}
            && Around(c) + Footprint(leaf') == f && Rewritten(m, m', f, f, multiset{})
            && Plug(c, leaf).p == RootOf(c, leaf.p) && (c.Top? ==> Least(c, leaf, d) == 0)
  {
    hide Rank, Lo, Hi, End, Stored, Around, Plug, Before, After, MapOf, HeldAround, Shaped, Depth, KeyPosition, MinFill,
      EncodedSize, OrderedAround, FilledAround, RootOf, RemoveEntry, Least;
    var pos := KeyPosition(leaf.es, key);
    var es' := RemoveEntry(leaf.es, pos);
    LeafInHole(m, c, leaf, h, d);
    RemovedEntries(leaf.es, pos, leaf.next, Lo(c), Hi(c), d);
    LeastOfLeaf(c, leaf, Leaf(leaf.p, es', leaf.next), d);
    WriteLeaf(m, m', c, leaf.p, es', leaf.next, d, Under(Least(c, leaf, d)));
    OnlyInHole(c, 0, leaf.p, key);
    RemovedContents(c, leaf.es, pos, Lo(c), Hi(c));
    AroundLive(m, c, leaf.p);
    InPlace(m, m', Around(c), leaf.p);
  }

  /** A change that is followed by another. */
  lemma ShrunkThen(m: map<PageNo, Page>, m1: map<PageNo, Page>, m2: map<PageNo, Page>,
                   f: multiset<PageNo>, f1: multiset<PageNo>, t: Tree, lost: multiset<PageNo>)
    requires Rewritten(m, m1, f, f1, multiset{}) && f1 <= f && Shrunk(m1, m2, f1, t, lost)
    ensures Shrunk(m, m2, f, t, lost)
  {
    RewrittenThen(m, m1, m2, f, f1, Footprint(t), lost);
  }

  lemma ConcatRoots(a: seq<Tree>, b: seq<Tree>)
    ensures Roots(a + b) == Roots(a) + Roots(b)
  {
  }

  /** The parent of two children that were merged is one entry short at most. */
  lemma MergedNode(m: map<PageNo, Page>, m2: map<PageNo, Page>, c: Context, x: Tree, k: Key, y: Tree, node: Tree,
                   h: nat, d: Discipline, fx: nat, fy: nat)
    requires Paired(m, c, x, k, y, h, d, fx, fy) && node.Branch? && node.keys == c.lk + c.rk && node.p == c.p
    requires Focused(m2, c.up, node, h + 1, d, |c.lk| + |c.rk|)
    requires Flat(node) == FlatAll(c.ls) + (Flat(x) + Flat(y)) + FlatAll(c.rs)
    ensures Focused(m2, c.up, node, h + 1, d, Under(Least(c.up, node, d)))
    ensures Before(c.up) + Flat(node) + After(c.up) == Before(c) + (Flat(x) + Flat(y)) + After(c)
    ensures |PathOf(c)| == |PathOf(c.up)| + 1
  {
    hide Rank, HeldAll, HeldAround, FootprintAll, FlatAll, OrderedAll, OrderedAround, FilledAll, FilledBeside,
      FilledAround, BranchPage, Flat, Footprint, First, Around, Held, Ordered, MinFill, Lo, Hi, End;
    Regroup(Before(c.up), FlatAll(c.ls), Flat(x) + Flat(y), FlatAll(c.rs), After(c.up));
  }

  lemma MergedLeavesFit(m: map<PageNo, Page>, c: Context, x: Tree, k: Key, y: Tree, d: Discipline, fx: nat, fy: nat)
    requires Paired(m, c, x, k, y, 0, d, fx, fy) && AllFit(m) && Roomy(d) && d.FixedWidth?
    requires x.Leaf? && y.Leaf? && |x.es| + |y.es| <= 3
    ensures Fits(LeafPage(x.es + y.es, y.next))
    ensures Fits(BranchPage(c.lk + c.rk, Roots(c.ls) + [x.p] + Roots(c.rs)))
  {
    hide Rank, HeldAll, HeldAround, FootprintAll, OrderedAll, OrderedAround, FilledAll, FilledBeside, BranchPage, Fits;
    ConcatEntriesOk(d, x.es, y.es);
    SmallLeafFits(x.es + y.es, y.next, d);
    ParentFits(m, c, x, k, y, k, 0, d, fx, fy);
  }

  lemma MergedBranchesFit(m: map<PageNo, Page>, c: Context, x: Tree, k: Key, y: Tree, h: nat, d: Discipline,
                          fx: nat, fy: nat)
    requires Paired(m, c, x, k, y, h, d, fx, fy) && AllFit(m) && Roomy(d) && d.FixedWidth?
    requires x.Branch? && y.Branch? && |x.keys| + 1 + |y.keys| <= 4
    ensures |x.kids| == |x.keys| + 1 && |y.kids| == |y.keys| + 1
    ensures Fits(BranchPage(x.keys + [k] + y.keys, Roots(x.kids + y.kids)))
    ensures Fits(BranchPage(c.lk + c.rk, Roots(c.ls) + [x.p] + Roots(c.rs)))
  {
    hide Rank, HeldAll, HeldAround, FootprintAll, OrderedAll, OrderedAround, FilledAll, FilledBeside, BranchPage, Fits;
    assert KeysOk(d, [k]);
    ConcatKeysOk(d, x.keys + [k], y.keys);
    ConcatKeysOk(d, x.keys, [k]);
    SmallBranchFits(x.keys + [k] + y.keys, Roots(x.kids + y.kids), d);
    ParentFits(m, c, x, k, y, k, h, d, fx, fy);
  }

  lemma {:induction false} RootAbove(c: Context, p: PageNo)
    requires c.In?
    ensures RootOf(c, p) in Around(c)
  {
    if c.up.In? {
      RootAbove(c.up, c.p);
    }
  }

  lemma RootIsTop(m: map<PageNo, Page>, c: Context, t: Tree, h: nat, d: Discipline, least: nat)
    requires Focused(m, c, t, h, d, least)
    ensures RootOf(c, t.p) == t.p <==> c.Top?
    ensures c.In? ==> t.p !in Roots(c.ls)
  {
    hide Rank, HeldAll, HeldAround, FootprintAll, OrderedAll, OrderedAround, FilledAround, Held, Footprint, Ordered,
      Filled, Lo, Hi, End, First;
    RootInFootprint(t);
    if c.In? {
      RootAbove(c, t.p);
      RootsInFootprint(c.ls);
      var all := Around(c) + Footprint(t);
      assert t.p in all && all[t.p] == Around(c)[t.p] + Footprint(t)[t.p];
    }
  }

  lemma FocusedNode(m: map<PageNo, Page>, c: Context, node: Tree, h: nat, d: Discipline, least: nat)
    requires Focused(m, c, node, h, d, least) && node.Branch?
    ensures h > 0 && HeldAround(m, c, node.p) && node.p in m && |node.keys| >= least
    ensures |node.kids| == |node.keys| + 1 && m[node.p] == BranchPage(node.keys, Roots(node.kids))
    ensures m[node.p].InternalPage? && |m[node.p].seps| == |node.keys|
    ensures node.keys == [] ==> m[node.p].rightmostChild == node.kids[0].p
  {
    hide Rank, HeldAll, HeldAround, FootprintAll, OrderedAll, OrderedAround, FilledAround, FilledAll, Footprint;
  }

  lemma CollapseParts(m: map<PageNo, Page>, node: Tree, h: nat, d: Discipline, least: nat)
    requires Focused(m, Top, node, h, d, least) && node.Branch? && node.keys == []
    ensures |node.kids| == 1 && h > 0 && node.p in m
    ensures var t := node.kids[0];
            && Held(m, t) && Sound(t, h - 1) && RootFilled(t, d)
            && Flat(node) == Flat(t) && Footprint(node) == multiset{node.p} + Footprint(t)
  {
    hide Rank, First;
    assert OrderedAll(node.keys, node.kids, h - 1, LOWEST, HIGHEST, 0);
    assert node.kids == [node.kids[0]];
    Single(node.kids[0], m, d);
    if node.kids[0].Branch? {
      assert Filled(node.kids[0], d, MinFill(d));
    }
  }

  /** A root without separators gives way to its only child; its page is not freed. */
  lemma CollapseRoot(m: map<PageNo, Page>, node: Tree, h: nat, d: Discipline, least: nat)
    requires Focused(m, Top, node, h, d, least) && node.Branch? && node.keys == []
    ensures |node.kids| == 1 && h > 0
    ensures var t := node.kids[0];
            && Stored(m, t, h - 1, d) && Flat(t) == Flat(node) && t.p != node.p
            && Shrunk(m, m, Around(Top) + Footprint(node), t, Lost(node.p, t.p))
            && Before(Top) + Flat(node) + After(Top) == Flat(t)
  {
    hide Rank, HeldAll, HeldAround, FootprintAll, FlatAll, OrderedAround, FilledAround, FilledAll, Flat, Footprint,
      Filled, Held;
    CollapseParts(m, node, h, d, least);
    var t := node.kids[0];
    HeldLive(m, t);
    assert Around(Top) + Footprint(node) == multiset{node.p} + Footprint(t);
    var all := multiset{node.p} + Footprint(t);
    assert all[node.p] == 1 + Footprint(t)[node.p];
    forall p | p in Footprint(t) ensures Footprint(t)[p] == 1 {
      assert all[p] == multiset{node.p}[p] + Footprint(t)[p];
    }
  }

  lemma KeepRoot(m: map<PageNo, Page>, node: Tree, h: nat, d: Discipline, least: nat)
    requires Focused(m, Top, node, h, d, least) && node.Branch? && node.keys != []
    ensures Stored(m, node, h, d) && Shrunk(m, m, Around(Top) + Footprint(node), node, Lost(node.p, node.p))
    ensures Before(Top) + Flat(node) + After(Top) == Flat(node)
  {
    hide Rank, HeldAll, FootprintAll, FlatAll, FilledAll, Footprint, Held, Flat;
    HeldLive(m, node);
    assert Around(Top) + Footprint(node) == Footprint(node);
    assert Footprint(node) + Lost(node.p, node.p) == Footprint(node);
  }

  lemma FocusedLeaf(m: map<PageNo, Page>, c: Context, leaf: Tree, d: Discipline, least: nat)
    requires Focused(m, c, leaf, 0, d, least) && leaf.Leaf?
    ensures HeldAround(m, c, leaf.p) && leaf.p in m && m[leaf.p] == LeafPage(leaf.es, leaf.next) && |leaf.es| >= least
  {
  }

  /** The page of a sibling of height `h`. */
  ghost predicate SibPage(m: map<PageNo, Page>, y: Tree, h: nat, d: Discipline) {
    && y.p in m
    && if h == 0 then y.Leaf? && m[y.p] == LeafPage(y.es, y.next) && |y.es| >= MinFill(d)
       else y.Branch? && m[y.p].InternalPage? && |m[y.p].seps| == |y.keys| && |y.keys| >= MinFill(d)
  }

  /** The pair `x`, `y` in the hole of `c'` is what `t` and one sibling are around the hole of `c`. */
  ghost predicate SameFrame(c: Context, c': Context, t: Tree, x: Tree, y: Tree)
    requires c.In?
  {
    && c'.In? && c'.p == c.p && c'.up == c.up && RootOf(c'.up, c'.p) == RootOf(c, t.p)
    && Before(c') + (Flat(x) + Flat(y)) + After(c') == Before(c) + Flat(t) + After(c)
    && Around(c') + (Footprint(x) + Footprint(y)) == Around(c) + Footprint(t)
  }

  /** The node in the hole seen together with its right sibling. */
  lemma WithRight(m: map<PageNo, Page>, c: Context, t: Tree, h: nat, d: Discipline, least: nat)
    requires Focused(m, c, t, h, d, least) && c.In? && c.rs != []
    ensures c.rk != []
    ensures var c', y := LessRight(c), c.rs[0];
            && Paired(m, c', t, c.rk[0], y, h, d, least, MinFill(d))
            && SibPage(m, y, h, d)
            && SameFrame(c, c', t, t, y)
  {
    hide Rank, HeldAll, HeldAround, FootprintAll, FlatAll, OrderedAll, OrderedAround, FilledAll, FilledBeside,
      FilledAround, Before, After, Around, Flat, Footprint, First, MinFill, Lo, Hi, End, KeyOk, Ordered;
    var c', y := LessRight(c), c.rs[0];
    PairRight(m, c, t, h, d, least);
    PairKinds(m, c', t, c.rk[0], y, h, d, least, MinFill(d));
    assert Before(c') + (Flat(t) + Flat(y)) + After(c') == Before(c) + Flat(t) + (Flat(y) + After(c'));
    assert Around(c') + (Footprint(t) + Footprint(y)) == Around(c) + Footprint(t);
  }

  lemma WithLeft(m: map<PageNo, Page>, c: Context, t: Tree, h: nat, d: Discipline, least: nat)
    requires Focused(m, c, t, h, d, least) && c.In? && c.ls != []
    ensures c.lk != []
    ensures var c', x := LessLeft(c), c.ls[|c.ls| - 1];
            && Paired(m, c', x, c.lk[|c.lk| - 1], t, h, d, MinFill(d), least)
            && SibPage(m, x, h, d)
            && SameFrame(c, c', t, x, t)
  {
    hide Rank, HeldAll, HeldAround, FootprintAll, FlatAll, OrderedAll, OrderedAround, FilledAll, FilledBeside,
      FilledAround, Before, After, Around, Flat, Footprint, First, MinFill, Lo, Hi, End, KeyOk, Ordered;
    var c', x := LessLeft(c), c.ls[|c.ls| - 1];
    PairLeft(m, c, t, h, d, least);
    PairKinds(m, c', x, c.lk[|c.lk| - 1], t, h, d, MinFill(d), least);
    assert Before(c') + (Flat(x) + Flat(t)) + After(c') == Before(c') + Flat(x) + Flat(t) + After(c');
    assert Around(c') + (Footprint(x) + Footprint(t)) == Around(c) + Footprint(t);
  }

  /** Two entries are always enough. */
  lemma KeepNode(m: map<PageNo, Page>, c: Context, t: Tree, h: nat, d: Discipline, least: nat)
    requires Focused(m, c, t, h, d, least)
    requires (if t.Leaf? then |t.es| else |t.keys|) >= Least(c, t, d)
    ensures Stored(m, Plug(c, t), h + Depth(c), d) && Plug(c, t).p == RootOf(c, t.p)
    ensures Flat(Plug(c, t)) == Before(c) + Flat(t) + After(c)
    ensures Shrunk(m, m, Around(c) + Footprint(t), Plug(c, t), Lost(RootOf(c, t.p), RootOf(c, t.p)))
  {
    hide Rank, HeldAll, HeldAround, FootprintAll, FlatAll, OrderedAll, OrderedAround, FilledAround, FilledAll, Flat,
      Footprint, Stored, Plug, Before, After, Around, Held, Lo, Hi, End, First, MinFill, RootOf, Depth, Ordered;
    FocusedIsStored(m, c, t, h, d);
    PlugContents(c, t);
    PlugRoot(c, t);
    HeldLive(m, t);
    AroundLive(m, c, t.p);
  }

  /** A node without siblings, which only lies below a branch without separators, stays as it is. */
  lemma OnlyChild(m: map<PageNo, Page>, c: Context, t: Tree, h: nat, d: Discipline, least: nat)
    requires Focused(m, c, t, h, d, least) && c.In? && c.ls == [] && c.rs == []
    ensures Stored(m, Plug(c, t), h + Depth(c), d) && Plug(c, t).p == RootOf(c, t.p)
    ensures Flat(Plug(c, t)) == Before(c) + Flat(t) + After(c)
    ensures Shrunk(m, m, Around(c) + Footprint(t), Plug(c, t), Lost(RootOf(c, t.p), RootOf(c, t.p)))
  {
    hide Rank, HeldAll, HeldAround, FootprintAll, FlatAll, OrderedAll, OrderedAround, FilledAll, Flat, Footprint,
      Stored, Plug, Before, After, Around, Held, Lo, Hi, End, First, RootOf, Depth, Ordered;
    KeepNode(m, c, t, h, d, least);
  }

  lemma AllMinFills(d: Discipline)
    ensures MinFill(d) <= MIN_ENTRIES && (!d.AnyKeys? ==> MinFill(d) > 0)
    ensures forall c, t :: Least(c, t, d) <= MIN_ENTRIES && (c.In? ==> Least(c, t, d) == MinFill(d))
  {
  }

  lemma PairLeafPages(m: map<PageNo, Page>, c: Context, x: Tree, k: Key, y: Tree, d: Discipline, fx: nat, fy: nat)
    requires Paired(m, c, x, k, y, 0, d, fx, fy) && x.Leaf? && y.Leaf?
    ensures m[x.p] == LeafPage(x.es, x.next) && m[y.p] == LeafPage(y.es, y.next)
  {
  }

  lemma PairBranchPages(m: map<PageNo, Page>, c: Context, x: Tree, k: Key, y: Tree, h: nat, d: Discipline, fx: nat,
                        fy: nat)
    requires Paired(m, c, x, k, y, h, d, fx, fy) && x.Branch? && y.Branch?
    ensures |x.kids| == |x.keys| + 1 && |y.kids| == |y.keys| + 1
    ensures m[x.p] == BranchPage(x.keys, Roots(x.kids)) && m[y.p] == BranchPage(y.keys, Roots(y.kids))
    ensures m[x.p].InternalPage? && |m[x.p].seps| == |x.keys| && m[y.p].InternalPage? && |m[y.p].seps| == |y.keys|
  {
  }

  lemma RecutRoots(a: seq<Tree>, b: seq<Tree>, cut: nat)
    requires cut < |a| + |b|
    ensures Roots((a + b)[..cut + 1]) == (Roots(a) + Roots(b))[..cut + 1]
    ensures Roots((a + b)[cut + 1..]) == (Roots(a) + Roots(b))[cut + 1..]
  {
  }

  /** The pages of two nodes, one of which took a child from the other, and when they fit. */
  lemma BorrowedRight(kx: seq<Key>, kidsX: seq<Tree>, k: Key, ky: seq<Key>, kidsY: seq<Tree>)
    requires |kidsX| == |kx| + 1 && |kidsY| == |ky| + 1 && ky != []
    ensures var x, y := BranchPage(kx, Roots(kidsX)), BranchPage(ky, Roots(kidsY));
            var keys, kids, cut := kx + [k] + ky, kidsX + kidsY, |kx| + 1;
            var left := InternalPage(x.seps + [InternalEntry(k, x.rightmostChild)], y.seps[0].leftChild);
            var right := InternalPage(y.seps[1..], y.rightmostChild);
            && left == BranchPage(keys[..cut], Roots(kids[..cut + 1])) && (Fits(left) <==> KeysFit(keys[..cut]))
            && right == BranchPage(keys[cut + 1..], Roots(kids[cut + 1..]))
            && (Fits(right) <==> KeysFit(keys[cut + 1..])) && y.seps[0].key == keys[cut]
  {
    hide Fits, KeysFit;
    var keys, kids, cut := kx + [k] + ky, kidsX + kidsY, |kx| + 1;
    RecutRoots(kidsX, kidsY, cut);
    BorrowRightEntries(kx, Roots(kidsX), k, ky, Roots(kidsY));
    BranchFits(keys[..cut], Roots(kids[..cut + 1]));
    BranchFits(keys[cut + 1..], Roots(kids[cut + 1..]));
  }

  lemma BorrowedLeft(kx: seq<Key>, kidsX: seq<Tree>, k: Key, ky: seq<Key>, kidsY: seq<Tree>)
    requires |kidsX| == |kx| + 1 && |kidsY| == |ky| + 1 && kx != []
    ensures var x, y := BranchPage(kx, Roots(kidsX)), BranchPage(ky, Roots(kidsY));
            var keys, kids, cut := kx + [k] + ky, kidsX + kidsY, |kx| - 1;
            var left := InternalPage(x.seps[..cut], x.seps[cut].leftChild);
            var right := InternalPage([InternalEntry(k, x.rightmostChild)] + y.seps, y.rightmostChild);
            && left == BranchPage(keys[..cut], Roots(kids[..cut + 1])) && (Fits(left) <==> KeysFit(keys[..cut]))
            && right == BranchPage(keys[cut + 1..], Roots(kids[cut + 1..]))
            && (Fits(right) <==> KeysFit(keys[cut + 1..])) && x.seps[cut].key == keys[cut]
  {
    hide Fits, KeysFit;
    var keys, kids, cut := kx + [k] + ky, kidsX + kidsY, |kx| - 1;
    RecutRoots(kidsX, kidsY, cut);
    BorrowLeftEntries(kx, Roots(kidsX), k, ky, Roots(kidsY));
    BranchFits(keys[..cut], Roots(kids[..cut + 1]));
    BranchFits(keys[cut + 1..], Roots(kids[cut + 1..]));
  }

  /** The pages next to the hole, in the parent's list of children. */
  lemma SiblingPages(page: Page, c: Context, q: PageNo)
    requires c.In? && |c.lk| == |c.ls| && |c.rk| == |c.rs| && q !in Roots(c.ls)
    requires page == BranchPage(c.lk + c.rk, Roots(c.ls) + [q] + Roots(c.rs))
    ensures Children(page) == Roots(c.ls) + [q] + Roots(c.rs)
    ensures IndexOf(Children(page), q) == |c.ls|
  {
    var pages := Roots(c.ls) + [q] + Roots(c.rs);
    assert Children(page) == pages;
    assert pages[|c.ls|] == q;
    forall j | 0 <= j < |c.ls| ensures pages[j] != q {
      assert pages[j] == Roots(c.ls)[j];
    }
  }
}
