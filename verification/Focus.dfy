/** States of the page store while a change climbs from a leaf towards the root. */
module Focus {
  import opened Bytes
  import opened Storage
  import opened Shape
  import opened Contexts
  import opened Steps
  import opened Contents
  import opened Sizes

  /** The pages hold the tree with `t` in the hole of `c`; node `t` has at least `least` entries. */
  ghost predicate Focused(m: map<PageNo, Page>, c: Context, t: Tree, h: nat, d: Discipline, least: nat) {
    && Shaped(c)
    && HeldAround(m, c, t.p) && Held(m, t)
    && OrderedAround(c, h, First(t)) && Ordered(t, h, Lo(c), Hi(c), End(c))
    && NoRepeats(Around(c) + Footprint(t))
    && FilledAround(c, d) && Filled(t, d, least)
  }

  /** The same for a run of children, whose parent is yet to be told that there is more than one. */
  ghost predicate Pending(m: map<PageNo, Page>, c: Context, keys: seq<Key>, kids: seq<Tree>, h: nat, d: Discipline) {
    && Shaped(c) && |kids| == |keys| + 1
    && HeldAround(m, c, kids[0].p) && HeldAll(m, kids)
    && OrderedAround(c, h, First(kids[0])) && OrderedAll(keys, kids, h, Lo(c), Hi(c), End(c))
    && NoRepeats(Around(c) + FootprintAll(kids))
    && FilledAround(c, d) && FilledAll(kids, d) && KeysOk(d, keys)
  }

  lemma FocusedIsStored(m: map<PageNo, Page>, c: Context, t: Tree, h: nat, d: Discipline)
    requires Shaped(c)
    ensures Focused(m, c, t, h, d, Least(c, t, d)) <==> Stored(m, Plug(c, t), h + Depth(c), d)
  {
    hide Rank, First, Held, HeldAround, Ordered, OrderedAround, Filled, FilledAround, Footprint, Plug, Sound, Lo, Hi,
      End;
    PlugHeld(m, c, t);
    PlugOrdered(c, t, h);
    PlugContents(c, t);
    PlugFilled(c, t, d);
  }

  lemma RootInFootprint(t: Tree)
    ensures t.p in Footprint(t)
  {
  }

  lemma {:induction false} RootsInFootprint(kids: seq<Tree>)
    ensures forall i :: 0 <= i < |kids| ==> kids[i].p in FootprintAll(kids)
  {
    if kids != [] {
      RootInFootprint(kids[0]);
      RootsInFootprint(kids[1..]);
      forall i | 0 <= i < |kids| ensures kids[i].p in FootprintAll(kids) {
        if i > 0 {
          assert kids[i] == kids[1..][i - 1];
        }
      }
    }
  }

  lemma {:induction false} AroundLive(m: map<PageNo, Page>, c: Context, q: PageNo)
    requires HeldAround(m, c, q)
    ensures forall p :: p in Around(c) ==> p in m
  {
    if c.In? {
      HeldAllLive(m, c.ls);
      HeldAllLive(m, c.rs);
      AroundLive(m, c.up, c.p);
    }
  }

  lemma FreshPage(f: multiset<PageNo>, q: PageNo)
    requires NoRepeats(f) && q !in f
    ensures NoRepeats(f + multiset{q})
  {
    forall p | p in f + multiset{q} ensures (f + multiset{q})[p] == 1 {
      assert (f + multiset{q})[p] == f[p] + multiset{q}[p];
    }
  }

  // ----- Rewriting one node in place

  lemma WriteLeaf(m: map<PageNo, Page>, m': map<PageNo, Page>, c: Context, p: PageNo,
                  es: seq<LeafEntry>, next: PageNo, d: Discipline, least: nat)
    requires Shaped(c) && HeldAround(m, c, p) && p in m && m' == m[p := LeafPage(es, next)]
    requires NoRepeats(Around(c) + multiset{p})
    requires OrderedAround(c, 0, p) && SortedIn(es, Lo(c), Hi(c)) && next == End(c)
    requires FilledAround(c, d) && EntriesOk(d, es) && |es| >= least
    ensures Focused(m', c, Leaf(p, es, next), 0, d, least)
  {
    hide Rank, HeldAround, OrderedAround, FilledAround, SortedIn, Around;
    assert (Around(c) + multiset{p})[p] == Around(c)[p] + 1;
    HeldAroundFrame(m, m', c, p);
  }

  /** The parent is rewritten to point to a run of children. */
  lemma WriteParent(m: map<PageNo, Page>, m': map<PageNo, Page>, c: Context, keys: seq<Key>, kids: seq<Tree>,
                    h: nat, d: Discipline, least: nat)
    requires c.In? && Shaped(c) && |kids| == |keys| + 1
    requires HeldAll(m, c.ls) && HeldAll(m, c.rs) && HeldAround(m, c.up, c.p) && HeldAll(m, kids)
    requires c.p in m
    requires m' == m[c.p := BranchPage(c.lk + keys + c.rk, Roots(c.ls) + Roots(kids) + Roots(c.rs))]
    requires OrderedAround(c, h, First(kids[0])) && OrderedAll(keys, kids, h, Lo(c), Hi(c), End(c))
    requires NoRepeats(Around(c) + FootprintAll(kids))
    requires FilledBeside(c, d) && FilledAll(kids, d) && KeysOk(d, keys)
    requires |c.lk| + |keys| + |c.rk| >= least
    ensures Focused(m', c.up, Branch(c.p, c.lk + keys + c.rk, c.ls + kids + c.rs), h + 1, d, least)
  {
    var node := Branch(c.p, c.lk + keys + c.rk, c.ls + kids + c.rs);
    assert NoRepeats(Around(c.up) + Footprint(node)) by {
      BranchContents(c, keys, kids);
      assert Around(c.up) + Footprint(node) == Around(c) + FootprintAll(kids);
    }
    ParentHeld(m, m', c, keys, kids);
    ParentOrdered(c, keys, kids, h);
    ParentFilled(c, keys, kids, d, least);
  }

  lemma ParentHeld(m: map<PageNo, Page>, m': map<PageNo, Page>, c: Context, keys: seq<Key>, kids: seq<Tree>)
    requires c.In? && Shaped(c) && |kids| == |keys| + 1
    requires HeldAll(m, c.ls) && HeldAll(m, c.rs) && HeldAround(m, c.up, c.p) && HeldAll(m, kids)
    requires c.p in m
    requires m' == m[c.p := BranchPage(c.lk + keys + c.rk, Roots(c.ls) + Roots(kids) + Roots(c.rs))]
    requires NoRepeats(Around(c) + FootprintAll(kids))
    ensures HeldAround(m', c.up, c.p)
    ensures Held(m', Branch(c.p, c.lk + keys + c.rk, c.ls + kids + c.rs))
  {
    hide Held, HeldAll, HeldAround, BranchPage, Footprint, FootprintAll;
    assert (Around(c) + FootprintAll(kids))[c.p] <= 1;
    HeldAllFrame(m, m', c.ls);
    HeldAllFrame(m, m', c.rs);
    HeldAllFrame(m, m', kids);
    HeldAroundFrame(m, m', c.up, c.p);
    BranchHeld(m', c, keys, kids);
  }

  lemma ParentOrdered(c: Context, keys: seq<Key>, kids: seq<Tree>, h: nat)
    requires c.In? && Shaped(c) && |kids| == |keys| + 1
    requires OrderedAround(c, h, First(kids[0])) && OrderedAll(keys, kids, h, Lo(c), Hi(c), End(c))
    ensures var node := Branch(c.p, c.lk + keys + c.rk, c.ls + kids + c.rs);
            && OrderedAround(c.up, h + 1, First(node))
            && Ordered(node, h + 1, Lo(c.up), Hi(c.up), End(c.up))
  {
    hide Rank, OrderedAll, Lo, Hi, End;
    FrameOrdered(c, keys, kids, h);
    var node := Branch(c.p, c.lk + keys + c.rk, c.ls + kids + c.rs);
    assert First(node) == if c.ls == [] then First(kids[0]) else First(c.ls[0]);
  }

  lemma ParentFilled(c: Context, keys: seq<Key>, kids: seq<Tree>, d: Discipline, least: nat)
    requires c.In? && FilledBeside(c, d) && FilledAll(kids, d) && KeysOk(d, keys)
    requires |c.lk| + |keys| + |c.rk| >= least
    ensures FilledAround(c.up, d) && Filled(Branch(c.p, c.lk + keys + c.rk, c.ls + kids + c.rs), d, least)
  {
    hide FilledAll, KeysOk, MinFill;
    Concat(c.ls + kids, c.rs, map[], d);
    Concat(c.ls, kids, map[], d);
    ConcatKeysOk(d, c.lk + keys, c.rk);
    ConcatKeysOk(d, c.lk, keys);
  }

  // ----- Splits

  /** A leaf whose entries were cut in two: the second half went to the fresh page `q`. */
  lemma SplitLeaf(m: map<PageNo, Page>, m': map<PageNo, Page>, c: Context, p: PageNo, q: PageNo,
                  es: seq<LeafEntry>, mid: nat, next: PageNo, d: Discipline)
    requires Shaped(c) && HeldAround(m, c, p) && p in m && q !in m && 0 < mid < |es|
    requires m' == m[q := Blank][p := LeafPage(es[..mid], q)][q := LeafPage(es[mid..], next)]
    requires NoRepeats(Around(c) + multiset{p})
    requires OrderedAround(c, 0, p) && SortedIn(es, Lo(c), Hi(c)) && next == End(c)
    requires FilledAround(c, d) && EntriesOk(d, es) && mid >= MinFill(d) && |es| - mid >= MinFill(d)
    ensures Pending(m', c, [es[mid].key], [Leaf(p, es[..mid], q), Leaf(q, es[mid..], next)], 0, d)
    ensures Rewritten(m, m', Around(c) + multiset{p}, Around(c) + multiset{p, q}, multiset{})
  {
    hide Rank, HeldAround, OrderedAround, FilledAround, SortedIn, OrderedAll, Around, Lo, Hi, End, Filled, Held,
      NoRepeats, MinFill;
    var l, r := Leaf(p, es[..mid], q), Leaf(q, es[mid..], next);
    SplitLeafPages(m, m', c, p, q, LeafPage(es[..mid], q), LeafPage(es[mid..], next));
    LeavesCut(p, es, mid, q, next, Lo(c), Hi(c));
    Pair(l, es[mid].key, r, 0, Lo(c), Hi(c), End(c), m', d);
    SplitLeafHalves(m', p, q, es, mid, next, d);
    assert Footprint(l) == multiset{p} && Footprint(r) == multiset{q};
    assert FootprintAll([l, r]) == multiset{p, q};
  }

  /** Around two pages of which one is fresh nothing changes. */
  lemma SplitLeafPages(m: map<PageNo, Page>, m': map<PageNo, Page>, c: Context, p: PageNo, q: PageNo,
                       left: Page, right: Page)
    requires HeldAround(m, c, p) && p in m && q !in m && NoRepeats(Around(c) + multiset{p})
    requires m' == m[q := Blank][p := left][q := right]
    ensures HeldAround(m', c, p) && NoRepeats(Around(c) + multiset{p, q})
    ensures Rewritten(m, m', Around(c) + multiset{p}, Around(c) + multiset{p, q}, multiset{})
  {
    hide HeldAround, Around, Rewritten, NoRepeats;
    AroundLive(m, c, p);
    OnceOnly(Around(c), p);
    assert m'.Keys == m.Keys + {q};
    BesideWritten(m, m', c, p, q);
    TwoWritten(m, m', Around(c), p, q);
  }

  lemma BesideWritten(m: map<PageNo, Page>, m': map<PageNo, Page>, c: Context, p: PageNo, q: PageNo)
    requires HeldAround(m, c, p) && p in m && q !in m && NoRepeats(Around(c) + multiset{p})
    requires m'.Keys == m.Keys + {q} && (forall x :: x in m && x != p ==> m'[x] == m[x])
    ensures HeldAround(m', c, p) && NoRepeats(Around(c) + multiset{p, q})
  {
    hide HeldAround, Around, NoRepeats;
    AroundLive(m, c, p);
    OnceOnly(Around(c), p);
    HeldAroundFrame(m, m', c, p);
    FreshPage(Around(c) + multiset{p}, q);
    assert Around(c) + multiset{p, q} == Around(c) + multiset{p} + multiset{q};
  }

  lemma OnceOnly(f: multiset<PageNo>, p: PageNo)
    requires NoRepeats(f + multiset{p})
    ensures p !in f
  {
    assert (f + multiset{p})[p] == f[p] + 1;
  }

  lemma TwoWritten(m: map<PageNo, Page>, m': map<PageNo, Page>, f: multiset<PageNo>, p: PageNo, q: PageNo)
    requires p in m && q !in m && m'.Keys == m.Keys + {q} && (forall x :: x in f ==> x in m)
    requires forall x :: x in m && x != p ==> m'[x] == m[x]
    ensures Rewritten(m, m', f + multiset{p}, f + multiset{p, q}, multiset{})
  {
    forall x ensures x in m' <==> x in m || x == q {
      assert x in m' <==> x in m'.Keys;
    }
  }

  lemma SplitLeafHalves(m: map<PageNo, Page>, p: PageNo, q: PageNo, es: seq<LeafEntry>, mid: nat, next: PageNo,
                        d: Discipline)
    requires 0 < mid < |es| && EntriesOk(d, es) && mid >= MinFill(d) && |es| - mid >= MinFill(d) && p != q
    requires p in m && q in m && m[p] == LeafPage(es[..mid], q) && m[q] == LeafPage(es[mid..], next)
    ensures Filled(Leaf(p, es[..mid], q), d, MinFill(d)) && Filled(Leaf(q, es[mid..], next), d, MinFill(d))
    ensures Held(m, Leaf(p, es[..mid], q)) && Held(m, Leaf(q, es[mid..], next)) && KeysOk(d, [es[mid].key])
  {
    hide MinFill, EntryOk;
    assert es == es[..mid] + es[mid..];
    ConcatEntriesOk(d, es[..mid], es[mid..]);
    assert EntryOk(d, es[mid]);
    EntryKeyOk(d, es[mid]);
  }

  lemma EntryKeyOk(d: Discipline, e: LeafEntry)
    requires EntryOk(d, e)
    ensures KeyOk(d, e.key)
  {
  }

  /** A branch, too large for its page `p`, that was cut at a separator: what is right of it went to the
      fresh page `q`, and the separator itself goes up. */
  lemma SplitBranch(m: map<PageNo, Page>, m': map<PageNo, Page>, c: Context, p: PageNo, q: PageNo,
                    keys: seq<Key>, kids: seq<Tree>, cut: nat, h: nat, d: Discipline)
    requires Shaped(c) && HeldAround(m, c, p) && HeldAll(m, kids) && p in m && q !in m
    requires |kids| == |keys| + 1 && cut < |keys|
    requires m' == m[q := Blank][p := BranchPage(keys[..cut], Roots(kids[..cut + 1]))]
                    [q := BranchPage(keys[cut + 1..], Roots(kids[cut + 1..]))]
    requires NoRepeats(Around(c) + multiset{p} + FootprintAll(kids))
    requires OrderedAround(c, h + 1, First(kids[0])) && OrderedAll(keys, kids, h, Lo(c), Hi(c), End(c))
    requires FilledAround(c, d) && FilledAll(kids, d) && KeysOk(d, keys)
    requires cut >= MinFill(d) && |keys| - cut - 1 >= MinFill(d)
    ensures Pending(m', c, [keys[cut]], [Branch(p, keys[..cut], kids[..cut + 1]),
                                         Branch(q, keys[cut + 1..], kids[cut + 1..])], h + 1, d)
    ensures FlatAll(kids) == FlatAll(kids[..cut + 1]) + FlatAll(kids[cut + 1..])
    ensures FootprintAll(kids) == FootprintAll(kids[..cut + 1]) + FootprintAll(kids[cut + 1..])
    ensures Rewritten(m, m', Around(c) + multiset{p} + FootprintAll(kids),
                      Around(c) + multiset{p, q} + FootprintAll(kids), multiset{})
  {
    hide Rank, HeldAround, OrderedAround, FilledAround, OrderedAll, HeldAll, FilledAll, FlatAll, FootprintAll, Around,
      Lo, Hi, End, BranchPage, Held, Filled, NoRepeats, Rewritten, MinFill;
    var l, r := Branch(p, keys[..cut], kids[..cut + 1]), Branch(q, keys[cut + 1..], kids[cut + 1..]);
    assert kids == kids[..cut + 1] + kids[cut + 1..];
    Concat(kids[..cut + 1], kids[cut + 1..], m', d);
    SplitBranchHeld(m, m', c, p, q, keys, kids, cut);
    assert keys == keys[..cut] + [keys[cut]] + keys[cut + 1..];
    SplitBranchFilled(p, keys[..cut], kids[..cut + 1], keys[cut], q, keys[cut + 1..], kids[cut + 1..], d);
    BranchesCut(p, keys, kids, cut, q, h, Lo(c), Hi(c), End(c));
    Pair(l, keys[cut], r, h + 1, Lo(c), Hi(c), End(c), m', d);
    assert First(l) == First(kids[0]);
    SplitBranchPages(m, m', c, p, q, kids);
    assert Around(c) + FootprintAll([l, r]) == Around(c) + multiset{p, q} + FootprintAll(kids);
  }

  lemma SplitBranchPages(m: map<PageNo, Page>, m': map<PageNo, Page>, c: Context, p: PageNo, q: PageNo,
                         kids: seq<Tree>)
    requires HeldAround(m, c, p) && HeldAll(m, kids) && p in m && q !in m
    requires m'.Keys == m.Keys + {q} && (forall x :: x in m && x != p ==> m'[x] == m[x])
    requires NoRepeats(Around(c) + multiset{p} + FootprintAll(kids))
    ensures NoRepeats(Around(c) + multiset{p, q} + FootprintAll(kids))
    ensures Rewritten(m, m', Around(c) + multiset{p} + FootprintAll(kids),
                      Around(c) + multiset{p, q} + FootprintAll(kids), multiset{})
  {
    hide HeldAround, HeldAll, Around, FootprintAll, NoRepeats, Rewritten;
    AroundLive(m, c, p);
    HeldAllLive(m, kids);
    var f := Around(c) + FootprintAll(kids);
    assert Around(c) + multiset{p} + FootprintAll(kids) == f + multiset{p};
    assert Around(c) + multiset{p, q} + FootprintAll(kids) == f + multiset{p, q} == f + multiset{p} + multiset{q};
    TwoWritten(m, m', f, p, q);
    FreshPage(f + multiset{p}, q);
  }

  lemma SplitBranchHeld(m: map<PageNo, Page>, m': map<PageNo, Page>, c: Context, p: PageNo, q: PageNo,
                        keys: seq<Key>, kids: seq<Tree>, cut: nat)
    requires HeldAround(m, c, p) && HeldAll(m, kids) && p in m && q !in m
    requires |kids| == |keys| + 1 && cut < |keys|
    requires m' == m[q := Blank][p := BranchPage(keys[..cut], Roots(kids[..cut + 1]))]
                    [q := BranchPage(keys[cut + 1..], Roots(kids[cut + 1..]))]
    requires NoRepeats(Around(c) + multiset{p} + FootprintAll(kids))
    ensures HeldAround(m', c, p)
    ensures Held(m', Branch(p, keys[..cut], kids[..cut + 1]))
    ensures Held(m', Branch(q, keys[cut + 1..], kids[cut + 1..]))
  {
    hide HeldAround, HeldAll, FootprintAll, Around, BranchPage, Entries;
    var a, b := kids[..cut + 1], kids[cut + 1..];
    AroundLive(m, c, p);
    HeldAllLive(m, kids);
    assert (Around(c) + multiset{p} + FootprintAll(kids))[p] <= 1;
    HeldAroundFrame(m, m', c, p);
    HeldAllFrame(m, m', kids);
    assert kids == a + b;
    Concat(a, b, m', AnyKeys);
  }

  lemma SplitBranchFilled(p: PageNo, kl: seq<Key>, a: seq<Tree>, k: Key, q: PageNo, kr: seq<Key>, b: seq<Tree>,
                          d: Discipline)
    requires FilledAll(a + b, d) && KeysOk(d, kl + [k] + kr)
    requires |kl| >= MinFill(d) && |kr| >= MinFill(d)
    ensures Filled(Branch(p, kl, a), d, MinFill(d)) && Filled(Branch(q, kr, b), d, MinFill(d))
    ensures KeysOk(d, [k])
  {
    hide FilledAll, KeysOk, MinFill;
    Concat(a, b, map[], d);
    ConcatKeysOk(d, kl + [k], kr);
    ConcatKeysOk(d, kl, [k]);
  }

  // ----- Insertion climbing

  /** A branch on page `p` that has just grown past its page; the page still has the old node. */
  ghost predicate Oversize(m: map<PageNo, Page>, c: Context, p: PageNo, keys: seq<Key>, kids: seq<Tree>,
                           h: nat, d: Discipline) {
    && Shaped(c) && |kids| == |keys| + 1
    && p in m && HeldAround(m, c, p) && HeldAll(m, kids)
    && NoRepeats(Around(c) + multiset{p} + FootprintAll(kids))
    && OrderedAround(c, h + 1, First(kids[0])) && OrderedAll(keys, kids, h, Lo(c), Hi(c), End(c))
    && FilledAround(c, d) && FilledAll(kids, d) && KeysOk(d, keys)
    && (d.FixedWidth? ==> |keys| > 0 && NODE_HEADER_SIZE + (|keys| - 1) * SepWidth(d) <= PAGE_SIZE)
  }

  /** The tree took fresh pages and gave none back. */
  ghost predicate Grown(m: map<PageNo, Page>, m': map<PageNo, Page>, f: multiset<PageNo>, t: Tree) {
    Rewritten(m, m', f, Footprint(t), multiset{}) && f <= Footprint(t)
  }

  /** The page of the root, seen from the hole of a context. */
  ghost function RootOf(c: Context, p: PageNo): PageNo {
    if c.Top? then p else RootOf(c.up, c.p)
  }

  lemma {:induction false} PlugRoot(c: Context, t: Tree)
    ensures Plug(c, t).p == RootOf(c, t.p)
  {
    if c.In? {
      PlugRoot(c.up, Branch(c.p, c.lk + [] + c.rk, c.ls + [t] + c.rs));
    }
  }

  /** The root was split: a new root gets the two halves. */
  lemma NewRoot(m: map<PageNo, Page>, m': map<PageNo, Page>, q: PageNo, k: Key, left: Tree, right: Tree,
                h: nat, d: Discipline)
    requires Pending(m, Top, [k], [left, right], h, d) && Roomy(d) && q !in m
    requires m' == m[q := Blank][q := InternalPage([InternalEntry(k, left.p)], right.p)]
    ensures var t := Branch(q, [k], [left, right]);
            && Stored(m', t, h + 1, d)
            && Flat(t) == Flat(left) + Flat(right)
            && Grown(m, m', Around(Top) + (Footprint(left) + Footprint(right)), t)
    ensures d.FixedWidth? ==> Fits(InternalPage([InternalEntry(k, left.p)], right.p))
  {
    hide Rank, OrderedAll, HeldAll, FilledAll, FootprintAll, FlatAll, KeysOk, Flat, Footprint, First, BranchPage, Lo,
      Hi, End;
    AtTop(m, left, h);
    Pair(left, k, right, h, LOWEST, HIGHEST, 0, m, d);
    HeldAllLive(m, [left, right]);
    var f := FootprintAll([left, right]);
    FreshPage(Around(Top) + f, q);
    assert Around(Top) + f + multiset{q} == f + multiset{q};
    NewRootStored(m, m', q, k, left, right, h, d);
  }

  lemma AtTop(m: map<PageNo, Page>, t: Tree, h: nat)
    ensures Plug(Top, t) == t && Shaped(Top) && PathOf(Top) == [] && Depth(Top) == 0
    ensures HeldAround(m, Top, t.p) && OrderedAround(Top, h, First(t))
    ensures Lo(Top) == LOWEST && Hi(Top) == HIGHEST && End(Top) == 0
    ensures Sound(t, h) <==> Ordered(t, h, LOWEST, HIGHEST, 0)
    ensures Around(Top) == multiset{} && Before(Top) == [] && After(Top) == []
  {
  }

  lemma NewRootStored(m: map<PageNo, Page>, m': map<PageNo, Page>, q: PageNo, k: Key, left: Tree, right: Tree,
                      h: nat, d: Discipline)
    requires HeldAll(m, [left, right]) && OrderedAll([k], [left, right], h, LOWEST, HIGHEST, 0)
    requires FilledAll([left, right], d) && KeysOk(d, [k]) && Roomy(d) && q !in m
    requires m' == m[q := Blank][q := InternalPage([InternalEntry(k, left.p)], right.p)]
    requires NoRepeats(FootprintAll([left, right]) + multiset{q})
    ensures var t := Branch(q, [k], [left, right]);
            && Stored(m', t, h + 1, d)
            && Flat(t) == FlatAll([left, right])
            && Footprint(t) == FootprintAll([left, right]) + multiset{q}
    ensures d.FixedWidth? ==> Fits(InternalPage([InternalEntry(k, left.p)], right.p))
  {
    hide Rank, OrderedAll, HeldAll, FilledAll, FootprintAll, FlatAll, KeysOk, Fits;
    HeldAllLive(m, [left, right]);
    HeldAllFrame(m, m', [left, right]);
    assert BranchPage([k], Roots([left, right])) == InternalPage([InternalEntry(k, left.p)], right.p);
    assert Footprint(Branch(q, [k], [left, right])) == FootprintAll([left, right]) + multiset{q};
    assert Held(m', Branch(q, [k], [left, right]));
    assert Sound(Branch(q, [k], [left, right]), h + 1);
    assert RootFilled(Branch(q, [k], [left, right]), d);
    if d.FixedWidth? {
      SmallBranchFits([k], Roots([left, right]), d);
    }
  }

  /** The parent has room for the new separator. */
  lemma AbsorbSplit(m: map<PageNo, Page>, m': map<PageNo, Page>, c: Context, k: Key, left: Tree, right: Tree,
                    h: nat, d: Discipline)
    requires c.In? && Pending(m, c, [k], [left, right], h, d)
    requires m' == m[c.p := BranchPage(c.lk + [k] + c.rk, Roots(c.ls) + [left.p, right.p] + Roots(c.rs))]
    ensures var t := Graft(c, [k], [left, right]);
            && Stored(m', t, h + Depth(c), d)
            && Flat(t) == Before(c) + (Flat(left) + Flat(right)) + After(c)
            && Grown(m, m', Around(c) + (Footprint(left) + Footprint(right)), t)
  {
    hide Rank, OrderedAll, OrderedAround, HeldAll, HeldAround, FilledAll, FootprintAll, FlatAll, KeysOk, First, Lo, Hi,
      End, MinFill, BranchPage, Graft, Plug, Around, Before, After, Flat, Footprint;
    assert Roots([left, right]) == [left.p, right.p];
    AbsorbStored(m, m', c, [k], [left, right], h, d);
    GraftContents(c, [k], [left, right]);
    Pair(left, k, right, h, 0.0, 0.0, 0, m, d);
    AroundLive(m, c, left.p);
    HeldAllLive(m, [left, right]);
    ParentAround(c);
  }

  lemma ParentAround(c: Context)
    requires c.In?
    ensures c.p in Around(c)
  {
  }

  lemma AbsorbStored(m: map<PageNo, Page>, m': map<PageNo, Page>, c: Context, keys: seq<Key>, kids: seq<Tree>,
                     h: nat, d: Discipline)
    requires c.In? && Pending(m, c, keys, kids, h, d)
    requires m' == m[c.p := BranchPage(c.lk + keys + c.rk, Roots(c.ls) + Roots(kids) + Roots(c.rs))]
    ensures Stored(m', Graft(c, keys, kids), h + Depth(c), d)
  {
    hide Rank, OrderedAll, OrderedAround, HeldAll, FilledAll, FootprintAll, KeysOk, First, Lo, Hi, End, MinFill,
      BranchPage, Around, Stored, Focused;
    var node := Branch(c.p, c.lk + keys + c.rk, c.ls + kids + c.rs);
    WriteParent(m, m', c, keys, kids, h, d, Least(c.up, node, d));
    FocusedIsStored(m', c.up, node, h + 1, d);
  }

  /** The parent has no room. */
  lemma ToOversize(m: map<PageNo, Page>, c: Context, k: Key, left: Tree, right: Tree, h: nat, d: Discipline)
    requires c.In? && Pending(m, c, [k], [left, right], h, d) && (c.p in m ==> Fits(m[c.p]))
    ensures c.p in m
    ensures Oversize(m, c.up, c.p, c.lk + [k] + c.rk, c.ls + [left, right] + c.rs, h, d)
    ensures FlatAll(c.ls + [left, right] + c.rs) == FlatAll(c.ls) + (Flat(left) + Flat(right)) + FlatAll(c.rs)
    ensures Around(c.up) + multiset{c.p} + FootprintAll(c.ls + [left, right] + c.rs)
         == Around(c) + (Footprint(left) + Footprint(right))
  {
    hide Rank, OrderedAll, OrderedAround, HeldAll, FilledAll, FootprintAll, FlatAll, KeysOk, First, Lo, Hi, End,
      MinFill, BranchPage, Footprint, Flat, Held, Filled, Ordered;
    Concat(c.ls + [left, right], c.rs, m, d);
    Concat(c.ls, [left, right], m, d);
    OversizeFilled(m, c, k, left, right, d);
    Pair(left, k, right, h, 0.0, 0.0, 0, m, d);
    OversizeOrdered(c, k, left, right, h);
    OversizePages(c, [left, right]);
  }

  lemma OversizePages(c: Context, kids: seq<Tree>)
    requires c.In?
    ensures Around(c.up) + multiset{c.p} + FootprintAll(c.ls + kids + c.rs) == Around(c) + FootprintAll(kids)
  {
    hide FootprintAll;
    Concat(c.ls + kids, c.rs, map[], AnyKeys);
    Concat(c.ls, kids, map[], AnyKeys);
  }

  lemma OversizeFilled(m: map<PageNo, Page>, c: Context, k: Key, left: Tree, right: Tree, d: Discipline)
    requires c.In? && Shaped(c) && HeldAround(m, c, left.p) && Fits(m[c.p])
    requires FilledAround(c, d) && KeysOk(d, [k])
    ensures KeysOk(d, c.lk + [k] + c.rk)
    ensures d.FixedWidth? ==> NODE_HEADER_SIZE + (|c.lk| + |c.rk|) * SepWidth(d) <= PAGE_SIZE
  {
    hide Rank, FilledAll, KeysOk, BranchPage, HeldAll;
    ConcatKeysOk(d, c.lk + [k], c.rk);
    ConcatKeysOk(d, c.lk, [k]);
    ConcatKeysOk(d, c.lk, c.rk);
    BranchSize(c.lk + c.rk, Roots(c.ls) + [left.p] + Roots(c.rs), d);
  }

  lemma OversizeOrdered(c: Context, k: Key, left: Tree, right: Tree, h: nat)
    requires c.In? && Shaped(c) && OrderedAround(c, h, First(left))
    requires OrderedAll([k], [left, right], h, Lo(c), Hi(c), End(c))
    ensures var kids := c.ls + [left, right] + c.rs;
            && OrderedAround(c.up, h + 1, First(kids[0]))
            && OrderedAll(c.lk + [k] + c.rk, kids, h, Lo(c.up), Hi(c.up), End(c.up))
  {
    hide Rank, OrderedAll, OrderedAround, Lo, Hi, End;
    ParentOrdered(c, [k], [left, right], h);
  }

  // ----- Changing the entries of one leaf

  /** What is known of the leaf in the hole. */
  lemma LeafInHole(m: map<PageNo, Page>, c: Context, leaf: Tree, h: nat, d: Discipline)
    requires Shaped(c) && leaf.Leaf? && Depth(c) == h && Stored(m, Plug(c, leaf), h, d)
    ensures HeldAround(m, c, leaf.p) && Holds(m, leaf.p, LeafPage(leaf.es, leaf.next))
    ensures OrderedAround(c, 0, leaf.p) && SortedIn(leaf.es, Lo(c), Hi(c)) && leaf.next == End(c)
    ensures NoRepeats(Around(c) + multiset{leaf.p})
    ensures FilledAround(c, d) && EntriesOk(d, leaf.es) && |leaf.es| >= Least(c, leaf, d)
    ensures Footprint(Plug(c, leaf)) == Around(c) + multiset{leaf.p}
    ensures Flat(Plug(c, leaf)) == Before(c) + leaf.es + After(c)
    ensures Plug(c, leaf).p == RootOf(c, leaf.p)
  {
    hide Rank, HeldAround, OrderedAround, FilledAround, SortedIn, Around, Lo, Hi, End, Stored;
    FocusedIsStored(m, c, leaf, 0, d);
    PlugContents(c, leaf);
    PlugRoot(c, leaf);
  }

  lemma LeafChange(m: map<PageNo, Page>, m': map<PageNo, Page>, c: Context, leaf: Tree, es: seq<LeafEntry>,
                   h: nat, d: Discipline)
    requires Shaped(c) && leaf.Leaf? && Depth(c) == h && Stored(m, Plug(c, leaf), h, d)
    requires SortedIn(es, Lo(c), Hi(c)) && EntriesOk(d, es) && |es| >= Least(c, leaf, d)
    requires m' == m[leaf.p := LeafPage(es, leaf.next)]
    ensures var t := Plug(c, Leaf(leaf.p, es, leaf.next));
            && Stored(m', t, h, d) && t.p == Plug(c, leaf).p
            && Flat(t) == Before(c) + es + After(c)
            && Footprint(t) == Footprint(Plug(c, leaf))
            && Rewritten(m, m', Footprint(t), Footprint(t), multiset{})
  {
    hide Rank, HeldAround, OrderedAround, FilledAround, SortedIn, Around, Lo, Hi, End, Stored, Plug, Focused, EntriesOk,
      Before, After;
    LeafInHole(m, c, leaf, h, d);
    var leaf' := Leaf(leaf.p, es, leaf.next);
    WriteLeaf(m, m', c, leaf.p, es, leaf.next, d, Least(c, leaf', d));
    FocusedIsStored(m', c, leaf', 0, d);
    PlugContents(c, leaf');
    PlugRoot(c, leaf');
    AroundLive(m, c, leaf.p);
    InPlace(m, m', Around(c), leaf.p);
  }

  lemma InPlace(m: map<PageNo, Page>, m': map<PageNo, Page>, around: multiset<PageNo>, p: PageNo)
    requires p in m && m'.Keys == m.Keys && forall q :: q in m && q != p ==> m'[q] == m[q]
    requires forall q :: q in around ==> q in m
    ensures Rewritten(m, m', around + multiset{p}, around + multiset{p}, multiset{})
  {
  }
}
