/** Two neighbouring children of one parent, the situation in which deletion borrows or merges. */
module Pairs {
  import opened Bytes
  import opened Storage
  import opened Shape
  import opened Contexts
  import opened Steps
  import opened Contents
  import opened Focus

  /** The pages hold the tree with `[x, y]` in the hole of `c`, cut at `k`; `x` has at least `fx` entries
      and `y` at least `fy`. */
  ghost predicate Paired(m: map<PageNo, Page>, c: Context, x: Tree, k: Key, y: Tree, h: nat, d: Discipline,
                         fx: nat, fy: nat) {
    && c.In? && Shaped(c)
    && Holds(m, c.p, BranchPage(c.lk + [k] + c.rk, Roots(c.ls) + [x.p, y.p] + Roots(c.rs)))
    && HeldAll(m, c.ls) && HeldAll(m, c.rs) && HeldAround(m, c.up, c.p) && Held(m, x) && Held(m, y)
    && OrderedAround(c, h, First(x)) && OrderedAll([k], [x, y], h, Lo(c), Hi(c), End(c))
    && NoRepeats(Around(c) + (Footprint(x) + Footprint(y)))
    && FilledBeside(c, d) && |c.lk| + 1 + |c.rk| >= Least(c.up, Branch(c.p, [], []), d)
    && KeyOk(d, k) && Filled(x, d, fx) && Filled(y, d, fy)
  }

  /** The node in the hole together with its right sibling. */
  ghost function LessRight(c: Context): Context
    requires c.In? && c.rk != [] && c.rs != []
  {
    c.(rk := c.rk[1..], rs := c.rs[1..])
  }

  /** The node in the hole together with its left sibling. */
  ghost function LessLeft(c: Context): Context
    requires c.In? && c.lk != [] && c.ls != []
  {
    c.(lk := c.lk[..|c.lk| - 1], ls := c.ls[..|c.ls| - 1])
  }

  lemma PairRight(m: map<PageNo, Page>, c: Context, t: Tree, h: nat, d: Discipline, least: nat)
    requires Focused(m, c, t, h, d, least) && c.In? && c.rs != []
    ensures c.rk != []
    ensures var c', y := LessRight(c), c.rs[0];
            && Paired(m, c', t, c.rk[0], y, h, d, least, MinFill(d))
            && Before(c') == Before(c) && After(c) == Flat(y) + After(c')
            && Around(c) == Around(c') + Footprint(y)
  {
    hide Rank, HeldAll, HeldAround, Held, Footprint, FilledAll, OrderedAll, OrderedAround, FootprintAll, FilledAround,
      FlatAll, Lo, Hi, End, Filled, First, Flat, MinFill, KeyOk, Ordered, BranchPage, FilledBeside, Around, Before,
      After;
    PairRightHeld(m, c, t, d);
    PairRightOrdered(c, t, h);
    PairRightContents(c);
    assert Around(LessRight(c)) + (Footprint(t) + Footprint(c.rs[0])) == Around(c) + Footprint(t);
  }

  lemma PairRightHeld(m: map<PageNo, Page>, c: Context, t: Tree, d: Discipline)
    requires c.In? && Shaped(c) && c.rs != [] && HeldAround(m, c, t.p) && FilledAround(c, d)
    ensures var c', k, y := LessRight(c), c.rk[0], c.rs[0];
            && Holds(m, c'.p, BranchPage(c'.lk + [k] + c'.rk, Roots(c'.ls) + [t.p, y.p] + Roots(c'.rs)))
            && HeldAll(m, c'.ls) && HeldAll(m, c'.rs) && HeldAround(m, c'.up, c'.p) && Held(m, y)
            && FilledBeside(c', d) && |c'.lk| + 1 + |c'.rk| >= Least(c'.up, Branch(c'.p, [], []), d)
            && KeyOk(d, k) && Filled(y, d, MinFill(d))
  {
    hide HeldAll, Held, FilledAll, Filled, MinFill, KeyOk, BranchPage;
    var c', k, y := LessRight(c), c.rk[0], c.rs[0];
    assert c.rs == [y] + c'.rs && c.rk == [k] + c'.rk;
    Concat([y], c'.rs, m, d);
    Single(y, m, d);
    ConcatKeysOk(d, [k], c'.rk);
    assert [k][0] == k;
    assert c.lk + c.rk == c.lk + [k] + c'.rk;
    assert Roots(c.ls) + [t.p] + Roots(c.rs) == Roots(c.ls) + [t.p, y.p] + Roots(c'.rs);
  }

  lemma PairRightContents(c: Context)
    requires c.In? && c.rs != [] && c.rk != []
    ensures var c', y := LessRight(c), c.rs[0];
            && Before(c') == Before(c) && After(c) == Flat(y) + After(c')
            && Around(c) == Around(c') + Footprint(y)
  {
    hide Footprint, Flat, FootprintAll, FlatAll;
    var c', y := LessRight(c), c.rs[0];
    assert c.rs == [y] + c'.rs;
    Concat([y], c'.rs, map[], AnyKeys);
    Single(y, map[], AnyKeys);
  }

  lemma PairRightOrdered(c: Context, t: Tree, h: nat)
    requires c.In? && Shaped(c) && c.rs != [] && OrderedAround(c, h, First(t)) && Ordered(t, h, Lo(c), Hi(c), End(c))
    ensures var c' := LessRight(c);
            OrderedAround(c', h, First(t)) && OrderedAll([c.rk[0]], [t, c.rs[0]], h, Lo(c'), Hi(c'), End(c'))
  {
    hide Rank, OrderedAround, Ordered, OrderedAll, Lo, Hi, End, First;
    var c', k, y := LessRight(c), c.rk[0], c.rs[0];
    assert Plug(c, t) == Graft(c', [k], [t, y]) by {
      assert c.lk + [] + c.rk == c'.lk + [k] + c'.rk;
      assert c.ls + [t] + c.rs == c'.ls + [t, y] + c'.rs;
    }
    PlugOrdered(c, t, h);
    GraftOrdered(c', [k], [t, y], h);
  }

  lemma PairLeft(m: map<PageNo, Page>, c: Context, t: Tree, h: nat, d: Discipline, least: nat)
    requires Focused(m, c, t, h, d, least) && c.In? && c.ls != []
    ensures c.lk != []
    ensures var c', x := LessLeft(c), c.ls[|c.ls| - 1];
            && Paired(m, c', x, c.lk[|c.lk| - 1], t, h, d, MinFill(d), least)
            && Before(c) == Before(c') + Flat(x) && After(c) == After(c')
            && Around(c) == Around(c') + Footprint(x)
  {
    hide Rank, HeldAll, HeldAround, Held, Footprint, FilledAll, OrderedAll, OrderedAround, FootprintAll, FilledAround,
      FlatAll, Lo, Hi, End, Filled, First, Flat, MinFill, KeyOk, Ordered, BranchPage, FilledBeside, Around, Before,
      After;
    var c', k, x := LessLeft(c), c.lk[|c.lk| - 1], c.ls[|c.ls| - 1];
    assert c == MoreLeft(c', k, x);
    PairLeftHeld(m, c', k, x, t, d);
    PairLeftFilled(c', k, x, d);
    PairLeftOrdered(c, t, h);
    PairLeftContents(c', k, x);
    assert Around(LessLeft(c)) + (Footprint(c.ls[|c.ls| - 1]) + Footprint(t)) == Around(c) + Footprint(t);
  }

  /** A context with one more child, and separator, left of the hole. */
  ghost function MoreLeft(c: Context, k: Key, x: Tree): Context
    requires c.In?
  {
    c.(lk := c.lk + [k], ls := c.ls + [x])
  }

  lemma PairLeftHeld(m: map<PageNo, Page>, c': Context, k: Key, x: Tree, t: Tree, d: Discipline)
    requires c'.In? && Shaped(MoreLeft(c', k, x)) && HeldAround(m, MoreLeft(c', k, x), t.p)
    ensures Holds(m, c'.p, BranchPage(c'.lk + [k] + c'.rk, Roots(c'.ls) + [x.p, t.p] + Roots(c'.rs)))
    ensures HeldAll(m, c'.ls) && HeldAll(m, c'.rs) && HeldAround(m, c'.up, c'.p) && Held(m, x)
  {
    hide HeldAll, Held, BranchPage;
    ConcatHeld(c'.ls, [x], m, d);
    Single(x, m, d);
    assert Roots(c'.ls + [x]) + [t.p] + Roots(c'.rs) == Roots(c'.ls) + [x.p, t.p] + Roots(c'.rs);
  }

  lemma PairLeftFilled(c': Context, k: Key, x: Tree, d: Discipline)
    requires c'.In? && FilledAround(MoreLeft(c', k, x), d)
    ensures FilledBeside(c', d) && |c'.lk| + 1 + |c'.rk| >= Least(c'.up, Branch(c'.p, [], []), d)
    ensures KeyOk(d, k) && Filled(x, d, MinFill(d))
  {
    hide FilledAll, Filled, MinFill, KeyOk;
    ConcatHeld(c'.ls, [x], map[], d);
    Single(x, map[], d);
    ConcatKeysOk(d, c'.lk, [k]);
    assert [k][0] == k;
  }

  lemma PairLeftContents(c': Context, k: Key, x: Tree)
    requires c'.In?
    ensures var c := MoreLeft(c', k, x);
            && Before(c) == Before(c') + Flat(x) && After(c) == After(c')
            && Around(c) == Around(c') + Footprint(x)
  {
    hide Footprint, Flat, FootprintAll, FlatAll;
    Concat(c'.ls, [x], map[], AnyKeys);
    Single(x, map[], AnyKeys);
    assert Before(c'.up) + (FlatAll(c'.ls) + Flat(x)) == Before(c'.up) + FlatAll(c'.ls) + Flat(x);
  }

  lemma PairLeftOrdered(c: Context, t: Tree, h: nat)
    requires c.In? && Shaped(c) && c.ls != [] && OrderedAround(c, h, First(t)) && Ordered(t, h, Lo(c), Hi(c), End(c))
    ensures var c', x := LessLeft(c), c.ls[|c.ls| - 1];
            && OrderedAround(c', h, First(x))
            && OrderedAll([c.lk[|c.lk| - 1]], [x, t], h, Lo(c'), Hi(c'), End(c'))
  {
    hide Rank, OrderedAround, Ordered, OrderedAll, Lo, Hi, End, First;
    var c', k, x := LessLeft(c), c.lk[|c.lk| - 1], c.ls[|c.ls| - 1];
    assert Plug(c, t) == Graft(c', [k], [x, t]) by {
      assert c.lk + [] + c.rk == c'.lk + [k] + c'.rk;
      assert c.ls + [t] + c.rs == c'.ls + [x, t] + c'.rs;
    }
    PlugOrdered(c, t, h);
    GraftOrdered(c', [k], [x, t], h);
  }

  /** What is outside the pair stays as it is when only pages of the pair change. */
  lemma OutsidePair(m: map<PageNo, Page>, m': map<PageNo, Page>, c: Context, f: multiset<PageNo>)
    requires c.In? && HeldAll(m, c.ls) && HeldAll(m, c.rs) && HeldAround(m, c.up, c.p) && c.p in m
    requires NoRepeats(Around(c) + f)
    requires forall p :: p in m && p !in f ==> p in m' && m'[p] == m[p]
    ensures HeldAll(m', c.ls) && HeldAll(m', c.rs) && HeldAround(m', c.up, c.p) && c.p in m' && m'[c.p] == m[c.p]
  {
    hide HeldAll, HeldAround, FootprintAll;
    forall p | p in Around(c) ensures p !in f {
      assert (Around(c) + f)[p] == Around(c)[p] + f[p];
    }
    assert c.p in Around(c);
    HeldAllFrame(m, m', c.ls);
    HeldAllFrame(m, m', c.rs);
    HeldAroundFrame(m, m', c.up, c.p);
  }

  /** Both children were rewritten on their pages, and the parent got the separator between them. */
  lemma PairRecut(m: map<PageNo, Page>, m1: map<PageNo, Page>, m2: map<PageNo, Page>, c: Context,
                  x: Tree, k: Key, y: Tree, x': Tree, k': Key, y': Tree, h: nat, d: Discipline, fx: nat, fy: nat)
    requires Paired(m, c, x, k, y, h, d, fx, fy)
    requires Footprint(x') + Footprint(y') == Footprint(x) + Footprint(y) && x'.p == x.p && y'.p == y.p
    requires forall p :: p in m && p !in Footprint(x) + Footprint(y) ==> p in m1 && m1[p] == m[p]
    requires m1.Keys == m.Keys
    requires Held(m1, x') && Held(m1, y')
    requires m2 == m1[c.p := BranchPage(c.lk + [k'] + c.rk, Roots(c.ls) + [x.p, y.p] + Roots(c.rs))]
    requires First(x') == First(x) && OrderedAll([k'], [x', y'], h, Lo(c), Hi(c), End(c))
    requires KeyOk(d, k') && Filled(x', d, MinFill(d)) && Filled(y', d, MinFill(d))
    requires Flat(x') + Flat(y') == Flat(x) + Flat(y)
    ensures var t := Graft(c, [k'], [x', y']);
            && Stored(m2, t, h + Depth(c), d) && t.p == RootOf(c.up, c.p)
            && Flat(t) == Before(c) + (Flat(x) + Flat(y)) + After(c)
            && Footprint(t) == Around(c) + (Footprint(x) + Footprint(y))
            && Rewritten(m, m2, Footprint(t), Footprint(t), multiset{})
  {
    hide Rank, HeldAll, HeldAround, Held, Footprint, FilledAll, OrderedAll, OrderedAround, FilledAround, FootprintAll,
      FlatAll, Lo, Hi, End, Filled, First, Flat, MinFill, KeyOk, Ordered, Stored, Focused, Plug, Before, After,
      NoRepeats, BranchPage;
    OutsidePair(m, m1, c, Footprint(x) + Footprint(y));
    PairLive(m, c, x, k, y, h, d, fx, fy);
    TwinStored(m1, m2, c, x', k', y', h, d);
  }

  /** The parent of two children is rewritten. */
  lemma TwinStored(m1: map<PageNo, Page>, m2: map<PageNo, Page>, c: Context, x: Tree, k: Key, y: Tree,
                   h: nat, d: Discipline)
    requires c.In? && Shaped(c) && NoRepeats(Around(c) + (Footprint(x) + Footprint(y)))
    requires HeldAll(m1, c.ls) && HeldAll(m1, c.rs) && HeldAround(m1, c.up, c.p) && c.p in m1 && Held(m1, x)
             && Held(m1, y)
    requires m2 == m1[c.p := BranchPage(c.lk + [k] + c.rk, Roots(c.ls) + [x.p, y.p] + Roots(c.rs))]
    requires OrderedAround(c, h, First(x)) && OrderedAll([k], [x, y], h, Lo(c), Hi(c), End(c))
    requires FilledBeside(c, d) && |c.lk| + 1 + |c.rk| >= Least(c.up, Branch(c.p, [], []), d)
    requires KeyOk(d, k) && Filled(x, d, MinFill(d)) && Filled(y, d, MinFill(d))
    ensures var t := Graft(c, [k], [x, y]);
            && Stored(m2, t, h + Depth(c), d) && t.p == RootOf(c.up, c.p)
            && Flat(t) == Before(c) + (Flat(x) + Flat(y)) + After(c)
            && Footprint(t) == Around(c) + (Footprint(x) + Footprint(y))
  {
    hide Rank, HeldAll, HeldAround, Held, Footprint, FilledAll, OrderedAll, OrderedAround, FilledBeside, FootprintAll,
      FlatAll, Lo, Hi, End, Filled, First, Flat, MinFill, KeyOk, Ordered, Stored, Focused, Plug, Before, After,
      NoRepeats, BranchPage, Around;
    var kids, node := [x, y], Branch(c.p, c.lk + [k] + c.rk, c.ls + [x, y] + c.rs);
    Pair(x, k, y, h, 0.0, 0.0, 0, m1, d);
    assert KeysOk(d, [k]);
    assert Roots(kids) == [x.p, y.p];
    WriteParent(m1, m2, c, [k], kids, h, d, Least(c.up, node, d));
    FocusedIsStored(m2, c.up, node, h + 1, d);
    PlugRoot(c.up, node);
    GraftContents(c, [k], kids);
  }

  lemma PairLive(m: map<PageNo, Page>, c: Context, x: Tree, k: Key, y: Tree, h: nat, d: Discipline, fx: nat, fy: nat)
    requires Paired(m, c, x, k, y, h, d, fx, fy)
    ensures forall p :: p in Around(c) + (Footprint(x) + Footprint(y)) ==> p in m
    ensures c.p in Around(c) && x.p in Footprint(x) && y.p in Footprint(y)
  {
    hide Rank, HeldAll, HeldAround, Held, Footprint, FootprintAll, OrderedAll, OrderedAround, Filled, FilledBeside;
    HeldLive(m, x);
    HeldLive(m, y);
    HeldAllLive(m, c.ls);
    HeldAllLive(m, c.rs);
    AroundLive(m, c.up, c.p);
  }

  /** The two children became one, on the page of the left one; the parent was told. */
  lemma PairMerged(m: map<PageNo, Page>, m1: map<PageNo, Page>, m2: map<PageNo, Page>, c: Context,
                   x: Tree, k: Key, y: Tree, z: Tree, h: nat, d: Discipline, fx: nat, fy: nat)
    requires Paired(m, c, x, k, y, h, d, fx, fy)
    requires z.p == x.p && Footprint(z) + multiset{y.p} == Footprint(x) + Footprint(y)
    requires m1.Keys == m.Keys - {y.p}
    requires forall p :: p in m && p !in Footprint(x) + Footprint(y) ==> p in m1 && m1[p] == m[p]
    requires Held(m1, z)
    requires m2 == m1[c.p := BranchPage(c.lk + c.rk, Roots(c.ls) + [x.p] + Roots(c.rs))]
    requires First(z) == First(x) && Ordered(z, h, Lo(c), Hi(c), End(c)) && Filled(z, d, MinFill(d))
    requires Flat(z) == Flat(x) + Flat(y)
    ensures var node := Branch(c.p, c.lk + c.rk, c.ls + [z] + c.rs);
            && Focused(m2, c.up, node, h + 1, d, |c.lk| + |c.rk|)
            && Flat(node) == FlatAll(c.ls) + (Flat(x) + Flat(y)) + FlatAll(c.rs)
            && Around(c.up) + Footprint(node) + multiset{y.p} == Around(c) + (Footprint(x) + Footprint(y))
            && Rewritten(m, m2, Around(c) + (Footprint(x) + Footprint(y)), Around(c.up) + Footprint(node), multiset{})
  {
    hide Rank, HeldAll, HeldAround, Held, Footprint, FilledAll, OrderedAll, OrderedAround, FilledAround, FootprintAll,
      FlatAll, Lo, Hi, End, Filled, First, Flat, MinFill, KeyOk, Ordered, Stored, Focused, Plug, Before, After,
      BranchPage, Around, Rewritten;
    var node := Branch(c.p, c.lk + c.rk, c.ls + [z] + c.rs);
    var f, f' := Around(c) + (Footprint(x) + Footprint(y)), Around(c) + Footprint(z);
    assert f' + multiset{y.p} == f;
    assert NoRepeats(f') by { FewerPages(f', y.p); }
    OutsidePair(m, m1, c, Footprint(x) + Footprint(y));
    MergedBranch(m1, m2, c, z, h, d);
    assert Around(c.up) + Footprint(node) == f';
    PairLive(m, c, x, k, y, h, d, fx, fy);
    MergedPages(m, m2, f, f', y.p);
  }

  lemma FewerPages(f: multiset<PageNo>, q: PageNo)
    requires NoRepeats(f + multiset{q})
    ensures NoRepeats(f)
  {
    forall p | p in f ensures f[p] == 1 {
      assert (f + multiset{q})[p] == f[p] + multiset{q}[p];
    }
  }

  lemma MergedPages(m: map<PageNo, Page>, m': map<PageNo, Page>, f: multiset<PageNo>, f': multiset<PageNo>, q: PageNo)
    requires NoRepeats(f) && f' + multiset{q} == f && (forall p :: p in f ==> p in m)
    requires m'.Keys == m.Keys - {q} && forall p :: p in m && p !in f ==> m'[p] == m[p]
    ensures Rewritten(m, m', f, f', multiset{})
  {
    forall p ensures p in f' <==> p in f && p != q {
      assert f[p] == f'[p] + multiset{q}[p];
    }
  }

  lemma MergedBranch(m1: map<PageNo, Page>, m2: map<PageNo, Page>, c: Context, z: Tree, h: nat, d: Discipline)
    requires c.In? && Shaped(c) && NoRepeats(Around(c) + Footprint(z))
    requires HeldAll(m1, c.ls) && HeldAll(m1, c.rs) && HeldAround(m1, c.up, c.p) && c.p in m1 && Held(m1, z)
    requires m2 == m1[c.p := BranchPage(c.lk + c.rk, Roots(c.ls) + [z.p] + Roots(c.rs))]
    requires OrderedAround(c, h, First(z)) && Ordered(z, h, Lo(c), Hi(c), End(c))
    requires FilledBeside(c, d) && Filled(z, d, MinFill(d))
    ensures var node := Branch(c.p, c.lk + c.rk, c.ls + [z] + c.rs);
            && Focused(m2, c.up, node, h + 1, d, |c.lk| + |c.rk|)
            && Flat(node) == FlatAll(c.ls) + Flat(z) + FlatAll(c.rs)
            && Around(c.up) + Footprint(node) == Around(c) + Footprint(z)
  {
    hide Rank, HeldAll, HeldAround, Held, Footprint, FilledAll, OrderedAround, FilledAround, FootprintAll,
      FlatAll, Lo, Hi, End, Filled, First, Flat, MinFill, Ordered, Focused, BranchPage, FilledBeside;
    Single(z, m1, d);
    assert c.lk + [] + c.rk == c.lk + c.rk;
    assert Roots([z]) == [z.p];
    WriteParent(m1, m2, c, [], [z], h, d, |c.lk| + |c.rk|);
    BranchContents(c, [], [z]);
    ParentNode(c, z);
  }

  lemma ParentNode(c: Context, z: Tree)
    requires c.In?
    requires Footprint(Branch(c.p, c.lk + [] + c.rk, c.ls + [z] + c.rs))
          == multiset{c.p} + FootprintAll(c.ls) + Footprint(z) + FootprintAll(c.rs)
    ensures Around(c.up) + Footprint(Branch(c.p, c.lk + [] + c.rk, c.ls + [z] + c.rs)) == Around(c) + Footprint(z)
  {
    hide Footprint, FootprintAll;
  }

  // ----- Moving the cut between two nodes

  /** The page of one of the two children is neither the parent's nor the other's. */
  lemma PairApart(m: map<PageNo, Page>, c: Context, x: Tree, k: Key, y: Tree, h: nat, d: Discipline, fx: nat, fy: nat)
    requires Paired(m, c, x, k, y, h, d, fx, fy)
    ensures c.p != x.p && c.p != y.p && x.p != y.p
    ensures c.p !in Footprint(x) && c.p !in Footprint(y) && x.p !in Footprint(y) && y.p !in Footprint(x)
    ensures x.p !in Roots(c.ls) && y.p !in Roots(c.ls) && y.p !in Roots(c.rs)
  {
    hide Rank, HeldAll, HeldAround, Held, Footprint, FootprintAll, OrderedAll, OrderedAround, Filled, FilledBeside,
      BranchPage;
    var all := Around(c) + (Footprint(x) + Footprint(y));
    RootInFootprint(x);
    RootInFootprint(y);
    RootsInFootprint(c.ls);
    RootsInFootprint(c.rs);
    assert all[x.p] == Around(c)[x.p] + (Footprint(x)[x.p] + Footprint(y)[x.p]);
    assert all[y.p] == Around(c)[y.p] + (Footprint(x)[y.p] + Footprint(y)[y.p]);
    assert all[c.p] == Around(c)[c.p] + (Footprint(x)[c.p] + Footprint(y)[c.p]);
    assert x.p in all && y.p in all && c.p in all && c.p in Around(c);
  }

  lemma PairKinds(m: map<PageNo, Page>, c: Context, x: Tree, k: Key, y: Tree, h: nat, d: Discipline, fx: nat, fy: nat)
    requires Paired(m, c, x, k, y, h, d, fx, fy)
    ensures if h == 0 then x.Leaf? && y.Leaf? else x.Branch? && y.Branch?
  {
    hide Rank, HeldAll, HeldAround, Held, Footprint, FootprintAll, OrderedAll, OrderedAround, Filled, FilledBeside,
      BranchPage;
    Pair(x, k, y, h, Lo(c), Hi(c), End(c), m, d);
  }

  lemma CutLeaves(x: Tree, k: Key, y: Tree, cut: nat, lo: real, hi: real, end: PageNo, d: Discipline, fx: nat, fy: nat)
    requires x.Leaf? && y.Leaf? && OrderedAll([k], [x, y], 0, lo, hi, end)
    requires Filled(x, d, fx) && Filled(y, d, fy)
    requires var es := x.es + y.es; 0 < cut < |es| && cut >= MinFill(d) && |es| - cut >= MinFill(d)
    ensures var es := x.es + y.es;
            var x', y' := Leaf(x.p, es[..cut], x.next), Leaf(y.p, es[cut..], y.next);
            && OrderedAll([es[cut].key], [x', y'], 0, lo, hi, end) && First(x') == First(x)
            && Flat(x') + Flat(y') == Flat(x) + Flat(y)
            && KeyOk(d, es[cut].key) && Filled(x', d, MinFill(d)) && Filled(y', d, MinFill(d))
  {
    hide Rank, OrderedAll, SortedIn, KeyOk;
    var es := x.es + y.es;
    LeavesJoin(x.p, x.es, k, y.p, y.es, x.next, y.next, lo, hi, end);
    LeavesCut(x.p, es, cut, y.p, y.next, lo, hi);
    assert es == es[..cut] + es[cut..];
    ConcatEntriesOk(d, x.es, y.es);
    ConcatEntriesOk(d, es[..cut], es[cut..]);
    assert EntryOk(d, es[cut]);
  }

  /** Entries moved between two neighbouring leaves. */
  lemma LeavesRecut(m: map<PageNo, Page>, m1: map<PageNo, Page>, m2: map<PageNo, Page>, c: Context,
                    x: Tree, k: Key, y: Tree, cut: nat, d: Discipline, fx: nat, fy: nat)
    requires Paired(m, c, x, k, y, 0, d, fx, fy) && x.Leaf? && y.Leaf?
    requires var es := x.es + y.es; 0 < cut < |es| && cut >= MinFill(d) && |es| - cut >= MinFill(d)
    requires var es := x.es + y.es;
             && m1 == m[x.p := LeafPage(es[..cut], x.next)][y.p := LeafPage(es[cut..], y.next)]
             && m2 == m1[c.p := BranchPage(c.lk + [es[cut].key] + c.rk, Roots(c.ls) + [x.p, y.p] + Roots(c.rs))]
    ensures var es := x.es + y.es;
            var t := Graft(c, [es[cut].key], [Leaf(x.p, es[..cut], x.next), Leaf(y.p, es[cut..], y.next)]);
            && Stored(m2, t, Depth(c), d) && t.p == RootOf(c.up, c.p)
            && Flat(t) == Before(c) + (Flat(x) + Flat(y)) + After(c)
            && Footprint(t) == Around(c) + (Footprint(x) + Footprint(y))
            && Rewritten(m, m2, Footprint(t), Footprint(t), multiset{})
  {
    hide Rank, HeldAll, HeldAround, FootprintAll, OrderedAll, OrderedAround, Filled, FilledBeside, BranchPage,
      Rewritten, Stored, Graft, Before, After, NoRepeats, Around, KeyOk;
    var es := x.es + y.es;
    var x', y' := Leaf(x.p, es[..cut], x.next), Leaf(y.p, es[cut..], y.next);
    PairApart(m, c, x, k, y, 0, d, fx, fy);
    CutLeaves(x, k, y, cut, Lo(c), Hi(c), End(c), d, fx, fy);
    PairRecut(m, m1, m2, c, x, k, y, x', es[cut].key, y', 0, d, fx, fy);
  }

  lemma CutBranches(x: Tree, k: Key, y: Tree, cut: nat, h: nat, lo: real, hi: real, end: PageNo, d: Discipline,
                    fx: nat, fy: nat)
    requires x.Branch? && y.Branch? && |x.kids| == |x.keys| + 1 && |y.kids| == |y.keys| + 1
    requires OrderedAll([k], [x, y], h + 1, lo, hi, end) && KeyOk(d, k) && Filled(x, d, fx) && Filled(y, d, fy)
    requires var keys := x.keys + [k] + y.keys;
             cut < |keys| && cut >= MinFill(d) && |keys| - cut - 1 >= MinFill(d)
    ensures var keys, kids := x.keys + [k] + y.keys, x.kids + y.kids;
            var x', y' := Branch(x.p, keys[..cut], kids[..cut + 1]), Branch(y.p, keys[cut + 1..], kids[cut + 1..]);
            && OrderedAll([keys[cut]], [x', y'], h + 1, lo, hi, end) && First(x') == First(x)
            && Flat(x') + Flat(y') == Flat(x) + Flat(y)
            && Footprint(x') + Footprint(y') == Footprint(x) + Footprint(y)
            && KeyOk(d, keys[cut]) && Filled(x', d, MinFill(d)) && Filled(y', d, MinFill(d))
  {
    hide Rank, OrderedAll, FlatAll, FootprintAll, FilledAll, MinFill, KeyOk;
    var keys, kids := x.keys + [k] + y.keys, x.kids + y.kids;
    BranchesJoin(x.p, x.keys, x.kids, k, y.p, y.keys, y.kids, h, lo, hi, end);
    BranchesCut(x.p, keys, kids, cut, y.p, h, lo, hi, end);
    CutBranchesContents(x.kids, y.kids, kids[..cut + 1], kids[cut + 1..], d);
    CutBranchesKeys(x.keys, k, y.keys, cut, d);
    assert kids[0] == x.kids[0];
    var a', b' := kids[..cut + 1], kids[cut + 1..];
    assert multiset{x.p} + FootprintAll(a') + (multiset{y.p} + FootprintAll(b'))
        == multiset{x.p, y.p} + (FootprintAll(a') + FootprintAll(b'));
    assert Footprint(x) + Footprint(y) == multiset{x.p, y.p} + (FootprintAll(x.kids) + FootprintAll(y.kids));
  }

  lemma CutBranchesContents(a: seq<Tree>, b: seq<Tree>, a': seq<Tree>, b': seq<Tree>, d: Discipline)
    requires a + b == a' + b'
    ensures FlatAll(a') + FlatAll(b') == FlatAll(a) + FlatAll(b)
    ensures FootprintAll(a') + FootprintAll(b') == FootprintAll(a) + FootprintAll(b)
    ensures FilledAll(a, d) && FilledAll(b, d) ==> FilledAll(a', d) && FilledAll(b', d)
  {
    hide FlatAll, FootprintAll, FilledAll;
    Concat(a, b, map[], d);
    Concat(a', b', map[], d);
  }

  lemma CutBranchesKeys(kx: seq<Key>, k: Key, ky: seq<Key>, cut: nat, d: Discipline)
    requires KeysOk(d, kx) && KeyOk(d, k) && KeysOk(d, ky) && cut < |kx + [k] + ky|
    ensures var keys := kx + [k] + ky;
            KeysOk(d, keys[..cut]) && KeyOk(d, keys[cut]) && KeysOk(d, keys[cut + 1..])
  {
    hide KeyOk;
    var keys := kx + [k] + ky;
    forall i | 0 <= i < |keys| ensures KeyOk(d, keys[i]) {
      if i < |kx| {
        assert keys[i] == kx[i];
      } else if i > |kx| {
        assert keys[i] == ky[i - |kx| - 1];
      }
    }
  }

  /** Children moved between two neighbouring branches. */
  lemma BranchesRecut(m: map<PageNo, Page>, m1: map<PageNo, Page>, m2: map<PageNo, Page>, c: Context,
                      x: Tree, k: Key, y: Tree, cut: nat, h: nat, d: Discipline, fx: nat, fy: nat)
    requires Paired(m, c, x, k, y, h + 1, d, fx, fy) && x.Branch? && y.Branch?
    requires |x.kids| == |x.keys| + 1 && |y.kids| == |y.keys| + 1
    requires var keys := x.keys + [k] + y.keys;
             cut < |keys| && cut >= MinFill(d) && |keys| - cut - 1 >= MinFill(d)
    requires var keys, kids := x.keys + [k] + y.keys, x.kids + y.kids;
             && m1 == m[x.p := BranchPage(keys[..cut], Roots(kids[..cut + 1]))]
                       [y.p := BranchPage(keys[cut + 1..], Roots(kids[cut + 1..]))]
             && m2 == m1[c.p := BranchPage(c.lk + [keys[cut]] + c.rk, Roots(c.ls) + [x.p, y.p] + Roots(c.rs))]
    ensures var keys, kids := x.keys + [k] + y.keys, x.kids + y.kids;
            var t := Graft(c, [keys[cut]], [Branch(x.p, keys[..cut], kids[..cut + 1]),
                                            Branch(y.p, keys[cut + 1..], kids[cut + 1..])]);
            && Stored(m2, t, h + 1 + Depth(c), d) && t.p == RootOf(c.up, c.p)
            && Flat(t) == Before(c) + (Flat(x) + Flat(y)) + After(c)
            && Footprint(t) == Around(c) + (Footprint(x) + Footprint(y))
            && Rewritten(m, m2, Footprint(t), Footprint(t), multiset{})
  {
    hide Rank, HeldAll, HeldAround, FootprintAll, FlatAll, OrderedAll, OrderedAround, Filled, FilledBeside, BranchPage,
      Rewritten, Stored, Graft, Before, After, NoRepeats, Around, KeyOk, Flat, Footprint, Held, First, MinFill;
    var keys, kids := x.keys + [k] + y.keys, x.kids + y.kids;
    var x', y' := Branch(x.p, keys[..cut], kids[..cut + 1]), Branch(y.p, keys[cut + 1..], kids[cut + 1..]);
    PairLive(m, c, x, k, y, h + 1, d, fx, fy);
    CutBranches(x, k, y, cut, h, Lo(c), Hi(c), End(c), d, fx, fy);
    RecutHeld(m, m1, c, x, k, y, cut, h + 1, d, fx, fy);
    PairRecut(m, m1, m2, c, x, k, y, x', keys[cut], y', h + 1, d, fx, fy);
  }

  lemma RecutHeld(m: map<PageNo, Page>, m1: map<PageNo, Page>, c: Context,
                  x: Tree, k: Key, y: Tree, cut: nat, h: nat, d: Discipline, fx: nat, fy: nat)
    requires Paired(m, c, x, k, y, h, d, fx, fy) && x.Branch? && y.Branch?
    requires |x.kids| == |x.keys| + 1 && |y.kids| == |y.keys| + 1 && cut < |x.keys + [k] + y.keys|
    requires var keys, kids := x.keys + [k] + y.keys, x.kids + y.kids;
             m1 == m[x.p := BranchPage(keys[..cut], Roots(kids[..cut + 1]))]
                    [y.p := BranchPage(keys[cut + 1..], Roots(kids[cut + 1..]))]
    ensures var keys, kids := x.keys + [k] + y.keys, x.kids + y.kids;
            && Held(m1, Branch(x.p, keys[..cut], kids[..cut + 1]))
            && Held(m1, Branch(y.p, keys[cut + 1..], kids[cut + 1..]))
  {
    hide Rank, HeldAll, HeldAround, FootprintAll, OrderedAll, OrderedAround, Filled, FilledBeside, BranchPage, Paired;
    PairApart(m, c, x, k, y, h, d, fx, fy);
    KidsHeld(m, m1, c, x, k, y, h, d, fx, fy);
    KidsRecut(m1, x.kids, y.kids, cut, d);
  }

  /** The children are still there when only the pages of the two nodes were written. */
  lemma KidsHeld(m: map<PageNo, Page>, m1: map<PageNo, Page>, c: Context, x: Tree, k: Key, y: Tree, h: nat,
                 d: Discipline, fx: nat, fy: nat)
    requires Paired(m, c, x, k, y, h, d, fx, fy) && x.Branch? && y.Branch?
    requires forall p :: p in m && p != x.p && p != y.p ==> p in m1 && m1[p] == m[p]
    ensures HeldAll(m1, x.kids) && HeldAll(m1, y.kids)
  {
    hide Rank, HeldAll, HeldAround, FootprintAll, OrderedAll, OrderedAround, Filled, FilledBeside, BranchPage;
    BranchKidsApart(m, c, x, k, y, h, d, fx, fy);
    assert HeldAll(m, x.kids) && HeldAll(m, y.kids);
    hide Paired;
    HeldAllFrame(m, m1, x.kids);
    HeldAllFrame(m, m1, y.kids);
  }

  lemma KidsRecut(m: map<PageNo, Page>, a: seq<Tree>, b: seq<Tree>, cut: nat, d: Discipline)
    requires HeldAll(m, a) && HeldAll(m, b) && cut < |a + b|
    ensures var kids := a + b; HeldAll(m, kids[..cut + 1]) && HeldAll(m, kids[cut + 1..])
  {
    hide HeldAll, FlatAll, LeavesAll, FootprintAll, FilledAll;
    var kids := a + b;
    assert kids == kids[..cut + 1] + kids[cut + 1..];
    Concat(a, b, m, d);
    Concat(kids[..cut + 1], kids[cut + 1..], m, d);
  }

  lemma BranchKidsApart(m: map<PageNo, Page>, c: Context, x: Tree, k: Key, y: Tree, h: nat, d: Discipline, fx: nat,
                        fy: nat)
    requires Paired(m, c, x, k, y, h, d, fx, fy) && x.Branch? && y.Branch?
    ensures x.p !in FootprintAll(x.kids) && y.p !in FootprintAll(x.kids)
    ensures x.p !in FootprintAll(y.kids) && y.p !in FootprintAll(y.kids)
  {
    hide Rank, HeldAll, HeldAround, Held, FootprintAll, OrderedAll, OrderedAround, Filled, FilledBeside, BranchPage,
      Around;
    var all := Around(c) + (Footprint(x) + Footprint(y));
    assert all[x.p] == Around(c)[x.p] + (Footprint(x)[x.p] + Footprint(y)[x.p]);
    assert all[y.p] == Around(c)[y.p] + (Footprint(x)[y.p] + Footprint(y)[y.p]);
    assert x.p in all && y.p in all;
  }

  // ----- Merging

  lemma LeavesMerged(m: map<PageNo, Page>, m1: map<PageNo, Page>, m2: map<PageNo, Page>, c: Context,
                     x: Tree, k: Key, y: Tree, d: Discipline, fx: nat, fy: nat)
    requires Paired(m, c, x, k, y, 0, d, fx, fy) && x.Leaf? && y.Leaf? && |x.es| + |y.es| >= MinFill(d)
    requires m1 == m[x.p := LeafPage(x.es + y.es, y.next)] - {y.p}
    requires m2 == m1[c.p := BranchPage(c.lk + c.rk, Roots(c.ls) + [x.p] + Roots(c.rs))]
    ensures var node := Branch(c.p, c.lk + c.rk, c.ls + [Leaf(x.p, x.es + y.es, y.next)] + c.rs);
            && Focused(m2, c.up, node, 1, d, |c.lk| + |c.rk|)
            && Flat(node) == FlatAll(c.ls) + (Flat(x) + Flat(y)) + FlatAll(c.rs)
            && Around(c.up) + Footprint(node) <= Around(c) + (Footprint(x) + Footprint(y))
            && Rewritten(m, m2, Around(c) + (Footprint(x) + Footprint(y)), Around(c.up) + Footprint(node), multiset{})
  {
    hide Rank, HeldAll, HeldAround, FootprintAll, FlatAll, OrderedAll, OrderedAround, FilledBeside, BranchPage,
      Rewritten, Focused, NoRepeats, Around, SortedIn;
    var z := Leaf(x.p, x.es + y.es, y.next);
    PairApart(m, c, x, k, y, 0, d, fx, fy);
    LeavesJoin(x.p, x.es, k, y.p, y.es, x.next, y.next, Lo(c), Hi(c), End(c));
    ConcatEntriesOk(d, x.es, y.es);
    PairMerged(m, m1, m2, c, x, k, y, z, 0, d, fx, fy);
  }

  lemma BranchesMerged(m: map<PageNo, Page>, m1: map<PageNo, Page>, m2: map<PageNo, Page>, c: Context,
                       x: Tree, k: Key, y: Tree, h: nat, d: Discipline, fx: nat, fy: nat)
    requires Paired(m, c, x, k, y, h + 1, d, fx, fy) && x.Branch? && y.Branch?
    requires |x.kids| == |x.keys| + 1 && |y.kids| == |y.keys| + 1 && |x.keys| + 1 + |y.keys| >= MinFill(d)
    requires m1 == m[x.p := BranchPage(x.keys + [k] + y.keys, Roots(x.kids + y.kids))] - {y.p}
    requires m2 == m1[c.p := BranchPage(c.lk + c.rk, Roots(c.ls) + [x.p] + Roots(c.rs))]
    ensures var z := Branch(x.p, x.keys + [k] + y.keys, x.kids + y.kids);
            var node := Branch(c.p, c.lk + c.rk, c.ls + [z] + c.rs);
            && Focused(m2, c.up, node, h + 2, d, |c.lk| + |c.rk|)
            && Flat(node) == FlatAll(c.ls) + (Flat(x) + Flat(y)) + FlatAll(c.rs)
            && Around(c.up) + Footprint(node) <= Around(c) + (Footprint(x) + Footprint(y))
            && Rewritten(m, m2, Around(c) + (Footprint(x) + Footprint(y)), Around(c.up) + Footprint(node), multiset{})
  {
    hide Rank, HeldAll, HeldAround, FootprintAll, FlatAll, OrderedAll, OrderedAround, FilledBeside, BranchPage,
      Rewritten, Focused, NoRepeats, Around, Held, First, Filled, MinFill, KeyOk, Lo, Hi, End, Flat, Footprint,
      Shaped;
    var z := Branch(x.p, x.keys + [k] + y.keys, x.kids + y.kids);
    PairApart(m, c, x, k, y, h + 1, d, fx, fy);
    BranchesJoin(x.p, x.keys, x.kids, k, y.p, y.keys, y.kids, h, Lo(c), Hi(c), End(c));
    MergedHeld(m, m1, c, x, k, y, h + 1, d, fx, fy);
    MergedFilled(x, k, y, d, fx, fy);
    FirstOfMerged(x, k, y);
    PairLive(m, c, x, k, y, h + 1, d, fx, fy);
    PairMerged(m, m1, m2, c, x, k, y, z, h + 1, d, fx, fy);
  }

  lemma FirstOfMerged(x: Tree, k: Key, y: Tree)
    requires x.Branch? && y.Branch? && x.kids != []
    ensures First(Branch(x.p, x.keys + [k] + y.keys, x.kids + y.kids)) == First(x)
  {
    assert (x.kids + y.kids)[0] == x.kids[0];
  }

  lemma MergedFilled(x: Tree, k: Key, y: Tree, d: Discipline, fx: nat, fy: nat)
    requires x.Branch? && y.Branch? && Filled(x, d, fx) && Filled(y, d, fy) && KeyOk(d, k)
    requires |x.keys| + 1 + |y.keys| >= MinFill(d)
    ensures var z := Branch(x.p, x.keys + [k] + y.keys, x.kids + y.kids);
            && Filled(z, d, MinFill(d))
            && Flat(z) == Flat(x) + Flat(y)
            && Footprint(z) + multiset{y.p} == Footprint(x) + Footprint(y)
  {
    hide FilledAll, FlatAll, FootprintAll, MinFill, KeyOk;
    Concat(x.kids, y.kids, map[], d);
    assert KeysOk(d, [k]);
    ConcatKeysOk(d, x.keys + [k], y.keys);
    ConcatKeysOk(d, x.keys, [k]);
  }

  lemma MergedHeld(m: map<PageNo, Page>, m1: map<PageNo, Page>, c: Context, x: Tree, k: Key, y: Tree,
                   h: nat, d: Discipline, fx: nat, fy: nat)
    requires Paired(m, c, x, k, y, h, d, fx, fy) && x.Branch? && y.Branch?
    requires |x.kids| == |x.keys| + 1 && |y.kids| == |y.keys| + 1
    requires m1 == m[x.p := BranchPage(x.keys + [k] + y.keys, Roots(x.kids + y.kids))] - {y.p}
    ensures Held(m1, Branch(x.p, x.keys + [k] + y.keys, x.kids + y.kids))
  {
    hide Rank, HeldAll, HeldAround, FootprintAll, OrderedAll, OrderedAround, Filled, FilledBeside, BranchPage;
    PairApart(m, c, x, k, y, h, d, fx, fy);
    BranchKidsApart(m, c, x, k, y, h, d, fx, fy);
    HeldAllFrame(m, m1, x.kids);
    HeldAllFrame(m, m1, y.kids);
    Concat(x.kids, y.kids, m1, d);
  }
}
