/** Trees with a hole.

    `Graft(c, keys, kids)` puts a run of children, with the separators between them, into the hole of
    `c`.  Every step of insertion and deletion replaces one run by another: a split replaces a child
    by two, a merge two by one, a borrow two by two.  The lemmas here reduce what must be shown of the
    whole tree to the run. */
module Contexts {
  import opened Bytes
  import opened Storage
  import opened Shape

  ghost function Plug(c: Context, t: Tree): Tree
    decreases c, 1
  {
    if c.Top? then t else Graft(c, [], [t])
  }

  ghost function Graft(c: Context, keys: seq<Key>, kids: seq<Tree>): Tree
    requires c.In?
    decreases c, 0
  {
    Plug(c.up, Branch(c.p, c.lk + keys + c.rk, c.ls + kids + c.rs))
  }

  /** The pages above the hole, root first: the stack that `descend` returns. */
  ghost function PathOf(c: Context): seq<PageNo> {
    if c.Top? then [] else PathOf(c.up) + [c.p]
  }

  ghost predicate Shaped(c: Context) {
    c.In? ==> |c.lk| == |c.ls| && |c.rk| == |c.rs| && Shaped(c.up)
  }

  ghost function Depth(c: Context): nat {
    if c.Top? then 0 else 1 + Depth(c.up)
  }

  // ----- Order

  const LOWEST := -1.0
  const HIGHEST := 1.0

  ghost function Lo(c: Context): real {
    if c.Top? then LOWEST else if c.lk == [] then Lo(c.up) else Rank(c.lk[|c.lk| - 1])
  }

  ghost function Hi(c: Context): real {
    if c.Top? then HIGHEST else if c.rk == [] then Hi(c.up) else Rank(c.rk[0])
  }

  /** The leaf that follows the hole in the chain. */
  ghost function End(c: Context): PageNo {
    if c.Top? then 0 else if c.rs == [] then End(c.up) else First(c.rs[0])
  }

  /** The children on both sides of the hole are ordered; the ones on the left lead to leaf `first`. */
  ghost predicate OrderedBeside(c: Context, h: nat, first: PageNo)
    requires c.In?
  {
    && (c.lk == [] || (Lo(c.up) < Lo(c) < Hi(c.up)
                       && OrderedAll(c.lk[..|c.lk| - 1], c.ls, h, Lo(c.up), Lo(c), first)))
    && (c.rk == [] || (Lo(c) < Hi(c) < Hi(c.up)
                       && OrderedAll(c.rk[1..], c.rs, h, Hi(c), Hi(c.up), End(c.up))))
  }

  ghost predicate OrderedAround(c: Context, h: nat, first: PageNo) {
    c.In? ==> OrderedBeside(c, h, first) && OrderedAround(c.up, h + 1, if c.ls == [] then first else First(c.ls[0]))
  }

  /** `check_node`, and the chain, for a whole tree of height `h`. */
  ghost predicate Sound(t: Tree, h: nat) {
    Ordered(t, h, LOWEST, HIGHEST, 0)
  }

  lemma {:induction false} FrameOrdered(c: Context, keys: seq<Key>, kids: seq<Tree>, h: nat)
    requires c.In? && Shaped(c) && |kids| == |keys| + 1
    ensures OrderedAll(c.lk + keys + c.rk, c.ls + kids + c.rs, h, Lo(c.up), Hi(c.up), End(c.up))
       <==> OrderedBeside(c, h, First(kids[0])) && OrderedAll(keys, kids, h, Lo(c), Hi(c), End(c))
  {
    hide Rank, First, OrderedAll;
    var rkeys, rkids := keys + c.rk, kids + c.rs;
    assert rkids[0] == kids[0];
    if c.lk == [] {
      assert c.lk + keys + c.rk == rkeys && c.ls + kids + c.rs == rkids;
    } else {
      var k := c.lk[|c.lk| - 1];
      assert c.lk + keys + c.rk == c.lk[..|c.lk| - 1] + [k] + rkeys;
      assert c.ls + kids + c.rs == c.ls + rkids;
      JoinOrdered(c.lk[..|c.lk| - 1], c.ls, k, rkeys, rkids, h, Lo(c.up), Hi(c.up), End(c.up));
    }
    if c.rk == [] {
      assert rkeys == keys && rkids == kids;
    } else {
      assert rkeys == keys + [c.rk[0]] + c.rk[1..];
      JoinOrdered(keys, kids, c.rk[0], c.rk[1..], c.rs, h, Lo(c), Hi(c.up), End(c.up));
    }
  }

  lemma {:induction false} PlugOrdered(c: Context, t: Tree, h: nat)
    requires Shaped(c)
    ensures Sound(Plug(c, t), h + Depth(c))
       <==> OrderedAround(c, h, First(t)) && Ordered(t, h, Lo(c), Hi(c), End(c))
    decreases c, 1
  {
    hide Rank, First;
    if c.In? {
      GraftOrdered(c, [], [t], h);
    }
  }

  lemma {:induction false} GraftOrdered(c: Context, keys: seq<Key>, kids: seq<Tree>, h: nat)
    requires c.In? && Shaped(c) && |kids| == |keys| + 1
    ensures Sound(Graft(c, keys, kids), h + Depth(c))
       <==> OrderedAround(c, h, First(kids[0])) && OrderedAll(keys, kids, h, Lo(c), Hi(c), End(c))
    decreases c, 0
  {
    hide Rank;
    var node := Branch(c.p, c.lk + keys + c.rk, c.ls + kids + c.rs);
    PlugOrdered(c.up, node, h + 1);
    assert First(node) == if c.ls == [] then First(kids[0]) else First(c.ls[0]);
    FrameOrdered(c, keys, kids, h);
  }

  // ----- Contents

  ghost function Before(c: Context): seq<LeafEntry> {
    if c.Top? then [] else Before(c.up) + FlatAll(c.ls)
  }

  ghost function After(c: Context): seq<LeafEntry> {
    if c.Top? then [] else FlatAll(c.rs) + After(c.up)
  }

  ghost function LeavesBefore(c: Context): seq<Tree> {
    if c.Top? then [] else LeavesBefore(c.up) + LeavesAll(c.ls)
  }

  ghost function LeavesAfter(c: Context): seq<Tree> {
    if c.Top? then [] else LeavesAll(c.rs) + LeavesAfter(c.up)
  }

  /** The pages around the hole. */
  ghost function Around(c: Context): multiset<PageNo> {
    if c.Top? then multiset{} else multiset{c.p} + FootprintAll(c.ls) + FootprintAll(c.rs) + Around(c.up)
  }

  lemma {:induction false} PlugContents(c: Context, t: Tree)
    ensures Flat(Plug(c, t)) == Before(c) + Flat(t) + After(c)
    ensures Leaves(Plug(c, t)) == LeavesBefore(c) + Leaves(t) + LeavesAfter(c)
    ensures Footprint(Plug(c, t)) == Around(c) + Footprint(t)
    decreases c, 1
  {
    hide Flat, Leaves, Footprint;
    if c.In? {
      GraftContents(c, [], [t]);
      Single(t, map[], AnyKeys);
    }
  }

  lemma {:induction false} GraftContents(c: Context, keys: seq<Key>, kids: seq<Tree>)
    requires c.In?
    ensures Flat(Graft(c, keys, kids)) == Before(c) + FlatAll(kids) + After(c)
    ensures Leaves(Graft(c, keys, kids)) == LeavesBefore(c) + LeavesAll(kids) + LeavesAfter(c)
    ensures Footprint(Graft(c, keys, kids)) == Around(c) + FootprintAll(kids)
    decreases c, 0
  {
    hide FlatAll, LeavesAll, FootprintAll;
    var node := Branch(c.p, c.lk + keys + c.rk, c.ls + kids + c.rs);
    PlugContents(c.up, node);
    BranchContents(c, keys, kids);
    Regroup(Before(c.up), FlatAll(c.ls), FlatAll(kids), FlatAll(c.rs), After(c.up));
    Regroup(LeavesBefore(c.up), LeavesAll(c.ls), LeavesAll(kids), LeavesAll(c.rs), LeavesAfter(c.up));
  }

  lemma BranchContents(c: Context, keys: seq<Key>, kids: seq<Tree>)
    requires c.In?
    ensures var node := Branch(c.p, c.lk + keys + c.rk, c.ls + kids + c.rs);
            && Flat(node) == FlatAll(c.ls) + FlatAll(kids) + FlatAll(c.rs)
            && Leaves(node) == LeavesAll(c.ls) + LeavesAll(kids) + LeavesAll(c.rs)
            && Footprint(node) == multiset{c.p} + FootprintAll(c.ls) + FootprintAll(kids) + FootprintAll(c.rs)
  {
    hide FlatAll, LeavesAll, FootprintAll;
    Concat(c.ls + kids, c.rs, map[], AnyKeys);
    Concat(c.ls, kids, map[], AnyKeys);
  }

  lemma Regroup<T>(a: seq<T>, b: seq<T>, c: seq<T>, d: seq<T>, e: seq<T>)
    ensures a + (b + c + d) + e == (a + b) + c + (d + e)
  {
  }

  // ----- Pages

  /** Everything around the hole is on its page, the hole being page `q`. */
  ghost predicate HeldAround(m: map<PageNo, Page>, c: Context, q: PageNo) {
    c.In? ==>
      && |c.lk| == |c.ls| && |c.rk| == |c.rs|
      && Holds(m, c.p, BranchPage(c.lk + c.rk, Roots(c.ls) + [q] + Roots(c.rs)))
      && HeldAll(m, c.ls) && HeldAll(m, c.rs)
      && HeldAround(m, c.up, c.p)
  }

  lemma {:induction false} PlugHeld(m: map<PageNo, Page>, c: Context, t: Tree)
    requires Shaped(c)
    ensures Held(m, Plug(c, t)) <==> HeldAround(m, c, t.p) && Held(m, t)
    decreases c
  {
    hide Held;
    if c.In? {
      var node := Branch(c.p, c.lk + [] + c.rk, c.ls + [t] + c.rs);
      assert c.lk + [] + c.rk == c.lk + c.rk;
      PlugHeld(m, c.up, node);
      BranchHeld(m, c, [], [t]);
      Single(t, m, AnyKeys);
      assert Roots([t]) == [t.p];
    }
  }

  lemma BranchHeld(m: map<PageNo, Page>, c: Context, keys: seq<Key>, kids: seq<Tree>)
    requires c.In? && Shaped(c) && |kids| == |keys| + 1
    ensures Held(m, Branch(c.p, c.lk + keys + c.rk, c.ls + kids + c.rs))
       <==> && Holds(m, c.p, BranchPage(c.lk + keys + c.rk, Roots(c.ls) + Roots(kids) + Roots(c.rs)))
            && HeldAll(m, c.ls) && HeldAll(m, kids) && HeldAll(m, c.rs)
  {
    hide HeldAll;
    Concat(c.ls + kids, c.rs, m, AnyKeys);
    Concat(c.ls, kids, m, AnyKeys);
  }

  lemma {:induction false} HeldFrame(m: map<PageNo, Page>, m': map<PageNo, Page>, t: Tree)
    requires Held(m, t)
    requires forall p :: p in Footprint(t) && p in m ==> p in m' && m'[p] == m[p]
    ensures Held(m', t)
    decreases t
  {
    if t.Branch? {
      HeldAllFrame(m, m', t.kids);
    }
  }

  lemma {:induction false} HeldAllFrame(m: map<PageNo, Page>, m': map<PageNo, Page>, kids: seq<Tree>)
    requires HeldAll(m, kids)
    requires forall p :: p in FootprintAll(kids) && p in m ==> p in m' && m'[p] == m[p]
    ensures HeldAll(m', kids)
    decreases kids
  {
    if kids != [] {
      HeldFrame(m, m', kids[0]);
      HeldAllFrame(m, m', kids[1..]);
    }
  }

  lemma {:induction false} HeldAroundFrame(m: map<PageNo, Page>, m': map<PageNo, Page>, c: Context, q: PageNo)
    requires HeldAround(m, c, q)
    requires forall p :: p in Around(c) && p in m ==> p in m' && m'[p] == m[p]
    ensures HeldAround(m', c, q)
  {
    hide HeldAll, FootprintAll;
    if c.In? {
      HeldAllFrame(m, m', c.ls);
      HeldAllFrame(m, m', c.rs);
      HeldAroundFrame(m, m', c.up, c.p);
    }
  }

  lemma {:induction false} HeldLive(m: map<PageNo, Page>, t: Tree)
    requires Held(m, t)
    ensures t.p in Footprint(t) && forall p :: p in Footprint(t) ==> p in m
    decreases t
  {
    if t.Branch? {
      HeldAllLive(m, t.kids);
    }
  }

  lemma {:induction false} HeldAllLive(m: map<PageNo, Page>, kids: seq<Tree>)
    requires HeldAll(m, kids)
    ensures forall p :: p in FootprintAll(kids) ==> p in m
    decreases kids
  {
    if kids != [] {
      HeldLive(m, kids[0]);
      HeldAllLive(m, kids[1..]);
    }
  }

  // ----- Filling

  /** The least number of entries of a node that stands in the hole. */
  ghost function Least(c: Context, t: Tree, d: Discipline): nat {
    if c.Top? then RootFill(t, d) else MinFill(d)
  }

  /** What surrounds the hole is filled, the node with the hole having enough entries. */
  ghost predicate FilledAround(c: Context, d: Discipline)
    decreases c, 1
  {
    c.In? ==> FilledBeside(c, d) && |c.lk| + |c.rk| >= Least(c.up, Branch(c.p, [], []), d)
  }

  /** The same, except for the number of entries of the node with the hole. */
  ghost predicate FilledBeside(c: Context, d: Discipline)
    decreases c, 0
  {
    c.In? ==>
      && KeysOk(d, c.lk) && KeysOk(d, c.rk)
      && FilledAll(c.ls, d) && FilledAll(c.rs, d)
      && FilledAround(c.up, d)
  }

  lemma {:induction false} PlugFilled(c: Context, t: Tree, d: Discipline)
    ensures RootFilled(Plug(c, t), d) <==> FilledAround(c, d) && Filled(t, d, Least(c, t, d))
    decreases c, 1
  {
    if c.In? {
      GraftFilled(c, [], [t], d);
      Single(t, map[], d);
    }
  }

  lemma {:induction false} GraftFilled(c: Context, keys: seq<Key>, kids: seq<Tree>, d: Discipline)
    requires c.In?
    ensures RootFilled(Graft(c, keys, kids), d)
       <==> && FilledBeside(c, d) && FilledAll(kids, d) && KeysOk(d, keys)
            && |c.lk| + |keys| + |c.rk| >= Least(c.up, Branch(c.p, [], []), d)
    decreases c, 0
  {
    hide FilledAll, KeysOk, MinFill;
    var node := Branch(c.p, c.lk + keys + c.rk, c.ls + kids + c.rs);
    PlugFilled(c.up, node, d);
    Concat(c.ls + kids, c.rs, map[], d);
    Concat(c.ls, kids, map[], d);
    ConcatKeysOk(d, c.lk + keys, c.rk);
    ConcatKeysOk(d, c.lk, keys);
  }
}
