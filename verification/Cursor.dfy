/** The leaf chain, and the iterator that follows it. */
module Cursors {
  import opened Bytes
  import opened Storage
  import opened Shape
  import opened Contexts

  /** The leaves are on their pages, the first is page `first`, each points to the next, the last to `end`. */
  ghost predicate Links(m: map<PageNo, Page>, leaves: seq<Tree>, first: PageNo, end: PageNo) {
    if leaves == [] then first == end
    else
      && leaves[0].Leaf? && leaves[0].p == first && Holds(m, first, LeafPage(leaves[0].es, leaves[0].next))
      && Links(m, leaves[1..], leaves[0].next, end)
  }

  ghost function FlatLeaves(leaves: seq<Tree>): seq<LeafEntry> {
    if leaves == [] then [] else Flat(leaves[0]) + FlatLeaves(leaves[1..])
  }

  class Cursor {
    var index: nat
    var entries: seq<LeafEntry>
    var nextLeaf: PageNo
    var finished: bool
    ghost var rest: seq<Tree>  // the leaves that are still to come

    ghost predicate Valid(m: map<PageNo, Page>)
      reads this
    {
      index <= |entries| && (!finished ==> Links(m, rest, nextLeaf, 0))
    }

    /** What the cursor has yet to yield. */
    ghost function Remaining(): seq<LeafEntry>
      reads this
    {
      if finished || index > |entries| then [] else entries[index..] + FlatLeaves(rest)
    }

    /** The leaves to come are on pages of `f`. */
    ghost predicate Within(f: multiset<PageNo>)
      reads this
    {
      forall i :: 0 <= i < |rest| ==> rest[i].p in f
    }

    constructor Empty()
      ensures forall m :: Valid(m)
      ensures forall f :: Within(f)
      ensures Remaining() == []
    {
      index, entries, nextLeaf, finished, rest := 0, [], 0, true, [];
    }

    constructor FromLeaf(entries: seq<LeafEntry>, index: nat, nextLeaf: PageNo, ghost rest: seq<Tree>)
      requires index <= |entries|
      ensures this.index == index && this.entries == entries && this.nextLeaf == nextLeaf && !finished
              && this.rest == rest
      ensures Remaining() == entries[index..] + FlatLeaves(rest)
    {
      this.index, this.entries, this.nextLeaf, this.finished, this.rest := index, entries, nextLeaf, false, rest;
    }

    method Next(pager: Pager) returns (r: Option<LeafEntry>)
      requires pager.Valid() && Valid(pager.pages)
      modifies this
      ensures Valid(pager.pages)
      ensures forall i :: 0 <= i < |rest| ==> rest[i] in old(rest)
      ensures if old(Remaining()) == [] then r == None && Remaining() == []
              else r == Some(old(Remaining())[0]) && Remaining() == old(Remaining())[1..]
      decreases |rest|
    {
      pager.NoPageZero();
      hide Pager.Valid, FlatLeaves, Flat;
      if finished {
        return None;
      }
      if index >= |entries| {
        if nextLeaf == 0 {
          NothingYields(entries);
          finished := true;
          return None;
        }
        var node := pager.pages[nextLeaf];
        nextLeaf := node.nextLeaf;
        entries := node.entries;
        index := 0;
        rest := rest[1..];
        NextLeafYields(old(entries), old(rest));
        r := Next(pager);
        return;
      }
      FirstYields(entries, index, FlatLeaves(rest));
      r := Some(entries[index]);
      index := index + 1;
    }
  }

  lemma NextLeafYields(es: seq<LeafEntry>, rest: seq<Tree>)
    requires rest != [] && rest[0].Leaf?
    ensures es[|es|..] + FlatLeaves(rest) == rest[0].es[0..] + FlatLeaves(rest[1..])
  {
  }

  lemma NothingYields(es: seq<LeafEntry>)
    ensures es[|es|..] + FlatLeaves([]) == []
  {
  }

  lemma FirstYields(es: seq<LeafEntry>, i: nat, more: seq<LeafEntry>)
    requires i < |es|
    ensures var all := es[i..] + more; all != [] && all[0] == es[i] && all[1..] == es[i + 1..] + more
  {
  }

  // ----- The chain of a tree

  lemma {:induction false} LinksConcat(m: map<PageNo, Page>, a: seq<Tree>, b: seq<Tree>, first: PageNo, mid: PageNo,
                                       end: PageNo)
    requires Links(m, a, first, mid) && Links(m, b, mid, end)
    ensures Links(m, a + b, first, end)
    decreases |a|
  {
    if a == [] {
      assert a + b == b;
    } else {
      LinksConcat(m, a[1..], b, a[0].next, mid, end);
      assert (a + b)[1..] == a[1..] + b;
    }
  }

  lemma {:induction false} LinksAfter(m: map<PageNo, Page>, a: seq<Tree>, leaf: Tree, b: seq<Tree>, first: PageNo,
                                      end: PageNo)
    requires Links(m, a + [leaf] + b, first, end)
    ensures leaf.Leaf? && Links(m, b, leaf.next, end)
    decreases |a|
  {
    if a == [] {
      assert a + [leaf] + b == [leaf] + b;
      assert ([leaf] + b)[1..] == b;
    } else {
      assert (a + [leaf] + b)[1..] == a[1..] + [leaf] + b;
      LinksAfter(m, a[1..], leaf, b, a[0].next, end);
    }
  }

  lemma {:induction false} FlatLeavesConcat(a: seq<Tree>, b: seq<Tree>)
    ensures FlatLeaves(a + b) == FlatLeaves(a) + FlatLeaves(b)
    decreases |a|
  {
    if a == [] {
      assert a + b == b;
    } else {
      assert (a + b)[1..] == a[1..] + b;
      FlatLeavesConcat(a[1..], b);
    }
  }

  /** The chain of leaf pages is the list of leaves from left to right. */
  lemma {:induction false} LeavesLinked(m: map<PageNo, Page>, t: Tree, h: nat, lo: real, hi: real, end: PageNo)
    requires Held(m, t) && Ordered(t, h, lo, hi, end)
    ensures Links(m, Leaves(t), First(t), end) && FlatLeaves(Leaves(t)) == Flat(t)
    decreases t
  {
    hide Rank;
    if t.Branch? {
      LeavesAllLinked(m, t.keys, t.kids, h - 1, lo, hi, end);
    } else {
      assert [t][1..] == [];
      assert Flat(t) + [] == Flat(t);
    }
  }

  lemma {:induction false} LeavesAllLinked(m: map<PageNo, Page>, keys: seq<Key>, kids: seq<Tree>, h: nat,
                                           lo: real, hi: real, end: PageNo)
    requires HeldAll(m, kids) && OrderedAll(keys, kids, h, lo, hi, end)
    ensures Links(m, LeavesAll(kids), First(kids[0]), end) && FlatLeaves(LeavesAll(kids)) == FlatAll(kids)
    decreases kids
  {
    hide Rank;
    var a, b := Leaves(kids[0]), LeavesAll(kids[1..]);
    FlatLeavesConcat(a, b);
    if keys == [] {
      LeavesLinked(m, kids[0], h, lo, hi, end);
      assert kids[1..] == [];
      assert a + b == a;
      assert Flat(kids[0]) + [] == Flat(kids[0]);
    } else {
      LeavesLinked(m, kids[0], h, lo, Rank(keys[0]), First(kids[1]));
      LeavesAllLinked(m, keys[1..], kids[1..], h, Rank(keys[0]), hi, end);
      LinksConcat(m, a, b, First(kids[0]), First(kids[1]), end);
    }
  }

  lemma {:induction false} LeavesWithin(t: Tree)
    ensures forall leaf :: leaf in Leaves(t) ==> leaf.p in Footprint(t)
    decreases t
  {
    if t.Branch? {
      LeavesAllWithin(t.kids);
    }
  }

  lemma {:induction false} LeavesAllWithin(kids: seq<Tree>)
    ensures forall leaf :: leaf in LeavesAll(kids) ==> leaf.p in FootprintAll(kids)
    decreases kids
  {
    if kids != [] {
      LeavesWithin(kids[0]);
      LeavesAllWithin(kids[1..]);
    }
  }

  lemma AfterWithin(c: Context, leaf: Tree)
    requires leaf.Leaf?
    ensures forall i :: 0 <= i < |LeavesAfter(c)| ==> LeavesAfter(c)[i].p in Footprint(Plug(c, leaf))
  {
    hide Leaves, Footprint, Plug, LeavesAfter, LeavesBefore;
    PlugContents(c, leaf);
    LeavesWithin(Plug(c, leaf));
    var a, b := LeavesBefore(c) + Leaves(leaf), LeavesAfter(c);
    forall i | 0 <= i < |b| ensures b[i] in Leaves(Plug(c, leaf)) {
      assert (a + b)[|a| + i] == b[i];
    }
  }

  /** Writes elsewhere leave the chain as it is. */
  lemma {:induction false} LinksFrame(m: map<PageNo, Page>, m': map<PageNo, Page>, leaves: seq<Tree>, first: PageNo,
                                      end: PageNo)
    requires Links(m, leaves, first, end)
    requires forall i :: 0 <= i < |leaves| && leaves[i].p in m ==>
             leaves[i].p in m' && m'[leaves[i].p] == m[leaves[i].p]
    ensures Links(m', leaves, first, end)
  {
    if leaves != [] {
      LinksFrame(m, m', leaves[1..], leaves[0].next, end);
    }
  }

  /** A tree says what is on its pages. */
  lemma {:induction false} HeldDetermines(m: map<PageNo, Page>, m': map<PageNo, Page>, t: Tree)
    requires Held(m, t) && Held(m', t)
    ensures forall p :: p in Footprint(t) ==> p in m && p in m' && m[p] == m'[p]
    decreases t
  {
    if t.Branch? {
      HeldAllDetermines(m, m', t.kids);
    }
  }

  lemma {:induction false} HeldAllDetermines(m: map<PageNo, Page>, m': map<PageNo, Page>, kids: seq<Tree>)
    requires HeldAll(m, kids) && HeldAll(m', kids)
    ensures forall p :: p in FootprintAll(kids) ==> p in m && p in m' && m[p] == m'[p]
    decreases kids
  {
    if kids != [] {
      HeldDetermines(m, m', kids[0]);
      HeldAllDetermines(m, m', kids[1..]);
    }
  }

  /** What follows the leaf in the hole. */
  lemma ChainAfter(m: map<PageNo, Page>, c: Context, leaf: Tree, h: nat)
    requires leaf.Leaf? && Held(m, Plug(c, leaf)) && Sound(Plug(c, leaf), h)
    ensures Links(m, LeavesAfter(c), leaf.next, 0)
  {
    hide Held, Leaves, LeavesAll, Links, Plug;
    PlugContents(c, leaf);
    LeavesLinked(m, Plug(c, leaf), h, LOWEST, HIGHEST, 0);
    LeafAlone(leaf);
    LinksAfter(m, LeavesBefore(c), leaf, LeavesAfter(c), First(Plug(c, leaf)), 0);
  }

  lemma LeafAlone(leaf: Tree)
    requires leaf.Leaf?
    ensures Leaves(leaf) == [leaf]
  {
  }

  lemma {:induction false} FlatLeavesAfter(m: map<PageNo, Page>, c: Context, q: PageNo, h: nat, first: PageNo)
    requires HeldAround(m, c, q) && Shaped(c) && OrderedAround(c, h, first)
    ensures FlatLeaves(LeavesAfter(c)) == After(c)
  {
    hide Rank, HeldAll, OrderedAll;
    if c.In? {
      FlatLeavesAfter(m, c.up, c.p, h + 1, if c.ls == [] then first else First(c.ls[0]));
      FlatLeavesConcat(LeavesAll(c.rs), LeavesAfter(c.up));
      if c.rk != [] {
        LeavesAllLinked(m, c.rk[1..], c.rs, h, Hi(c), Hi(c.up), End(c.up));
      }
    }
  }
}
