/** Giving a whole tree back to the page store, and rewriting one record of the catalog tree. */
module Catalogs {
  import opened Bytes
  import opened Storage
  import opened Shape
  import opened Contexts
  import opened Contents
  import opened NodeEdits
  import opened BTrees
  import opened Forest

  /** The pages of a tree, children before their parent. */
  ghost function PostOrder(t: Tree): seq<PageNo>
    decreases t
  {
    if t.Leaf? then [t.p] else PostOrderAll(t.kids) + [t.p]
  }

  ghost function PostOrderAll(kids: seq<Tree>): seq<PageNo>
    decreases kids
  {
    if kids == [] then [] else PostOrder(kids[0]) + PostOrderAll(kids[1..])
  }

  /** Each page of the tree once. */
  lemma {:induction false} PostOrderPages(t: Tree)
    ensures multiset(PostOrder(t)) == Footprint(t)
    decreases t
  {
    if t.Branch? {
      PostOrderAllPages(t.kids);
    }
  }

  lemma {:induction false} PostOrderAllPages(kids: seq<Tree>)
    ensures multiset(PostOrderAll(kids)) == FootprintAll(kids)
    decreases kids
  {
    if kids != [] {
      PostOrderPages(kids[0]);
      PostOrderAllPages(kids[1..]);
    }
  }

  lemma {:induction false} PostOrderConcat(a: seq<Tree>, b: seq<Tree>)
    ensures PostOrderAll(a + b) == PostOrderAll(a) + PostOrderAll(b)
    decreases |a|
  {
    hide PostOrder;
    if a == [] {
      assert a + b == b;
    } else {
      assert (a + b)[1..] == a[1..] + b;
      PostOrderConcat(a[1..], b);
    }
  }

  /** Pages `f` are gone, everything else is as before. */
  ghost predicate Without(m: map<PageNo, Page>, m': map<PageNo, Page>, f: multiset<PageNo>) {
    && (forall p :: p in m' <==> p in m && p !in f)
    && (forall p :: p in m' ==> m'[p] == m[p])
  }

  method WalkAndFree(pager: Pager, pageNo: PageNo, ghost t: Tree)
    requires pager.Valid() && pageNo == t.p && Held(pager.pages, t) && NoRepeats(Footprint(t))
    modifies pager
    ensures pager.Valid() && Without(old(pager.pages), pager.pages, Footprint(t))
    ensures pager.freed == old(pager.freed) + PostOrder(t)
    decreases t
  {
    hide HeldAll, FootprintAll, Footprint, PostOrderAll, PostOrder, Fits, NoRepeats, Pager.Valid, Without, Children;
    var page := pager.pages[pageNo];
    if page.InternalPage? {
      var children := Children(page);
      StartWalk(pager.pages, t);
      var i := 0;
      assert t.kids[0..] == t.kids && t.kids[..0] == [];
      while i < |children|
        invariant 0 <= i <= |children| == |t.kids|
        invariant pager.Valid() && HeldAll(pager.pages, t.kids[i..])
        invariant Without(old(pager.pages), pager.pages, FootprintAll(t.kids[..i]))
        invariant pager.freed == old(pager.freed) + PostOrderAll(t.kids[..i])
      {
        ghost var m := pager.pages;
        NextChild(m, t, i);
        WalkAndFree(pager, children[i], t.kids[i]);
        AfterChild(old(pager.pages), m, pager.pages, t, i);
        i := i + 1;
      }
      assert t.kids[..i] == t.kids;
    }
    EndWalk(old(pager.pages), pager.pages, t);
    pager.FreePage(pageNo);
  }

  lemma StartWalk(m: map<PageNo, Page>, t: Tree)
    requires Held(m, t) && t.Branch?
    ensures m[t.p].InternalPage? && Children(m[t.p]) == Roots(t.kids) && HeldAll(m, t.kids)
    ensures Without(m, m, FootprintAll([])) && PostOrderAll([]) == []
  {
    hide HeldAll;
    assert Children(m[t.p]) == Roots(t.kids);
  }

  lemma EndWalk(m0: map<PageNo, Page>, m: map<PageNo, Page>, t: Tree)
    requires Held(m0, t) && NoRepeats(Footprint(t))
    requires if t.Leaf? then m == m0 else Without(m0, m, FootprintAll(t.kids))
    ensures t.p in m && Without(m0, m - {t.p}, Footprint(t))
    ensures PostOrder(t) == (if t.Leaf? then [] else PostOrderAll(t.kids)) + [t.p]
  {
    hide HeldAll, FootprintAll, PostOrderAll;
    if t.Branch? {
      OwnPage(t);
    }
  }

  lemma NextChild(m: map<PageNo, Page>, t: Tree, i: nat)
    requires t.Branch? && i < |t.kids| && HeldAll(m, t.kids[i..]) && NoRepeats(Footprint(t))
    ensures Held(m, t.kids[i]) && HeldAll(m, t.kids[i + 1..]) && NoRepeats(Footprint(t.kids[i]))
  {
    hide Held, Footprint;
    assert t.kids[i..][0] == t.kids[i] && t.kids[i..][1..] == t.kids[i + 1..];
    ChildFootprint(t.kids, i);
    OnePart(t, i);
  }

  lemma ChildFootprint(kids: seq<Tree>, i: nat)
    requires i < |kids|
    ensures FootprintAll(kids) == FootprintAll(kids[..i]) + Footprint(kids[i]) + FootprintAll(kids[i + 1..])
    ensures FootprintAll(kids[..i + 1]) == FootprintAll(kids[..i]) + Footprint(kids[i])
    ensures PostOrderAll(kids[..i + 1]) == PostOrderAll(kids[..i]) + PostOrder(kids[i])
  {
    hide FootprintAll, PostOrderAll, Footprint, PostOrder;
    assert kids == kids[..i] + [kids[i]] + kids[i + 1..];
    assert kids[..i + 1] == kids[..i] + [kids[i]];
    Concat(kids[..i] + [kids[i]], kids[i + 1..], map[], AnyKeys);
    Concat(kids[..i], [kids[i]], map[], AnyKeys);
    Single(kids[i], map[], AnyKeys);
    PostOrderConcat(kids[..i], [kids[i]]);
    SingleOrder(kids[i]);
  }

  lemma SingleOrder(t: Tree)
    ensures PostOrderAll([t]) == PostOrder(t)
  {
    assert [t][1..] == [];
  }

  lemma OnePart(t: Tree, i: nat)
    requires t.Branch? && i < |t.kids| && NoRepeats(Footprint(t))
    ensures NoRepeats(Footprint(t.kids[i]))
    ensures forall p :: p in Footprint(t.kids[i]) ==>
            p !in FootprintAll(t.kids[..i]) && p !in FootprintAll(t.kids[i + 1..])
    ensures forall p :: p in FootprintAll(t.kids[..i]) ==> p !in FootprintAll(t.kids[i + 1..])
  {
    hide FootprintAll;
    ChildFootprint(t.kids, i);
    var a, b, c := FootprintAll(t.kids[..i]), Footprint(t.kids[i]), FootprintAll(t.kids[i + 1..]);
    forall p ensures a[p] + b[p] + c[p] <= 1 {
      assert Footprint(t)[p] == multiset{t.p}[p] + (a[p] + b[p] + c[p]);
    }
  }

  lemma AfterChild(m0: map<PageNo, Page>, m: map<PageNo, Page>, m': map<PageNo, Page>, t: Tree, i: nat)
    requires t.Branch? && i < |t.kids| && NoRepeats(Footprint(t)) && HeldAll(m, t.kids[i + 1..])
    requires Without(m0, m, FootprintAll(t.kids[..i])) && Without(m, m', Footprint(t.kids[i]))
    ensures Without(m0, m', FootprintAll(t.kids[..i + 1])) && HeldAll(m', t.kids[i + 1..])
    ensures PostOrderAll(t.kids[..i + 1]) == PostOrderAll(t.kids[..i]) + PostOrder(t.kids[i])
  {
    hide FootprintAll, Footprint, HeldAll, PostOrderAll, PostOrder;
    ChildFootprint(t.kids, i);
    OnePart(t, i);
    HeldAllFrame(m, m', t.kids[i + 1..]);
  }

  lemma OwnPage(t: Tree)
    requires t.Branch? && NoRepeats(Footprint(t))
    ensures t.p !in FootprintAll(t.kids)
  {
    assert Footprint(t)[t.p] == 1 + FootprintAll(t.kids)[t.p];
  }

  /** Dropping one tree leaves every tree apart from it readable and unchanged. */
  lemma DropKeepsOthers(m: map<PageNo, Page>, m': map<PageNo, Page>, f: multiset<PageNo>, u: Tree, h: nat,
                        d: Discipline)
    requires Without(m, m', f) && Stored(m, u, h, d) && Apart(f, Footprint(u))
    ensures Stored(m', u, h, d)
  {
    hide Held, Sound, RootFilled, Footprint;
    HeldLive(m, u);
    HeldFrame(m, m', u);
  }

  /** A record of the catalog is replaced by deleting it and inserting it again. */
  method ReplaceRecord(bt: BTree, key: Key, record: seq<byte>) returns (r: Outcome)
    requires bt.Valid() && EntryOk(bt.d, LeafEntry(key, record)) && SingleEntrySize(key, record) <= PAGE_SIZE
    modifies bt, bt.pager
    ensures r.Done? ==> bt.Valid() && bt.Model() == old(bt.Model())[key := record]
    ensures r.Failed? ==> r == Failed(PageOverflow)
    ensures bt.d.FixedWidth? ==> r.Done?
  {
    ghost var m0 := bt.Model();
    var r1, _ := bt.Delete(key);
    if r1.Failed? {
      return r1;
    }
    assert (m0 - {key})[key := record] == m0[key := record];
    r := bt.Insert(key, record);
  }
}
