/** What the repository's own check of a tree accepts. */
module CheckSteps {
  import opened Bytes
  import opened Storage
  import opened Shape
  import opened Contexts

  ghost function Low(lower: Option<Key>): real {
    if lower.None? then LOWEST else Rank(lower.value)
  }

  ghost function High(upper: Option<Key>): real {
    if upper.None? then HIGHEST else Rank(upper.value)
  }

  /** The bounds of child `i` of a branch. */
  function Left(keys: seq<Key>, i: nat, lower: Option<Key>): Option<Key>
    requires i <= |keys|
  {
    if i == 0 then lower else Some(keys[i - 1])
  }

  function Right(keys: seq<Key>, i: nat, upper: Option<Key>): Option<Key>
    requires i <= |keys|
  {
    if i == |keys| then upper else Some(keys[i])
  }

  ghost predicate LeafPasses(es: seq<LeafEntry>, lower: Option<Key>, upper: Option<Key>) {
    && (forall i :: 0 <= i < |es| - 1 ==> KeyLess(es[i].key, es[i + 1].key))
    && (es != [] && lower.Some? ==> !KeyLess(es[0].key, lower.value))
    && (es != [] && upper.Some? ==> KeyLess(es[|es| - 1].key, upper.value))
  }

  /** The check accepts the tree, and takes it to be `h` levels high. */
  ghost predicate Passes(t: Tree, lower: Option<Key>, upper: Option<Key>, h: nat)
    decreases t
  {
    match t
    case Leaf(_, es, _) => h == 0 && LeafPasses(es, lower, upper)
    case Branch(_, keys, kids) =>
      && h > 0 && keys != [] && |kids| == |keys| + 1
      && forall i :: 0 <= i < |kids| ==> Passes(kids[i], Left(keys, i, lower), Right(keys, i, upper), h - 1)
  }

  /** Keys in order and within the separators, all leaves `h` levels down, no branch without a separator. */
  ghost predicate InOrder(t: Tree, lower: Option<Key>, upper: Option<Key>, h: nat)
    decreases t
  {
    match t
    case Leaf(_, es, _) => h == 0 && SortedIn(es, Low(lower), High(upper))
    case Branch(_, keys, kids) =>
      && h > 0 && keys != [] && |kids| == |keys| + 1
      && (forall i :: 0 <= i < |keys| ==> Low(lower) < Rank(keys[i]) < High(upper))
      && (forall i, j :: 0 <= i < j < |keys| ==> Rank(keys[i]) < Rank(keys[j]))
      && forall i :: 0 <= i < |kids| ==> InOrder(kids[i], Left(keys, i, lower), Right(keys, i, upper), h - 1)
  }

  /** No leaf between two separators is empty.  Only leaves compare the separators around them. */
  ghost predicate NoGap(t: Tree, lower: Option<Key>, upper: Option<Key>)
    decreases t
  {
    match t
    case Leaf(_, es, _) => es != [] || lower.None? || upper.None?
    case Branch(_, keys, kids) =>
      |kids| == |keys| + 1 ==>
        forall i :: 0 <= i < |kids| ==> NoGap(kids[i], Left(keys, i, lower), Right(keys, i, upper))
  }

  /** A tree takes part in one height only. */
  lemma {:induction false} OneHeight(t: Tree, lower: Option<Key>, upper: Option<Key>, h: nat,
                                     lower': Option<Key>, upper': Option<Key>, h': nat)
    requires Passes(t, lower, upper, h) && Passes(t, lower', upper', h')
    ensures h == h'
    decreases t
  {
    if t.Branch? {
      OneHeight(t.kids[0], Left(t.keys, 0, lower), Right(t.keys, 0, upper), h - 1,
                Left(t.keys, 0, lower'), Right(t.keys, 0, upper'), h' - 1);
    }
  }

  lemma {:induction false} Ascending(es: seq<LeafEntry>, i: nat, j: nat)
    requires i < j < |es| && forall k :: 0 <= k < |es| - 1 ==> KeyLess(es[k].key, es[k + 1].key)
    ensures Rank(es[i].key) < Rank(es[j].key)
  {
    hide Rank;
    assert KeyLess(es[j - 1].key, es[j - 1 + 1].key);
    if i < j - 1 {
      Ascending(es, i, j - 1);
    }
  }

  lemma LeafSorted(es: seq<LeafEntry>, lower: Option<Key>, upper: Option<Key>)
    ensures LeafPasses(es, lower, upper) <==> SortedIn(es, Low(lower), High(upper))
  {
    hide Rank, KeyLess;
    if LeafPasses(es, lower, upper) {
      forall i, j | 0 <= i < j < |es| ensures Rank(es[i].key) < Rank(es[j].key) {
        Ascending(es, i, j);
      }
      forall i | 0 <= i < |es| ensures Low(lower) <= Rank(es[i].key) < High(upper) {
        assert i > 0 ==> Rank(es[0].key) < Rank(es[i].key);
        assert i < |es| - 1 ==> Rank(es[i].key) < Rank(es[|es| - 1].key);
      }
    }
  }

  /** The bounds of a tree that passes and has no gap lie apart. */
  lemma {:induction false} BoundsApart(t: Tree, lower: Option<Key>, upper: Option<Key>, h: nat)
    requires Passes(t, lower, upper, h) && NoGap(t, lower, upper)
    ensures Low(lower) < High(upper)
    decreases t, 1
  {
    hide Rank, LeafPasses;
    if t.Branch? {
      SeparatorsApart(t, lower, upper, h, 0, |t.kids|);
    } else if t.es != [] {
      LeafSorted(t.es, lower, upper);
      assert Low(lower) <= Rank(t.es[0].key) < High(upper);
    }
  }

  /** The bounds of children `i` to `j - 1` of a branch that passes lie apart, so its separators ascend. */
  lemma {:induction false} SeparatorsApart(t: Tree, lower: Option<Key>, upper: Option<Key>, h: nat, i: nat, j: nat)
    requires t.Branch? && Passes(t, lower, upper, h) && NoGap(t, lower, upper) && i < j <= |t.kids|
    ensures Low(Left(t.keys, i, lower)) < High(Right(t.keys, j - 1, upper))
    decreases t, 0, j - i
  {
    hide Rank;
    BoundsApart(t.kids[j - 1], Left(t.keys, j - 1, lower), Right(t.keys, j - 1, upper), h - 1);
    if i < j - 1 {
      SeparatorsApart(t, lower, upper, h, i, j - 1);
    }
  }

  /** What passes and has no gap is in order. */
  lemma {:induction false} PassesInOrder(t: Tree, lower: Option<Key>, upper: Option<Key>, h: nat)
    requires Passes(t, lower, upper, h) && NoGap(t, lower, upper)
    ensures InOrder(t, lower, upper, h)
    decreases t
  {
    hide Rank, LeafPasses, SortedIn;
    if t.Leaf? {
      LeafSorted(t.es, lower, upper);
    } else {
      forall i | 0 <= i < |t.keys| ensures Low(lower) < Rank(t.keys[i]) < High(upper) {
        SeparatorsApart(t, lower, upper, h, 0, i + 1);
        SeparatorsApart(t, lower, upper, h, i + 1, |t.kids|);
      }
      forall i, j | 0 <= i < j < |t.keys| ensures Rank(t.keys[i]) < Rank(t.keys[j]) {
        SeparatorsApart(t, lower, upper, h, i + 1, j + 1);
      }
      forall i | 0 <= i < |t.kids| ensures InOrder(t.kids[i], Left(t.keys, i, lower), Right(t.keys, i, upper), h - 1) {
        PassesInOrder(t.kids[i], Left(t.keys, i, lower), Right(t.keys, i, upper), h - 1);
      }
    }
  }

  /** What is in order passes. */
  lemma {:induction false} InOrderPasses(t: Tree, lower: Option<Key>, upper: Option<Key>, h: nat)
    requires InOrder(t, lower, upper, h)
    ensures Passes(t, lower, upper, h)
    decreases t
  {
    hide Rank, LeafPasses, SortedIn;
    if t.Leaf? {
      LeafSorted(t.es, lower, upper);
    } else {
      forall i | 0 <= i < |t.kids| ensures Passes(t.kids[i], Left(t.keys, i, lower), Right(t.keys, i, upper), h - 1) {
        InOrderPasses(t.kids[i], Left(t.keys, i, lower), Right(t.keys, i, upper), h - 1);
      }
    }
  }

  ghost predicate EmptyLeaf(t: Tree) {
    t.Leaf? && t.es == []
  }

  /** The same tree, but for at most one separator, which stands beside an empty leaf. */
  ghost predicate OneSeparator(t: Tree, t': Tree)
    decreases t
  {
    || t' == t
    || (&& t.Branch? && t'.Branch? && t'.p == t.p && |t.kids| == |t.keys| + 1
        && (|| (exists i, k :: SeparatorSet(t, t', i, k)) || (exists i, kid :: ChildSet(t, t', i, kid))))
  }

  ghost predicate SeparatorSet(t: Tree, t': Tree, i: nat, k: Key)
    requires t.Branch? && |t.kids| == |t.keys| + 1
  {
    i < |t.keys| && t' == t.(keys := t.keys[i := k]) && (EmptyLeaf(t.kids[i]) || EmptyLeaf(t.kids[i + 1]))
  }

  ghost predicate ChildSet(t: Tree, t': Tree, i: nat, kid: Tree)
    requires t.Branch?
    decreases t, 0
  {
    i < |t.kids| && t' == t.(kids := t.kids[i := kid]) && OneSeparator(t.kids[i], kid)
  }

  /** Where the gaps are does not depend on the separators themselves. */
  lemma {:induction false} GapsStay(t: Tree, t': Tree, lower: Option<Key>, upper: Option<Key>, lower': Option<Key>,
                                    upper': Option<Key>)
    requires OneSeparator(t, t') && (lower.Some? <==> lower'.Some?) && (upper.Some? <==> upper'.Some?)
    ensures NoGap(t, lower, upper) <==> NoGap(t', lower', upper')
    decreases t
  {
    hide OneSeparator;
    OneSeparatorKids(t, t');
    if t.Branch? && |t.kids| == |t.keys| + 1 {
      forall i | 0 <= i < |t.kids|
        ensures NoGap(t.kids[i], Left(t.keys, i, lower), Right(t.keys, i, upper)) <==>
                NoGap(t'.kids[i], Left(t'.keys, i, lower'), Right(t'.keys, i, upper'))
      {
        GapsStay(t.kids[i], t'.kids[i], Left(t.keys, i, lower), Right(t.keys, i, upper), Left(t'.keys, i, lower'),
                 Right(t'.keys, i, upper'));
      }
    }
  }

  lemma OneSeparatorKids(t: Tree, t': Tree)
    requires OneSeparator(t, t')
    ensures t.Leaf? ==> t' == t
    ensures t.Branch? ==> t'.Branch? && |t'.keys| == |t.keys| && |t'.kids| == |t.kids|
    ensures t.Branch? ==> forall i :: 0 <= i < |t.kids| ==> OneSeparator(t.kids[i], t'.kids[i])
  {
  }

  lemma LeafWider(es: seq<LeafEntry>, lower: Option<Key>, upper: Option<Key>, lower': Option<Key>,
                  upper': Option<Key>)
    requires SortedIn(es, Low(lower), High(upper))
    requires es != [] ==> Low(lower') <= Low(lower) && High(upper) <= High(upper')
    ensures LeafPasses(es, lower', upper')
  {
    hide Rank;
  }

  /** A separator beside an empty leaf moves onto the one at its other side, or onto the bound there. */
  lemma Squeezed(t: Tree, lower: Option<Key>, upper: Option<Key>, i: nat) returns (t': Tree)
    requires t.Branch? && InOrder(t, lower, upper, 1)
    requires i < |t.kids| && EmptyLeaf(t.kids[i]) && Left(t.keys, i, lower).Some? && Right(t.keys, i, upper).Some?
    ensures OneSeparator(t, t') && Passes(t', lower, upper, 1) && !InOrder(t', lower, upper, 1)
  {
    hide Rank, SortedIn, LeafPasses;
    if i < |t.keys| {
      var k := Left(t.keys, i, lower).value;
      t' := t.(keys := t.keys[i := k]);
      assert SeparatorSet(t, t', i, k);
      assert i > 0 ==> Rank(t'.keys[i - 1]) == Rank(t'.keys[i]);
      assert i == 0 ==> Low(lower) == Rank(t'.keys[i]);
    } else {
      t' := t.(keys := t.keys[i - 1 := upper.value]);
      assert SeparatorSet(t, t', i - 1, upper.value);
      assert Rank(t'.keys[i - 1]) == High(upper);
    }
    forall j | 0 <= j < |t.kids| ensures Passes(t'.kids[j], Left(t'.keys, j, lower), Right(t'.keys, j, upper), 0) {
      assert InOrder(t.kids[j], Left(t.keys, j, lower), Right(t.keys, j, upper), 0);
      LeafWider(t.kids[j].es, Left(t.keys, j, lower), Right(t.keys, j, upper), Left(t'.keys, j, lower),
                Right(t'.keys, j, upper));
    }
  }

  /** A tree that passes and has a gap is out of order, or is so once one separator beside an empty leaf has changed;
      and then it passes all the same. */
  lemma {:induction false} GapHides(t: Tree, lower: Option<Key>, upper: Option<Key>, h: nat) returns (t': Tree)
    requires t.Branch? && Passes(t, lower, upper, h) && !NoGap(t, lower, upper)
    ensures OneSeparator(t, t') && Passes(t', lower, upper, h) && !InOrder(t', lower, upper, h)
    decreases t
  {
    hide Rank, SortedIn, LeafPasses, InOrder;
    if !InOrder(t, lower, upper, h) {
      return t;
    }
    var i :| 0 <= i < |t.kids| && !NoGap(t.kids[i], Left(t.keys, i, lower), Right(t.keys, i, upper));
    if t.kids[i].Leaf? {
      t' := Squeezed(t, lower, upper, i);
    } else {
      var kid := GapHides(t.kids[i], Left(t.keys, i, lower), Right(t.keys, i, upper), h - 1);
      t' := t.(kids := t.kids[i := kid]);
      assert ChildSet(t, t', i, kid);
      ChildHides(t, t', lower, upper, h, i);
    }
  }

  /** A child that passes out of order makes such a branch. */
  lemma ChildHides(t: Tree, t': Tree, lower: Option<Key>, upper: Option<Key>, h: nat, i: nat)
    requires t.Branch? && Passes(t, lower, upper, h) && i < |t.kids|
    requires t'.Branch? && |t'.kids| == |t.kids| && t' == t.(kids := t.kids[i := t'.kids[i]])
    requires Passes(t'.kids[i], Left(t.keys, i, lower), Right(t.keys, i, upper), h - 1)
    requires !InOrder(t'.kids[i], Left(t.keys, i, lower), Right(t.keys, i, upper), h - 1)
    ensures Passes(t', lower, upper, h) && !InOrder(t', lower, upper, h)
  {
    hide LeafPasses, SortedIn;
    assert t'.keys == t.keys;
  }

  /** The check can be trusted with a tree that passes, whatever one separator may be, exactly when the tree has no
      gap. */
  lemma TrustedExactly(t: Tree, h: nat)
    requires Passes(t, None, None, h)
    ensures NoGap(t, None, None) <==>
            forall t' :: OneSeparator(t, t') && Passes(t', None, None, h) ==> InOrder(t', None, None, h)
  {
    hide Passes, InOrder, OneSeparator;
    if NoGap(t, None, None) {
      forall t' | OneSeparator(t, t') && Passes(t', None, None, h) ensures InOrder(t', None, None, h) {
        GapsStay(t, t', None, None, None, None);
        PassesInOrder(t', None, None, h);
      }
    } else {
      var t' := GapHides(t, None, None, h);
    }
  }

  /** Within a bound there is more room than within a tighter one. */
  lemma Wider(es: seq<LeafEntry>, lo: real, hi: real, lo': real, hi': real)
    requires SortedIn(es, lo, hi) && lo' <= lo && hi <= hi'
    ensures SortedIn(es, lo', hi')
  {
    hide Rank;
  }

  /** The trees that insertion and deletion build are in order, if every branch has a separator. */
  lemma {:induction false} OrderedInOrder(t: Tree, h: nat, lo: real, hi: real, end: PageNo, lower: Option<Key>,
                                          upper: Option<Key>, d: Discipline, least: nat)
    requires Ordered(t, h, lo, hi, end) && Low(lower) <= lo && hi <= High(upper)
    requires Filled(t, d, least) && !d.AnyKeys? && (t.Branch? ==> least > 0)
    ensures InOrder(t, lower, upper, h)
    decreases t, 1
  {
    hide Rank, SortedIn, MinFill;
    match t
    case Leaf(_, es, _) =>
      Wider(es, lo, hi, Low(lower), High(upper));
    case Branch(_, keys, kids) =>
      ChildrenInOrder(keys, kids, h - 1, lo, hi, end, lower, upper, d);
  }

  lemma {:induction false} ChildrenInOrder(keys: seq<Key>, kids: seq<Tree>, h: nat, lo: real, hi: real, end: PageNo,
                                           lower: Option<Key>, upper: Option<Key>, d: Discipline)
    requires OrderedAll(keys, kids, h, lo, hi, end) && FilledAll(kids, d) && !d.AnyKeys?
    requires Low(lower) <= lo && hi <= High(upper)
    ensures forall i :: 0 <= i < |keys| ==> lo < Rank(keys[i]) < hi
    ensures forall i, j :: 0 <= i < j < |keys| ==> Rank(keys[i]) < Rank(keys[j])
    ensures forall i :: 0 <= i < |kids| ==> InOrder(kids[i], Left(keys, i, lower), Right(keys, i, upper), h)
    decreases kids, 0
  {
    hide Rank, First, Ordered, InOrder, Filled;
    assert MinFill(d) > 0;
    if keys == [] {
      OrderedInOrder(kids[0], h, lo, hi, end, lower, upper, d, MinFill(d));
    } else {
      OrderedInOrder(kids[0], h, lo, Rank(keys[0]), First(kids[1]), lower, Some(keys[0]), d, MinFill(d));
      ChildrenInOrder(keys[1..], kids[1..], h, Rank(keys[0]), hi, end, Some(keys[0]), upper, d);
      forall i | 0 <= i < |kids| ensures InOrder(kids[i], Left(keys, i, lower), Right(keys, i, upper), h) {
        if i > 0 {
          assert kids[i] == kids[1..][i - 1];
          assert Left(keys, i, lower) == Left(keys[1..], i - 1, Some(keys[0]));
          assert Right(keys, i, upper) == Right(keys[1..], i - 1, upper);
        }
      }
      forall i | 0 <= i < |keys| ensures lo < Rank(keys[i]) < hi {
        assert i > 0 ==> keys[i] == keys[1..][i - 1];
      }
      forall i, j | 0 <= i < j < |keys| ensures Rank(keys[i]) < Rank(keys[j]) {
        assert keys[j] == keys[1..][j - 1];
        assert i > 0 ==> keys[i] == keys[1..][i - 1];
      }
    }
  }

  // ----- The children so far

  /** The first `i` children passed, at these depths. */
  ghost predicate Checked(t: Tree, lower: Option<Key>, upper: Option<Key>, depths: seq<nat>)
    requires t.Branch? && |t.kids| == |t.keys| + 1
  {
    && |depths| <= |t.kids|
    && forall j :: 0 <= j < |depths| ==> Passes(t.kids[j], Left(t.keys, j, lower), Right(t.keys, j, upper), depths[j])
  }

  ghost predicate Fails(t: Tree, lower: Option<Key>, upper: Option<Key>) {
    forall h: nat :: !Passes(t, lower, upper, h)
  }

  lemma BoundsOf(keys: seq<Key>, i: nat, lower: Option<Key>, upper: Option<Key>)
    requires i <= |keys|
    ensures Left(keys, i, lower) == if i == 0 then lower else Some(keys[i - 1])
    ensures Right(keys, i, upper) == if i == |keys| then upper else Some(keys[i])
  {
  }

  lemma NoneChecked(t: Tree, lower: Option<Key>, upper: Option<Key>)
    requires t.Branch? && |t.kids| == |t.keys| + 1
    ensures Checked(t, lower, upper, [])
  {
  }

  lemma MoreChecked(t: Tree, lower: Option<Key>, upper: Option<Key>, depths: seq<nat>, depth: nat)
    requires t.Branch? && |t.kids| == |t.keys| + 1 && |depths| < |t.kids| && Checked(t, lower, upper, depths)
    requires Passes(t.kids[|depths|], Left(t.keys, |depths|, lower), Right(t.keys, |depths|, upper), depth)
    ensures Checked(t, lower, upper, depths + [depth])
  {
    hide Passes;
  }

  lemma LeafDecided(t: Tree, lower: Option<Key>, upper: Option<Key>)
    requires t.Leaf?
    ensures if SortedIn(t.es, Low(lower), High(upper)) then Passes(t, lower, upper, 0) else Fails(t, lower, upper)
  {
    hide Rank, SortedIn, LeafPasses;
    LeafSorted(t.es, lower, upper);
  }

  /** The page of a tree's root, and those of its children. */
  lemma HeldPage(m: map<PageNo, Page>, t: Tree)
    requires Held(m, t)
    ensures t.p in m && (t.Leaf? ==> m[t.p] == LeafPage(t.es, t.next))
    ensures t.Branch? ==>
              && |t.kids| == |t.keys| + 1 && m[t.p].InternalPage? && |m[t.p].seps| == |t.keys|
              && m[t.p].rightmostChild == t.kids[|t.keys|].p
              && forall i :: 0 <= i < |t.keys| ==> m[t.p].seps[i] == InternalEntry(t.keys[i], t.kids[i].p)
    ensures t.Branch? ==> forall i :: 0 <= i < |t.kids| ==> Held(m, t.kids[i])
  {
    if t.Branch? {
      forall i | 0 <= i < |t.kids| ensures Held(m, t.kids[i]) {
        HeldChild(m, t.kids, i);
      }
    }
  }

  lemma BranchWithout(t: Tree, lower: Option<Key>, upper: Option<Key>)
    requires t.Branch? && t.keys == []
    ensures Fails(t, lower, upper)
  {
  }

  /** A child that fails makes the branch fail. */
  lemma ChildFails(t: Tree, lower: Option<Key>, upper: Option<Key>, i: nat)
    requires t.Branch? && |t.kids| == |t.keys| + 1 && i < |t.kids|
    requires Fails(t.kids[i], Left(t.keys, i, lower), Right(t.keys, i, upper))
    ensures Fails(t, lower, upper)
  {
    forall h: nat ensures !Passes(t, lower, upper, h) {
      if h > 0 {
        assert !Passes(t.kids[i], Left(t.keys, i, lower), Right(t.keys, i, upper), h - 1);
      }
    }
  }

  /** Children that all passed make the branch pass exactly when they are equally deep. */
  lemma ChildrenPassed(t: Tree, lower: Option<Key>, upper: Option<Key>, depths: seq<nat>)
    requires t.Branch? && t.keys != [] && |t.kids| == |t.keys| + 1
    requires |depths| == |t.kids| && Checked(t, lower, upper, depths)
    ensures if exists j :: 0 <= j < |depths| && depths[j] != depths[0] then Fails(t, lower, upper)
            else Passes(t, lower, upper, depths[0] + 1)
  {
    if j :| 0 <= j < |depths| && depths[j] != depths[0] {
      forall h: nat ensures !Passes(t, lower, upper, h) {
        if Passes(t, lower, upper, h) {
          OneHeight(t.kids[0], Left(t.keys, 0, lower), Right(t.keys, 0, upper), h - 1,
                    Left(t.keys, 0, lower), Right(t.keys, 0, upper), depths[0]);
          OneHeight(t.kids[j], Left(t.keys, j, lower), Right(t.keys, j, upper), h - 1,
                    Left(t.keys, j, lower), Right(t.keys, j, upper), depths[j]);
          assert false;
        }
      }
    }
  }

  lemma {:induction false} HeldChild(m: map<PageNo, Page>, kids: seq<Tree>, i: nat)
    requires HeldAll(m, kids) && i < |kids|
    ensures Held(m, kids[i])
  {
    hide Held;
    if i > 0 {
      HeldChild(m, kids[1..], i - 1);
      assert kids[i] == kids[1..][i - 1];
    }
  }
}
