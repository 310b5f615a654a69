/** How many bytes nodes take under a discipline of keys. */
module Sizes {
  import opened Bytes
  import opened Storage
  import opened Shape

  /** Bytes of one leaf entry and of one internal entry, its slot included, when widths are fixed. */
  ghost function LeafWidth(d: Discipline): nat
    requires d.FixedWidth?
  {
    6 + d.keyLen + d.payloadLen
  }

  ghost function SepWidth(d: Discipline): nat
    requires d.FixedWidth?
  {
    8 + d.keyLen
  }

  lemma {:induction false} LeafSize(es: seq<LeafEntry>, next: PageNo, d: Discipline)
    requires EntriesOk(d, es)
    ensures d.FixedWidth? ==> EncodedSize(LeafPage(es, next)) == NODE_HEADER_SIZE + |es| * LeafWidth(d)
  {
    if es != [] {
      LeafSize(es[..|es| - 1], next, d);
      assert d.FixedWidth? ==> EntryOk(d, es[|es| - 1]);
      assert d.FixedWidth? ==> |es| * LeafWidth(d) == (|es| - 1) * LeafWidth(d) + LeafWidth(d);
    }
  }

  lemma {:induction false} SepsSize(seps: seq<InternalEntry>, last: PageNo, d: Discipline)
    requires forall i :: 0 <= i < |seps| ==> KeyOk(d, seps[i].key)
    ensures d.FixedWidth? ==> EncodedSize(InternalPage(seps, last)) == NODE_HEADER_SIZE + |seps| * SepWidth(d)
    ensures d.ShortKeys? ==> EncodedSize(InternalPage(seps, last)) <= NODE_HEADER_SIZE + |seps| * 2042
  {
    if seps != [] {
      SepsSize(seps[..|seps| - 1], last, d);
      assert KeyOk(d, seps[|seps| - 1].key);
      assert d.FixedWidth? ==> |seps| * SepWidth(d) == (|seps| - 1) * SepWidth(d) + SepWidth(d);
    }
  }

  lemma BranchSize(keys: seq<Key>, pages: seq<PageNo>, d: Discipline)
    requires |pages| == |keys| + 1 && KeysOk(d, keys)
    ensures d.FixedWidth? ==> EncodedSize(BranchPage(keys, pages)) == NODE_HEADER_SIZE + |keys| * SepWidth(d)
    ensures d.ShortKeys? ==> EncodedSize(BranchPage(keys, pages)) <= NODE_HEADER_SIZE + |keys| * 2042
  {
    SepsSize(Entries(keys, pages), pages[|keys|], d);
  }

  /** With fixed widths a node that has no more entries than one that fits, fits. */
  lemma Fewer(n: nat, most: nat, width: nat)
    requires n <= most
    ensures n * width <= most * width
  {
  }

  /** An internal node that overflows has enough entries for two nodes and a separator. */
  lemma OverflowEnough(keys: seq<Key>, pages: seq<PageNo>, d: Discipline)
    requires |pages| == |keys| + 1 && KeysOk(d, keys) && Roomy(d)
    requires !Fits(BranchPage(keys, pages))
    ensures |keys| >= 2 * MinFill(d) + 1
  {
    BranchSize(keys, pages, d);
    if d.FixedWidth? && |keys| <= 4 {
      Fewer(|keys|, 4, SepWidth(d));
    }
  }

  /** Four entries always fit an internal node, three a leaf, when widths are fixed. */
  lemma SmallBranchFits(keys: seq<Key>, pages: seq<PageNo>, d: Discipline)
    requires |pages| == |keys| + 1 && KeysOk(d, keys) && Roomy(d) && d.FixedWidth? && |keys| <= 4
    ensures Fits(BranchPage(keys, pages))
  {
    BranchSize(keys, pages, d);
    Fewer(|keys|, 4, SepWidth(d));
  }

  lemma SmallLeafFits(es: seq<LeafEntry>, next: PageNo, d: Discipline)
    requires EntriesOk(d, es) && Roomy(d) && d.FixedWidth? && |es| <= 3
    ensures Fits(LeafPage(es, next))
  {
    LeafSize(es, next, d);
    Fewer(|es|, 3, LeafWidth(d));
  }

  /** A branch with no more entries than one that fits, fits. */
  lemma BranchShrinks(keys: seq<Key>, pages: seq<PageNo>, keys': seq<Key>, pages': seq<PageNo>, d: Discipline)
    requires |pages| == |keys| + 1 && |pages'| == |keys'| + 1 && KeysOk(d, keys) && KeysOk(d, keys')
    requires d.FixedWidth? && |keys'| <= |keys| && Fits(BranchPage(keys, pages))
    ensures Fits(BranchPage(keys', pages'))
  {
    BranchSize(keys, pages, d);
    BranchSize(keys', pages', d);
    Fewer(|keys'|, |keys|, SepWidth(d));
  }

  lemma LeafShrinks(es: seq<LeafEntry>, next: PageNo, es': seq<LeafEntry>, next': PageNo, d: Discipline)
    requires EntriesOk(d, es) && EntriesOk(d, es')
    requires d.FixedWidth? && |es'| <= |es| && Fits(LeafPage(es, next))
    ensures Fits(LeafPage(es', next'))
  {
    LeafSize(es, next, d);
    LeafSize(es', next', d);
    Fewer(|es'|, |es|, LeafWidth(d));
  }

  /** Removing an entry never makes a leaf larger. */
  lemma {:induction false} LeafCellsConcat(a: seq<LeafEntry>, b: seq<LeafEntry>)
    ensures LeafCells(a + b) == LeafCells(a) + LeafCells(b)
    decreases |b|
  {
    if b == [] {
      assert a + b == a;
    } else {
      assert (a + b)[..|a + b| - 1] == a + b[..|b| - 1];
      LeafCellsConcat(a, b[..|b| - 1]);
    }
  }

  /** A leaf that overflows by an entry that fits a page by itself has enough entries for two leaves. */
  lemma LeafOverflow(a: seq<LeafEntry>, e: LeafEntry, b: seq<LeafEntry>, next: PageNo, d: Discipline)
    requires EntriesOk(d, a + [e] + b) && Roomy(d)
    requires !Fits(LeafPage(a + [e] + b, next)) && Fits(LeafPage([e], next))
    ensures var n := |a + [e] + b|; n >= 2 && n / 2 >= MinFill(d) && n - n / 2 >= MinFill(d)
  {
    var es := a + [e] + b;
    assert |es| == 1 ==> es == [e];
    LeafSize(es, next, d);
    if d.FixedWidth? && |es| <= 3 {
      Fewer(|es|, 3, LeafWidth(d));
    }
  }

  /** With fixed widths both halves of a branch that was cut fit, if all its entries but one do. */
  lemma CutBranchFits(keys: seq<Key>, pages: seq<PageNo>, cut: nat, d: Discipline)
    requires |pages| == |keys| + 1 && KeysOk(d, keys) && cut < |keys|
    requires d.FixedWidth? && NODE_HEADER_SIZE + (|keys| - 1) * SepWidth(d) <= PAGE_SIZE
    ensures Fits(BranchPage(keys[..cut], pages[..cut + 1]))
    ensures Fits(BranchPage(keys[cut + 1..], pages[cut + 1..]))
  {
    BranchSize(keys[..cut], pages[..cut + 1], d);
    BranchSize(keys[cut + 1..], pages[cut + 1..], d);
    Fewer(cut, |keys| - 1, SepWidth(d));
    Fewer(|keys| - cut - 1, |keys| - 1, SepWidth(d));
  }

  /** With fixed widths both halves of a leaf that was cut fit, if all its entries but one do. */
  lemma CutLeafFits(old': seq<LeafEntry>, es: seq<LeafEntry>, cut: nat, next: PageNo, q: PageNo, d: Discipline)
    requires EntriesOk(d, old') && EntriesOk(d, es) && 0 < cut < |es| == |old'| + 1
    requires d.FixedWidth? && Fits(LeafPage(old', next))
    ensures Fits(LeafPage(es[..cut], q)) && Fits(LeafPage(es[cut..], next))
  {
    LeafShrinks(old', next, es[..cut], q, d);
    LeafShrinks(old', next, es[cut..], next, d);
  }

  // ----- Sizes of internal nodes by their keys

  /** Bytes of the entries of an internal node with these keys, their slots included. */
  function KeysSize(keys: seq<Key>): nat {
    if keys == [] then 0 else KeysSize(keys[..|keys| - 1]) + 8 + |keys[|keys| - 1]|
  }

  /** An internal node with these keys fits its page, whatever its children. */
  predicate KeysFit(keys: seq<Key>) {
    NODE_HEADER_SIZE + KeysSize(keys) <= PAGE_SIZE
  }

  lemma {:induction false} BranchFits(keys: seq<Key>, pages: seq<PageNo>)
    requires |pages| == |keys| + 1
    ensures Fits(BranchPage(keys, pages)) <==> KeysFit(keys)
    decreases |keys|
  {
    CellsOfKeys(Entries(keys, pages), keys);
  }

  lemma {:induction false} CellsOfKeys(seps: seq<InternalEntry>, keys: seq<Key>)
    requires |seps| == |keys| && forall i :: 0 <= i < |keys| ==> seps[i].key == keys[i]
    ensures 2 * |seps| + InternalCells(seps) == KeysSize(keys)
    decreases |keys|
  {
    if keys != [] {
      CellsOfKeys(seps[..|seps| - 1], keys[..|keys| - 1]);
    }
  }

  lemma {:induction false} KeysSizeConcat(a: seq<Key>, b: seq<Key>)
    ensures KeysSize(a + b) == KeysSize(a) + KeysSize(b)
    decreases |b|
  {
    if b == [] {
      assert a + b == a;
    } else {
      assert (a + b)[..|a + b| - 1] == a + b[..|b| - 1];
      KeysSizeConcat(a, b[..|b| - 1]);
    }
  }

  /** A page that fits with a key fits without it. */
  lemma KeysFitWithout(a: seq<Key>, k: Key, b: seq<Key>)
    requires KeysFit(a + [k] + b)
    ensures KeysFit(a + b)
  {
    KeysSizeConcat(a + [k], b);
    KeysSizeConcat(a, [k]);
    KeysSizeConcat(a, b);
  }

  lemma LeafFitsAnywhere(es: seq<LeafEntry>, p: PageNo, q: PageNo)
    ensures Fits(LeafPage(es, p)) <==> Fits(LeafPage(es, q))
  {
  }
}
