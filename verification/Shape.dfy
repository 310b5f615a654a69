/** The tree that a set of pages spells out.

    A `Tree` is a ghost witness: it says which pages form a B+tree and what they hold.  Everything the
    page-level code of module `BTrees` must keep is a predicate on such a tree, and a `Context` is a
    tree with one subtree taken out, which is how code that climbs a stack of page numbers sees it. */
module Shape {
  import opened Bytes
  import opened Storage

  datatype Tree =
    | Leaf(p: PageNo, es: seq<LeafEntry>, next: PageNo)
    | Branch(p: PageNo, keys: seq<Key>, kids: seq<Tree>)

  /** A branch whose children are `ls`, the hole, and `rs`; its keys are `lk` and then `rk`. */
  datatype Context =
    | Top
    | In(up: Context, p: PageNo, lk: seq<Key>, ls: seq<Tree>, rk: seq<Key>, rs: seq<Tree>)

  // ----- What a tree contains

  ghost function Flat(t: Tree): seq<LeafEntry>
    decreases t
  {
    match t
    case Leaf(_, es, _) => es
    case Branch(_, _, kids) => FlatAll(kids)
  }

  ghost function FlatAll(kids: seq<Tree>): seq<LeafEntry>
    decreases kids
  {
    if kids == [] then [] else Flat(kids[0]) + FlatAll(kids[1..])
  }

  ghost function Leaves(t: Tree): seq<Tree>
    decreases t
  {
    match t
    case Leaf(_, _, _) => [t]
    case Branch(_, _, kids) => LeavesAll(kids)
  }

  ghost function LeavesAll(kids: seq<Tree>): seq<Tree>
    decreases kids
  {
    if kids == [] then [] else Leaves(kids[0]) + LeavesAll(kids[1..])
  }

  /** The page of the leftmost leaf. */
  ghost function First(t: Tree): PageNo
    decreases t
  {
    match t
    case Leaf(p, _, _) => p
    case Branch(_, _, kids) => if kids == [] then 0 else First(kids[0])
  }

  ghost function Footprint(t: Tree): multiset<PageNo>
    decreases t
  {
    match t
    case Leaf(p, _, _) => multiset{p}
    case Branch(p, _, kids) => multiset{p} + FootprintAll(kids)
  }

  ghost function FootprintAll(kids: seq<Tree>): multiset<PageNo>
    decreases kids
  {
    if kids == [] then multiset{} else Footprint(kids[0]) + FootprintAll(kids[1..])
  }

  ghost predicate NoRepeats(m: multiset<PageNo>) {
    forall p :: p in m ==> m[p] == 1
  }

  // ----- Pages that hold a tree

  function Entries(keys: seq<Key>, pages: seq<PageNo>): (r: seq<InternalEntry>)
    requires |keys| <= |pages|
    ensures |r| == |keys|
    ensures forall i :: 0 <= i < |r| ==> r[i] == InternalEntry(keys[i], pages[i])
  {
    seq(|keys|, i requires 0 <= i < |keys| => InternalEntry(keys[i], pages[i]))
  }

  ghost function Roots(kids: seq<Tree>): (r: seq<PageNo>)
    ensures |r| == |kids|
    ensures forall i :: 0 <= i < |r| ==> r[i] == kids[i].p
  {
    seq(|kids|, i requires 0 <= i < |kids| => kids[i].p)
  }

  /** The page of a branch with the given keys and children. */
  ghost function BranchPage(keys: seq<Key>, pages: seq<PageNo>): Page
    requires |pages| == |keys| + 1
  {
    InternalPage(Entries(keys, pages), pages[|keys|])
  }

  ghost predicate Holds(m: map<PageNo, Page>, p: PageNo, page: Page) {
    p in m && m[p] == page
  }

  ghost predicate Held(m: map<PageNo, Page>, t: Tree)
    decreases t
  {
    match t
    case Leaf(p, es, next) => Holds(m, p, LeafPage(es, next))
    case Branch(p, keys, kids) =>
      && |kids| == |keys| + 1
      && Holds(m, p, BranchPage(keys, Roots(kids)))
      && HeldAll(m, kids)
  }

  ghost predicate HeldAll(m: map<PageNo, Page>, kids: seq<Tree>)
    decreases kids
  {
    kids == [] || (Held(m, kids[0]) && HeldAll(m, kids[1..]))
  }

  // ----- Order, depth and the leaf chain

  ghost predicate SortedIn(es: seq<LeafEntry>, lo: real, hi: real) {
    && (forall i :: 0 <= i < |es| ==> lo <= Rank(es[i].key) < hi)
    && (forall i, j :: 0 <= i < j < |es| ==> Rank(es[i].key) < Rank(es[j].key))
  }

  /** What `check_node` checks: keys in order and within the separators, every leaf `h` levels down.
      Besides, the leaves are chained from left to right, and the last one points to page `end`. */
  ghost predicate Ordered(t: Tree, h: nat, lo: real, hi: real, end: PageNo)
    decreases t
  {
    match t
    case Leaf(_, es, next) => h == 0 && next == end && SortedIn(es, lo, hi)
    case Branch(_, keys, kids) => h > 0 && OrderedAll(keys, kids, h - 1, lo, hi, end)
  }

  ghost predicate OrderedAll(keys: seq<Key>, kids: seq<Tree>, h: nat, lo: real, hi: real, end: PageNo)
    decreases kids
  {
    && |kids| == |keys| + 1
    && if keys == [] then Ordered(kids[0], h, lo, hi, end)
       else
         && lo < Rank(keys[0]) < hi
         && Ordered(kids[0], h, lo, Rank(keys[0]), First(kids[1]))
         && OrderedAll(keys[1..], kids[1..], h, Rank(keys[0]), hi, end)
  }

  /** A run of children splits at any separator. */
  lemma {:induction false} JoinOrdered(ka: seq<Key>, a: seq<Tree>, k: Key, kb: seq<Key>, b: seq<Tree>,
                                       h: nat, lo: real, hi: real, end: PageNo)
    requires |a| == |ka| + 1 && |b| == |kb| + 1
    ensures OrderedAll(ka + [k] + kb, a + b, h, lo, hi, end)
       <==> && lo < Rank(k) < hi
            && OrderedAll(ka, a, h, lo, Rank(k), First(b[0]))
            && OrderedAll(kb, b, h, Rank(k), hi, end)
    decreases |a|
  {
    hide Rank, First, Ordered;
    var keys, kids := ka + [k] + kb, a + b;
    if ka == [] {
      assert keys[1..] == kb && kids[1..] == b;
    } else {
      assert keys[1..] == ka[1..] + [k] + kb && kids[1..] == a[1..] + b;
      assert kids[1] == a[1];
      JoinOrdered(ka[1..], a[1..], k, kb, b, h, Rank(ka[0]), hi, end);
    }
  }

  // ----- How full nodes are, and which keys they may hold

  /** What the callers' keys and payloads look like.  Anything at all; keys short enough that an
      internal page always takes two of them, or entries so small that halves of a full page always
      fit; or all keys, and all payloads, of one length. */
  datatype Discipline = AnyKeys | ShortKeys(small: bool) | FixedWidth(keyLen: nat, payloadLen: nat)

  const MAX_SHORT_KEY := 2034

  /** Bytes of a small entry, with its slot and its lengths. */
  const MAX_SMALL_ENTRY := 167

  /** Whatever comes, a node that is full can be split. */
  ghost predicate Splittable(d: Discipline) {
    d.FixedWidth? || (d.ShortKeys? && d.small)
  }

  /** Pages take at least three entries per leaf and four per internal node. */
  ghost predicate Roomy(d: Discipline) {
    d.FixedWidth? ==>
      && NODE_HEADER_SIZE + 3 * (6 + d.keyLen + d.payloadLen) <= PAGE_SIZE
      && NODE_HEADER_SIZE + 4 * (8 + d.keyLen) <= PAGE_SIZE
  }

  ghost predicate KeyOk(d: Discipline, k: Key) {
    match d
    case AnyKeys => true
    case ShortKeys(small) => |k| <= if small then MAX_SMALL_ENTRY - 6 else MAX_SHORT_KEY
    case FixedWidth(n, _) => |k| == n
  }

  ghost predicate EntryOk(d: Discipline, e: LeafEntry) {
    && KeyOk(d, e.key) && (d.FixedWidth? ==> |e.payload| == d.payloadLen)
    && (d.ShortKeys? && d.small ==> 6 + |e.key| + |e.payload| <= MAX_SMALL_ENTRY)
  }

  ghost predicate KeysOk(d: Discipline, keys: seq<Key>) {
    forall i :: 0 <= i < |keys| ==> KeyOk(d, keys[i])
  }

  ghost predicate EntriesOk(d: Discipline, es: seq<LeafEntry>) {
    forall i :: 0 <= i < |es| ==> EntryOk(d, es[i])
  }

  /** The least number of entries in a node below the root. */
  ghost function MinFill(d: Discipline): nat {
    match d
    case AnyKeys => 0
    case ShortKeys(_) => 1
    case FixedWidth(_, _) => 2
  }

  ghost predicate Filled(t: Tree, d: Discipline, least: nat)
    decreases t
  {
    match t
    case Leaf(_, es, _) => |es| >= least && EntriesOk(d, es)
    case Branch(_, keys, kids) => |keys| >= least && KeysOk(d, keys) && FilledAll(kids, d)
  }

  ghost predicate FilledAll(kids: seq<Tree>, d: Discipline)
    decreases kids
  {
    kids == [] || (Filled(kids[0], d, MinFill(d)) && FilledAll(kids[1..], d))
  }

  /** The least number of entries in the root: a leaf may be empty, a branch needs a separator. */
  ghost function RootFill(t: Tree, d: Discipline): nat {
    if t.Leaf? || d.AnyKeys? then 0 else 1
  }

  ghost predicate RootFilled(t: Tree, d: Discipline) {
    Filled(t, d, RootFill(t, d))
  }

  // ----- Concatenation of children

  lemma Concat(a: seq<Tree>, b: seq<Tree>, m: map<PageNo, Page>, d: Discipline)
    ensures FlatAll(a + b) == FlatAll(a) + FlatAll(b)
    ensures LeavesAll(a + b) == LeavesAll(a) + LeavesAll(b)
    ensures FootprintAll(a + b) == FootprintAll(a) + FootprintAll(b)
    ensures Roots(a + b) == Roots(a) + Roots(b)
    ensures HeldAll(m, a + b) <==> HeldAll(m, a) && HeldAll(m, b)
    ensures FilledAll(a + b, d) <==> FilledAll(a, d) && FilledAll(b, d)
  {
    hide FlatAll, LeavesAll, FootprintAll, HeldAll, FilledAll;
    ConcatContents(a, b);
    ConcatFootprint(a, b);
    ConcatHeld(a, b, m, d);
  }

  lemma {:induction false} ConcatContents(a: seq<Tree>, b: seq<Tree>)
    ensures FlatAll(a + b) == FlatAll(a) + FlatAll(b)
    ensures LeavesAll(a + b) == LeavesAll(a) + LeavesAll(b)
    decreases |a|
  {
    hide Flat, Leaves;
    if a == [] {
      assert a + b == b;
    } else {
      assert (a + b)[1..] == a[1..] + b;
      ConcatContents(a[1..], b);
    }
  }

  lemma {:induction false} ConcatFootprint(a: seq<Tree>, b: seq<Tree>)
    ensures FootprintAll(a + b) == FootprintAll(a) + FootprintAll(b)
    decreases |a|
  {
    hide Footprint;
    if a == [] {
      assert a + b == b;
    } else {
      assert (a + b)[1..] == a[1..] + b;
      ConcatFootprint(a[1..], b);
    }
  }

  lemma {:induction false} ConcatHeld(a: seq<Tree>, b: seq<Tree>, m: map<PageNo, Page>, d: Discipline)
    ensures HeldAll(m, a + b) <==> HeldAll(m, a) && HeldAll(m, b)
    ensures FilledAll(a + b, d) <==> FilledAll(a, d) && FilledAll(b, d)
    decreases |a|
  {
    hide Held, Filled, MinFill;
    if a == [] {
      assert a + b == b;
    } else {
      assert (a + b)[1..] == a[1..] + b;
      ConcatHeld(a[1..], b, m, d);
    }
  }

  lemma ConcatKeysOk(d: Discipline, a: seq<Key>, b: seq<Key>)
    ensures KeysOk(d, a + b) <==> KeysOk(d, a) && KeysOk(d, b)
  {
    hide KeyOk;
    if KeysOk(d, a + b) {
      forall i | 0 <= i < |a| ensures KeyOk(d, a[i]) { assert (a + b)[i] == a[i]; }
      forall i | 0 <= i < |b| ensures KeyOk(d, b[i]) { assert (a + b)[|a| + i] == b[i]; }
    }
  }

  lemma ConcatEntriesOk(d: Discipline, a: seq<LeafEntry>, b: seq<LeafEntry>)
    ensures EntriesOk(d, a + b) <==> EntriesOk(d, a) && EntriesOk(d, b)
  {
    hide EntryOk;
    if EntriesOk(d, a + b) {
      forall i | 0 <= i < |a| ensures EntryOk(d, a[i]) { assert (a + b)[i] == a[i]; }
      forall i | 0 <= i < |b| ensures EntryOk(d, b[i]) { assert (a + b)[|a| + i] == b[i]; }
    }
  }

  lemma Single(t: Tree, m: map<PageNo, Page>, d: Discipline)
    ensures FlatAll([t]) == Flat(t)
    ensures LeavesAll([t]) == Leaves(t)
    ensures FootprintAll([t]) == Footprint(t)
    ensures HeldAll(m, [t]) <==> Held(m, t)
    ensures FilledAll([t], d) <==> Filled(t, d, MinFill(d))
  {
    hide Flat, Leaves, Footprint, Held, Filled, MinFill;
    assert [t][1..] == [];
  }
}
