/** Where splitting by the number of entries falls short. */
module Limits {
  import opened Bytes
  import opened Storage
  import opened Shape
  import opened NodeEdits
  import opened Contexts
  import opened Sizes
  import opened Contents
  import opened Focus
  import opened InsertSteps

  lemma {:induction false} CellsBound(seps: seq<InternalEntry>)
    requires forall i :: 0 <= i < |seps| ==> |seps[i].key| <= MAX_SHORT_KEY
    ensures InternalCells(seps) <= |seps| * (6 + MAX_SHORT_KEY)
  {
    if seps != [] {
      CellsBound(seps[..|seps| - 1]);
    }
  }

  /** An internal node that does not fit its page is split around its middle separator.  The right part keeps a
      separator exactly when there were three; with keys of at most 2034 bytes there always were. */
  lemma SplitLeavesSome(seps: seq<InternalEntry>, rightmost: PageNo)
    requires !Fits(InternalPage(seps, rightmost))
    ensures seps[|seps| / 2 + 1..] != [] <==> |seps| >= 3
    ensures (forall i :: 0 <= i < |seps| ==> |seps[i].key| <= MAX_SHORT_KEY) ==> |seps| >= 3
  {
    if forall i :: 0 <= i < |seps| ==> |seps[i].key| <= MAX_SHORT_KEY {
      CellsBound(seps);
    }
  }

  /** One byte more, and two separators overflow the page: the right part is left without any. */
  lemma SplitLeavesNone(a: Key, b: Key, p: PageNo, q: PageNo, r: PageNo)
    requires |a| == |b| == MAX_SHORT_KEY + 1
    ensures var seps := [InternalEntry(a, p), InternalEntry(b, q)];
            !Fits(InternalPage(seps, r)) && seps[|seps| / 2 + 1..] == []
  {
    var seps := [InternalEntry(a, p), InternalEntry(b, q)];
    assert seps[..1] == [InternalEntry(a, p)] && seps[..1][..0] == [];
    assert InternalCells(seps[..1]) == 6 + |a|;
  }

  /** Entries that each fit a page alone, cut in half by their number, can overflow it again. */
  lemma HalfOverflows(k0: Key, k1: Key, k2: Key, v1: seq<byte>, v2: seq<byte>, next: PageNo)
    requires |k0| == |k1| == |k2| == 8 && |v1| == |v2| == 3000
    ensures var es := [LeafEntry(k0, []), LeafEntry(k1, v1), LeafEntry(k2, v2)];
            && (forall i :: 0 <= i < |es| ==> SingleEntrySize(es[i].key, es[i].payload) <= PAGE_SIZE)
            && Fits(LeafPage([es[0], es[2]], next))
            && !Fits(LeafPage(es, next)) && !Fits(LeafPage(es[|es| / 2..], next))
  {
    var es := [LeafEntry(k0, []), LeafEntry(k1, v1), LeafEntry(k2, v2)];
    TwoCells(es[1], es[2]);
    TwoCells(es[0], es[2]);
    TwoCells(es[0], es[1]);
    assert es[1..] == [es[1], es[2]] && es[..2] == [es[0], es[1]];
  }

  lemma TwoCells(a: LeafEntry, b: LeafEntry)
    ensures LeafCells([a, b]) == 8 + |a.key| + |a.payload| + |b.key| + |b.payload|
  {
    assert [a, b][..1] == [a] && [a][..0] == [];
    assert LeafCells([a]) == 4 + |a.key| + |a.payload|;
  }

  // ----- When halves of a leaf always fit

  /** Bytes of an entry, its slot included. */
  function Cost(e: LeafEntry): nat {
    6 + |e.key| + |e.payload|
  }

  function Costs(es: seq<LeafEntry>): (r: nat)
    ensures r == 2 * |es| + LeafCells(es)
  {
    if es == [] then 0 else Costs(es[..|es| - 1]) + Cost(es[|es| - 1])
  }

  ghost predicate AtMost(es: seq<LeafEntry>, most: nat) {
    forall i :: 0 <= i < |es| ==> Cost(es[i]) <= most
  }

  /** A leaf that fit its page and does no longer, since entry `i` came. */
  ghost predicate Overflowing(es: seq<LeafEntry>, next: PageNo, i: nat) {
    && i < |es| && SortedIn(es, LOWEST, HIGHEST)
    && Fits(LeafPage(es[..i] + es[i + 1..], next)) && !Fits(LeafPage(es, next))
  }

  ghost predicate BothFit(es: seq<LeafEntry>, next: PageNo) {
    Fits(LeafPage(es[..|es| / 2], next)) && Fits(LeafPage(es[|es| / 2..], next))
  }

  /** Halves of a leaf that overflows fit, whatever entries it has that are no larger than that. */
  ghost predicate HalvesFit(most: nat) {
    forall es, next, i: nat :: Overflowing(es, next, i) && AtMost(es, most) ==> BothFit(es, next)
  }

  lemma CostsConcat(a: seq<LeafEntry>, b: seq<LeafEntry>)
    ensures Costs(a + b) == Costs(a) + Costs(b)
  {
    LeafCellsConcat(a, b);
  }

  lemma {:induction false} CostsAtMost(es: seq<LeafEntry>, most: nat)
    requires AtMost(es, most)
    ensures Costs(es) <= |es| * most
    decreases |es|
  {
    if es != [] {
      var front := es[..|es| - 1];
      assert forall i :: 0 <= i < |front| ==> front[i] == es[i];
      CostsAtMost(front, most);
      assert |es| * most == |front| * most + most;
    }
  }

  /** Only one key is empty. */
  lemma {:induction false} CostsAtLeast(es: seq<LeafEntry>, lo: real, hi: real)
    requires SortedIn(es, lo, hi)
    ensures Costs(es) >= 7 * |es| - 1 && (es != [] && es[0].key != [] ==> Costs(es) >= 7 * |es|)
    decreases |es|
  {
    if |es| > 1 {
      CostsAtLeast(es[..|es| - 1], lo, hi);
      var last := es[|es| - 1];
      assert Rank(es[0].key) < Rank(last.key);
      EmptyFirst(es[0].key, last.key);
    } else if |es| == 1 {
      assert es[..0] == [];
    }
  }

  lemma EmptyFirst(a: Key, b: Key)
    requires Rank(a) < Rank(b)
    ensures b != []
  {
  }

  lemma Overflow(es: seq<LeafEntry>, next: PageNo, i: nat)
    requires Overflowing(es, next, i)
    ensures SortedIn(es, LOWEST, HIGHEST) && Costs(es) > PAGE_SIZE - NODE_HEADER_SIZE >= Costs(es) - Cost(es[i])
  {
    assert es == es[..i] + ([es[i]] + es[i + 1..]);
    CostsConcat(es[..i], [es[i]] + es[i + 1..]);
    CostsConcat([es[i]], es[i + 1..]);
    CostsConcat(es[..i], es[i + 1..]);
    assert Costs([es[i]]) == Cost(es[i]) by { assert [es[i]][..0] == []; }
  }

  /** Entries of at most 167 bytes leave so many in a full leaf that the other half holds what came too much. */
  lemma SmallHalvesFit(es: seq<LeafEntry>, next: PageNo, i: nat, most: nat)
    requires Overflowing(es, next, i) && AtMost(es, most) && most <= 167
    ensures BothFit(es, next)
  {
    assert i < |es| && Cost(es[i]) <= most;
    hide *;
    Overflow(es, next, i);
    Halved(es, most);
    var a, b := es[..|es| / 2], es[|es| / 2..];
    CostsAtLeast(a, LOWEST, HIGHEST);
    CostsAtLeast(b, LOWEST, HIGHEST);
    CostsAtMost(a, most);
    CostsAtMost(b, most);
    Balance(|a|, |b|, Costs(a), Costs(b), Cost(es[i]), most);
    BothFitWhen(es, next);
  }

  lemma Halved(es: seq<LeafEntry>, most: nat)
    requires SortedIn(es, LOWEST, HIGHEST) && AtMost(es, most)
    ensures var a, b := es[..|es| / 2], es[|es| / 2..];
            && SortedIn(a, LOWEST, HIGHEST) && SortedIn(b, LOWEST, HIGHEST) && AtMost(a, most) && AtMost(b, most)
            && Costs(es) == Costs(a) + Costs(b)
  {
    hide Rank, Cost, Costs, SortedIn, AtMost;
    var k := |es| / 2;
    Parted(es, k, most);
    assert es == es[..k] + es[k..];
    CostsConcat(es[..k], es[k..]);
  }

  lemma Parted(es: seq<LeafEntry>, k: nat, most: nat)
    requires SortedIn(es, LOWEST, HIGHEST) && AtMost(es, most) && k <= |es|
    ensures SortedIn(es[..k], LOWEST, HIGHEST) && SortedIn(es[k..], LOWEST, HIGHEST)
    ensures AtMost(es[..k], most) && AtMost(es[k..], most)
  {
    hide Rank, Cost;
  }

  lemma BothFitWhen(es: seq<LeafEntry>, next: PageNo)
    ensures BothFit(es, next) <==>
              && Costs(es[..|es| / 2]) <= PAGE_SIZE - NODE_HEADER_SIZE
              && Costs(es[|es| / 2..]) <= PAGE_SIZE - NODE_HEADER_SIZE
  {
    hide Costs, LeafCells;
  }

  lemma Balance(k: nat, n: nat, a: nat, b: nat, c: nat, most: nat)
    requires n == k || n == k + 1
    requires 7 * k - 1 <= a <= k * most && 7 * n - 1 <= b <= n * most && c <= most <= 167
    requires a + b > PAGE_SIZE - NODE_HEADER_SIZE >= a + b - c
    ensures a <= PAGE_SIZE - NODE_HEADER_SIZE && b <= PAGE_SIZE - NODE_HEADER_SIZE
  {
    if b > PAGE_SIZE - NODE_HEADER_SIZE {
      Product(n, 24, most);
    }
    if a > PAGE_SIZE - NODE_HEADER_SIZE {
      Product(k, 23, most);
    }
  }

  lemma Product(n: nat, m: nat, most: nat)
    requires n <= m && most <= 167
    ensures n * most <= m * 167
  {
    assert n * most <= n * 167;
    assert n * 167 <= m * 167;
  }

  /** Forty-nine entries: the first half as small as can be, the other just too much for a page. */
  function Example(): (es: seq<LeafEntry>)
    ensures |es| == 49
  {
    seq(49, i requires 0 <= i < 49 =>
      LeafEntry(if i == 0 then [] else [i], seq(ExampleCost(i) - (if i == 0 then 6 else 7), _ => 0)))
  }

  function ExampleCost(i: nat): (c: nat)
    requires i < 49
    ensures c >= if i == 0 then 6 else 7
  {
    if i == 0 then 6 else if i < 24 then 7 else if i == 24 then 168 else if i < 30 then 164 else 163
  }

  /** The bytes of the first `i` entries. */
  function ExampleSum(i: nat): nat
    requires i <= 49
  {
    if i == 0 then 0 else if i <= 24 then 7 * i - 1 else if i == 25 then 335 else if i <= 30 then 335 + 164 * (i - 25)
    else 1155 + 163 * (i - 30)
  }

  lemma {:induction false} ExampleSums(i: nat)
    requires i <= 49
    ensures Costs(Example()[..i]) == ExampleSum(i)
  {
    if i > 0 {
      ExampleSums(i - 1);
      assert Example()[..i][..i - 1] == Example()[..i - 1];
      assert Cost(Example()[i - 1]) == ExampleCost(i - 1);
    }
  }

  lemma ExampleSorted()
    ensures SortedIn(Example(), LOWEST, HIGHEST) && AtMost(Example(), 168)
  {
    var es := Example();
    forall i, j | 0 <= i < j < |es| ensures Rank(es[i].key) < Rank(es[j].key) {
      assert KeyLess(es[i].key, es[j].key);
    }
    forall i | 0 <= i < |es| ensures Cost(es[i]) <= 168 {
      assert Cost(es[i]) == ExampleCost(i);
    }
  }

  lemma ExampleNumbers()
    ensures var es := Example(); Costs(es[..24]) == 167 && Costs(es[..25]) == 335 && Costs(es[..49]) == 4252
  {
    ExampleSums(24);
    ExampleSums(25);
    ExampleSums(49);
    hide Example, Costs;
  }

  lemma ExampleOverflows()
    ensures Overflowing(Example(), 0, 24) && AtMost(Example(), 168) && !BothFit(Example(), 0)
  {
    hide Example, Costs, Cost, SortedIn, AtMost, BothFit, Overflowing, LeafCells, Fits, EncodedSize;
    var es := Example();
    ExampleSorted();
    ExampleNumbers();
    Parts(es);
    BothFitWhen(es, 0);
    assert |es| / 2 == 24;
    OverflowingWhen(es, 0, 24);
  }

  lemma OverflowingWhen(es: seq<LeafEntry>, next: PageNo, i: nat)
    requires i < |es| && SortedIn(es, LOWEST, HIGHEST)
    requires Costs(es[..i] + es[i + 1..]) <= PAGE_SIZE - NODE_HEADER_SIZE < Costs(es)
    ensures Overflowing(es, next, i)
  {
    hide Costs, LeafCells, SortedIn;
  }

  lemma Parts(es: seq<LeafEntry>)
    requires |es| == 49
    ensures es[..49] == es
    ensures Costs(es[24..]) == Costs(es) - Costs(es[..24])
    ensures Costs(es[..24] + es[25..]) == Costs(es) - Costs(es[..25]) + Costs(es[..24])
  {
    hide Costs;
    assert es == es[..24] + es[24..] && es == es[..25] + es[25..];
    CostsConcat(es[..24], es[24..]);
    CostsConcat(es[..25], es[25..]);
    CostsConcat(es[..24], es[25..]);
  }

  /** So 167 bytes is the bound, slot and lengths included. */
  lemma HalvesFitExactly(most: nat)
    ensures HalvesFit(most) <==> most <= 167
  {
    if most <= 167 {
      forall es, next, i: nat | Overflowing(es, next, i) && AtMost(es, most) ensures BothFit(es, next) {
        SmallHalvesFit(es, next, i, most);
      }
    } else {
      ExampleOverflows();
      assert AtMost(Example(), most);
    }
  }

  // ----- When splits always find room

  ghost predicate SmallKeys(keys: seq<Key>) {
    forall i :: 0 <= i < |keys| ==> |keys[i]| <= MAX_SMALL_ENTRY - 6
  }

  lemma {:induction false} KeysSizeBounds(keys: seq<Key>)
    requires SmallKeys(keys)
    ensures 8 * |keys| <= KeysSize(keys) <= (MAX_SMALL_ENTRY + 2) * |keys|
    decreases |keys|
  {
    if keys != [] {
      KeysSizeBounds(keys[..|keys| - 1]);
    }
  }

  /** Both sides of the middle key of a node that overflows, since one key came, fit. */
  lemma SmallCutFits(a: seq<Key>, k: Key, b: seq<Key>)
    requires SmallKeys(a + [k] + b) && KeysFit(a + b) && !KeysFit(a + [k] + b)
    ensures var keys, s := a + [k] + b, |a + [k] + b| / 2; KeysFit(keys[..s]) && KeysFit(keys[s + 1..])
  {
    hide KeysSize;
    var keys, s := a + [k] + b, |a + [k] + b| / 2;
    var left, right := keys[..s], keys[s + 1..];
    CutSizes(keys, s);
    KeysSizeConcat(a + [k], b);
    KeysSizeConcat(a, [k]);
    KeysSizeConcat(a, b);
    assert SmallKeys([k]) by { assert (a + [k] + b)[|a|] == k; }
    KeysSizeBounds([k]);
    CutBalance(KeysSize(left), s, KeysSize([keys[s]]), KeysSize(right), |keys| - s - 1, KeysSize([k]));
  }

  lemma CutSizes(keys: seq<Key>, s: nat)
    requires SmallKeys(keys) && s < |keys|
    ensures var left, right := keys[..s], keys[s + 1..];
            && KeysSize(keys) == KeysSize(left) + KeysSize([keys[s]]) + KeysSize(right)
            && 8 * s <= KeysSize(left) <= (MAX_SMALL_ENTRY + 2) * s && KeysSize([keys[s]]) >= 8
            && 8 * (|keys| - s - 1) <= KeysSize(right) <= (MAX_SMALL_ENTRY + 2) * (|keys| - s - 1)
  {
    hide KeysSize;
    var left, right := keys[..s], keys[s + 1..];
    assert keys == left + ([keys[s]] + right);
    KeysSizeConcat(left, [keys[s]] + right);
    KeysSizeConcat([keys[s]], right);
    KeysSizeBounds([keys[s]]);
    KeysSizeBounds(left);
    KeysSizeBounds(right);
  }

  lemma CutBalance(a: nat, s: nat, middle: nat, b: nat, n: nat, came: nat)
    requires n == s || n + 1 == s
    requires 8 * s <= a <= (MAX_SMALL_ENTRY + 2) * s && 8 * n <= b <= (MAX_SMALL_ENTRY + 2) * n
    requires middle >= 8 && came <= MAX_SMALL_ENTRY + 2
    requires NODE_HEADER_SIZE + a + middle + b - came <= PAGE_SIZE
    ensures NODE_HEADER_SIZE + a <= PAGE_SIZE && NODE_HEADER_SIZE + b <= PAGE_SIZE
  {
  }

  /** The nodes above the hole fit their pages. */
  ghost predicate FitAround(c: Context) {
    c.In? ==> KeysFit(c.lk + c.rk) && FitAround(c.up)
  }

  lemma {:induction false} HeldFits(m: map<PageNo, Page>, c: Context, q: PageNo)
    requires HeldAround(m, c, q) && forall p :: p in m ==> Fits(m[p])
    ensures FitAround(c)
    decreases c
  {
    hide HeldAll, Fits;
    if c.In? {
      BranchFits(c.lk + c.rk, Roots(c.ls) + [q] + Roots(c.rs));
      HeldFits(m, c.up, c.p);
    }
  }

  lemma {:induction false} SmallFindsRoom(c: Context, k: Key, d: Discipline)
    requires d.ShortKeys? && d.small && FilledAround(c, d) && FitAround(c) && KeyOk(d, k)
    ensures !NoRoomAbove(c, k)
    decreases c
  {
    hide KeysSize, FilledAll;
    if c.Top? {
      KeysSizeBounds([k]);
    } else if !KeysFit(c.lk + [k] + c.rk) {
      SmallCutFits(c.lk, k, c.rk);
      SmallFindsRoom(c.up, (c.lk + [k] + c.rk)[|c.lk + [k] + c.rk| / 2], d);
    }
  }

  /** With entries of at most 167 bytes a leaf that the new entry overflows can always be split, and so can the nodes
      above it. */
  lemma SmallLeafSplits(m: map<PageNo, Page>, c: Context, leaf: Tree, key: Key, payload: seq<byte>, h: nat,
                        d: Discipline)
    requires d.ShortKeys? && d.small && forall p :: p in m ==> Fits(m[p])
    requires Shaped(c) && leaf.Leaf? && Depth(c) == h && Stored(m, Plug(c, leaf), h, d)
    requires var es := InsertEntry(leaf.es, key, payload);
             && SortedIn(es, Lo(c), Hi(c)) && EntriesOk(d, es) && !Fits(LeafPage(es, leaf.next)) && es != []
    ensures !NoHalves(c, InsertEntry(leaf.es, key, payload))
  {
    hide Rank, Lo, Hi, Stored, Plug, FilledAround, HeldAround, FitAround, NoRoomAbove, LeafCells, SortedIn, KeyLess;
    LeafInHole(m, c, leaf, h, d);
    HeldFits(m, c, leaf.p);
    var es, pos := InsertEntry(leaf.es, key, payload), PartitionPoint(leaf.es, key);
    assert es[..pos] + es[pos + 1..] == leaf.es;
    SortedAnywhere(es, Lo(c), Hi(c));
    assert AtMost(es, MAX_SMALL_ENTRY) by {
      assert forall i :: 0 <= i < |es| ==> EntryOk(d, es[i]);
    }
    SmallHalvesFit(es, leaf.next, pos, MAX_SMALL_ENTRY);
    assert EntryOk(d, es[|es| / 2]);
    SmallFindsRoom(c, es[|es| / 2].key, d);
  }

  lemma SortedAnywhere(es: seq<LeafEntry>, lo: real, hi: real)
    requires SortedIn(es, lo, hi)
    ensures SortedIn(es, LOWEST, HIGHEST)
  {
  }
}
