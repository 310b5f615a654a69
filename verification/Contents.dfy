/** A tree as a map from keys to payloads, and what one write does to the pages of a store. */
module Contents {
  import opened Bytes
  import opened Storage
  import opened Shape
  import opened Contexts
  import opened Steps

  // ----- Maps

  ghost function MapOf(es: seq<LeafEntry>): map<Key, seq<byte>> {
    if es == [] then map[]
    else MapOf(es[..|es| - 1])[es[|es| - 1].key := es[|es| - 1].payload]
  }

  lemma {:induction false} MapConcat(a: seq<LeafEntry>, b: seq<LeafEntry>)
    ensures MapOf(a + b) == MapOf(a) + MapOf(b)
    decreases |b|
  {
    if b == [] {
      assert a + b == a;
    } else {
      var b' := b[..|b| - 1];
      assert (a + b)[..|a + b| - 1] == a + b';
      MapConcat(a, b');
    }
  }

  lemma {:induction false} MapKeys(es: seq<LeafEntry>, k: Key)
    ensures k in MapOf(es) <==> exists i :: 0 <= i < |es| && es[i].key == k
    decreases |es|
  {
    if es != [] {
      MapKeys(es[..|es| - 1], k);
      if exists i :: 0 <= i < |es| && es[i].key == k {
        var i :| 0 <= i < |es| && es[i].key == k;
        if i < |es| - 1 {
          assert es[..|es| - 1][i].key == k;
        }
      }
    }
  }

  /** Adding or taking away an entry whose key occurs nowhere else. */
  lemma MapPut(a: seq<LeafEntry>, e: LeafEntry, b: seq<LeafEntry>)
    requires e.key !in MapOf(a) && e.key !in MapOf(b)
    ensures MapOf(a + [e] + b) == MapOf(a + b)[e.key := e.payload]
    ensures MapOf(a + b) == MapOf(a + [e] + b) - {e.key}
  {
    hide MapOf;
    MapConcat(a, b);
    MapConcat(a + [e], b);
    MapConcat(a, [e]);
    MapOne(e);
    MapAlgebra(MapOf(a), e.key, e.payload, MapOf(b));
  }

  lemma MapOne(e: LeafEntry)
    ensures MapOf([e]) == map[e.key := e.payload]
  {
    assert [e][..0] == [];
  }

  lemma MapAlgebra<K, V>(a: map<K, V>, k: K, v: V, b: map<K, V>)
    requires k !in a && k !in b
    ensures (a + map[k := v]) + b == (a + b)[k := v]
    ensures a + b == (a + map[k := v]) + b - {k}
  {
  }

  /** In a sorted run every entry is what its key maps to. */
  lemma MapAt(es: seq<LeafEntry>, i: nat, lo: real, hi: real)
    requires SortedIn(es, lo, hi) && i < |es|
    ensures es[i].key !in MapOf(es[..i]) && es[i].key !in MapOf(es[i + 1..])
    ensures es[i].key in MapOf(es) && MapOf(es)[es[i].key] == es[i].payload
  {
    hide Rank, MapOf;
    var a, e, b := es[..i], es[i], es[i + 1..];
    forall j | 0 <= j < |a| ensures Rank(a[j].key) != Rank(e.key) { assert a[j] == es[j]; }
    forall j | 0 <= j < |b| ensures Rank(b[j].key) != Rank(e.key) { assert b[j] == es[i + 1 + j]; }
    NotIn(a, e.key);
    NotIn(b, e.key);
    assert es == a + [e] + b;
    MapPut(a, e, b);
  }

  lemma NotIn(es: seq<LeafEntry>, k: Key)
    requires forall j :: 0 <= j < |es| ==> Rank(es[j].key) != Rank(k)
    ensures k !in MapOf(es)
  {
    hide MapOf, Rank;
    MapKeys(es, k);
  }

  // ----- Where a key can be

  /** Entries left of the hole lie below it, entries right of the hole at or above its end. */
  lemma {:induction false} Sides(c: Context, h: nat, first: PageNo)
    requires Shaped(c) && OrderedAround(c, h, first)
    ensures forall i :: 0 <= i < |Before(c)| ==> Rank(Before(c)[i].key) < Lo(c)
    ensures forall i :: 0 <= i < |After(c)| ==> Hi(c) <= Rank(After(c)[i].key)
    ensures Hi(c) <= HIGHEST
    decreases c
  {
    hide Rank, FlatAll, OrderedAll;
    if c.In? {
      Sides(c.up, h + 1, if c.ls == [] then first else First(c.ls[0]));
      if c.lk != [] {
        FlatAllSorted(c.lk[..|c.lk| - 1], c.ls, h, Lo(c.up), Lo(c), first);
      } else {
        assert FlatAll(c.ls) == [] by { NoChildren(); }
      }
      if c.rk != [] {
        FlatAllSorted(c.rk[1..], c.rs, h, Hi(c), Hi(c.up), End(c.up));
      } else {
        assert FlatAll(c.rs) == [] by { NoChildren(); }
      }
    }
  }

  lemma NoChildren()
    ensures FlatAll([]) == []
  {
  }

  /** A key within the bounds of the hole can only be in the hole. */
  lemma OnlyInHole(c: Context, h: nat, first: PageNo, k: Key)
    requires Shaped(c) && OrderedAround(c, h, first)
    requires Lo(c) <= Rank(k) < Hi(c)
    ensures k !in MapOf(Before(c)) && k !in MapOf(After(c))
  {
    hide Rank, Before, After, MapOf;
    Sides(c, h, first);
    MapKeys(Before(c), k);
    MapKeys(After(c), k);
  }

  // ----- What a write touches

  /** From `m` to `m'` a tree on the pages `f` became a tree on the pages `f'`; pages of `lost` stay
      live and belong to no tree.  Every other page is as it was, and no page of another tree is taken. */
  ghost predicate Rewritten(m: map<PageNo, Page>, m': map<PageNo, Page>,
                            f: multiset<PageNo>, f': multiset<PageNo>, lost: multiset<PageNo>) {
    && (forall p :: p in m' <==> p in f' || p in lost || (p in m && p !in f))
    && (forall p :: p in m && p !in f ==> m'[p] == m[p] && p !in f' && p !in lost)
  }

  lemma RewrittenThen(m: map<PageNo, Page>, m1: map<PageNo, Page>, m2: map<PageNo, Page>,
                      f: multiset<PageNo>, f1: multiset<PageNo>, f2: multiset<PageNo>, lost: multiset<PageNo>)
    requires Rewritten(m, m1, f, f1, multiset{}) && Rewritten(m1, m2, f1, f2, lost)
    ensures Rewritten(m, m2, f, f2, lost)
  {
  }

  /** A B+tree on the pages of a store. */
  ghost predicate Stored(m: map<PageNo, Page>, t: Tree, h: nat, d: Discipline) {
    Held(m, t) && Sound(t, h) && NoRepeats(Footprint(t)) && RootFilled(t, d)
  }
}
