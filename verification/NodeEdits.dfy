/** Searches and edits inside one decoded node. */
module NodeEdits {
  import opened Bytes
  import opened Storage
  import opened Shape

  const MIN_ENTRIES := 2

  // ----- Searches inside one node

  /** The number of leading entries whose key is smaller. */
  function PartitionPoint(es: seq<LeafEntry>, key: Key): (i: nat)
    ensures i <= |es|
    ensures forall j :: 0 <= j < i ==> KeyLess(es[j].key, key)
    ensures i < |es| ==> !KeyLess(es[i].key, key)
  {
    if es == [] || !KeyLess(es[0].key, key) then 0 else 1 + PartitionPoint(es[1..], key)
  }

  /** The first entry with the given key, or the number of entries. */
  function KeyPosition(es: seq<LeafEntry>, key: Key): (i: nat)
    ensures i <= |es|
    ensures forall j :: 0 <= j < i ==> es[j].key != key
    ensures i < |es| ==> es[i].key == key
  {
    if es == [] || es[0].key == key then 0 else 1 + KeyPosition(es[1..], key)
  }

  /** The first separator whose left child is the given page, or the number of separators. */
  function ChildPosition(seps: seq<InternalEntry>, child: PageNo): (i: nat)
    ensures i <= |seps|
    ensures forall j :: 0 <= j < i ==> seps[j].leftChild != child
    ensures i < |seps| ==> seps[i].leftChild == child
  {
    if seps == [] || seps[0].leftChild == child then 0 else 1 + ChildPosition(seps[1..], child)
  }

  /** The first separator greater than the key, or the number of separators. */
  function RouteIndex(seps: seq<InternalEntry>, key: Key): (i: nat)
    ensures i <= |seps|
    ensures forall j :: 0 <= j < i ==> !KeyLess(key, seps[j].key)
    ensures i < |seps| ==> KeyLess(key, seps[i].key)
  {
    if seps == [] || KeyLess(key, seps[0].key) then 0 else 1 + RouteIndex(seps[1..], key)
  }

  function ChildForKey(page: Page, key: Key): PageNo
    requires page.InternalPage?
  {
    var i := RouteIndex(page.seps, key);
    if i < |page.seps| then page.seps[i].leftChild else page.rightmostChild
  }

  function SingleEntrySize(key: Key, payload: seq<byte>): nat {
    NODE_HEADER_SIZE + 2 + 2 + |key| + 2 + |payload|
  }

  /** Inserts an entry at the partition point of its key. */
  function InsertEntry(es: seq<LeafEntry>, key: Key, payload: seq<byte>): (r: seq<LeafEntry>)
    ensures |r| == |es| + 1
  {
    var pos := PartitionPoint(es, key);
    es[..pos] + [LeafEntry(key, payload)] + es[pos..]
  }

  function RemoveEntry(es: seq<LeafEntry>, pos: nat): (r: seq<LeafEntry>)
    requires pos < |es|
    ensures |r| == |es| - 1
  {
    es[..pos] + es[pos + 1..]
  }

  /** A child was split: its separator and its new right half go into the parent. */
  function WithSplitChild(node: Page, leftChild: PageNo, separator: Key, rightChild: PageNo): (r: Page)
    requires node.InternalPage?
    ensures r.InternalPage?
  {
    var i := ChildPosition(node.seps, leftChild);
    var entry := InternalEntry(separator, leftChild);
    if i < |node.seps| then
      var seps := node.seps[i := node.seps[i].(leftChild := rightChild)];
      InternalPage(seps[..i] + [entry] + seps[i..], node.rightmostChild)
    else
      InternalPage(node.seps + [entry], rightChild)
  }

  /** The separator after a child is replaced. */
  function WithSeparator(node: Page, leftChild: PageNo, key: Key): (r: Page)
    requires node.InternalPage? && ChildPosition(node.seps, leftChild) < |node.seps|
    ensures r.InternalPage?
  {
    var i := ChildPosition(node.seps, leftChild);
    node.(seps := node.seps[i := node.seps[i].(key := key)])
  }

  /** A child was merged into its left neighbour: the separator between them goes, and so does the pointer
      to the right one. */
  function WithMergedChild(node: Page, left: PageNo, right: PageNo): (r: Page)
    requires node.InternalPage? && ChildPosition(node.seps, left) < |node.seps|
    ensures r.InternalPage?
  {
    var i := ChildPosition(node.seps, left);
    var seps := node.seps[..i] + node.seps[i + 1..];
    if node.rightmostChild == right then InternalPage(seps, left)
    else
      var j := ChildPosition(seps, right);
      if j < |seps| then InternalPage(seps[j := seps[j].(leftChild := left)], node.rightmostChild)
      else InternalPage(seps, node.rightmostChild)
  }

  function Children(node: Page): (r: seq<PageNo>)
    requires node.InternalPage?
    ensures |r| == |node.seps| + 1
    ensures forall i :: 0 <= i < |node.seps| ==> r[i] == node.seps[i].leftChild
    ensures r[|node.seps|] == node.rightmostChild
  {
    seq(|node.seps|, i requires 0 <= i < |node.seps| => node.seps[i].leftChild) + [node.rightmostChild]
  }

  /** The first occurrence of a page, or the length of the sequence. */
  function IndexOf(pages: seq<PageNo>, p: PageNo): (i: nat)
    ensures i <= |pages|
    ensures forall j :: 0 <= j < i ==> pages[j] != p
    ensures i < |pages| ==> pages[i] == p
  {
    if pages == [] || pages[0] == p then 0 else 1 + IndexOf(pages[1..], p)
  }

  /** The pointer to the hole comes after those to the children on its left. */
  lemma HoleEntry(lk: seq<Key>, ls: seq<PageNo>, q: PageNo, rk: seq<Key>, rs: seq<PageNo>)
    requires |lk| == |ls| && |rk| == |rs| && q !in ls
    ensures ChildPosition(BranchPage(lk + rk, ls + [q] + rs).seps, q) == |lk|
  {
    var seps := BranchPage(lk + rk, ls + [q] + rs).seps;
    var i := ChildPosition(seps, q);
    if rk != [] {
      assert seps[|lk|].leftChild == q;
    }
    forall j | 0 <= j < |lk| ensures seps[j].leftChild != q {
      assert seps[j].leftChild == ls[j];
    }
  }
}
