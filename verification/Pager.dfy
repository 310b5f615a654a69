/** The page store: decoded B+tree nodes, their encoded sizes, and the pager that hands pages out. */
module Storage {
  import opened Bytes

  type PageNo = nat

  const PAGE_SIZE := 4096
  const NODE_HEADER_SIZE := 12

  datatype LeafEntry = LeafEntry(key: Key, payload: seq<byte>)

  datatype InternalEntry = InternalEntry(key: Key, leftChild: PageNo)

  /** A live page, decoded.  A page that was allocated and not yet written is `Blank`. */
  datatype Page =
    | Blank
    | LeafPage(entries: seq<LeafEntry>, nextLeaf: PageNo)
    | InternalPage(seps: seq<InternalEntry>, rightmostChild: PageNo)

  datatype BTreeError =
    | DuplicateKey
    | RowTooLarge(size: nat, limit: nat)
    | PageOverflow  // a node was to be encoded that does not fit in one page

  datatype Option<T> = None | Some(value: T)

  datatype Outcome = Done | Failed(error: BTreeError) {
    predicate IsFailure() { Failed? }

    function PropagateFailure(): Outcome
      requires Failed?
    {
      this
    }
  }

  function LeafCells(es: seq<LeafEntry>): nat {
    if es == [] then 0 else LeafCells(es[..|es| - 1]) + 4 + |es[|es| - 1].key| + |es[|es| - 1].payload|
  }

  function InternalCells(es: seq<InternalEntry>): nat {
    if es == [] then 0 else InternalCells(es[..|es| - 1]) + 6 + |es[|es| - 1].key|
  }

  /** The number of bytes a node takes when it is encoded: header, slots and cells. */
  function EncodedSize(page: Page): nat {
    match page
    case Blank => 0
    case LeafPage(es, _) => NODE_HEADER_SIZE + 2 * |es| + LeafCells(es)
    case InternalPage(es, _) => NODE_HEADER_SIZE + 2 * |es| + InternalCells(es)
  }

  predicate Fits(page: Page) {
    EncodedSize(page) <= PAGE_SIZE
  }

  /** Page 0 is the header.  Every other page below `pageCount` is either live or on the free list,
      never both, and every live page holds a node that fits. */
  ghost predicate StoreOk(pages: map<PageNo, Page>, freeList: seq<PageNo>, pageCount: nat) {
    && pageCount > 0
    && (forall no :: no in pages ==> 0 < no < pageCount && Fits(pages[no]))
    && (forall i :: 0 <= i < |freeList| ==> 0 < freeList[i] < pageCount && freeList[i] !in pages)
    && (forall i, j :: 0 <= i < j < |freeList| ==> freeList[i] != freeList[j])
    && (forall no :: 0 < no < pageCount ==> no in pages || no in freeList)
  }

  class Pager {
    var pages: map<PageNo, Page>
    var freeList: seq<PageNo>
    var pageCount: nat
    ghost var freed: seq<PageNo>  // every page freed so far, in order

    ghost predicate Valid()
      reads this
    {
      StoreOk(pages, freeList, pageCount)
    }

    lemma NoPageZero()
      requires Valid()
      ensures 0 !in pages
    {
    }

    constructor ()
      ensures Valid() && pages == map[] && freed == []
    {
      pages, freeList, pageCount, freed := map[], [], 1, [];
    }

    /** Replaces the contents of a page by the encoding of a node. */
    method Write(no: PageNo, page: Page) returns (r: Outcome)
      requires Valid() && no in pages
      modifies this
      ensures Valid() && freed == old(freed)
      ensures if Fits(page) then r == Done && pages == old(pages)[no := page]
              else r == Failed(PageOverflow) && pages == old(pages)
    {
      if EncodedSize(page) > PAGE_SIZE {
        return Failed(PageOverflow);
      }
      pages := pages[no := page];
      return Done;
    }

    /** Takes the head of the free list, or extends the file. */
    method AllocatePage() returns (no: PageNo)
      requires Valid()
      modifies this
      ensures Valid() && freed == old(freed)
      ensures no != 0 && no !in old(pages) && pages == old(pages)[no := Blank]
    {
      if freeList != [] {
        no := freeList[0];
        freeList := freeList[1..];
        assert forall n :: n in old(freeList) && n != no ==> n in freeList by {
          assert old(freeList) == [no] + freeList;
        }
      } else {
        no := pageCount;
        pageCount := pageCount + 1;
      }
      pages := pages[no := Blank];
    }

    /** Puts a live page at the head of the free list. */
    method FreePage(no: PageNo)
      requires Valid() && no in pages
      modifies this
      ensures Valid() && freed == old(freed) + [no]
      ensures pages == old(pages) - {no}
    {
      pages := pages - {no};
      freeList := [no] + freeList;
      freed := freed + [no];
      assert forall n :: n in old(freeList) ==> n in freeList;
    }

    /** Puts the store back to what it was, from the journal. */
    method Restore(pages: map<PageNo, Page>, freeList: seq<PageNo>, pageCount: nat)
      requires StoreOk(pages, freeList, pageCount)
      modifies this
      ensures Valid() && freed == old(freed)
      ensures this.pages == pages && this.freeList == freeList && this.pageCount == pageCount
    {
      this.pages, this.freeList, this.pageCount := pages, freeList, pageCount;
    }
  }
}
