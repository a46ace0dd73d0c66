/** The trees' side of the page buffer: the pages an operation has locked exclusively, and what the
    buffer is sure to keep of every page. A page that is not pinned may be evicted at any moment, and
    then reads as it was when it was last unpinned as dirty. */
module PinnedPages {
  import opened Keys

  /** `held` are the pages pinned exclusively. `kept` is each page as last unpinned as dirty; a page
      that never was has nothing to fall back on. Shared pins, under which nothing is written, are
      not listed. */
  datatype Pins<N> = Pins(held: set<PageId>, kept: map<PageId, N>) {

    /** pinPage waits for the page's lock, for good if the operation holds it already. */
    function Pin(x: PageId): (p: Pins<N>)
      requires x !in held
      ensures p.held == held + {x} && p.kept == kept
    {
      this.(held := held + {x})
    }

    /** unpinPage releases a page with contents `n`. */
    function Unpin(x: PageId, n: N, dirty: bool): (p: Pins<N>)
      requires x in held
      ensures p.held == held - {x} && p.kept == if dirty then kept[x := n] else kept
    {
      Pins(held - {x}, if dirty then kept[x := n] else kept)
    }
  }

  /** The buffer keeps every page as it is, `changed` excepted. */
  ghost predicate KeptBut<N>(pages: map<PageId, N>, kept: map<PageId, N>, changed: set<PageId>) {
    kept.Keys <= pages.Keys && forall x :: x in pages && x !in changed ==> x in kept && kept[x] == pages[x]
  }

  /** Every page that is not held is kept. */
  ghost predicate AllKept<N>(pages: map<PageId, N>, p: Pins<N>) {
    KeptBut(pages, p.kept, p.held)
  }

  lemma KeptMore<N>(pages: map<PageId, N>, kept: map<PageId, N>, changed: set<PageId>, more: set<PageId>)
    requires changed <= more
    ensures KeptBut(pages, kept, changed) ==> KeptBut(pages, kept, more)
  {
  }

  lemma KeptWrite<N>(pages: map<PageId, N>, kept: map<PageId, N>, changed: set<PageId>, x: PageId, n: N)
    ensures KeptBut(pages, kept, changed) ==> KeptBut(pages[x := n], kept, changed + {x})
  {
  }

  lemma KeptDirty<N>(pages: map<PageId, N>, kept: map<PageId, N>, changed: set<PageId>, x: PageId)
    requires x in pages
    ensures KeptBut(pages, kept, changed) ==> KeptBut(pages, kept[x := pages[x]], changed - {x})
  {
  }

  lemma PinHolds<N>(pages: map<PageId, N>, p: Pins<N>, x: PageId)
    requires x !in p.held
    ensures AllKept(pages, p) ==> AllKept(pages, p.Pin(x))
  {
  }

  lemma WriteHolds<N>(pages: map<PageId, N>, p: Pins<N>, x: PageId, n: N)
    requires x in p.held
    ensures AllKept(pages, p) ==> AllKept(pages[x := n], p)
  {
  }

  lemma UnpinHolds<N>(pages: map<PageId, N>, p: Pins<N>, x: PageId)
    requires x in p.held && x in pages
    ensures AllKept(pages, p) ==> AllKept(pages, p.Unpin(x, pages[x], true))
  {
  }

  lemma WriteBackHolds<N>(pages: map<PageId, N>, p: Pins<N>, x: PageId, n: N)
    requires x in p.held
    ensures AllKept(pages, p) ==> AllKept(pages[x := n], p.Unpin(x, n, true))
  {
  }

  lemma HeldIs<N>(pages: map<PageId, N>, p: Pins<N>, changed: set<PageId>)
    requires changed == p.held
    ensures AllKept(pages, p) <==> KeptBut(pages, p.kept, changed)
  {
  }
}
