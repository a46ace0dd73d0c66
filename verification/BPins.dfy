/** Which pages the B-tree releases as dirty when it splits: all that it has changed. */
module BPins {
  import opened Keys
  import opened Messages
  import opened Leaves
  import opened BNodes
  import opened PinnedPages

  lemma KeptWhole(pages: Pages)
    ensures forall S: set<PageId> :: KeptBut(pages, pages, S)
  {
  }

  /** A parent that is left as it was is released as dirty exactly if it had been changed before. */
  lemma ParentReleased(pages: Pages, kept: Pages, p: PageId, dirtyParent: bool)
    requires p in pages
    ensures KeptBut(pages, kept, if dirtyParent then {p} else {}) ==>
            KeptBut(pages, if dirtyParent then kept[p := pages[p]] else kept, {})
  {
  }

  /** A child has split below its parent: the parent and the half that does not get the key have been
      released as dirty. */
  lemma SplitBelow(pages: Pages, kept: Pages, p: PageId, dirtyParent: bool, c: PageId, r: PageId, left: bool, pages': Pages)
    requires p in pages && c in pages && r !in pages && p != c
    requires pages'.Keys == pages.Keys + {r} && forall x :: x in pages && x != p && x != c ==> pages'[x] == pages[x]
    ensures var other := if left then r else c;
            KeptBut(pages, kept, if dirtyParent then {p} else {}) ==>
            KeptBut(pages', kept[p := pages'[p]][other := pages'[other]], {if left then c else r})
  {
  }

  /** The root has split below a new one. */
  lemma RootSplitReleased(pages: Pages, root: PageId, n: PageId, r: PageId, left: bool, pages': Pages)
    requires root in pages && n !in pages && r !in pages && n != r
    requires pages'.Keys == pages.Keys + {n, r} && forall x :: x in pages && x != root ==> pages'[x] == pages[x]
    ensures var other := if left then r else n;
            KeptBut(pages', pages[root := pages'[root]][other := pages'[other]], {if left then n else r})
  {
  }

  /** The leaf that has taken the key is released: as clean only if nothing has changed it. */
  lemma LeafReleased(pages: Pages, kept: Pages, c: PageId, pages': Pages, changed: set<PageId>, dirty: bool)
    requires c in pages && pages'.Keys == pages.Keys && forall x :: x in pages && x != c ==> pages'[x] == pages[x]
    requires changed <= {c} && (!dirty ==> pages' == pages && changed == {})
    ensures KeptBut(pages, kept, changed) ==> (if dirty then kept[c := pages'[c]] else kept) == pages'
  {
    if KeptBut(pages, kept, changed) {
      var kept' := if dirty then kept[c := pages'[c]] else kept;
      forall x | x in pages' ensures x in kept' && kept'[x] == pages'[x] {
        if x != c { assert x !in changed; }
      }
      assert kept'.Keys == pages'.Keys;
    }
  }

  // ---- nothing is marked in vain --------------------------------------------------------------

  function Size(n: Node): nat {
    match n case LeafNode(l) => |l.keys| case InnerNode(pivots, _) => |pivots|
  }

  /** What is kept of a page is what was kept of it. */
  ghost predicate SameKept(kept: Pages, kept': Pages, x: PageId) {
    (x in kept <==> x in kept') && (x in kept ==> kept'[x] == kept[x])
  }

  /** No page grows by more than one key or pivot, and none has been released as dirty that is as it
      was; the pages in `free` may have changed before. */
  ghost predicate Sparing(pages: Pages, kept: Pages, pages': Pages, kept': Pages, free: set<PageId>) {
    && (forall x :: x in pages && x in pages' ==> Size(pages'[x]) <= Size(pages[x]) + 1)
    && (forall x :: x in pages && x in pages' && x !in free && pages'[x] == pages[x] ==> SameKept(kept, kept', x))
  }

  lemma NothingMarked(pages: Pages, kept: Pages, free: set<PageId>)
    ensures Sparing(pages, kept, pages, kept, free)
  {
  }

  lemma ParentMarked(pages: Pages, kept: Pages, p: PageId, dirtyParent: bool)
    requires p in pages
    ensures Sparing(pages, kept, pages, if dirtyParent then kept[p := pages[p]] else kept, if dirtyParent then {p} else {})
  {
  }

  /** A split below a parent: parent and child change, and what is kept changes for them only. */
  lemma SplitMarks(pages: Pages, kept: Pages, p: PageId, c: PageId, r: PageId, other: PageId, pages': Pages)
    requires p in pages && c in pages && r !in pages && p != c && (other == c || other == r)
    requires pages'.Keys == pages.Keys + {r} && forall x :: x in pages && x != p && x != c ==> pages'[x] == pages[x]
    requires Size(pages'[p]) == Size(pages[p]) + 1 && Size(pages'[c]) < Size(pages[c])
    ensures Sparing(pages, kept, pages', kept[p := pages'[p]][other := pages'[other]], {})
  {
  }

  /** A new root above the old one, which was larger. */
  lemma RootMarks(pages: Pages, kept: Pages, root: PageId, n: PageId, r: PageId, other: PageId, pages': Pages)
    requires root in pages && n !in pages && r !in pages && n != r && (other == n || other == r)
    requires pages'.Keys == pages.Keys + {n, r} && forall x :: x in pages && x != root ==> pages'[x] == pages[x]
    requires Size(pages'[root]) <= Size(pages[root]) && pages'[root] != pages[root]
    ensures Sparing(pages, kept, pages', kept[root := pages'[root]][other := pages'[other]], {})
  {
  }

  /** After a split of `c` below `p` the descent goes on below them. */
  lemma SplitThenRest(pages: Pages, kept: Pages, p: PageId, c: PageId, t: PageId, pages1: Pages, kept1: Pages, pages2: Pages, kept2: Pages)
    requires p in pages && c in pages && p in pages1 && c in pages1 && (t == c || t !in pages)
    requires forall x :: x in pages ==> x in pages1 && (x != p && x != c ==> pages1[x] == pages[x])
    requires Sparing(pages, kept, pages1, kept1, {}) && Sparing(pages1, kept1, pages2, kept2, {t})
    requires p in pages2 && pages2[p] == pages1[p] && Size(pages1[p]) == Size(pages[p]) + 1 && Size(pages1[c]) + 1 < Size(pages[c])
    ensures Sparing(pages, kept, pages2, kept2, {})
  {
  }

  /** The parent is released, and the descent goes on. */
  lemma ReleaseThenRest(pages: Pages, kept: Pages, p: PageId, dirtyParent: bool, kept1: Pages, pages2: Pages, kept2: Pages)
    requires p in pages && kept1 == (if dirtyParent then kept[p := pages[p]] else kept)
    requires Sparing(pages, kept1, pages2, kept2, {})
    ensures Sparing(pages, kept, pages2, kept2, if dirtyParent then {p} else {})
  {
  }

  /** After the split of the root nothing below it makes the new root as large as the old one. */
  lemma RootSplitThenRest(pages: Pages, kept: Pages, root: PageId, t: PageId, pages1: Pages, kept1: Pages, pages2: Pages, kept2: Pages)
    requires root in pages && root in pages1 && t !in pages
    requires forall x :: x in pages ==> x in pages1 && (x != root ==> pages1[x] == pages[x])
    requires Sparing(pages, kept, pages1, kept1, {}) && Sparing(pages1, kept1, pages2, kept2, {t})
    requires Size(pages1[root]) + 1 < Size(pages[root])
    ensures Sparing(pages, kept, pages2, kept2, {})
  {
  }

  /** The leaf takes the key, and is released as dirty if it changes, or has just split. */
  lemma LeafThenDone(pages: Pages, kept: Pages, free: set<PageId>, pages1: Pages, kept1: Pages, t: PageId, l: Leaf, dirty: bool, pages2: Pages, kept2: Pages)
    requires Sparing(pages, kept, pages1, kept1, free) && pages.Keys <= pages1.Keys
    requires t in pages1 && pages2 == pages1[t := LeafNode(l)] && kept2 == if dirty then kept1[t := LeafNode(l)] else kept1
    requires t in pages && dirty ==> pages[t] != LeafNode(l)
    requires !dirty ==> pages1[t] == LeafNode(l)
    requires t in pages ==> |l.keys| <= Size(pages[t]) + 1
    ensures Sparing(pages, kept, pages2, kept2, free)
  {
  }

  /** A leaf stays as it is exactly if it shows the key with the value already. */
  lemma UpsertedSame(l: Leaf, u: Upsert)
    requires |l.keys| == |l.values| && u.kind.INSERT?
    ensures Upserted(l, u) == l <==> LeafLookup(l, u.key) == Some(u.value)
    ensures |Upserted(l, u).keys| <= |l.keys| + 1
  {
    var i := LowerBound(l.keys, u.key);
    if Found(l, u.key) {
      assert Upserted(l, u).values[i] == u.value;
      assert l.values[i] == u.value ==> l.values[i := u.value] == l.values;
    }
  }

  /** A full leaf gives up its largest key when it splits, for good. */
  lemma LargestGone(l: Leaf, left: Leaf, u: Upsert)
    requires |left.keys| == |left.values| && u.kind.INSERT? && l.keys != [] && |left.keys| < |l.keys|
    requires l.keys[|l.keys| - 1] !in left.keys && u.key != l.keys[|l.keys| - 1]
    ensures Upserted(left, u) != l && |Upserted(left, u).keys| <= |l.keys|
  {
    var last := l.keys[|l.keys| - 1];
    assert last in l.keys;
    OnlyOneMore(left, u, last);
  }

  lemma OnlyOneMore(l: Leaf, u: Upsert, k: Key)
    requires |l.keys| == |l.values| && u.kind.INSERT? && k !in l.keys && k != u.key
    ensures k !in Upserted(l, u).keys && |Upserted(l, u).keys| <= |l.keys| + 1
  {
  }
}
