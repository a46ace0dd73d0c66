/** The cases of handleRootLeafUpsert: a root that is still a leaf takes the message directly, or
    splits and gets a root node above its halves. */
module BeRootLeaf {
  import opened Keys
  import opened Messages
  import opened Labels
  import opened Views
  import opened Leaves
  import opened LeafFlush
  import opened Kids
  import opened InsertPivots
  import opened BeSizes
  import opened BeNodes
  import opened BeFlush
  import opened BeServe
  import opened BeTraversal
  import opened BeRoot
  import opened BeRootUpsert
  import opened BeMeaning
  import Median

  /** A lone leaf applies the message. */
  lemma RootLeafDirect(pages: Pages, A: Labelling, root: PageId, u: Upsert) returns (B: Labelling)
    requires Whole(pages, A, root) && Newer(A, root, u)
    requires root in pages && pages[root].LeafNode? && LeafOK(pages[root].leaf) && |Upserted(pages[root].leaf, u).keys| <= SIZES.leafN
    ensures Whole(pages[root := LeafNode(Upserted(pages[root].leaf, u))], B, root)
    ensures root in A && root in B && Told(A[root].view, u, B[root].view)
  {
    hide *;
    var m := Single(u);
    var B1 := RootTakes(pages, A, root, u);
    PendingIs(root, m);
    UpsertedActs(pages[root].leaf, u);
    LeafShape(pages[root].leaf);
    B := LeafStep(pages, B1, root, map[root := m], root, root, Upserted(pages[root].leaf, u));
    WholeFrom(pages[root := LeafNode(Upserted(pages[root].leaf, u))], B, root);
    ConsistentRoot(B, root);
    ToldThrough(A[root].view, u, B1[root].view, B[root].view);
  }

  lemma LoneLeaf(pages: Pages, A: Labelling, root: PageId, x: PageId)
    requires Whole(pages, A, root) && root in pages && pages[root].LeafNode? && x in pages
    ensures x in A && A[x].parent == root ==> x == root
  {
    WholeParts(pages, A, root);
    NodeParts(pages, A, root, root);
    hide Stored;
    if x in A && A[x].parent == root && x != root {
      ParentTaller(A, root, x);
      assert false;
    }
  }

  /** The pages after page `n` has taken over the root's leaf and the root has become its parent. */
  function GrownPages(pages: Pages, root: PageId, n: PageId): Pages
    requires root in pages
  {
    pages[n := pages[root]][root := RootNode([], [n])]
  }

  lemma GrownPagesIs(pages: Pages, root: PageId, n: PageId)
    requires root in pages && n != root
    ensures var p := GrownPages(pages, root, n);
            p.Keys == pages.Keys + {n} && p[n] == pages[root] && p[root] == RootNode([], [n]) &&
            forall x :: x in pages && x != root && x != n ==> p[x] == pages[x]
  {
  }

  lemma GrownAt(A: Labelling, root: PageId, n: PageId)
    requires root in A && n !in A
    ensures var B := Grown(A, root, n);
            B[n] == A[root].(parent := root) &&
            B[root] == A[root].(height := A[root].height + 1, msgs := map[], leaf := map[]) &&
            forall x :: x in A && x != root && A[x].parent != root ==> B[x] == A[x]
  {
  }

  lemma GrownRootOK(pages: Pages, A: Labelling, B: Labelling, root: PageId, n: PageId)
    requires Consistent(A, root) && root in A && n !in A && B == Grown(A, root, n)
    requires root in pages && pages[root] == RootNode([], [n])
    ensures PageOK(pages, B, root, map[], root, [])
  {
    GrownAt(A, root, n);
    hide Consistent, Grown;
    assert Kid(B, root, root, [], [n], 0);
    NothingPendingMeansKids(B, root, root, [], [n]);
  }

  lemma LeafPageOK(pages: Pages, B: Labelling, root: PageId, x: PageId, l: Label)
    requires x in pages && x in B && x != root && pages[x].LeafNode? && B[x] == l.(parent := root)
    requires ContentOK(pages[x], l, map[], true)
    ensures PageOK(pages, B, root, map[], x, [])
  {
  }

  /** A lone leaf gets a root node above it. */
  lemma RootLeafGrows(pages: Pages, A: Labelling, root: PageId, n: PageId) returns (B: Labelling)
    requires Whole(pages, A, root) && root in pages && pages[root].LeafNode? && n !in pages
    ensures Whole(GrownPages(pages, root, n), B, root)
    ensures root in A && root in B && B[root].view == A[root].view
  {
    hide *;
    WholeParts(pages, A, root);
    StoredKeys(pages, A, root, map[], root, []);
    NodeParts(pages, A, root, root);
    B := GrowLevel(A, root, n);
    ConsistentRoot(B, root);
    GrownAt(A, root, n);
    GrownPagesIs(pages, root, n);
    var pages' := GrownPages(pages, root, n);
    forall x | x in pages' ensures PageOK(pages', B, root, map[], x, []) {
      if x == root {
        GrownRootOK(pages', A, B, root, n);
      } else if x == n {
        StoredAt(pages, A, root, map[], root, [], root);
        PageOKParts(pages, A, root, map[], root, []);
        NothingPendingAt(map[], root);
        LeafPageOK(pages', B, root, n, A[root]);
      } else {
        LoneLeaf(pages, A, root, x);
        StoredAt(pages, A, root, map[], root, [], x);
        OtherPageOK(pages, pages', A, B, root, n, x);
      }
    }
    StoredFrom(pages', B, root, map[], root, []);
    WholeFrom(pages', B, root);
  }

  lemma OtherPageOK(pages: Pages, pages': Pages, A: Labelling, B: Labelling, root: PageId, n: PageId, x: PageId)
    requires Consistent(A, root) && root in A && n !in A && B == Grown(A, root, n)
    requires x in pages && x in A && x != root && PageOK(pages, A, root, map[], x, []) && A[x].parent != root
    requires x in pages' && pages'[x] == pages[x]
    ensures PageOK(pages', B, root, map[], x, [])
  {
    GrownAt(A, root, n);
    hide Consistent, Grown, ContentOK, KidsPending;
    SamePageOK(pages, pages', A, B, root, map[], map[], x);
  }

  lemma NoPivots(k: Key)
    ensures LowerBound([], k) == 0
  {
  }

  /** A full lone leaf splits at the median, with the root node above its halves. */
  lemma RootLeafFull(pages: Pages, A: Labelling, root: PageId, u: Upsert, n: PageId, r: PageId, mid: Key) returns (B: Labelling)
    requires Whole(pages, A, root) && Newer(A, root, u) && n !in pages && r !in pages && n != r
    requires root in pages && pages[root].LeafNode? && LeafOK(pages[root].leaf) && 3 <= |pages[root].leaf.keys| <= SIZES.leafN
    requires |pages[root].leaf.keys| == |pages[root].leaf.values|
    requires Median.HasRank(pages[root].leaf.keys, KeysOf([u]), mid, (|pages[root].leaf.keys| + 2) / 2)
    ensures n != root && GrownPages(pages, root, n)[root] == RootNode([], [n]) && n in GrownPages(pages, root, n)
    ensures GrownPages(pages, root, n)[n] == pages[root]
    ensures Whole(LeafSplitPages(GrownPages(pages, root, n), root, u, 0, n, r, mid), B, root)
    ensures root in A && root in B && Told(A[root].view, u, B[root].view)
  {
    hide *;
    var A1 := RootLeafGrows(pages, A, root, n);
    GrownPagesIs(pages, root, n);
    var p := GrownPages(pages, root, n);
    RootRoutes(p, A1, root, u.key);
    NoPivots(u.key);
    NewerStill(A, A1, root, u);
    RootRoom();
    B := RootLeafSplit(p, A1, root, u, 0, n, r, mid);
  }

  lemma NewerStill(A: Labelling, B: Labelling, root: PageId, u: Upsert)
    requires Newer(A, root, u) && root in B && B[root].view == A[root].view
    ensures Newer(B, root, u)
  {
  }

  lemma RootRoom()
    ensures 1 <= SIZES.rootN && 3 <= SIZES.leafN && 1 <= SIZES.innerBN && 3 <= SIZES.innerN
  {
  }
}
