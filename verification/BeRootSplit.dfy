/** The root split: a full root grows a level, and the new inner nodes below it take over its
    pivots and children without any key changing its meaning. */
module BeRootSplit {
  import opened Keys
  import opened Messages
  import opened Labels
  import opened Leaves
  import opened Kids
  import opened InsertPivots
  import opened BeSizes
  import opened BeNodes
  import opened BeFlush
  import opened BeServe
  import opened BeCascade
  import opened BeTraversal
  import opened BeRoot
  import opened BeRootUpsert
  import opened RootChunks

  /** The labels after the root has grown a level and `created` pages have been put below it. */
  ghost predicate Regrown(A: Labelling, root: PageId, B: Labelling, created: set<PageId>) {
    && root in A && created !! A.Keys && B.Keys == A.Keys + created
    && B[root] == A[root].(height := A[root].height + 1)
    && (forall x :: x in A && x != root ==> B[x] == A[x].(parent := B[x].parent))
    && (forall x :: x in A && x != root && A[x].parent != root ==> B[x].parent == A[x].parent)
    && (forall x :: x in created ==> B[x].height == A[root].height && B[x].msgs == map[] && B[x].leaf == map[])
  }

  ghost predicate Done(B: Labelling, root: PageId, ids: seq<PageId>, chunks: seq<Chunk>) {
    && |chunks| <= |ids|
    && forall j :: 0 <= j < |chunks| ==> ids[j] in B && AllKids(B, root, ids[j], chunks[j].pivots, chunks[j].children)
  }

  /** The last new page still holds all that remains of the root's arrays. */
  ghost predicate Cutting(A: Labelling, root: PageId, B: Labelling, ids: seq<PageId>, mids: seq<Key>,
                          chunks: seq<Chunk>, ps: seq<Key>, cs: seq<PageId>) {
    && Consistent(B, root) && Regrown(A, root, B, set x | x in ids) && B[root].view == A[root].view
    && |ids| == |chunks| + 1
    && AllKids(B, root, root, mids, ids)
    && Done(B, root, ids, chunks)
    && ids[|chunks|] in B && AllKids(B, root, ids[|chunks|], ps, cs)
  }

  lemma HeightMeansNoPairs(A: Labelling, root: PageId, x: PageId)
    requires Consistent(A, root) && x in A && A[x].height > 0
    ensures A[x].leaf == map[]
  {
    assert Linked(A, root, x);
    assert Base(A[x]);
  }

  lemma GrownIs(A: Labelling, root: PageId, n: PageId)
    requires Consistent(A, root) && n !in A && A[root].msgs == map[] && A[root].height > 0
    ensures Regrown(A, root, Grown(A, root, n), {n})
    ensures var B := Grown(A, root, n); B[n].lo == A[root].lo && B[n].hi == A[root].hi && B[n].parent == root
    ensures forall x :: x in A && x != root && A[x].parent == root ==> Grown(A, root, n)[x].parent == n
  {
    HeightMeansNoPairs(A, root, root);
  }

  lemma CuttingStart(A: Labelling, root: PageId, n: PageId, ps: seq<Key>, cs: seq<PageId>) returns (B: Labelling)
    requires Consistent(A, root) && n !in A && A[root].msgs == map[] && A[root].height > 0
    requires AllKids(A, root, root, ps, cs)
    ensures Cutting(A, root, B, [n], [], [], ps, cs)
  {
    B := GrowLevel(A, root, n);
    GrownIs(A, root, n);
    hide Consistent, Grown;
    assert (set x | x in [n]) == {n};
    assert AllKids(B, root, root, [], [n]) by {
      assert Kid(B, root, root, [], [n], 0);
    }
    forall i | 0 <= i < |cs| ensures Kid(B, root, n, ps, cs, i) {
      assert Kid(A, root, root, ps, cs, i);
    }
  }

  lemma RegrownSplit(A: Labelling, root: PageId, B: Labelling, created: set<PageId>, c: PageId, r: PageId, mid: Key)
    requires Consistent(A, root) && Regrown(A, root, B, created) && c in created && r !in B && root != c
    ensures Regrown(A, root, Split(B, c, r, mid), created + {r})
  {
    hide LeftHalf, RightHalf, Regrown;
    RegrownKeys(A, root, B, created);
    RegrownFrom(A, root, B, created, c, r, mid);
  }

  lemma RegrownKeys(A: Labelling, root: PageId, B: Labelling, created: set<PageId>)
    requires Regrown(A, root, B, created)
    ensures root in A && created !! A.Keys && B.Keys == A.Keys + created
  {
  }

  lemma SplitEmpty(l: Label, mid: Key)
    requires l.msgs == map[] && l.leaf == map[]
    ensures LeftHalf(l, mid) == l.(hi := mid) && RightHalf(l, mid) == l.(lo := mid)
  {
    assert LeftHalf(l, mid).msgs == map[] && LeftHalf(l, mid).leaf == map[];
    assert RightHalf(l, mid).msgs == map[] && RightHalf(l, mid).leaf == map[];
  }

  lemma RegrownFrom(A: Labelling, root: PageId, B: Labelling, created: set<PageId>, c: PageId, r: PageId, mid: Key)
    requires Consistent(A, root) && Regrown(A, root, B, created) && c in created && r !in B && c != root
    ensures Regrown(A, root, Split(B, c, r, mid), created + {r})
  {
    SplitEmpty(B[c], mid);
    var C := Split(B, c, r, mid);
    hide LeftHalf, RightHalf;
    NotAParent(A, root, c);
    hide Consistent;
    forall x | x in A && x != root ensures C[x] == A[x].(parent := C[x].parent) && (A[x].parent != root ==> C[x].parent == A[x].parent) {
    }
  }

  lemma NotAParent(A: Labelling, root: PageId, c: PageId)
    requires Consistent(A, root) && c !in A
    ensures forall x :: x in A && x != root ==> A[x].parent != c
  {
    forall x | x in A && x != root ensures A[x].parent != c {
      NoParentIsNew(A, root, x, c);
    }
  }

  /** A finished page keeps its children when a later page splits. */
  lemma KidsBesideSplit(B: Labelling, root: PageId, y: PageId, ps: seq<Key>, cs: seq<PageId>, c: PageId, r: PageId, mid: Key)
    requires y in B && AllKids(B, root, y, ps, cs) && c in B && r !in B && y != c && B[c].parent == root && y != root
    ensures AllKids(Split(B, c, r, mid), root, y, ps, cs)
  {
    var C := Split(B, c, r, mid);
    hide LeftHalf, RightHalf;
    forall d | d in cs ensures d in B && d in C && C[d].lo == B[d].lo && C[d].hi == B[d].hi && C[d].parent == B[d].parent {
      var i :| 0 <= i < |cs| && cs[i] == d;
      assert Kid(B, root, y, ps, cs, i);
    }
    KidsFrame(B, C, root, y, ps, cs);
  }

  /** The root lists the split page's new sibling at its end. */
  lemma RootListsNext(B: Labelling, root: PageId, ids: seq<PageId>, mids: seq<Key>, r: PageId, mid: Key)
    requires Consistent(B, root) && root in B && AllKids(B, root, root, mids, ids) && r !in B && ids != []
    requires forall i, j :: 0 <= i < j < |ids| ==> ids[i] != ids[j]
    ensures ids[|ids| - 1] in B && AllKids(Split(B, ids[|ids| - 1], r, mid), root, root, mids + [mid], ids + [r])
  {
    var n, c := |ids| - 1, ids[|ids| - 1];
    assert Kid(B, root, root, mids, ids, n);
    NothingPendingMeansKids(B, root, root, mids, ids);
    assert c != root && r != root;
    assert [] + [PivotTuple(n, mid, r)] == [PivotTuple(n, mid, r)];
    var C := Split(B, c, r, mid);
    KidsPendingMore(B, root, root, mids, ids, [], n, c, r, mid);
    var t := PivotTuple(n, mid, r);
    OnePivot(mids, ids, t);
    KidsInserted(C, root, root, mids, ids, [t]);
    InsertAtEnd(mids, mid);
    InsertAtEnd(ids, r);
  }

  lemma InsertAtEnd<T>(s: seq<T>, x: T)
    ensures InsertAt(s, |s|, x) == s + [x]
  {
  }

  lemma CuttingParts(A: Labelling, root: PageId, B: Labelling, ids: seq<PageId>, mids: seq<Key>,
                     chunks: seq<Chunk>, ps: seq<Key>, cs: seq<PageId>)
    requires Cutting(A, root, B, ids, mids, chunks, ps, cs)
    ensures Consistent(B, root) && root in A && root in B && Regrown(A, root, B, set x | x in ids) && B[root].view == A[root].view
    ensures |ids| == |chunks| + 1 && AllKids(B, root, root, mids, ids) && Done(B, root, ids, chunks)
    ensures ids[|chunks|] in B && AllKids(B, root, ids[|chunks|], ps, cs)
    ensures |cs| == |ps| + 1 && |mids| == |chunks|
    ensures forall i :: 0 <= i < |ids| ==> ids[i] in B && ids[i] != root && B[ids[i]].parent == root
  {
    forall i | 0 <= i < |ids| ensures ids[i] in B && ids[i] != root && B[ids[i]].parent == root {
      assert Kid(B, root, root, mids, ids, i);
    }
  }

  lemma CuttingFrom(A: Labelling, root: PageId, B: Labelling, ids: seq<PageId>, mids: seq<Key>,
                    chunks: seq<Chunk>, ps: seq<Key>, cs: seq<PageId>)
    requires Consistent(B, root) && root in A && root in B && Regrown(A, root, B, set x | x in ids) && B[root].view == A[root].view
    requires |ids| == |chunks| + 1 && AllKids(B, root, root, mids, ids) && Done(B, root, ids, chunks)
    requires ids[|chunks|] in B && AllKids(B, root, ids[|chunks|], ps, cs)
    ensures Cutting(A, root, B, ids, mids, chunks, ps, cs)
  {
  }

  lemma DoneMore(B: Labelling, root: PageId, ids: seq<PageId>, chunks: seq<Chunk>, r: PageId, mid: Key, k: Chunk)
    requires Done(B, root, ids, chunks) && |ids| == |chunks| + 1 && r !in B
    requires forall i, j :: 0 <= i < j < |ids| ==> ids[i] != ids[j]
    requires forall i :: 0 <= i < |ids| ==> ids[i] in B && ids[i] != root && B[ids[i]].parent == root
    requires var c := ids[|chunks|];
             AllKids(Split(B, c, r, mid), root, c, k.pivots, k.children)
    ensures Done(Split(B, ids[|chunks|], r, mid), root, ids + [r], chunks + [k])
  {
    var c := ids[|chunks|];
    hide AllKids, Split;
    forall j | 0 <= j < |chunks| ensures AllKids(Split(B, c, r, mid), root, ids[j], chunks[j].pivots, chunks[j].children) {
      KidsBesideSplit(B, root, ids[j], chunks[j].pivots, chunks[j].children, c, r, mid);
    }
  }

  /** The next new page takes what remains behind the separator at `at`. */
  lemma CuttingStep(A: Labelling, root: PageId, B: Labelling, ids: seq<PageId>, mids: seq<Key>,
                    chunks: seq<Chunk>, ps: seq<Key>, cs: seq<PageId>, at: nat, r: PageId) returns (C: Labelling)
    requires Consistent(A, root) && Cutting(A, root, B, ids, mids, chunks, ps, cs) && at < |ps| && r !in B
    requires |cs| == |ps| + 1
    ensures Cutting(A, root, C, ids + [r], mids + [ps[at]], chunks + [Chunk(ps[..at], cs[..at + 1])], ps[at + 1..], cs[at + 1..])
  {
    hide *;
    CuttingParts(A, root, B, ids, mids, chunks, ps, cs);
    var c, mid, k := ids[|chunks|], ps[at], Chunk(ps[..at], cs[..at + 1]);
    PivotSplittable(B, root, c, ps, cs, at);
    C := SplitPage(B, root, c, r, mid);
    KidsSplit(B, root, c, r, ps, cs, at);
    forall i, j | 0 <= i < j < |ids| ensures ids[i] != ids[j] {
      if ids[i] == ids[j] { KidsDistinct(B, root, root, mids, ids, i, j); }
    }
    RootListsNext(B, root, ids, mids, r, mid);
    DoneMore(B, root, ids, chunks, r, mid, k);
    var created := set x | x in ids;
    assert c in created;
    RegrownSplit(A, root, B, created, c, r, mid);
    assert (set x | x in ids + [r]) == created + {r};
    RegrownHas(A, root, C, created + {r});
    CuttingFrom(A, root, C, ids + [r], mids + [mid], chunks + [k], ps[at + 1..], cs[at + 1..]);
  }

  lemma RegrownHas(A: Labelling, root: PageId, B: Labelling, created: set<PageId>)
    requires Regrown(A, root, B, created)
    ensures root in A && root in B && forall x :: x in created ==> x in B
  {
  }

  // ---- the pages ------------------------------------------------------------------------------

  /** The pages after a root split: each new page stores its chunk, the root the separators. */
  ghost predicate CutPages(pages: Pages, root: PageId, pages': Pages, ids: seq<PageId>, chunks: seq<Chunk>, seps: seq<Key>) {
    && |ids| == |chunks| && root in pages && root !in ids
    && pages'.Keys == pages.Keys + (set x | x in ids)
    && pages'[root] == RootNode(seps, ids)
    && (forall x :: x in pages && x != root && x !in ids ==> pages'[x] == pages[x])
    && (forall j :: 0 <= j < |ids| ==> pages'[ids[j]] == InnerNode([], chunks[j].pivots, chunks[j].children))
  }

  lemma OldPageOK(pages: Pages, A: Labelling, root: PageId, B: Labelling, created: set<PageId>, pages': Pages, x: PageId)
    requires Regrown(A, root, B, created) && x in pages && x in A && x != root && PageOK(pages, A, root, map[], x, [])
    requires x in pages' && pages'[x] == pages[x]
    ensures PageOK(pages', B, root, map[], x, [])
  {
    hide ContentOK, KidsPending;
    ContentIgnoresParent(pages[x], A[x], B[x], map[], false);
    if !pages[x].LeafNode? {
      KidsPendingFrame(A, B, root, x, pages[x].pivots, pages[x].children, []);
    }
  }

  lemma NewPageOK(B: Labelling, root: PageId, pages': Pages, x: PageId, k: Chunk)
    requires x in pages' && x in B && x != root && pages'[x] == InnerNode([], k.pivots, k.children)
    requires B[x].height > 0 && B[x].msgs == map[] && |k.pivots| <= SIZES.innerN
    requires AllKids(B, root, x, k.pivots, k.children)
    ensures PageOK(pages', B, root, map[], x, [])
  {
    NothingPendingMeansKids(B, root, x, k.pivots, k.children);
    assert MapOf([]) == map[];
  }

  lemma NewRootOK(A: Labelling, B: Labelling, root: PageId, pages': Pages, ids: seq<PageId>, seps: seq<Key>)
    requires root in pages' && root in B && pages'[root] == RootNode(seps, ids)
    requires B[root].height > 0 && B[root].msgs == map[] && |seps| <= SIZES.rootN
    requires AllKids(B, root, root, seps, ids)
    ensures PageOK(pages', B, root, map[], root, [])
  {
    NothingPendingMeansKids(B, root, root, seps, ids);
  }

  lemma CutStored(pages: Pages, A: Labelling, root: PageId, B: Labelling, pages': Pages, ids: seq<PageId>, seps: seq<Key>, chunks: seq<Chunk>)
    requires Stored(pages, A, root, map[], root, []) && Consistent(B, root) && Regrown(A, root, B, set x | x in ids)
    requires A[root].msgs == map[] && A[root].height > 0
    requires CutPages(pages, root, pages', ids, chunks, seps)
    requires AllKids(B, root, root, seps, ids) && Done(B, root, ids, chunks)
    requires |seps| <= SIZES.rootN && forall k :: k in chunks ==> |k.pivots| <= SIZES.innerN
    ensures Stored(pages', B, root, map[], root, [])
  {
    hide Consistent, AllKids, PageOK;
    StoredKeys(pages, A, root, map[], root, []);
    forall x | x in pages' ensures PageOK(pages', B, root, map[], x, []) {
      if x == root {
        NewRootOK(A, B, root, pages', ids, seps);
      } else if x in ids {
        var j :| 0 <= j < |ids| && ids[j] == x;
        assert chunks[j] in chunks;
        NewPageOK(B, root, pages', x, chunks[j]);
      } else {
        StoredAt(pages, A, root, map[], root, [], x);
        OldPageOK(pages, A, root, B, (set y | y in ids), pages', x);
      }
    }
    hide *;
    CutKeys(pages, A, root, B, pages', ids, chunks, seps);
    StoredFrom(pages', B, root, map[], root, []);
  }

  lemma CutKeys(pages: Pages, A: Labelling, root: PageId, B: Labelling, pages': Pages, ids: seq<PageId>, chunks: seq<Chunk>, seps: seq<Key>)
    requires pages.Keys == A.Keys && Regrown(A, root, B, set x | x in ids) && CutPages(pages, root, pages', ids, chunks, seps)
    ensures pages'.Keys == B.Keys
  {
  }

  lemma RootIsHigh(n: Node, l: Label)
    requires n.RootNode? && ContentOK(n, l, map[], true)
    ensures l.msgs == map[] && l.height > 0 && |n.pivots| <= SIZES.rootN
  {
  }

  /** Splitting the root keeps the tree and its meaning, provided the cut drops nothing. */
  lemma RootCut(pages: Pages, A: Labelling, root: PageId, pages': Pages, ids: seq<PageId>, c: nat) returns (B: Labelling)
    requires Whole(pages, A, root) && root in pages && pages[root].RootNode? && c <= SIZES.innerN
    requires |pages[root].children| == |pages[root].pivots| + 1
    requires 0 < |pages[root].pivots| && |pages[root].pivots| % (c + 1) != 0
    requires forall x :: x in ids ==> x !in pages
    requires forall i, j :: 0 <= i < j < |ids| ==> ids[i] != ids[j]
    requires CutPages(pages, root, pages', ids, Chunks(pages[root].pivots, pages[root].children, c), Separators(pages[root].pivots, c))
    ensures Whole(pages', B, root) && root in A && root in B && B[root].view == A[root].view
  {
    hide *;
    WholeParts(pages, A, root);
    StoredKeys(pages, A, root, map[], root, []);
    StoredAt(pages, A, root, map[], root, [], root);
    PageOKParts(pages, A, root, map[], root, []);
    NothingPendingAt(map[], root);
    NodeKids(pages, A, root, map[], root);
    var n := pages[root];
    RootIsHigh(n, A[root]);
    var chunks, seps := Chunks(n.pivots, n.children, c), Separators(n.pivots, c);
    ChunksShape(n.pivots, n.children, c);
    CutPagesParts(pages, root, pages', ids, chunks, seps);
    B := CutAll(A, root, n.pivots, n.children, ids, c);
    CutStored(pages, A, root, B, pages', ids, seps, chunks);
    WholeFrom(pages', B, root);
  }

  lemma CutPagesParts(pages: Pages, root: PageId, pages': Pages, ids: seq<PageId>, chunks: seq<Chunk>, seps: seq<Key>)
    requires CutPages(pages, root, pages', ids, chunks, seps)
    ensures |ids| == |chunks|
  {
  }

  /** All cuts, one new page at a time. */
  lemma CutAll(A: Labelling, root: PageId, ps: seq<Key>, cs: seq<PageId>, ids: seq<PageId>, c: nat) returns (B: Labelling)
    requires Consistent(A, root) && root in A && A[root].msgs == map[] && A[root].height > 0
    requires |cs| == |ps| + 1 && AllKids(A, root, root, ps, cs) && ps != [] && |ps| % (c + 1) != 0
    requires forall x :: x in ids ==> x !in A
    requires forall i, j :: 0 <= i < j < |ids| ==> ids[i] != ids[j]
    requires |ids| == |Chunks(ps, cs, c)|
    ensures root in B && Consistent(B, root) && Regrown(A, root, B, set x | x in ids) && B[root].view == A[root].view
    ensures AllKids(B, root, root, Separators(ps, c), ids) && Done(B, root, ids, Chunks(ps, cs, c))
  {
    hide *;
    ChunksShape(ps, cs, c);
    CutStart(ps, cs, c);
    B := CuttingStart(A, root, ids[0], ps, cs);
    var i, chunks, seps := 0, [], [];
    assert ids[..1] == [ids[0]] && ps[0..] == ps && cs[0..] == cs;
    while i + c + 1 < |ps|
      invariant i < |ps| && (|ps| - i) % (c + 1) != 0
      invariant CutAt(ps, cs, c, i, chunks, seps) && |chunks| < |ids|
      invariant Cutting(A, root, B, ids[..|chunks| + 1], seps, chunks, ps[i..], cs[i..])
    {
      CutNext(ps, cs, c, i, chunks, seps);
      ModuloStep(|ps| - i, c + 1);
      var k := Chunk(ps[i..i + c], cs[i..i + c + 1]);
      var r := MoreIds(A, root, B, ps, cs, c, i, chunks, seps, ids);
      B := CuttingStep(A, root, B, ids[..|chunks| + 1], seps, chunks, ps[i..], cs[i..], c, r);
      SliceShift(ps, i, c);
      SliceShift(cs, i, c);
      assert ids[..|chunks| + 1] + [r] == ids[..|chunks| + 2];
      assert cs[i..][..c + 1] == cs[i..i + c + 1];
      i, chunks, seps := i + c + 1, chunks + [k], seps + [ps[i + c]];
    }
    CutLast(ps, cs, c, i, chunks, seps);
    LastWhole(|ps| - i, c);
    MinIs(c, |ps| - i);
    assert ids[..|chunks| + 1] == ids;
    var last := Chunk(ps[i..], cs[i..]);
    assert ps[i..|ps|] == ps[i..] && cs[i..|cs|] == cs[i..];
    CuttingParts(A, root, B, ids, seps, chunks, ps[i..], cs[i..]);
    DoneLast(B, root, ids, chunks, last);
  }

  lemma SliceShift<T>(s: seq<T>, i: nat, c: nat)
    requires i + c + 1 <= |s|
    ensures s[i..][c + 1..] == s[i + c + 1..] && s[i..][..c] == s[i..i + c] && s[i..][c] == s[i + c]
  {
  }

  lemma LastWhole(n: nat, c: nat)
    requires 0 < n <= c + 1 && n % (c + 1) != 0
    ensures n <= c
  {
  }

  lemma DoneLast(B: Labelling, root: PageId, ids: seq<PageId>, chunks: seq<Chunk>, last: Chunk)
    requires Done(B, root, ids, chunks) && |ids| == |chunks| + 1
    requires ids[|chunks|] in B && AllKids(B, root, ids[|chunks|], last.pivots, last.children)
    ensures Done(B, root, ids, chunks + [last])
  {
    hide AllKids;
  }

  lemma MoreIds(A: Labelling, root: PageId, B: Labelling, ps: seq<Key>, cs: seq<PageId>, c: nat, i: nat, chunks: seq<Chunk>, seps: seq<Key>, ids: seq<PageId>)
    returns (r: PageId)
    requires CutAt(ps, cs, c, i, chunks, seps) && i + c + 1 < |ps| && |chunks| < |ids| == |Chunks(ps, cs, c)|
    requires Cutting(A, root, B, ids[..|chunks| + 1], seps, chunks, ps[i..], cs[i..])
    requires forall x :: x in ids ==> x !in A
    requires forall i, j :: 0 <= i < j < |ids| ==> ids[i] != ids[j]
    ensures |chunks| + 1 < |ids| && r == ids[|chunks| + 1] && r !in B
  {
    CutNext(ps, cs, c, i, chunks, seps);
    hide Chunks, Separators, AllKids, Done, Consistent;
    r := ids[|chunks| + 1];
    var front := ids[..|chunks| + 1];
    RegrownKeys(A, root, B, set x | x in front);
    assert r in ids && r !in front;
  }
}
