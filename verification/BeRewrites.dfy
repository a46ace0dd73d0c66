/** How a new Bε-tree comes to lose a leaf: keys are inserted in ascending order until the leaf below
    the root that takes them is full, and the last of them is inserted again with its value. */
module BeRewrites {
  import opened Keys
  import opened Messages
  import opened Leaves
  import opened LeafFlush
  import opened Kids
  import opened InsertPivots
  import opened BeSizes
  import opened BeNodes
  import opened BePins
  import Median

  /** The root has a free pivot, and its child for the key is a leaf with room. */
  predicate LeafTakes(pages: Pages, root: PageId, k: Key) {
    root in pages && pages[root].RootNode? && |pages[root].pivots| < SIZES.rootN &&
    var c := ChildFor(pages[root].pivots, pages[root].children, k);
    c.Some? && c.value != root && c.value in pages && pages[c.value].LeafNode? &&
    |pages[c.value].leaf.keys| == |pages[c.value].leaf.values| && |pages[c.value].leaf.keys| < SIZES.leafN
  }

  /** The pages after that leaf has taken a message. */
  function LeafTaken(pages: Pages, root: PageId, u: Upsert): Pages
    requires LeafTakes(pages, root, u.key)
  {
    var c := ChildFor(pages[root].pivots, pages[root].children, u.key).value;
    pages[c := LeafNode(Upserted(pages[c].leaf, u))]
  }

  lemma LeafTakesIs(pages: Pages, root: PageId, u: Upsert)
    requires LeafTakes(pages, root, u.key)
    ensures root in pages && pages[root].RootNode? && |pages[root].pivots| < SIZES.rootN
    ensures var i := LowerBound(pages[root].pivots, u.key);
            i < |pages[root].children| &&
            var c := pages[root].children[i];
            c != root && c in pages && pages[c].LeafNode? &&
            |pages[c].leaf.keys| == |pages[c].leaf.values| && |pages[c].leaf.keys| < SIZES.leafN &&
            LeafTaken(pages, root, u) == pages[c := LeafNode(Upserted(pages[c].leaf, u))]
  {
  }

  /** A full lone leaf has split at the median for a new key: two leaves below a root node, of which
      the one that the key belongs to has taken it. */
  ghost predicate HalvesBelow(l: Leaf, u: Upsert, pages: Pages, root: PageId) {
    |l.keys| == |l.values| && root in pages && pages[root].RootNode? && |pages[root].pivots| == 1 && |pages[root].children| == 2 &&
    var mid, c, r := pages[root].pivots[0], pages[root].children[0], pages[root].children[1];
    c != r && c != root && r != root && c in pages && r in pages &&
    Median.HasRank(l.keys, [u.key], mid, (|l.keys| + 2) / 2) &&
    |SplitLeft(l, mid).keys| == |SplitLeft(l, mid).values| && |SplitRight(l, mid).keys| == |SplitRight(l, mid).values| &&
    pages[c] == LeafNode(if u.key <= mid then Upserted(SplitLeft(l, mid), u) else SplitLeft(l, mid)) &&
    pages[r] == LeafNode(if u.key <= mid then SplitRight(l, mid) else Upserted(SplitRight(l, mid), u))
  }

  /** What a message makes of a lone leaf: a full one splits for a new key, and only then. */
  ghost predicate LoneLeafTook(pages: Pages, root: PageId, u: Upsert, pages': Pages) {
    root in pages && pages[root].LeafNode? &&
    var l := pages[root].leaf;
    |l.keys| == |l.values| &&
    if u.kind.INSERT? && u.key !in l.keys && |l.keys| == SIZES.leafN
    then HalvesBelow(l, u, pages', root)
    else pages' == pages[root := LeafNode(Upserted(l, u))]
  }

  lemma LoneLeafTookIs(pages: Pages, root: PageId, u: Upsert, pages': Pages)
    requires root in pages && pages[root].LeafNode? && |pages[root].leaf.keys| == |pages[root].leaf.values|
    ensures u.kind.INSERT? && u.key !in pages[root].leaf.keys && |pages[root].leaf.keys| == SIZES.leafN ==>
              (LoneLeafTook(pages, root, u, pages') <==> HalvesBelow(pages[root].leaf, u, pages', root))
    ensures !(u.kind.INSERT? && u.key !in pages[root].leaf.keys && |pages[root].leaf.keys| == SIZES.leafN) ==>
              (LoneLeafTook(pages, root, u, pages') <==> pages' == pages[root := LeafNode(Upserted(pages[root].leaf, u))])
  {
    hide HalvesBelow, Upserted;
  }

  /** The halves below the new root, in the order in which they are made. */
  lemma HalvesAre(l: Leaf, u: Upsert, n: PageId, r: PageId, mid: Key, left: Leaf, right: Leaf, pages: Pages, root: PageId, pages': Pages)
    requires |l.keys| == |l.values| && Median.HasRank(l.keys, [u.key], mid, (|l.keys| + 2) / 2)
    requires left == SplitLeft(l, mid) && right == SplitRight(l, mid) && n != r && n != root && r != root
    requires root in pages && pages[root] == RootNode([mid], [n, r])
    requires n in pages && pages[n] == LeafNode(left) && r in pages && pages[r] == LeafNode(right)
    requires pages' == if u.key <= mid then pages[n := LeafNode(Upserted(left, u))] else pages[r := LeafNode(Upserted(right, u))]
    ensures HalvesBelow(l, u, pages', root)
  {
    hide Median.HasRank, Upserted;
  }

  /** A leaf whose last entry is `k` with `v`. */
  ghost predicate EndsWith(l: Leaf, k: Key, v: Value) {
    LeafOK(l) && 0 < |l.keys| <= SIZES.leafN && l.keys[|l.keys| - 1] == k && l.values[|l.keys| - 1] == v
  }

  /** The root is such a leaf. */
  ghost predicate EndsLone(pages: Pages, root: PageId, k: Key, v: Value) {
    root in pages && pages[root].LeafNode? && EndsWith(pages[root].leaf, k, v)
  }

  /** The right one of two leaves below the root is such a leaf. */
  ghost predicate EndsRight(pages: Pages, root: PageId, k: Key, v: Value) {
    root in pages && pages[root].RootNode? && |pages[root].pivots| == 1 && |pages[root].children| == 2 &&
    pages[root].pivots[0] < k &&
    var c := pages[root].children[1];
    c != root && c in pages && pages[c].LeafNode? && EndsWith(pages[c].leaf, k, v)
  }

  lemma TakenLast(l: Leaf, u: Upsert)
    requires LeafOK(l) && u.kind.INSERT? && (forall i :: 0 <= i < |l.keys| ==> l.keys[i] < u.key)
    ensures Upserted(l, u) == Leaf(l.keys + [u.key], l.values + [u.value])
    ensures |l.keys| < SIZES.leafN ==> EndsWith(Upserted(l, u), u.key, u.value)
  {
    assert LowerBound(l.keys, u.key) == |l.keys|;
    assert InsertAt(l.keys, |l.keys|, u.key) == l.keys + [u.key];
    assert InsertAt(l.values, |l.keys|, u.value) == l.values + [u.value];
  }

  lemma AllBelow(l: Leaf, k: Key, v: Value, u: Upsert)
    requires EndsWith(l, k, v) && k < u.key
    ensures forall i :: 0 <= i < |l.keys| ==> l.keys[i] < u.key
  {
  }

  /** The lone leaf takes the next key. */
  lemma LoneTakes(pages: Pages, root: PageId, k: Key, v: Value, u: Upsert)
    requires EndsLone(pages, root, k, v) && u.kind.INSERT? && k < u.key && |pages[root].leaf.keys| < SIZES.leafN
    ensures var pages' := pages[root := LeafNode(Upserted(pages[root].leaf, u))];
            EndsLone(pages', root, u.key, u.value) && |pages'[root].leaf.keys| == |pages[root].leaf.keys| + 1
  {
    AllBelow(pages[root].leaf, k, v, u);
    TakenLast(pages[root].leaf, u);
    hide EndsWith, Upserted;
  }

  /** The next key is above the median of a full leaf. */
  lemma MedianBelow(l: Leaf, k: Key, v: Value, u: Upsert, mid: Key)
    requires EndsWith(l, k, v) && k < u.key && |l.keys| == SIZES.leafN
    requires Median.HasRank(l.keys, [u.key], mid, (|l.keys| + 2) / 2)
    ensures mid < u.key
  {
    AllBelow(l, k, v, u);
    assert forall q :: q in l.keys || q in [u.key] ==> -1 < q <= u.key;
    assert 3 <= SIZES.leafN;
    MedianInside(l.keys, [u.key], mid, -1, u.key);
  }

  /** A full lone leaf gives the next key to its right half. */
  lemma RightHalfTakes(l: Leaf, k: Key, v: Value, u: Upsert, mid: Key)
    requires EndsWith(l, k, v) && k < u.key && u.kind.INSERT? && |l.keys| == SIZES.leafN
    requires Median.HasRank(l.keys, [u.key], mid, (|l.keys| + 2) / 2)
    ensures mid < u.key && LeafOK(SplitRight(l, mid)) && EndsWith(Upserted(SplitRight(l, mid), u), u.key, u.value)
  {
    MedianBelow(l, k, v, u, mid);
    AllBelow(l, k, v, u);
    SplitLeafSorted(l, mid);
    LeftGetsSome(l, u.key, mid);
    TakenLast(SplitRight(l, mid), u);
    hide EndsWith, Upserted, Median.HasRank, LeafOK, UpperBound;
  }

  /** The left half of a full leaf is not empty. */
  lemma LeftGetsSome(l: Leaf, k: Key, mid: Key)
    requires LeafOK(l) && |l.keys| == SIZES.leafN && Median.HasRank(l.keys, [k], mid, (|l.keys| + 2) / 2)
    ensures |SplitRight(l, mid).keys| < SIZES.leafN
  {
    assert 3 <= SIZES.leafN;
  }

  /** After the lone leaf has split for the next key, the right one of the two leaves ends with it. */
  lemma HalvesEnd(l: Leaf, k: Key, v: Value, u: Upsert, pages: Pages, root: PageId)
    requires EndsWith(l, k, v) && |l.keys| == SIZES.leafN && u.kind.INSERT? && k < u.key && HalvesBelow(l, u, pages, root)
    ensures EndsRight(pages, root, u.key, u.value)
  {
    RightHalfTakes(l, k, v, u, pages[root].pivots[0]);
    hide EndsWith, Upserted, Median.HasRank, SplitLeft, SplitRight, LeafOK;
  }

  /** The right leaf takes the next key while it has room. */
  lemma RightTakes(pages: Pages, root: PageId, k: Key, v: Value, u: Upsert)
    requires EndsRight(pages, root, k, v) && u.kind.INSERT? && k < u.key && 1 < SIZES.rootN
    requires |pages[pages[root].children[1]].leaf.keys| < SIZES.leafN
    ensures LeafTakes(pages, root, u.key) && EndsRight(LeafTaken(pages, root, u), root, u.key, u.value)
    ensures LeafTaken(pages, root, u)[root] == pages[root]
    ensures |LeafTaken(pages, root, u)[pages[root].children[1]].leaf.keys| == |pages[pages[root].children[1]].leaf.keys| + 1
  {
    var c := pages[root].children[1];
    assert LowerBound(pages[root].pivots, u.key) == 1;
    AllBelow(pages[c].leaf, k, v, u);
    TakenLast(pages[c].leaf, u);
    hide EndsWith, Upserted;
  }

  lemma KeysSuffice()
    ensures 3 <= SIZES.leafN && 2 * SIZES.leafN <= MAX_KEY
  {
  }

  lemma EndsLoneParts(pages: Pages, root: PageId, k: Key, v: Value)
    requires EndsLone(pages, root, k, v)
    ensures root in pages && pages[root].LeafNode? && |pages[root].leaf.keys| <= SIZES.leafN
  {
  }

  lemma EndsRightParts(pages: Pages, root: PageId, k: Key, v: Value)
    requires EndsRight(pages, root, k, v)
    ensures root in pages && pages[root].RootNode? && |pages[root].children| == 2
    ensures var c := pages[root].children[1]; c in pages && pages[c].LeafNode? && |pages[c].leaf.keys| <= SIZES.leafN
  {
  }

  /** Whatever the insertion of the next key makes of the pages, they end with it. */
  lemma EmptyEnds(pages: Pages, root: PageId, u: Upsert)
    requires root in pages && pages[root] == LeafNode(Leaf([], [])) && u.kind.INSERT?
    ensures !Forgets(pages, root, u)
    ensures forall pages': Pages :: LoneLeafTook(pages, root, u, pages') ==>
              EndsLone(pages', root, u.key, u.value) && |pages'[root].leaf.keys| == 1
  {
    assert 3 <= SIZES.leafN;
    TakenLast(Leaf([], []), u);
    hide HalvesBelow, Upserted;
  }

  lemma NextInLoneLeaf(pages: Pages, root: PageId, k: Key, v: Value, u: Upsert)
    requires EndsLone(pages, root, k, v) && u.kind.INSERT? && k < u.key && |pages[root].leaf.keys| < SIZES.leafN
    ensures !Forgets(pages, root, u)
    ensures forall pages': Pages :: LoneLeafTook(pages, root, u, pages') ==>
              EndsLone(pages', root, u.key, u.value) && |pages'[root].leaf.keys| == |pages[root].leaf.keys| + 1
  {
    LoneTakes(pages, root, k, v, u);
    hide HalvesBelow, Upserted, EndsWith;
  }

  lemma NextSplitsLoneLeaf(pages: Pages, root: PageId, k: Key, v: Value, u: Upsert)
    requires EndsLone(pages, root, k, v) && u.kind.INSERT? && k < u.key && |pages[root].leaf.keys| == SIZES.leafN
    ensures !Forgets(pages, root, u)
    ensures forall pages': Pages :: LoneLeafTook(pages, root, u, pages') ==> EndsRight(pages', root, u.key, u.value)
  {
    AllBelow(pages[root].leaf, k, v, u);
    forall pages': Pages | LoneLeafTook(pages, root, u, pages') ensures EndsRight(pages', root, u.key, u.value) {
      HalvesEnd(pages[root].leaf, k, v, u, pages', root);
    }
  }

  lemma NextInRightLeaf(pages: Pages, root: PageId, k: Key, v: Value, u: Upsert)
    requires EndsRight(pages, root, k, v) && u.kind.INSERT? && k < u.key && 1 < SIZES.rootN
    requires |pages[pages[root].children[1]].leaf.keys| < SIZES.leafN
    ensures !Forgets(pages, root, u) && LeafTakes(pages, root, u.key)
    ensures var c, pages' := pages[root].children[1], LeafTaken(pages, root, u);
            EndsRight(pages', root, u.key, u.value) && pages'[root] == pages[root] &&
            |pages'[c].leaf.keys| == |pages[c].leaf.keys| + 1
  {
    assert LowerBound(pages[root].pivots, u.key) == 1;
    RightTakes(pages, root, k, v, u);
    hide EndsWith, EndsRight, LeafTaken;
  }

  /** Inserting the last key of the full right leaf again splits the leaf and is forgotten. */
  lemma FullForgets(pages: Pages, root: PageId, u: Upsert)
    requires EndsRight(pages, root, u.key, u.value) && u.kind.INSERT? && 1 < SIZES.rootN
    requires |pages[pages[root].children[1]].leaf.keys| == SIZES.leafN
    ensures Forgets(pages, root, u) && LargestAtChild(pages, root, u.key)
  {
    var l := pages[pages[root].children[1]].leaf;
    assert LowerBound(pages[root].pivots, u.key) == 1;
    assert LowerBound(l.keys, u.key) == |l.keys| - 1 by {
      LowerBoundUnique(l.keys, u.key, |l.keys| - 1);
    }
  }
}
