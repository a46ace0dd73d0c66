/** The B-tree: an optimistic descent that gives up at a full leaf, and an exclusive retry that
    splits every full node on its way, so that it always completes. */
module BTrees {
  import opened Keys
  import opened Messages
  import opened Labels
  import opened Views
  import opened Leaves
  import opened LeafFlush
  import opened Kids
  import opened InsertPivots
  import opened PlainMap
  import opened BNodes
  import opened PinnedPages
  import opened BPins
  import opened BStructure

  // ---- what the pages say ---------------------------------------------------------------------

  /** What key `k` means from page `x` on down, through `h` levels of inner nodes. */
  function Meaning(pages: Pages, x: PageId, h: nat, k: Key): Option<Value>
    decreases h
  {
    if x !in pages then None
    else match pages[x]
      case LeafNode(l) => LeafLookup(l, k)
      case InnerNode(pivots, children) =>
        var c := ChildFor(pivots, children, k);
        if h == 0 || c.None? then None else Meaning(pages, c.value, h - 1, k)
  }

  lemma LeafSight(pages: Pages, A: Labelling, root: PageId, x: PageId, k: Key)
    requires Stored(pages, A, root, root, map[]) && x in pages && pages[x].LeafNode? && x in A && InRange(A[x], k)
    ensures A[x].height == 0 && A[x].view[k].value == LeafLookup(pages[x].leaf, k)
  {
    StoredParts(pages, A, root, root, map[]);
    LeafAt(pages, A, root, root, map[], x);
    PairsLookup(pages[x].leaf, k);
    assert Linked(A, root, x);
    hide Stored, Consistent, LeafOK, HoldsPairs;
  }

  lemma MeaningStep(pages: Pages, x: PageId, h: nat, k: Key)
    requires x in pages && pages[x].InnerNode? && h > 0 && LowerBound(pages[x].pivots, k) < |pages[x].children|
    ensures Meaning(pages, x, h, k) == Meaning(pages, pages[x].children[LowerBound(pages[x].pivots, k)], h - 1, k)
  {
  }

  lemma NoMessage(A: Labelling, root: PageId, x: PageId, k: Key, v: Option<Value>)
    requires OnlyAt(A, root, map[]) && x in A
    ensures ActOn(A[x].msgs, k, v) == v
  {
  }

  /** Between two operations, what a label sees of a key is what the pages say. */
  lemma {:induction false} MeaningIsView(pages: Pages, A: Labelling, root: PageId, x: PageId, k: Key)
    requires Stored(pages, A, root, root, map[]) && x in pages && x in A && InRange(A[x], k)
    ensures k in A[x].view && Meaning(pages, x, A[x].height, k) == A[x].view[k].value
    decreases A[x].height
  {
    TotalViews();
    hide *;
    StoredParts(pages, A, root, root, map[]);
    if pages[x].LeafNode? {
      LeafSight(pages, A, root, x, k);
      LeafMeaning(pages, x, A[x].height, k);
    } else {
      RoutedChild(pages, A, root, root, map[], x, k);
      InnerAt(pages, A, root, root, map[], x);
      var c := pages[x].children[LowerBound(pages[x].pivots, k)];
      MeaningIsView(pages, A, root, c, k);
      MeaningStep(pages, x, A[x].height, k);
      NoMessage(A, root, x, k, A[c].view[k].value);
    }
  }

  lemma LeafMeaning(pages: Pages, x: PageId, h: nat, k: Key)
    requires x in pages && pages[x].LeafNode?
    ensures Meaning(pages, x, h, k) == LeafLookup(pages[x].leaf, k)
  {
  }

  /** The leaf a key is routed to from page `x` on down is full. */
  predicate LeadsToFullLeaf(pages: Pages, x: PageId, h: nat, k: Key)
    decreases h
  {
    x in pages &&
    match pages[x]
    case LeafNode(leaf) => |leaf.keys| == SIZES.leafN
    case InnerNode(pivots, children) =>
      h > 0 && LowerBound(pivots, k) < |children| && LeadsToFullLeaf(pages, children[LowerBound(pivots, k)], h - 1, k)
  }

  lemma FullLeafStep(pages: Pages, x: PageId, h: nat, k: Key)
    requires x in pages && pages[x].InnerNode? && h > 0 && LowerBound(pages[x].pivots, k) < |pages[x].children|
    ensures LeadsToFullLeaf(pages, x, h, k) == LeadsToFullLeaf(pages, pages[x].children[LowerBound(pages[x].pivots, k)], h - 1, k)
  {
  }

  lemma FullLeafAt(pages: Pages, x: PageId, h: nat, k: Key)
    requires x in pages && pages[x].LeafNode?
    ensures LeadsToFullLeaf(pages, x, h, k) <==> |pages[x].leaf.keys| == SIZES.leafN
  {
  }

  // ---- the class ------------------------------------------------------------------------------

  class BTree {
    var pages: Pages
    var rootID: PageId
    var leafRoot: bool
    var pins: Pins<Node>
    ghost var labels: Labelling
    ghost var clock: nat

    /** Between operations nothing is pinned. */
    ghost predicate Valid()
      reads this
    {
      && pins.held == {}
      && Stored(pages, labels, rootID, rootID, map[])
      && rootID in pages && rootID in labels
      && (leafRoot <==> pages[rootID].LeafNode?)
      && (forall k: Key :: labels[rootID].view[k].newest <= clock)
    }

    /** What the tree says of a key. */
    ghost function Denotes(k: Key): Option<Value>
      requires Valid()
      reads this
    {
      Meaning(pages, rootID, labels[rootID].height, k)
    }

    /** The page buffer keeps every page as it is, whatever it evicts. */
    ghost predicate Durable()
      reads this
    {
      pins.kept == pages
    }

    /** The map the tree denotes. */
    ghost predicate Represents(m: map<Key, Value>)
      requires Valid()
      reads this
    {
      forall k: Key :: Denotes(k) == Get(m, k)
    }

    lemma DenotesView(k: Key)
      requires Valid()
      ensures Denotes(k) == labels[rootID].view[k].value
    {
      MeaningIsView(pages, labels, rootID, rootID, k);
    }

    lemma ValidParts()
      requires Valid()
      ensures pins.held == {} && (Durable() <==> pins.kept == pages)
      ensures Stored(pages, labels, rootID, rootID, map[]) && rootID in pages && rootID in labels
      ensures leafRoot <==> pages[rootID].LeafNode?
      ensures forall k: Key :: labels[rootID].view[k].newest <= clock
      ensures forall k: Key :: Denotes(k) == labels[rootID].view[k].value
    {
      hide Stored, Meaning;
      forall k: Key ensures Denotes(k) == labels[rootID].view[k].value { DenotesView(k); }
    }

    lemma ValidFrom()
      requires pins.held == {}
      requires Stored(pages, labels, rootID, rootID, map[]) && rootID in pages && rootID in labels
      requires leafRoot <==> pages[rootID].LeafNode?
      requires forall k: Key :: labels[rootID].view[k].newest <= clock
      ensures Valid()
    {
      hide Stored;
    }

    /** Every valid tree is well shaped: sorted and bounded nodes, all leaves equally deep, every child
        between its pivots, and no page listed twice. */
    lemma StructureHolds()
      requires Valid()
      ensures WellShaped(pages, rootID, labels[rootID].height, -1, MAX_KEY)
      ensures forall x, i, y, j, c :: ChildAt(pages, x, i, c) && ChildAt(pages, y, j, c) ==> x == y && i == j && c != rootID
    {
      RootRange(pages, labels, rootID, 0);
      ShapeHolds(pages, labels, rootID, rootID);
      hide Stored, WellShaped, ChildAt;
      forall x, i, y, j, c | ChildAt(pages, x, i, c) && ChildAt(pages, y, j, c) ensures x == y && i == j && c != rootID {
        OneParent(pages, labels, rootID, x, i, y, j, c);
      }
    }

    /** splitLeafNode: the left leaf keeps the middle key. */
    method SplitLeafNode(c: PageId) returns (rightPage: PageId, resultKey: Key)
      requires c in pages && pages[c].LeafNode? && LeafOK(pages[c].leaf) && |pages[c].leaf.keys| >= 2
      requires |pages[c].leaf.keys| == |pages[c].leaf.values| && pins.held <= pages.Keys
      modifies `pages, `pins
      ensures rightPage !in old(pages) && rightPage !in old(pins).held && pins == old(pins).Pin(rightPage)
      ensures var l := old(pages[c]).leaf;
              resultKey == l.keys[SplitIndex(|l.keys|)] && |SplitLeft(l, resultKey).keys| == SplitIndex(|l.keys|) + 1 &&
              |SplitRight(l, resultKey).keys| == |l.keys| / 2 &&
              pages == old(pages)[c := LeafNode(SplitLeft(l, resultKey))][rightPage := LeafNode(SplitRight(l, resultKey))]
    {
      var l := pages[c].leaf;
      var splitIndex := (|l.keys| - 1) / 2;
      resultKey := l.keys[splitIndex];
      MiddleKey(l);
      rightPage := CreatePage(pages.Keys);
      pins := pins.Pin(rightPage);
      var rightSize := |l.keys| / 2;
      var leftSize := |l.keys| - rightSize;
      assert leftSize == splitIndex + 1;
      hide LeafOK, UpperBound;
      pages := pages[rightPage := LeafNode(Leaf(l.keys[splitIndex + 1..], l.values[splitIndex + 1..]))];
      pages := pages[c := LeafNode(Leaf(l.keys[..leftSize], l.values[..leftSize]))];
      assert pages == old(pages)[c := pages[c]][rightPage := pages[rightPage]];
    }

    /** splitInnerNode: the middle pivot moves up. */
    method SplitInnerNode(c: PageId) returns (rightPage: PageId, resultKey: Key)
      requires c in pages && pages[c].InnerNode? && |pages[c].pivots| >= 2 && |pages[c].children| == |pages[c].pivots| + 1
      requires pins.held <= pages.Keys
      modifies `pages, `pins
      ensures rightPage !in old(pages) && rightPage !in old(pins).held && pins == old(pins).Pin(rightPage)
      ensures var n, at := old(pages[c]), SplitIndex(|old(pages[c]).pivots|);
              resultKey == n.pivots[at] &&
              pages == old(pages)[c := InnerNode(n.pivots[..at], n.children[..at + 1])]
                                 [rightPage := InnerNode(n.pivots[at + 1..], n.children[at + 1..])]
      ensures |pages[rightPage].pivots| == |old(pages[c]).pivots| / 2 && |pages[c].pivots| == (|old(pages[c]).pivots| - 1) / 2
    {
      var n := pages[c];
      var size := |n.pivots|;
      var splitIndex := (size - 1) / 2;
      resultKey := n.pivots[splitIndex];
      rightPage := CreatePage(pages.Keys);
      pins := pins.Pin(rightPage);
      var rightSize := size / 2;
      var leftSize := size - rightSize - 1;
      assert leftSize == splitIndex;
      pages := pages[rightPage := InnerNode(n.pivots[splitIndex + 1..], n.children[splitIndex + 1..])];
      pages := pages[c := InnerNode(n.pivots[..leftSize], n.children[..leftSize + 1])];
      assert pages == old(pages)[c := pages[c]][rightPage := pages[rightPage]];
    }

    /** Of two halves the one that the key belongs to stays pinned, the other is released as dirty. */
    method ReleaseOther(key: Key, middleKey: Key, left: PageId, right: PageId) returns (targetPage: PageId)
      requires left in pages && right in pages && left != right && left in pins.held && right in pins.held
      modifies `pins
      ensures targetPage == if key <= middleKey then left else right
      ensures var other := if key <= middleKey then right else left;
              pins.held == old(pins.held) - {other} && pins.kept == old(pins.kept)[other := pages[other]]
    {
      if key <= middleKey {
        pins := pins.Unpin(right, pages[right], true);
        return left;
      }
      pins := pins.Unpin(left, pages[left], true);
      return right;
    }

    /** A full leaf splits below its parent. Parent and the half that does not get the key are released
        as dirty; the position found before is adjusted to the half that does. */
    method SplitFullLeaf(key: Key, parentPage: PageId, pivotIndex: nat, childID: PageId, keyIt: nat,
                         ghost dirtyParent: bool, ghost u: Upsert) returns (targetPage: PageId, keyIndex: nat)
      requires Stored(pages, labels, rootID, parentPage, Single(u)) && u.key == key
      requires parentPage in pages && pages[parentPage].InnerNode? && rootID in pages && pages[rootID].InnerNode?
      requires |pages[parentPage].children| == |pages[parentPage].pivots| + 1 && pivotIndex < |pages[parentPage].children|
      requires childID == pages[parentPage].children[pivotIndex] && |pages[parentPage].pivots| < SIZES.innerN
      requires forall j :: 0 <= j < |pages[parentPage].children| && pages[parentPage].children[j] == childID ==> j == pivotIndex
      requires childID in pages && childID in labels && childID != rootID && childID != parentPage && pages[childID].LeafNode?
      requires parentPage in labels && labels[childID].parent == parentPage && InRange(labels[childID], key)
      requires LeafOK(pages[childID].leaf) && |pages[childID].leaf.keys| == |pages[childID].leaf.values| == SIZES.leafN
      requires keyIt == LowerBound(pages[childID].leaf.keys, key) && pins.held == {parentPage, childID}
      modifies `pages, `labels, `pins
      ensures Stored(pages, labels, rootID, parentPage, Single(u)) && rootID in pages && pages[rootID].InnerNode?
      ensures rootID in old(labels) && rootID in labels && labels[rootID].view == old(labels[rootID].view)
      ensures targetPage in labels && parentPage in labels && targetPage != rootID && targetPage != parentPage
      ensures labels[targetPage].parent == parentPage && InRange(labels[targetPage], key)
      ensures targetPage in pages && pages[targetPage].LeafNode? && |pages[targetPage].leaf.keys| < SIZES.leafN
      ensures StaleAt(old(pages)[childID].leaf, pages[targetPage].leaf, key, keyIt, keyIndex)
      ensures OnlyFullSplit(old(pages), pages) && SameBut(old(pages), pages, {parentPage, childID})
      ensures (targetPage == childID || targetPage !in old(pages)) && old(pages).Keys <= pages.Keys
      ensures pins.held == {targetPage} && Sparing(old(pages), old(pins.kept), pages, pins.kept, {})
      ensures targetPage == childID ==>
                var before, now := old(pages)[childID].leaf, pages[childID].leaf;
                var last := before.keys[|before.keys| - 1];
                last !in now.keys && key != last && |now.keys| < |before.keys|
      ensures old(KeptBut(pages, pins.kept, if dirtyParent then {parentPage} else {})) ==> KeptBut(pages, pins.kept, {targetPage})
    {
      hide *;
      ghost var A, pages0 := labels, pages;
      Sizes();
      var leafNode := pages[childID].leaf;
      assert parentPage in pages && childID in pages && pins.held <= pages.Keys;
      var rightPage, middleKey := SplitLeafNode(childID);
      var parentNode := pages[parentPage];
      pages := pages[parentPage := InnerNode(InsertAt(parentNode.pivots, pivotIndex, middleKey),
                                             InsertAt(parentNode.children, pivotIndex + 1, rightPage))];
      StoredNames(pages0, A, rootID, parentPage, Single(u));
      labels := SplitLeafChild(pages0, labels, rootID, parentPage, Single(u), pivotIndex, childID, rightPage);
      HalfRange(A, childID, rightPage, middleKey, key);
      SplitPagesAre(pages0, parentPage, pivotIndex, childID, rightPage, middleKey,
                    LeafNode(SplitLeft(leafNode, middleKey)), LeafNode(SplitRight(leafNode, middleKey)), pages);
      assert OnlyFullSplit(pages0, pages) && SameBut(pages0, pages, {parentPage, childID}) by {
        FullIs(pages0[childID]);
        SplitBelowParent(pages0, parentPage, pivotIndex, childID, rightPage, middleKey, pages);
      }
      StaleHalves(leafNode, key, middleKey);
      HalfSmaller(SIZES.leafN);
      pins := pins.Unpin(parentPage, pages[parentPage], true);
      keyIndex := if key <= middleKey then keyIt else keyIt - |pages[childID].leaf.keys|;
      targetPage := ReleaseOther(key, middleKey, childID, rightPage);
      assert Sparing(pages0, old(pins.kept), pages, pins.kept, {}) by {
        SplitSizes(pages0, parentPage, pivotIndex, childID, rightPage, middleKey, pages);
        SplitMarks(pages0, old(pins.kept), parentPage, childID, rightPage, if key <= middleKey then rightPage else childID, pages);
      }
      LargestMoves(leafNode, middleKey);
      assert old(KeptBut(pages, pins.kept, if dirtyParent then {parentPage} else {})) ==> KeptBut(pages, pins.kept, {targetPage}) by {
        SplitBelow(pages0, old(pins.kept), parentPage, dirtyParent, childID, rightPage, key <= middleKey, pages);
      }
    }

    /** The leaf case of insertTraversal. The found key is read through an iterator into the leaf
        as it was before the split, which still shows the key that has moved. */
    method InsertIntoLeaf(key: Key, value: Value, parentPage: PageId, pivotIndex: nat, childID: PageId,
                          dirtyParent: bool, exclusiveMode: bool, ghost u: Upsert) returns (success: bool)
      requires Stored(pages, labels, rootID, parentPage, Single(u)) && u.key == key && u.value == value && u.kind.INSERT?
      requires parentPage in pages && pages[parentPage].InnerNode? && rootID in pages && pages[rootID].InnerNode?
      requires |pages[parentPage].children| == |pages[parentPage].pivots| + 1 && pivotIndex < |pages[parentPage].children|
      requires childID == pages[parentPage].children[pivotIndex]
      requires forall j :: 0 <= j < |pages[parentPage].children| && pages[parentPage].children[j] == childID ==> j == pivotIndex
      requires childID in pages && childID in labels && childID != rootID && childID != parentPage
      requires labels[childID].parent == parentPage && InRange(labels[childID], key) && pages[childID].LeafNode?
      requires exclusiveMode ==> |pages[parentPage].pivots| < SIZES.innerN
      requires pins.held == (if exclusiveMode then {parentPage, childID} else {childID}) && (dirtyParent ==> exclusiveMode)
      modifies `pages, `labels, `pins
      ensures success <==> exclusiveMode || old(|pages[childID].leaf.keys|) != SIZES.leafN
      ensures !success ==> pages == old(pages) && pins.kept == old(pins.kept)
      ensures pins.held == {} && Sparing(old(pages), old(pins.kept), pages, pins.kept, if dirtyParent then {parentPage} else {})
      ensures success && old(KeptBut(pages, pins.kept, if dirtyParent then {parentPage} else {})) ==> pins.kept == pages
      ensures OnlyFullSplit(old(pages), pages) && SameBut(old(pages), pages, {parentPage, childID})
      ensures success ==> Stored(pages, labels, rootID, rootID, map[]) && rootID in pages && pages[rootID].InnerNode?
      ensures rootID in old(labels) && (success ==> rootID in labels && labels[rootID].view == old(labels[rootID].view))
    {
      hide *;
      ghost var A := labels;
      StoredParts(pages, labels, rootID, parentPage, Single(u));
      LeafAt(pages, labels, rootID, parentPage, Single(u), childID);
      Sizes();
      var targetPage := childID;
      var leafNode := pages[childID].leaf;
      var keyIt := LowerBound(leafNode.keys, key);
      var keyIndex := keyIt;
      StalePosition(leafNode, leafNode, key, keyIt, keyIndex);
      var split := false;
      NothingChanged(pages, {parentPage, childID});
      ghost var free := if dirtyParent then {parentPage} else {};
      assert Sparing(pages, pins.kept, pages, pins.kept, free) by { NothingMarked(pages, pins.kept, free); }
      if |leafNode.keys| == SIZES.leafN {
        if !exclusiveMode {
          pins := pins.Unpin(childID, pages[childID], false);
          return false;
        }
        targetPage, keyIndex := SplitFullLeaf(key, parentPage, pivotIndex, childID, keyIt, dirtyParent, u);
        split := true;
        assert Sparing(old(pages), old(pins.kept), pages, pins.kept, free) by {
          SparingFree(old(pages), old(pins.kept), pages, pins.kept, {}, free);
        }
      } else if exclusiveMode {
        assert Sparing(pages, pins.kept, pages, if dirtyParent then pins.kept[parentPage := pages[parentPage]] else pins.kept, free) by {
          ParentMarked(pages, pins.kept, parentPage, dirtyParent);
        }
        pins := pins.Unpin(parentPage, pages[parentPage], dirtyParent);
        assert old(KeptBut(pages, pins.kept, if dirtyParent then {parentPage} else {})) ==> KeptBut(pages, pins.kept, {}) by {
          ParentReleased(pages, old(pins.kept), parentPage, dirtyParent);
        }
      }
      labels := Descend(pages, labels, rootID, parentPage, targetPage, u);
      ghost var pages0, pages1, kept1 := old(pages), pages, pins.kept;
      LeafAt(pages, labels, rootID, targetPage, Single(u), targetPage);
      assert targetPage in pages0 ==> pages1[targetPage] == pages0[targetPage] || Full(pages0[targetPage]) by { FullIs(pages0[childID]); }
      InsertAtPosition(key, value, targetPage, leafNode, keyIt, keyIndex, split, u);
      assert OnlyFullSplit(pages0, pages) && SameBut(pages0, pages, {parentPage, childID}) by {
        UpsertedGrows(pages1[targetPage].leaf, u);
        LeafGrows(pages0, pages1, {parentPage, childID}, targetPage, Upserted(pages1[targetPage].leaf, u), pages);
        SameButOld(pages0, pages, {parentPage, childID} + {targetPage}, {parentPage, childID});
      }
      assert Sparing(pages0, old(pins.kept), pages, pins.kept, free) by {
        LeafDone(pages0, old(pins.kept), free, pages1, kept1, childID, targetPage, split, u, pages, pins.kept);
      }
      return true;
    }

    /** The leaf takes the key at its position. It is released as clean only if it has the key with this
        value already and has not just split. */
    method InsertAtPosition(key: Key, value: Value, targetPage: PageId, leafNode: Leaf, keyIt: nat, keyIndex: nat, split: bool, ghost u: Upsert)
      requires Stored(pages, labels, rootID, targetPage, Single(u)) && u.key == key && u.value == value && u.kind.INSERT?
      requires targetPage in pages && pages[targetPage].LeafNode? && |pages[targetPage].leaf.keys| < SIZES.leafN
      requires rootID in pages && pages[rootID].InnerNode? && StaleAt(leafNode, pages[targetPage].leaf, key, keyIt, keyIndex)
      requires pins.held == {targetPage}
      modifies `pages, `labels, `pins
      ensures Stored(pages, labels, rootID, rootID, map[]) && rootID in pages && pages[rootID].InnerNode?
      ensures rootID in old(labels) && rootID in labels && labels[rootID].view == old(labels[rootID].view)
      ensures pages == old(pages)[targetPage := LeafNode(Upserted(old(pages)[targetPage].leaf, u))]
      ensures pins.kept ==
                if split || LeafLookup(old(pages)[targetPage].leaf, key) != Some(value) then old(pins.kept)[targetPage := pages[targetPage]]
                else old(pins.kept)
      ensures pins.held == {} && (old(KeptBut(pages, pins.kept, if split then {targetPage} else {})) ==> pins.kept == pages)
    {
      hide *;
      StaleAtIs(leafNode, pages[targetPage].leaf, key, keyIt, keyIndex);
      LeafAt(pages, labels, rootID, targetPage, Single(u), targetPage);
      var target := pages[targetPage].leaf;
      UpsertedSize(target, u);
      InsertIs(target, u);
      LookupIs(target, key);
      var dirty := true;
      var changed := target;
      if keyIndex < |target.keys| && leafNode.keys[keyIt] == key {
        if target.values[keyIndex] == value {
          assert target.values[keyIndex := value] == target.values;
          dirty := split;
        } else {
          changed := target.(values := target.values[keyIndex := value]);
        }
      } else {
        changed := Leaf(InsertAt(target.keys, keyIndex, key), InsertAt(target.values, keyIndex, value));
      }
      assert changed == Upserted(target, u);
      KeptMore(pages, pins.kept, if split then {targetPage} else {}, if dirty then {targetPage} else {});
      SetLeaf(targetPage, changed, dirty, u);
    }

    /** A full inner node splits; the separator and the right half go to the parent. */
    method SplitBelowInner(parentPage: PageId, pivotIndex: nat, childID: PageId, ghost u: Upsert) returns (rightPage: PageId, middleKey: Key)
      requires Stored(pages, labels, rootID, parentPage, Single(u))
      requires parentPage in pages && pages[parentPage].InnerNode? && rootID in pages && pages[rootID].InnerNode?
      requires |pages[parentPage].children| == |pages[parentPage].pivots| + 1 && pivotIndex < |pages[parentPage].children|
      requires childID == pages[parentPage].children[pivotIndex] && |pages[parentPage].pivots| < SIZES.innerN
      requires forall j :: 0 <= j < |pages[parentPage].children| && pages[parentPage].children[j] == childID ==> j == pivotIndex
      requires childID in pages && childID in labels && childID != rootID && childID != parentPage && pages[childID].InnerNode?
      requires parentPage in labels && labels[childID].parent == parentPage
      requires |pages[childID].pivots| == SIZES.innerN && |pages[childID].children| == |pages[childID].pivots| + 1
      requires pins.held == {parentPage, childID}
      modifies `pages, `labels, `pins
      ensures Stored(pages, labels, rootID, parentPage, Single(u)) && rootID in pages && pages[rootID].InnerNode?
      ensures rootID in old(labels) && rootID in labels && labels[rootID].view == old(labels[rootID].view)
      ensures rightPage !in old(pages) && rightPage !in old(labels) && labels == Split(old(labels), childID, rightPage, middleKey)
      ensures pages.Keys == old(pages).Keys + {rightPage} && OnlyFullSplit(old(pages), pages)
      ensures forall x :: x in old(pages) && x != parentPage && x != childID ==> pages[x] == old(pages)[x]
      ensures forall x :: x in {childID, rightPage} ==> pages[x].InnerNode? && |pages[x].pivots| < SIZES.innerN
      ensures Size(pages[parentPage]) == Size(old(pages)[parentPage]) + 1 && Size(pages[childID]) + 1 < Size(old(pages)[childID])
      ensures pins == old(pins).Pin(rightPage)
    {
      hide *;
      ghost var A, pages0 := labels, pages;
      Sizes();
      var innerNode := pages[childID];
      assert parentPage in pages && childID in pages && pins.held <= pages.Keys;
      rightPage, middleKey := SplitInnerNode(childID);
      var parentNode := pages[parentPage];
      pages := pages[parentPage := InnerNode(InsertAt(parentNode.pivots, pivotIndex, middleKey),
                                             InsertAt(parentNode.children, pivotIndex + 1, rightPage))];
      ghost var at := SplitIndex(|innerNode.pivots|);
      SplitIndexInside(|innerNode.pivots|);
      StoredNames(pages0, A, rootID, parentPage, Single(u));
      labels := SplitInnerChild(pages0, labels, rootID, parentPage, Single(u), pivotIndex, childID, rightPage, at);
      SplitPagesAre(pages0, parentPage, pivotIndex, childID, rightPage, middleKey,
                    InnerNode(innerNode.pivots[..at], innerNode.children[..at + 1]),
                    InnerNode(innerNode.pivots[at + 1..], innerNode.children[at + 1..]), pages);
      SplitSizes(pages0, parentPage, pivotIndex, childID, rightPage, middleKey, pages);
      assert OnlyFullSplit(pages0, pages) by {
        FullIs(pages0[childID]);
        SplitBelowParent(pages0, parentPage, pivotIndex, childID, rightPage, middleKey, pages);
      }
    }

    /** A full inner node splits below its parent before the descent enters it; parent and the half
        that is not entered are released as dirty. */
    method SplitFullInner(key: Key, parentPage: PageId, pivotIndex: nat, childID: PageId, ghost dirtyParent: bool, ghost u: Upsert)
      returns (targetPage: PageId)
      requires Stored(pages, labels, rootID, parentPage, Single(u)) && u.key == key
      requires parentPage in pages && pages[parentPage].InnerNode? && rootID in pages && pages[rootID].InnerNode?
      requires |pages[parentPage].children| == |pages[parentPage].pivots| + 1 && pivotIndex < |pages[parentPage].children|
      requires childID == pages[parentPage].children[pivotIndex] && |pages[parentPage].pivots| < SIZES.innerN
      requires forall j :: 0 <= j < |pages[parentPage].children| && pages[parentPage].children[j] == childID ==> j == pivotIndex
      requires childID in pages && childID in labels && childID != rootID && childID != parentPage && pages[childID].InnerNode?
      requires parentPage in labels && labels[childID].parent == parentPage && InRange(labels[childID], key)
      requires |pages[childID].pivots| == SIZES.innerN && |pages[childID].children| == |pages[childID].pivots| + 1
      requires pins.held == {parentPage, childID}
      modifies `pages, `labels, `pins
      ensures Stored(pages, labels, rootID, parentPage, Single(u)) && rootID in pages && pages[rootID].InnerNode?
      ensures rootID in old(labels) && rootID in labels && labels[rootID].view == old(labels[rootID].view)
      ensures targetPage in labels && parentPage in labels && targetPage != rootID && targetPage != parentPage
      ensures labels[targetPage].parent == parentPage && InRange(labels[targetPage], key)
      ensures labels[targetPage].height == old(labels)[childID].height
      ensures forall x :: x in old(labels) ==> x in labels && labels[x].height == old(labels)[x].height
      ensures OnlyFullSplit(old(pages), pages) && SameBut(old(pages), pages, {parentPage, childID})
      ensures targetPage in pages && pages[targetPage].InnerNode? && |pages[targetPage].pivots| < SIZES.innerN
      ensures pins.held == {targetPage} && Sparing(old(pages), old(pins.kept), pages, pins.kept, {})
      ensures parentPage in pages && Size(pages[parentPage]) == Size(old(pages)[parentPage]) + 1
      ensures childID in pages && Size(pages[childID]) + 1 < Size(old(pages)[childID]) && (targetPage == childID || targetPage !in old(pages))
      ensures old(KeptBut(pages, pins.kept, if dirtyParent then {parentPage} else {})) ==> KeptBut(pages, pins.kept, {targetPage})
    {
      hide *;
      ghost var A, pages0 := labels, pages;
      assert parentPage in pages && childID in pages && pins.held <= pages.Keys;
      var rightPage, middleKey := SplitBelowInner(parentPage, pivotIndex, childID, u);
      SplitHeights(A, childID, rightPage, middleKey);
      HalfRange(A, childID, rightPage, middleKey, key);
      assert SameBut(pages0, pages, {parentPage, childID}) by { OthersSame(pages0, parentPage, childID, pages); }
      pins := pins.Unpin(parentPage, pages[parentPage], true);
      targetPage := ReleaseOther(key, middleKey, childID, rightPage);
      assert Sparing(pages0, old(pins.kept), pages, pins.kept, {}) by {
        SplitMarks(pages0, old(pins.kept), parentPage, childID, rightPage, if key <= middleKey then rightPage else childID, pages);
      }
      assert old(KeptBut(pages, pins.kept, if dirtyParent then {parentPage} else {})) ==> KeptBut(pages, pins.kept, {targetPage}) by {
        SplitBelow(pages0, old(pins.kept), parentPage, dirtyParent, childID, rightPage, key <= middleKey, pages);
      }
    }

    /** insertTraversal: an attempt without exclusive access gives up, changing nothing, exactly if
        the key's leaf is full. */
    method InsertTraversal(key: Key, value: Value, parentPage: PageId, dirtyParent: bool, exclusiveMode: bool, ghost u: Upsert) returns (success: bool)
      requires Stored(pages, labels, rootID, parentPage, Single(u)) && u.key == key && u.value == value && u.kind.INSERT?
      requires parentPage in pages && pages[parentPage].InnerNode? && rootID in pages && pages[rootID].InnerNode?
      requires parentPage in labels && InRange(labels[parentPage], key)
      requires exclusiveMode ==> |pages[parentPage].pivots| < SIZES.innerN
      requires pins.held == (if exclusiveMode then {parentPage} else {}) && (dirtyParent ==> exclusiveMode)
      modifies `pages, `labels, `pins
      ensures success <==> exclusiveMode || !old(LeadsToFullLeaf(pages, parentPage, labels[parentPage].height, key))
      ensures !success ==> pages == old(pages) && pins.kept == old(pins.kept)
      ensures pins.held == {} && Sparing(old(pages), old(pins.kept), pages, pins.kept, if dirtyParent then {parentPage} else {})
      ensures success && old(KeptBut(pages, pins.kept, if dirtyParent then {parentPage} else {})) ==> pins.kept == pages
      ensures OnlyFullSplit(old(pages), pages) && AboveSame(old(pages), old(labels), old(labels[parentPage].height), pages)
      ensures success ==> Stored(pages, labels, rootID, rootID, map[]) && rootID in pages && pages[rootID].InnerNode?
      ensures rootID in old(labels) && (success ==> rootID in labels && labels[rootID].view == old(labels[rootID].view))
      decreases labels[parentPage].height
    {
      hide *;
      ghost var A := labels;
      StoredParts(pages, labels, rootID, parentPage, Single(u));
      RoutedChild(pages, labels, rootID, parentPage, Single(u), parentPage, key);
      FullLeafStep(pages, parentPage, labels[parentPage].height, key);
      var parentNode := pages[parentPage];
      var pivotIndex := LowerBound(parentNode.pivots, key);
      var childID := parentNode.children[pivotIndex];
      if pages[childID].LeafNode? {
        FullLeafAt(pages, childID, labels[parentPage].height - 1, key);
        pins := pins.Pin(childID);
        ghost var pages0 := pages;
        success := InsertIntoLeaf(key, value, parentPage, pivotIndex, childID, dirtyParent, exclusiveMode, u);
        AboveFrom(pages0, A, parentPage, childID, pages);
        return;
      }
      if exclusiveMode {
        pins := pins.Pin(childID);
      }
      var split := false;
      ghost var kept := KeptBut(pages, pins.kept, if dirtyParent then {parentPage} else {});
      InnerAt(pages, labels, rootID, parentPage, Single(u), childID);
      var innerNode := pages[childID];
      var targetPage := childID;
      if |innerNode.pivots| == SIZES.innerN && exclusiveMode {
        targetPage := SplitFullInner(key, parentPage, pivotIndex, childID, dirtyParent, u);
        split := true;
      } else if exclusiveMode {
        pins := pins.Unpin(parentPage, pages[parentPage], dirtyParent);
        assert kept ==> KeptBut(pages, pins.kept, {}) by { ParentReleased(pages, old(pins.kept), parentPage, dirtyParent); }
      }
      ghost var A1 := labels;
      labels := Descend(pages, labels, rootID, parentPage, targetPage, u);
      ShapeAt(A1, labels, targetPage);
      ShapeHeights(A1, labels);
      ghost var pages0, pages1, kept1, B := old(pages), pages, pins.kept, labels;
      success := InsertTraversal(key, value, targetPage, split, exclusiveMode, u);
      assert OnlyFullSplit(pages0, pages) && AboveSame(pages0, A, A[parentPage].height, pages) by {
        FullIs(pages0[childID]);
        NothingChanged(pages0, {parentPage, childID});
        StoredNames(pages0, A, rootID, parentPage, Single(u));
        StepThenRest(pages0, A, parentPage, childID, pages1, B, targetPage, pages);
      }
      assert Sparing(pages0, old(pins.kept), pages, pins.kept, if dirtyParent then {parentPage} else {}) by {
        if split {
          DescentMarks(pages0, old(pins.kept), parentPage, dirtyParent, childID, pages1, kept1, B, targetPage, pages, pins.kept);
        } else if exclusiveMode {
          ReleaseThenRest(pages0, old(pins.kept), parentPage, dirtyParent, kept1, pages, pins.kept);
        }
      }
    }

    /** The full root splits, and both halves move below a new one; all but the half that is entered
        are released as dirty. */
    method SplitFullRoot(key: Key) returns (targetPage: PageId)
      requires Stored(pages, labels, rootID, rootID, map[]) && rootID in pages && pages[rootID].InnerNode? && rootID in labels
      requires |pages[rootID].pivots| == SIZES.innerN && |pages[rootID].children| == |pages[rootID].pivots| + 1
      requires pins.held == {rootID}
      modifies `pages, `labels, `pins
      ensures Stored(pages, labels, rootID, rootID, map[]) && rootID in pages && pages[rootID].InnerNode?
      ensures rootID in labels && labels[rootID].view == old(labels[rootID].view)
      ensures targetPage in labels && targetPage != rootID && labels[targetPage].parent == rootID && InRange(labels[targetPage], key)
      ensures targetPage in pages && pages[targetPage].InnerNode? && |pages[targetPage].pivots| < SIZES.innerN
      ensures SameBut(old(pages), pages, {rootID}) && targetPage !in old(pages)
      ensures Sparing(old(pages), old(pins.kept), pages, pins.kept, {}) && Size(pages[rootID]) + 1 < Size(old(pages)[rootID])
      ensures pins.held == {targetPage} && (old(pins.kept == pages) ==> KeptBut(pages, pins.kept, {targetPage}))
    {
      hide *;
      ghost var A, pages0 := labels, pages;
      Sizes();
      var innerNode := pages[rootID];
      var rightPage, middleKey := SplitInnerNode(rootID);
      var newRoot := CreatePage(pages.Keys);
      pins := pins.Pin(newRoot);
      pages := pages[newRoot := pages[rootID]][rootID := InnerNode([middleKey], [newRoot, rightPage])];
      ghost var at := SplitIndex(|innerNode.pivots|);
      SplitIndexInside(|innerNode.pivots|);
      labels := SplitInnerRoot(pages0, A, rootID, newRoot, rightPage, at, key, pages);
      assert SameBut(pages0, pages, {rootID}) by { RootOnly(pages0, rootID, newRoot, rightPage, pages); }
      pins := pins.Unpin(rootID, pages[rootID], true);
      targetPage := ReleaseOther(key, middleKey, newRoot, rightPage);
      assert Sparing(pages0, old(pins.kept), pages, pins.kept, {}) && Size(pages[rootID]) + 1 < Size(pages0[rootID]) by {
        RootSize(pages0, rootID, pages, middleKey, newRoot, rightPage);
        RootMarks(pages0, old(pins.kept), rootID, newRoot, rightPage, if key <= middleKey then rightPage else newRoot, pages);
      }
      assert old(pins.kept == pages) ==> KeptBut(pages, pins.kept, {targetPage}) by {
        if old(pins.kept) == pages0 { RootSplitReleased(pages0, rootID, newRoot, rightPage, key <= middleKey, pages); }
      }
    }

    /** handleRootInnerInsert: an exclusive attempt first splits a full root, whose halves move
        below a new root. */
    method HandleRootInnerInsert(key: Key, value: Value, exclusiveMode: bool, ghost u: Upsert) returns (success: bool)
      requires Stored(pages, labels, rootID, rootID, map[]) && u.key == key && u.value == value && u.kind.INSERT?
      requires rootID in pages && pages[rootID].InnerNode? && rootID in labels && labels[rootID].view[key].newest < u.timeStamp
      requires pins.held == if exclusiveMode then {rootID} else {}
      modifies `pages, `labels, `pins
      ensures pins.held == {} && (!success ==> pins.kept == old(pins.kept))
      ensures success && old(pins.kept == pages) ==> pins.kept == pages
      ensures OnlyFullSplit(old(pages), pages) && Sparing(old(pages), old(pins.kept), pages, pins.kept, {})
      ensures success <==> exclusiveMode || !old(LeadsToFullLeaf(pages, rootID, labels[rootID].height, key))
      ensures !success ==> pages == old(pages)
      ensures success ==> Stored(pages, labels, rootID, rootID, map[]) && rootID in pages && pages[rootID].InnerNode?
      ensures success ==> rootID in labels && Told(old(labels[rootID].view), u, labels[rootID].view)
    {
      ghost var A := labels;
      RootRange(pages, labels, rootID, key);
      hide *;
      Sizes();
      InnerAt(pages, labels, rootID, rootID, map[], rootID);
      var innerNode := pages[rootID];
      var targetPage := rootID;
      var dirtyParent := false;
      assert old(pins.kept == pages) ==> KeptBut(pages, pins.kept, {}) by { if pins.kept == pages { KeptWhole(pages); } }
      if |innerNode.pivots| == SIZES.innerN && exclusiveMode {
        targetPage := SplitFullRoot(key);
        dirtyParent := true;
      }
      ghost var A1 := labels;
      ghost var B := Tell(pages, labels, rootID, u);
      ToldFrom(A[rootID].view, A1[rootID].view, u, B[rootID].view);
      labels := B;
      ShapeAt(A1, labels, targetPage);
      if targetPage != rootID {
        labels := Descend(pages, labels, rootID, rootID, targetPage, u);
        ShapeAt(B, labels, targetPage);
      }
      ghost var pages0, pages1, kept1 := old(pages), pages, pins.kept;
      success := InsertTraversal(key, value, targetPage, dirtyParent, exclusiveMode, u);
      assert OnlyFullSplit(pages0, pages) by {
        FullIs(pages0[rootID]);
        if dirtyParent { RootThenRest(pages0, rootID, pages1, pages); }
      }
      assert Sparing(pages0, old(pins.kept), pages, pins.kept, {}) by {
        if dirtyParent {
          RootFrame(pages0, rootID, pages1);
          RootSplitThenRest(pages0, old(pins.kept), rootID, targetPage, pages1, kept1, pages, pins.kept);
        }
      }
      if success {
        ToldThrough(A[rootID].view, u, B[rootID].view, labels[rootID].view);
      }
    }

    /** handleRootLeafInsert: a full lone leaf splits, and its halves move below a new root. */
    method HandleRootLeafInsert(key: Key, value: Value, ghost u: Upsert)
      requires Stored(pages, labels, rootID, rootID, map[]) && u.key == key && u.value == value && u.kind.INSERT?
      requires rootID in pages && pages[rootID].LeafNode? && rootID in labels && labels[rootID].view[key].newest < u.timeStamp
      requires leafRoot && pins.held == {rootID}
      modifies `pages, `labels, `leafRoot, `pins
      ensures OnlyFullSplit(old(pages), pages) && Sparing(old(pages), old(pins.kept), pages, pins.kept, {})
      ensures pins.held == {} && (old(pins.kept == pages) ==> pins.kept == pages)
      ensures Stored(pages, labels, rootID, rootID, map[]) && rootID in pages && (leafRoot <==> pages[rootID].LeafNode?)
      ensures rootID in labels && Told(old(labels[rootID].view), u, labels[rootID].view)
    {
      ghost var A := labels;
      RootRange(pages, labels, rootID, key);
      hide *;
      Sizes();
      LeafAt(pages, labels, rootID, rootID, map[], rootID);
      var leafNode := pages[rootID].leaf;
      var keyIt := LowerBound(leafNode.keys, key);
      var keyIndex := keyIt;
      InsertIs(leafNode, u);
      UpsertedSize(leafNode, u);
      FoundIs(leafNode, key);
      LookupIs(leafNode, key);
      UpsertedSame(leafNode, u);
      if keyIndex < |leafNode.keys| && leafNode.keys[keyIndex] == key {
        assert leafNode.values[keyIndex] == value ==> leafNode.values[keyIndex := value] == leafNode.values;
        SetRootLeaf(leafNode.(values := leafNode.values[keyIndex := value]), leafNode.values[keyIndex] != value, u);
        return;
      }
      if |leafNode.keys| < SIZES.leafN {
        SetRootLeaf(Leaf(InsertAt(leafNode.keys, keyIndex, key), InsertAt(leafNode.values, keyIndex, value)), true, u);
        return;
      }
      SplitRootLeaf(key, value, keyIndex, u);
    }

    /** The lone leaf takes a key and is released. */
    method SetRootLeaf(leaf: Leaf, dirty: bool, ghost u: Upsert)
      requires Stored(pages, labels, rootID, rootID, map[]) && rootID in pages && pages[rootID].LeafNode? && rootID in labels
      requires labels[rootID].view[u.key].newest < u.timeStamp && u.kind.INSERT?
      requires |pages[rootID].leaf.keys| == |pages[rootID].leaf.values| && leaf == Upserted(pages[rootID].leaf, u)
      requires |leaf.keys| <= SIZES.leafN && pins.held == {rootID} && (dirty <==> leaf != pages[rootID].leaf)
      modifies `pages, `labels, `pins
      ensures OnlyFullSplit(old(pages), pages) && Sparing(old(pages), old(pins.kept), pages, pins.kept, {})
      ensures pins.held == {} && (old(pins.kept == pages) ==> pins.kept == pages)
      ensures Stored(pages, labels, rootID, rootID, map[]) && rootID in pages && pages[rootID].LeafNode?
      ensures rootID in labels && Told(old(labels[rootID].view), u, labels[rootID].view)
    {
      hide *;
      ghost var A := labels;
      ghost var B := Tell(pages, labels, rootID, u);
      labels := B;
      assert old(pins.kept == pages) ==> KeptBut(pages, pins.kept, if dirty then {rootID} else {}) by {
        if pins.kept == pages { KeptWhole(pages); }
      }
      assert OnlyFullSplit(pages, pages[rootID := LeafNode(leaf)]) by {
        UpsertedGrows(pages[rootID].leaf, u);
        LoneLeafGrows(pages, rootID, leaf);
      }
      ghost var pages0, kept0 := pages, pins.kept;
      SetLeaf(rootID, leaf, dirty, u);
      assert Sparing(pages0, kept0, pages, pins.kept, {}) by {
        NothingMarked(pages0, kept0, {});
        SizeIs(pages0, rootID);
        UpsertedSame(pages0[rootID].leaf, u);
        LeafThenDone(pages0, kept0, {}, pages0, kept0, rootID, leaf, dirty, pages, pins.kept);
      }
      ToldThrough(A[rootID].view, u, B[rootID].view, labels[rootID].view);
    }

    /** The full lone leaf splits, and both halves move below a new root; all but the half that gets
        the key are released as dirty. */
    method SplitFullRootLeaf(key: Key, keyIt: nat) returns (targetPage: PageId, keyIndex: nat)
      requires Stored(pages, labels, rootID, rootID, map[]) && rootID in pages && pages[rootID].LeafNode? && rootID in labels
      requires LeafOK(pages[rootID].leaf) && |pages[rootID].leaf.keys| == |pages[rootID].leaf.values| == SIZES.leafN
      requires keyIt == LowerBound(pages[rootID].leaf.keys, key) && pins.held == {rootID}
      modifies `pages, `labels, `leafRoot, `pins
      ensures Stored(pages, labels, rootID, rootID, map[]) && rootID in pages && pages[rootID].InnerNode? && !leafRoot
      ensures rootID in labels && labels[rootID].view == old(labels[rootID].view)
      ensures targetPage in labels && targetPage != rootID && labels[targetPage].parent == rootID && InRange(labels[targetPage], key)
      ensures targetPage in pages && pages[targetPage].LeafNode? && |pages[targetPage].leaf.keys| < SIZES.leafN
      ensures StaleAt(old(pages)[rootID].leaf, pages[targetPage].leaf, key, keyIt, keyIndex)
      ensures SameBut(old(pages), pages, {rootID}) && targetPage !in old(pages) && Sparing(old(pages), old(pins.kept), pages, pins.kept, {})
      ensures old(pages).Keys <= pages.Keys
      ensures pins.held == {targetPage} && (old(pins.kept == pages) ==> KeptBut(pages, pins.kept, {targetPage}))
    {
      hide *;
      ghost var A, pages0 := labels, pages;
      Sizes();
      var leafNode := pages[rootID].leaf;
      var rightPage, middleKey := SplitLeafNode(rootID);
      var newRoot := CreatePage(pages.Keys);
      pins := pins.Pin(newRoot);
      pages := pages[newRoot := pages[rootID]][rootID := InnerNode([middleKey], [newRoot, rightPage])];
      leafRoot := false;
      labels := SplitLeafRoot(pages0, A, rootID, newRoot, rightPage, key, pages);
      assert SameBut(pages0, pages, {rootID}) by { RootOnly(pages0, rootID, newRoot, rightPage, pages); }
      StaleHalves(leafNode, key, middleKey);
      HalfSmaller(SIZES.leafN);
      pins := pins.Unpin(rootID, pages[rootID], true);
      keyIndex := if key <= middleKey then keyIt else keyIt - |pages[newRoot].leaf.keys|;
      targetPage := ReleaseOther(key, middleKey, newRoot, rightPage);
      assert Sparing(pages0, old(pins.kept), pages, pins.kept, {}) by {
        RootLeafSize(pages0, rootID, pages, middleKey, newRoot, rightPage);
        RootMarks(pages0, old(pins.kept), rootID, newRoot, rightPage, if key <= middleKey then rightPage else newRoot, pages);
      }
      assert old(pins.kept == pages) ==> KeptBut(pages, pins.kept, {targetPage}) by {
        if old(pins.kept) == pages0 { RootSplitReleased(pages0, rootID, newRoot, rightPage, key <= middleKey, pages); }
      }
    }

    /** The full lone leaf splits, and the half that gets the key takes it. */
    method SplitRootLeaf(key: Key, value: Value, keyIt: nat, ghost u: Upsert)
      requires Stored(pages, labels, rootID, rootID, map[]) && u.key == key && u.value == value && u.kind.INSERT?
      requires rootID in pages && pages[rootID].LeafNode? && rootID in labels && labels[rootID].view[key].newest < u.timeStamp
      requires LeafOK(pages[rootID].leaf) && |pages[rootID].leaf.keys| == |pages[rootID].leaf.values|
      requires |pages[rootID].leaf.keys| == SIZES.leafN && keyIt == LowerBound(pages[rootID].leaf.keys, key)
      requires pins.held == {rootID}
      modifies `pages, `labels, `leafRoot, `pins
      ensures OnlyFullSplit(old(pages), pages) && Sparing(old(pages), old(pins.kept), pages, pins.kept, {})
      ensures pins.held == {} && (old(pins.kept == pages) ==> pins.kept == pages)
      ensures Stored(pages, labels, rootID, rootID, map[]) && rootID in pages && !leafRoot && pages[rootID].InnerNode?
      ensures rootID in labels && Told(old(labels[rootID].view), u, labels[rootID].view)
    {
      hide *;
      Sizes();
      ghost var A := labels;
      var leafNode := pages[rootID].leaf;
      var targetPage, keyIndex := SplitFullRootLeaf(key, keyIt);
      ghost var A1 := labels;
      ghost var B := Tell(pages, A1, rootID, u);
      ToldFrom(A[rootID].view, A1[rootID].view, u, B[rootID].view);
      ShapeAt(A1, B, targetPage);
      labels := Descend(pages, B, rootID, rootID, targetPage, u);
      ToldThrough(A[rootID].view, u, B[rootID].view, labels[rootID].view);
      ghost var C := labels;
      LeafAt(pages, labels, rootID, targetPage, Single(u), targetPage);
      var target := pages[targetPage].leaf;
      StaleAtIs(leafNode, target, key, keyIt, keyIndex);
      UpsertedSize(target, u);
      InsertIs(target, u);
      if keyIndex < |target.keys| && target.keys[keyIndex] == key {
        target := target.(values := target.values[keyIndex := value]);
      } else {
        target := Leaf(InsertAt(target.keys, keyIndex, key), InsertAt(target.values, keyIndex, value));
      }
      ghost var pages0, pages1, kept1 := old(pages), pages, pins.kept;
      SetLeaf(targetPage, target, true, u);
      LeafThenDone(pages0, old(pins.kept), {}, pages1, kept1, targetPage, target, true, pages, pins.kept);
      assert OnlyFullSplit(pages0, pages) by {
        FullIs(pages0[rootID]);
        RootTouched(pages0, rootID, pages1, targetPage, pages[targetPage], pages);
      }
      ToldThrough(A[rootID].view, u, C[rootID].view, labels[rootID].view);
    }

    // ---- operations -------------------------------------------------------------------------

    /** insert: an optimistic attempt that gave up is repeated with exclusive access. */
    method Insert(key: Key, value: Value)
      requires Valid()
      modifies this
      ensures Valid()
      ensures forall k: Key :: Denotes(k) == if k == key then Some(value) else old(Denotes(k))
      ensures OnlyFullSplit(old(pages), pages) && Sparing(old(pages), old(pins.kept), pages, pins.kept, {})
      ensures old(Durable()) ==> Durable()
    {
      hide *;
      ValidParts();
      clock := clock + 1;
      ghost var u := Upsert(key, value, clock, INSERT);
      if pages[rootID].LeafNode? {
        pins := pins.Pin(rootID);
        HandleRootLeafInsert(key, value, u);
      } else {
        ghost var A := labels;
        var success := HandleRootInnerInsert(key, value, false, u);
        if !success {
          pins := pins.Pin(rootID);
          labels := A;
          success := HandleRootInnerInsert(key, value, true, u);
        }
      }
      ToldStamps(old(labels[rootID].view), u, labels[rootID].view, old(clock));
      ValidFrom();
      ValidParts();
      InsertActs(u);
    }

    /** The descent of update and erase: the message follows the key to its leaf. */
    method DescendToLeaf(key: Key, ghost u: Upsert) returns (currentPage: PageId)
      requires Stored(pages, labels, rootID, rootID, map[]) && u.key == key && rootID in pages
      requires rootID in labels && labels[rootID].view[key].newest < u.timeStamp
      modifies `labels
      ensures Stored(pages, labels, rootID, currentPage, Single(u)) && currentPage in pages && pages[currentPage].LeafNode?
      ensures rootID in labels && Told(old(labels[rootID].view), u, labels[rootID].view)
    {
      ghost var A := labels;
      RootRange(pages, labels, rootID, key);
      hide *;
      currentPage := rootID;
      ghost var B := Tell(pages, labels, rootID, u);
      ShapeAt(labels, B, rootID);
      labels := B;
      while pages[currentPage].InnerNode?
        invariant Stored(pages, labels, rootID, currentPage, Single(u)) && currentPage in pages
        invariant currentPage in labels && InRange(labels[currentPage], key)
        invariant rootID in labels && Told(A[rootID].view, u, labels[rootID].view)
        decreases labels[currentPage].height
      {
        RoutedChild(pages, labels, rootID, currentPage, Single(u), currentPage, key);
        var node := pages[currentPage];
        var childPage := node.children[LowerBound(node.pivots, key)];
        ghost var C := Descend(pages, labels, rootID, currentPage, childPage, u);
        ShapeAt(labels, C, childPage);
        ToldThrough(A[rootID].view, u, labels[rootID].view, C[rootID].view);
        labels := C;
        currentPage := childPage;
      }
    }

    /** The leaf a message has come to takes it and is released. */
    method SetLeaf(c: PageId, leaf: Leaf, dirty: bool, ghost u: Upsert)
      requires Stored(pages, labels, rootID, c, Single(u)) && c in pages && pages[c].LeafNode? && rootID in pages
      requires |pages[c].leaf.keys| == |pages[c].leaf.values| && leaf == Upserted(pages[c].leaf, u) && |leaf.keys| <= SIZES.leafN
      requires pins.held == {c} && (!dirty ==> leaf == pages[c].leaf)
      modifies `pages, `labels, `pins
      ensures pages == old(pages)[c := LeafNode(leaf)]
      ensures pins.kept == if dirty then old(pins.kept)[c := LeafNode(leaf)] else old(pins.kept)
      ensures pins.held == {} && (old(KeptBut(pages, pins.kept, if dirty then {c} else {})) ==> pins.kept == pages)
      ensures Stored(pages, labels, rootID, rootID, map[]) && rootID in pages
      ensures pages[rootID].LeafNode? <==> old(pages[rootID].LeafNode?)
      ensures rootID in old(labels) && rootID in labels && labels[rootID].view == old(labels[rootID].view)
    {
      hide *;
      labels := Land(pages, labels, rootID, c, u);
      LeafReleased(pages, pins.kept, c, pages[c := LeafNode(leaf)], if dirty then {c} else {}, dirty);
      pages := pages[c := LeafNode(leaf)];
      pins := pins.Unpin(c, pages[c], dirty);
    }

    /** update: adds to the value of a present key and does nothing for an absent one. */
    method Update(key: Key, value: Value)
      requires Valid()
      modifies this
      ensures Valid()
      ensures forall k: Key :: Denotes(k) ==
                if k == key && old(Denotes(k)).Some? then Some(Add(old(Denotes(k)).value, value)) else old(Denotes(k))
      ensures old(Durable()) ==> Durable()
      ensures forall x :: x in old(pages) ==> SameKept(old(pins.kept), pins.kept, x) || (old(pages)[x].LeafNode? && key in old(pages)[x].leaf.keys)
    {
      hide *;
      ValidParts();
      clock := clock + 1;
      ghost var u := Upsert(key, value, clock, UPDATE);
      var currentPage := DescendToLeaf(key, u);
      LeafAt(pages, labels, rootID, currentPage, Single(u), currentPage);
      pins := pins.Pin(currentPage);
      assert old(pins.kept == pages) ==> KeptBut(pages, pins.kept, {}) && KeptBut(pages, pins.kept, {currentPage}) by {
        if pins.kept == pages { KeptWhole(pages); }
      }
      var found := false;
      var leafNode := pages[currentPage].leaf;
      var keyIndex := LowerBound(leafNode.keys, key);
      UpdateIs(leafNode, u);
      if keyIndex < |leafNode.keys| && leafNode.keys[keyIndex] == key {
        leafNode := leafNode.(values := leafNode.values[keyIndex := Add(leafNode.values[keyIndex], value)]);
        found := true;
      }
      ghost var pages0, kept0 := pages, pins.kept;
      SetLeaf(currentPage, leafNode, found, u);
      KeptElsewhere(pages0, kept0, currentPage, key, found, pins.kept);
      ToldStamps(old(labels[rootID].view), u, labels[rootID].view, old(clock));
      ValidFrom();
      ValidParts();
      UpdateActs(u);
    }

    /** erase */
    method Erase(key: Key)
      requires Valid()
      modifies this
      ensures Valid()
      ensures forall k: Key :: Denotes(k) == if k == key then None else old(Denotes(k))
      ensures old(Durable()) ==> Durable()
      ensures Sparing(old(pages), old(pins.kept), pages, pins.kept, {})
    {
      hide *;
      ValidParts();
      clock := clock + 1;
      ghost var anyValue: Value := *;
      ghost var u := Upsert(key, anyValue, clock, DELETE);
      var currentPage := DescendToLeaf(key, u);
      LeafAt(pages, labels, rootID, currentPage, Single(u), currentPage);
      pins := pins.Pin(currentPage);
      assert old(pins.kept == pages) ==> KeptBut(pages, pins.kept, {}) && KeptBut(pages, pins.kept, {currentPage}) by {
        if pins.kept == pages { KeptWhole(pages); }
      }
      var found := false;
      var leafNode := pages[currentPage].leaf;
      var keyIndex := LowerBound(leafNode.keys, key);
      EraseIs(leafNode, u);
      NothingMarked(pages, pins.kept, {});
      SizeIs(pages, currentPage);
      if keyIndex < |leafNode.keys| && leafNode.keys[keyIndex] == key {
        leafNode := Leaf(RemoveAt(leafNode.keys, keyIndex), RemoveAt(leafNode.values, keyIndex));
        found := true;
      }
      ghost var pages0, kept0 := pages, pins.kept;
      SetLeaf(currentPage, leafNode, found, u);
      LeafThenDone(pages0, kept0, {}, pages0, kept0, currentPage, leafNode, found, pages, pins.kept);
      ToldStamps(old(labels[rootID].view), u, labels[rootID].view, old(clock));
      ValidFrom();
      ValidParts();
      EraseActs(u);
    }

    /** find returns exactly what the tree denotes. */
    method Find(key: Key) returns (result: Option<Value>)
      requires Valid()
      ensures result == Denotes(key)
    {
      RootRange(pages, labels, rootID, key);
      ghost var h := labels[rootID].height;
      assert Denotes(key) == Meaning(pages, rootID, h, key);
      assert Stored(pages, labels, rootID, rootID, map[]);
      hide *;
      var currentPage := rootID;
      while pages[currentPage].InnerNode?
        invariant currentPage in pages && currentPage in labels && h == labels[currentPage].height && InRange(labels[currentPage], key)
        invariant Denotes(key) == Meaning(pages, currentPage, h, key)
        decreases h
      {
        RoutedChild(pages, labels, rootID, rootID, map[], currentPage, key);
        InnerAt(pages, labels, rootID, rootID, map[], currentPage);
        MeaningStep(pages, currentPage, h, key);
        var node := pages[currentPage];
        currentPage := node.children[LowerBound(node.pivots, key)];
        h := h - 1;
      }
      LeafMeaning(pages, currentPage, h, key);
      LeafAt(pages, labels, rootID, rootID, map[], currentPage);
      var leafNode := pages[currentPage].leaf;
      var keyIndex := LowerBound(leafNode.keys, key);
      LookupIs(leafNode, key);
      if keyIndex < |leafNode.keys| && leafNode.keys[keyIndex] == key {
        return Some(leafNode.values[keyIndex]);
      }
      return None;
    }

    method Perform(op: Operation, ghost m: map<Key, Value>)
      requires Valid() && Represents(m)
      modifies this
      ensures Valid() && Represents(PlainStep(m, op)) && (old(Durable()) ==> Durable())
    {
      hide Meaning, Stored, Valid, OnlyFullSplit, Sparing, SameKept;
      match op {
        case InsertOp(k, v) => Insert(k, v);
        case UpdateOp(k, v) => Update(k, v);
        case EraseOp(k) => Erase(k);
      }
    }

    /** A run of operations leaves the tree denoting what the same run leaves of a plain map, and no
        page that it has changed is released as clean. */
    method Run(ops: seq<Operation>, ghost m: map<Key, Value>)
      requires Valid() && Represents(m)
      modifies this
      ensures Valid() && Represents(PlainRun(m, ops)) && (old(Durable()) ==> Durable())
    {
      hide *;
      PlainRunStart(m, ops);
      for j := 0 to |ops|
        invariant Valid() && Represents(PlainRun(m, ops[..j])) && (old(Durable()) ==> Durable())
      {
        PlainRunNext(m, ops, j);
        Perform(ops[j], PlainRun(m, ops[..j]));
      }
      assert ops[..|ops|] == ops;
    }

    /** A new tree is one empty leaf. */
    constructor ()
      ensures Valid() && Represents(map[]) && Durable()
    {
      rootID := 0;
      pages := map[0 := LeafNode(Leaf([], []))];
      leafRoot := true;
      clock := 0;
      pins := Pins({}, map[0 := LeafNode(Leaf([], []))]);
      labels := map[0 := EmptyLabel()];
      new;
      EmptyTree();
      hide Stored, Meaning;
      forall k: Key ensures Denotes(k) == Get(map[], k) {
        DenotesView(k);
      }
    }
  }

  lemma RootTouched(pages: Pages, root: PageId, pages1: Pages, t: PageId, n: Node, pages2: Pages)
    requires root in pages && Full(pages[root]) && root in pages1 && SameBut(pages, pages1, {root})
    requires t !in pages && pages2 == pages1[t := n]
    ensures OnlyFullSplit(pages, pages2)
  {
    assert forall x :: x in pages && x != root ==> Grows(pages[x], pages[x]);
  }

  lemma RootOnly(pages: Pages, root: PageId, n: PageId, r: PageId, pages': Pages)
    requires pages'.Keys == pages.Keys + {n, r} && forall x :: x in pages && x != root ==> pages'[x] == pages[x]
    ensures SameBut(pages, pages', {root})
  {
  }

  lemma StoredNames(pages: Pages, A: Labelling, root: PageId, at: PageId, m: map<Key, Upsert>)
    requires Stored(pages, A, root, at, m)
    ensures pages.Keys == A.Keys && root in A
  {
  }

  lemma Sizes()
    ensures 2 <= SIZES.leafN && 3 <= SIZES.innerN && SIZES.innerN % 2 == 1
  {
  }

  lemma SplitIndexInside(size: nat)
    requires size >= 2
    ensures SplitIndex(size) + 1 < size
  {
  }

  /** The key has come into the leaf, or into a half of it. */
  lemma LeafDone(pages: Pages, kept: Pages, free: set<PageId>, pages1: Pages, kept1: Pages, c: PageId, t: PageId, split: bool, u: Upsert,
                 pages2: Pages, kept2: Pages)
    requires Sparing(pages, kept, pages1, kept1, free) && pages.Keys <= pages1.Keys && u.kind.INSERT?
    requires c in pages && pages[c].LeafNode? && t in pages1 && pages1[t].LeafNode? && |pages1[t].leaf.keys| == |pages1[t].leaf.values|
    requires if split then t == c || t !in pages else t == c && pages1 == pages
    requires split && t == c ==>
               var before, now := pages[c].leaf, pages1[c].leaf;
               before.keys != [] && before.keys[|before.keys| - 1] !in now.keys && u.key != before.keys[|before.keys| - 1] &&
               |now.keys| < |before.keys|
    requires pages2 == pages1[t := LeafNode(Upserted(pages1[t].leaf, u))]
    requires kept2 == if split || LeafLookup(pages1[t].leaf, u.key) != Some(u.value) then kept1[t := pages2[t]] else kept1
    ensures Sparing(pages, kept, pages2, kept2, free)
  {
    hide *;
    var l := Upserted(pages1[t].leaf, u);
    UpsertedSame(pages1[t].leaf, u);
    SizeIs(pages, c);
    if split && t == c { LargestGone(pages[c].leaf, pages1[t].leaf, u); }
    LeafThenDone(pages, kept, free, pages1, kept1, t, l, split || LeafLookup(pages1[t].leaf, u.key) != Some(u.value), pages2, kept2);
  }

  lemma SplitSizes(pages: Pages, p: PageId, i: nat, c: PageId, r: PageId, mid: Key, pages': Pages)
    requires p in pages && pages[p].InnerNode? && i <= |pages[p].pivots| && i < |pages[p].children| && p in pages'
    requires pages'[p] == InnerNode(InsertAt(pages[p].pivots, i, mid), InsertAt(pages[p].children, i + 1, r))
    ensures Size(pages'[p]) == Size(pages[p]) + 1
    ensures c in pages ==> Size(pages[c]) == match pages[c] case LeafNode(l) => |l.keys| case InnerNode(pivots, _) => |pivots|
    ensures c in pages' ==> Size(pages'[c]) == match pages'[c] case LeafNode(l) => |l.keys| case InnerNode(pivots, _) => |pivots|
  {
  }

  lemma SizeIs(pages: Pages, c: PageId)
    ensures c in pages ==> Size(pages[c]) == match pages[c] case LeafNode(l) => |l.keys| case InnerNode(pivots, _) => |pivots|
  {
  }

  lemma LargestMoves(l: Leaf, mid: Key)
    requires LeafOK(l) && |l.keys| >= 2 && mid == l.keys[SplitIndex(|l.keys|)]
    ensures mid < l.keys[|l.keys| - 1] && l.keys[|l.keys| - 1] !in SplitLeft(l, mid).keys
    ensures |SplitLeft(l, mid).keys| < |l.keys|
  {
    MiddleKey(l);
    SplitLeafSorted(l, mid);
    hide LeafOK;
  }

  lemma SparingFree(pages: Pages, kept: Pages, pages': Pages, kept': Pages, free: set<PageId>, more: set<PageId>)
    requires Sparing(pages, kept, pages', kept', free) && free <= more
    ensures Sparing(pages, kept, pages', kept', more)
  {
    hide Size, SameKept;
  }

  lemma StepFrame(pages: Pages, p: PageId, c: PageId, pages': Pages)
    requires SameBut(pages, pages', {p, c}) && p in pages' && c in pages'
    ensures forall x :: x in pages ==> x in pages' && (x != p && x != c ==> pages'[x] == pages[x])
  {
  }

  lemma RootFrame(pages: Pages, root: PageId, pages': Pages)
    requires SameBut(pages, pages', {root}) && root in pages'
    ensures forall x :: x in pages ==> x in pages' && (x != root ==> pages'[x] == pages[x])
  {
  }

  /** A child has split, and the rest of the descent has followed. */
  lemma DescentMarks(pages: Pages, kept: Pages, p: PageId, dirtyParent: bool, c: PageId, pages1: Pages, kept1: Pages, B: Labelling, t: PageId,
                     pages2: Pages, kept2: Pages)
    requires p in pages && c in pages && p in pages1 && c in pages1 && (t == c || t !in pages) && SameBut(pages, pages1, {p, c})
    requires Sparing(pages, kept, pages1, kept1, {}) && Sparing(pages1, kept1, pages2, kept2, {t})
    requires Size(pages1[p]) == Size(pages[p]) + 1 && Size(pages1[c]) + 1 < Size(pages[c])
    requires t in B && p in B && B[t].height < B[p].height && AboveSame(pages1, B, B[t].height, pages2)
    ensures Sparing(pages, kept, pages2, kept2, if dirtyParent then {p} else {})
  {
    hide *;
    StepFrame(pages, p, c, pages1);
    ParentSame(pages1, B, t, p, pages2);
    SplitThenRest(pages, kept, p, c, t, pages1, kept1, pages2, kept2);
    SparingFree(pages, kept, pages2, kept2, {}, if dirtyParent then {p} else {});
  }

  /** The rest of the descent leaves the parent of page `t` alone. */
  lemma ParentSame(pages: Pages, A: Labelling, t: PageId, p: PageId, pages': Pages)
    requires t in A && p in A && p in pages && A[t].height < A[p].height && AboveSame(pages, A, A[t].height, pages')
    ensures p in pages' && pages'[p] == pages[p]
  {
  }

  lemma RootSize(pages: Pages, root: PageId, pages': Pages, mid: Key, n: PageId, r: PageId)
    requires root in pages && pages[root].InnerNode? && |pages[root].pivots| == SIZES.innerN && root in pages'
    requires pages'[root] == InnerNode([mid], [n, r])
    ensures Size(pages'[root]) + 1 < Size(pages[root]) && pages'[root] != pages[root]
  {
  }

  lemma RootLeafSize(pages: Pages, root: PageId, pages': Pages, mid: Key, n: PageId, r: PageId)
    requires root in pages && pages[root].LeafNode? && |pages[root].leaf.keys| == SIZES.leafN && root in pages'
    requires pages'[root] == InnerNode([mid], [n, r])
    ensures Size(pages'[root]) <= Size(pages[root]) && pages'[root] != pages[root]
  {
  }

  lemma KeptElsewhere(pages: Pages, kept: Pages, c: PageId, key: Key, found: bool, kept': Pages)
    requires c in pages && pages[c].LeafNode? && (found ==> key in pages[c].leaf.keys)
    requires kept' == kept || (found && c in kept' && kept' == kept[c := kept'[c]])
    ensures forall x :: x in pages ==> SameKept(kept, kept', x) || (pages[x].LeafNode? && key in pages[x].leaf.keys)
  {
  }

  lemma HalfSmaller(size: nat)
    requires size >= 2
    ensures SplitIndex(size) + 1 < size && size / 2 < size
  {
  }

  lemma ShapeAt(A: Labelling, B: Labelling, c: PageId)
    requires SameShape(A, B) && c in A
    ensures c in B && B[c].lo == A[c].lo && B[c].hi == A[c].hi && B[c].height == A[c].height && B[c].parent == A[c].parent
    ensures forall k: Key :: InRange(A[c], k) ==> InRange(B[c], k)
  {
  }

  lemma SplitPagesAre(pages: Pages, p: PageId, i: nat, c: PageId, r: PageId, mid: Key, nl: Node, nr: Node, pages': Pages)
    requires p in pages && pages[p].InnerNode? && i < |pages[p].children| == |pages[p].pivots| + 1
    requires c in pages && r !in pages && c != p
    requires pages' == pages[c := nl][r := nr][p := InnerNode(InsertAt(pages[p].pivots, i, mid), InsertAt(pages[p].children, i + 1, r))]
    ensures pages' == SplitPages(pages, p, i, c, r, mid, nl, nr)
    ensures c in pages' && pages'[c] == nl && r in pages' && pages'[r] == nr && c != r && p != r
    ensures forall x :: x in pages ==> x in pages' && (pages[x].InnerNode? && x != c ==> pages'[x].InnerNode?)
  {
    hide InsertAt;
  }

  /** The position found in a leaf still shows the key after the leaf has split. */
  ghost predicate StaleAt(before: Leaf, now: Leaf, key: Key, keyIt: nat, keyIndex: nat) {
    && keyIndex == LowerBound(now.keys, key)
    && (keyIndex < |now.keys| ==> keyIt < |before.keys| && before.keys[keyIt] == now.keys[keyIndex])
  }

  lemma StaleAtIs(before: Leaf, now: Leaf, key: Key, keyIt: nat, keyIndex: nat)
    requires StaleAt(before, now, key, keyIt, keyIndex)
    ensures keyIndex == LowerBound(now.keys, key) && keyIndex <= |now.keys|
    ensures keyIndex < |now.keys| ==> keyIt < |before.keys| && before.keys[keyIt] == now.keys[keyIndex]
  {
  }

  lemma StaleHalves(l: Leaf, key: Key, mid: Key)
    requires LeafOK(l) && |l.keys| == |l.values|
    ensures var k := LowerBound(l.keys, key);
            (key <= mid ==> StaleAt(l, SplitLeft(l, mid), key, k, k)) &&
            (key > mid ==> k >= |SplitLeft(l, mid).keys| && StaleAt(l, SplitRight(l, mid), key, k, k - |SplitLeft(l, mid).keys|))
  {
    IndexInHalves(l, key, mid);
    SplitLeafSorted(l, mid);
    hide *;
    var left, right, k := SplitLeft(l, mid), SplitRight(l, mid), LowerBound(l.keys, key);
    if key <= mid {
      StaleFrom(l, left, right, left, 0, key, k);
    } else {
      StaleFrom(l, left, right, right, |left.keys|, key, k);
    }
  }

  lemma StaleFrom(l: Leaf, left: Leaf, right: Leaf, half: Leaf, at: nat, key: Key, k: nat)
    requires l.keys == left.keys + right.keys && ((half == left && at == 0) || (half == right && at == |left.keys|))
    requires k - at == LowerBound(half.keys, key)
    ensures k >= at && StaleAt(l, half, key, k, k - at)
  {
    hide LowerBound;
  }

  lemma InsertIs(l: Leaf, u: Upsert)
    requires |l.keys| == |l.values| && u.kind.INSERT?
    ensures var i := LowerBound(l.keys, u.key);
            i <= |l.keys| &&
            Upserted(l, u) ==
              if i < |l.keys| && l.keys[i] == u.key then l.(values := l.values[i := u.value])
              else Leaf(InsertAt(l.keys, i, u.key), InsertAt(l.values, i, u.value))
  {
  }

  lemma StalePosition(before: Leaf, now: Leaf, key: Key, keyIt: nat, keyIndex: nat)
    requires now == before && keyIt == keyIndex == LowerBound(now.keys, key)
    ensures StaleAt(before, now, key, keyIt, keyIndex)
  {
  }

  // ---- the root -------------------------------------------------------------------------------

  lemma RootRange(pages: Pages, A: Labelling, root: PageId, k: Key)
    requires Stored(pages, A, root, root, map[])
    ensures root in A && root in pages && InRange(A[root], k) && A[root].lo == -1 && A[root].hi == MAX_KEY
  {
  }

  lemma OneListed(pages: Pages, p: PageId, n: PageId)
    requires p in pages && pages[p] == InnerNode([], [n])
    ensures |pages[p].children| == |pages[p].pivots| + 1 && pages[p].children[0] == n
    ensures forall j :: 0 <= j < |pages[p].children| && pages[p].children[j] == n ==> j == 0
  {
  }

  lemma RootSplitIs(pages: Pages, root: PageId, n: PageId, r: PageId, mid: Key, nl: Node, nr: Node, pages': Pages)
    requires root in pages && n !in pages && r !in pages && n != r
    requires pages' == pages[root := nl][r := nr][n := nl][root := InnerNode([mid], [n, r])]
    ensures n != root && root in GrownPages(pages, root, n) && GrownPages(pages, root, n)[root] == InnerNode([], [n])
    ensures SplitPages(GrownPages(pages, root, n), root, 0, n, r, mid, nl, nr) == pages'
    ensures pages'[n] == nl && pages'[r] == nr && pages'[root] == InnerNode([mid], [n, r])
  {
    assert InsertAt([], 0, mid) == [mid] && InsertAt([n], 1, r) == [n, r];
  }

  /** A full inner root splits below a new root. */
  lemma SplitInnerRoot(pages: Pages, A: Labelling, root: PageId, n: PageId, r: PageId, at: nat, k: Key, pages': Pages) returns (B: Labelling)
    requires Stored(pages, A, root, root, map[]) && root in pages && pages[root].InnerNode? && at < |pages[root].pivots|
    requires |pages[root].children| == |pages[root].pivots| + 1 && n !in pages && r !in pages && n != r
    requires var m := pages[root];
             var nl, nr := InnerNode(m.pivots[..at], m.children[..at + 1]), InnerNode(m.pivots[at + 1..], m.children[at + 1..]);
             pages' == pages[root := nl][r := nr][n := nl][root := InnerNode([m.pivots[at]], [n, r])]
    ensures Stored(pages', B, root, root, map[]) && root in A && root in B && B[root].view == A[root].view
    ensures n != root && r != root && n in B && r in B && B[n].parent == root && B[r].parent == root
    ensures k <= pages[root].pivots[at] ==> InRange(B[n], k)
    ensures k > pages[root].pivots[at] ==> InRange(B[r], k)
  {
    hide *;
    StoredParts(pages, A, root, root, map[]);
    var m := pages[root];
    var nl, nr := InnerNode(m.pivots[..at], m.children[..at + 1]), InnerNode(m.pivots[at + 1..], m.children[at + 1..]);
    var A1 := GrowRoot(pages, A, root, n);
    GrownPagesAt(pages, root, n);
    OneListed(GrownPages(pages, root, n), root, n);
    RootSplitIs(pages, root, n, r, m.pivots[at], nl, nr, pages');
    StoredParts(GrownPages(pages, root, n), A1, root, root, map[]);
    Sizes();
    WholeRange(A1[n], k);
    B := SplitInnerChild(GrownPages(pages, root, n), A1, root, root, map[], 0, n, r, at);
    HalfRange(A1, n, r, m.pivots[at], k);
    StoredParts(pages', B, root, root, map[]);
  }

  lemma WholeRange(l: Label, k: Key)
    requires l.lo == -1 && l.hi == MAX_KEY
    ensures InRange(l, k)
  {
  }

  /** A full lone leaf splits below a new root. */
  lemma SplitLeafRoot(pages: Pages, A: Labelling, root: PageId, n: PageId, r: PageId, k: Key, pages': Pages) returns (B: Labelling)
    requires Stored(pages, A, root, root, map[]) && root in pages && pages[root].LeafNode? && |pages[root].leaf.keys| >= 2
    requires |pages[root].leaf.keys| == |pages[root].leaf.values| && n !in pages && r !in pages && n != r
    requires var l := pages[root].leaf;
             var mid := l.keys[SplitIndex(|l.keys|)];
             var nl, nr := LeafNode(SplitLeft(l, mid)), LeafNode(SplitRight(l, mid));
             pages' == pages[root := nl][r := nr][n := nl][root := InnerNode([mid], [n, r])]
    ensures Stored(pages', B, root, root, map[]) && root in A && root in B && B[root].view == A[root].view
    ensures n != root && r != root && n in B && r in B && B[n].parent == root && B[r].parent == root
    ensures k <= pages[root].leaf.keys[SplitIndex(|pages[root].leaf.keys|)] ==> InRange(B[n], k)
    ensures k > pages[root].leaf.keys[SplitIndex(|pages[root].leaf.keys|)] ==> InRange(B[r], k)
  {
    hide *;
    StoredParts(pages, A, root, root, map[]);
    var l := pages[root].leaf;
    SplitIndexInside(|l.keys|);
    var mid := l.keys[SplitIndex(|l.keys|)];
    var nl, nr := LeafNode(SplitLeft(l, mid)), LeafNode(SplitRight(l, mid));
    var A1 := GrowRoot(pages, A, root, n);
    GrownPagesAt(pages, root, n);
    OneListed(GrownPages(pages, root, n), root, n);
    RootSplitIs(pages, root, n, r, mid, nl, nr, pages');
    StoredParts(GrownPages(pages, root, n), A1, root, root, map[]);
    Sizes();
    WholeRange(A1[n], k);
    B := SplitLeafChild(GrownPages(pages, root, n), A1, root, root, map[], 0, n, r);
    HalfRange(A1, n, r, mid, k);
    StoredParts(pages', B, root, root, map[]);
  }

  lemma UpdateIs(l: Leaf, u: Upsert)
    requires LeafOK(l) && |l.keys| == |l.values| && u.kind.UPDATE?
    ensures |Upserted(l, u).keys| <= |l.keys|
    ensures var i := LowerBound(l.keys, u.key);
            Upserted(l, u) ==
              if i < |l.keys| && l.keys[i] == u.key then l.(values := l.values[i := Add(l.values[i], u.value)]) else l
  {
  }

  lemma EraseIs(l: Leaf, u: Upsert)
    requires LeafOK(l) && |l.keys| == |l.values| && u.kind.DELETE?
    ensures |Upserted(l, u).keys| <= |l.keys|
    ensures var i := LowerBound(l.keys, u.key);
            Upserted(l, u) ==
              if i < |l.keys| && l.keys[i] == u.key then Leaf(RemoveAt(l.keys, i), RemoveAt(l.values, i)) else l
  {
  }

  lemma InsertActs(u: Upsert)
    requires u.kind.INSERT?
    ensures forall v :: Act(u, v) == Some(u.value)
  {
  }

  lemma UpdateActs(u: Upsert)
    requires u.kind.UPDATE?
    ensures forall v :: Act(u, v) == if v.Some? then Some(Add(v.value, u.value)) else None
  {
  }

  lemma EraseActs(u: Upsert)
    requires u.kind.DELETE?
    ensures forall v :: Act(u, v) == None
  {
  }

  lemma LookupIs(l: Leaf, k: Key)
    requires |l.keys| == |l.values|
    ensures var i := LowerBound(l.keys, k);
            LeafLookup(l, k) == if i < |l.keys| && l.keys[i] == k then Some(l.values[i]) else None
  {
  }

  lemma EmptyTree()
    ensures Stored(map[0 := LeafNode(Leaf([], []))], map[0 := EmptyLabel()], 0, 0, map[])
  {
    var A, pages := map[0 := EmptyLabel()], map[0 := LeafNode(Leaf([], []))];
    assert Linked(A, 0, 0);
    assert Consistent(A, 0);
    assert Pairs(Leaf([], [])) == map[];
    assert NodeOK(pages, A, 0, 0);
  }
}
