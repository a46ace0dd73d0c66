/** How the pivots and children of a node agree with the labels: child i answers for the keys
    between pivots i-1 (exclusive) and i (inclusive). */
module Kids {
  import opened Keys
  import opened Labels
  import opened Leaves

  predicate Within(lo: int, k: Key, hi: int) { lo < k <= hi }

  /** `c` is a child of `id` that answers for the keys in (lo, hi]. */
  ghost predicate KidAt(A: Labelling, root: PageId, id: PageId, c: PageId, lo: int, hi: int) {
    c in A && c != root && A[c].parent == id && A[c].lo == lo && A[c].hi == hi
  }

  function LowEnd(pivots: seq<Key>, i: nat, lo: int): int
    requires i <= |pivots|
  {
    if i == 0 then lo else pivots[i - 1]
  }

  function HighEnd(pivots: seq<Key>, i: nat, hi: int): int
    requires i <= |pivots|
  {
    if i == |pivots| then hi else pivots[i]
  }

  ghost predicate Kid(A: Labelling, root: PageId, id: PageId, pivots: seq<Key>, children: seq<PageId>, i: nat)
    requires id in A && |children| == |pivots| + 1 && i < |children|
  {
    KidAt(A, root, id, children[i], LowEnd(pivots, i, A[id].lo), HighEnd(pivots, i, A[id].hi))
  }

  ghost predicate AllKids(A: Labelling, root: PageId, id: PageId, pivots: seq<Key>, children: seq<PageId>)
    requires id in A
  {
    |children| == |pivots| + 1 && forall i :: 0 <= i < |children| ==> Kid(A, root, id, pivots, children, i)
  }

  lemma {:induction false} AdjacentSorted(s: seq<Key>)
    requires forall i :: 0 < i < |s| ==> s[i - 1] < s[i]
    ensures StrictlySorted(s)
  {
    if |s| > 1 {
      AdjacentSorted(s[..|s| - 1]);
      forall i, j | 0 <= i < j < |s| ensures s[i] < s[j] {
        if j == |s| - 1 && i < j - 1 {
          assert s[..|s| - 1][i] < s[..|s| - 1][j - 1];
          assert s[j - 1] < s[j];
        } else if j < |s| - 1 {
          assert s[..|s| - 1][i] < s[..|s| - 1][j];
        } else {
          assert s[j - 1] < s[j];
        }
      }
    }
  }

  lemma KidRange(A: Labelling, root: PageId, id: PageId, pivots: seq<Key>, children: seq<PageId>, i: nat)
    requires Consistent(A, root) && id in A && AllKids(A, root, id, pivots, children) && i < |children|
    ensures LowEnd(pivots, i, A[id].lo) < HighEnd(pivots, i, A[id].hi)
  {
    assert Kid(A, root, id, pivots, children, i);
    assert Linked(A, root, children[i]);
  }

  /** The pivots of a node are strictly sorted and lie strictly inside its range. */
  lemma KidsSorted(A: Labelling, root: PageId, id: PageId, pivots: seq<Key>, children: seq<PageId>)
    requires Consistent(A, root) && id in A && AllKids(A, root, id, pivots, children)
    ensures StrictlySorted(pivots)
    ensures forall i :: 0 <= i < |pivots| ==> A[id].lo < pivots[i] < A[id].hi
  {
    hide Consistent;
    forall i | 0 < i < |pivots| ensures pivots[i - 1] < pivots[i] {
      KidRange(A, root, id, pivots, children, i);
    }
    AdjacentSorted(pivots);
    KidRange(A, root, id, pivots, children, 0);
    KidRange(A, root, id, pivots, children, |pivots|);
  }

  /** A key is routed to the child that answers for it. */
  lemma RouteInRange(A: Labelling, root: PageId, id: PageId, pivots: seq<Key>, children: seq<PageId>, k: Key)
    requires Consistent(A, root) && id in A && AllKids(A, root, id, pivots, children) && InRange(A[id], k)
    ensures var i := LowerBound(pivots, k);
            i < |children| && Kid(A, root, id, pivots, children, i) && InRange(A[children[i]], k)
  {
    var i := LowerBound(pivots, k);
    assert Kid(A, root, id, pivots, children, i);
  }

  /** A key in a child's range is routed to that child. */
  lemma RouteIs(A: Labelling, root: PageId, id: PageId, pivots: seq<Key>, children: seq<PageId>, i: nat, k: Key)
    requires Consistent(A, root) && id in A && AllKids(A, root, id, pivots, children) && i < |children|
    requires Kid(A, root, id, pivots, children, i) && InRange(A[children[i]], k)
    ensures LowerBound(pivots, k) == i
  {
    KidsSorted(A, root, id, pivots, children);
    assert Kid(A, root, id, pivots, children, i);
    LowerBoundUnique(pivots, k, i);
  }

  /** The child a key is routed to. */
  function ChildFor(pivots: seq<Key>, children: seq<PageId>, k: Key): Option<PageId> {
    var i := LowerBound(pivots, k);
    if i < |children| then Some(children[i]) else None
  }

  lemma RangesMeet(A: Labelling, root: PageId, x: PageId, y: PageId, k: Key)
    requires Consistent(A, root) && x in A && y in A && x != root && y != root
    requires A[x].parent == A[y].parent && InRange(A[x], k) && InRange(A[y], k)
    ensures x == y
  {
    assert !Siblings(A, root, x, y) || Apart(A[x], A[y]);
  }

  /** Every page labelled as a child is listed among the children. */
  lemma KidListed(A: Labelling, root: PageId, id: PageId, pivots: seq<Key>, children: seq<PageId>, x: PageId)
    returns (i: nat)
    requires Consistent(A, root) && id in A && AllKids(A, root, id, pivots, children)
    requires x in A && x != root && A[x].parent == id
    ensures i < |children| && children[i] == x
  {
    assert Linked(A, root, x);
    var k: Key := A[x].hi;
    assert InRange(A[id], k) && InRange(A[x], k);
    RouteInRange(A, root, id, pivots, children, k);
    i := LowerBound(pivots, k);
    RangesMeet(A, root, children[i], x, k);
  }

  /** No child is listed twice. */
  lemma KidsDistinct(A: Labelling, root: PageId, id: PageId, pivots: seq<Key>, children: seq<PageId>, i: nat, j: nat)
    requires Consistent(A, root) && id in A && AllKids(A, root, id, pivots, children)
    requires i < |children| && j < |children| && children[i] == children[j]
    ensures i == j
  {
    assert Kid(A, root, id, pivots, children, i) && Kid(A, root, id, pivots, children, j);
    assert Linked(A, root, children[i]);
    var k: Key := A[children[i]].hi;
    RouteIs(A, root, id, pivots, children, i, k);
    RouteIs(A, root, id, pivots, children, j, k);
  }

  /** The same node under another labelling with the same ranges. */
  lemma KidsFrame(A: Labelling, B: Labelling, root: PageId, id: PageId, pivots: seq<Key>, children: seq<PageId>)
    requires id in A && AllKids(A, root, id, pivots, children)
    requires id in B && B[id].lo == A[id].lo && B[id].hi == A[id].hi
    requires forall c :: c in children ==>
               c in A && c in B && B[c].lo == A[c].lo && B[c].hi == A[c].hi && B[c].parent == A[c].parent
    ensures AllKids(B, root, id, pivots, children)
  {
    forall i | 0 <= i < |children| ensures Kid(B, root, id, pivots, children, i) {
      assert Kid(A, root, id, pivots, children, i);
      assert children[i] in children;
    }
  }

  // ---- splitting a node -----------------------------------------------------------------------

  /** The position at which splitInnerNode cuts a node with `size` pivots. */
  function SplitIndex(size: nat): nat
    requires size >= 2
  {
    (size - 1) / 2
  }

  lemma KidSides(A: Labelling, root: PageId, id: PageId, pivots: seq<Key>, children: seq<PageId>, at: nat)
    requires Consistent(A, root) && id in A && AllKids(A, root, id, pivots, children) && at < |pivots|
    ensures forall i :: 0 <= i < |children| ==> children[i] in A && A[children[i]].lo < A[children[i]].hi
    ensures forall i :: 0 <= i <= at ==> A[children[i]].hi <= pivots[at]
    ensures forall i :: at < i < |children| ==> pivots[at] <= A[children[i]].lo
  {
    KidsSorted(A, root, id, pivots, children);
    hide Consistent;
    forall i | 0 <= i < |children|
      ensures children[i] in A && A[children[i]].lo < A[children[i]].hi
      ensures i <= at ==> A[children[i]].hi <= pivots[at]
      ensures at < i ==> pivots[at] <= A[children[i]].lo
    {
      KidRange(A, root, id, pivots, children, i);
      assert Kid(A, root, id, pivots, children, i);
    }
  }

  /** A node may be split at any of its pivots. */
  lemma PivotSplittable(A: Labelling, root: PageId, id: PageId, pivots: seq<Key>, children: seq<PageId>, at: nat)
    requires Consistent(A, root) && id in A && id != root
    requires AllKids(A, root, id, pivots, children) && at < |pivots|
    ensures Splittable(A, root, id, pivots[at])
  {
    KidsSorted(A, root, id, pivots, children);
    KidSides(A, root, id, pivots, children, at);
    forall x | x in A && x != root && A[x].parent == id ensures A[x].hi <= pivots[at] || pivots[at] <= A[x].lo {
      var i := KidListed(A, root, id, pivots, children, x);
    }
  }

  /** The two nodes that splitInnerNode leaves agree with the labels after the split. */
  lemma KidsSplit(A: Labelling, root: PageId, id: PageId, r: PageId, pivots: seq<Key>, children: seq<PageId>, at: nat)
    requires Consistent(A, root) && id in A && id != root && r !in A && r != root
    requires AllKids(A, root, id, pivots, children) && at < |pivots|
    ensures AllKids(Split(A, id, r, pivots[at]), root, id, pivots[..at], children[..at + 1])
    ensures AllKids(Split(A, id, r, pivots[at]), root, r, pivots[at + 1..], children[at + 1..])
  {
    var B := Split(A, id, r, pivots[at]);
    KidSides(A, root, id, pivots, children, at);
    ParentTaller(A, root, id);
    KidsNotSelf(A, root, id, pivots, children);
    hide Consistent, LeftHalf, RightHalf;
    var lp, lc, rp, rc := pivots[..at], children[..at + 1], pivots[at + 1..], children[at + 1..];
    forall i | 0 <= i < |lc| ensures Kid(B, root, id, lp, lc, i) {
      assert Kid(A, root, id, pivots, children, i);
    }
    forall i | 0 <= i < |rc| ensures Kid(B, root, r, rp, rc, i) {
      assert Kid(A, root, id, pivots, children, at + 1 + i);
    }
  }

  lemma KidsNotSelf(A: Labelling, root: PageId, id: PageId, pivots: seq<Key>, children: seq<PageId>)
    requires Consistent(A, root) && id in A && AllKids(A, root, id, pivots, children)
    ensures forall i :: 0 <= i < |children| ==> children[i] != id
  {
    forall i | 0 <= i < |children| ensures children[i] != id {
      assert Kid(A, root, id, pivots, children, i);
      ParentTaller(A, root, children[i]);
    }
  }

  lemma LeafInRange(A: Labelling, root: PageId, x: PageId, l: Leaf)
    requires Consistent(A, root) && x in A && LeafOK(l) && A[x].leaf == Pairs(l)
    ensures forall k :: k in l.keys ==> Within(A[x].lo, k, A[x].hi)
  {
    assert Linked(A, root, x);
    assert Base(A[x]);
    PairsKeys(l);
  }

  lemma KidLabels(A: Labelling, root: PageId, x: PageId, pivots: seq<Key>, children: seq<PageId>, i: nat)
    requires Consistent(A, root) && x in A && AllKids(A, root, x, pivots, children) && i < |children|
    ensures |children| == |pivots| + 1
    ensures var c := children[i];
            c in A && c != root && A[c].parent == x && A[c].height + 1 == A[x].height &&
            A[c].lo == LowEnd(pivots, i, A[x].lo) && A[c].hi == HighEnd(pivots, i, A[x].hi)
  {
    assert Kid(A, root, x, pivots, children, i);
    ParentTaller(A, root, children[i]);
  }
}
