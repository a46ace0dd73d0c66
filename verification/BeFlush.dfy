/** What a child page stores after messages have been flushed to it, and after it has split. */
module BeFlush {
  import opened Keys
  import opened Messages
  import opened MergeUpserts
  import opened Labels
  import opened Leaves
  import opened LeafFlush
  import opened Kids
  import opened InsertPivots
  import opened BeSizes
  import opened BeNodes
  import opened RemoveMessages
  import Median

  // ---- arrival --------------------------------------------------------------------------------

  lemma MergeWithNone(m: map<Key, Upsert>)
    requires KeyedRight(m)
    ensures MergeMap(map[], m) == m
  {
  }

  lemma SplitsNone(m: map<Key, Upsert>, a: map<Key, Upsert>)
    requires Splits(m, a, map[])
    ensures m == a
  {
  }

  /** At a leaf, flushed messages stay pending until the leaf applies them. */
  lemma LeafReceives(n: Node, l: Label, moved: map<Key, Upsert>)
    requires n.LeafNode? && ContentOK(n, l, map[], false) && KeyedRight(moved)
    ensures KeyedRight(l.msgs) && ContentOK(n, Filled(l, moved), moved, false)
  {
    MergeWithNone(moved);
  }

  /** At an inner node they are merged into the buffer, up to those that are passed on. */
  lemma InnerReceives(n: Node, l: Label, moved: map<Key, Upsert>, rest: seq<Upsert>, gone: map<Key, Upsert>)
    requires n.InnerNode? && ContentOK(n, l, map[], false) && KeyedRight(moved)
    requires Sorted(rest) && |rest| <= SIZES.innerBN && gone.Keys !! MapOf(rest).Keys
    requires gone + MapOf(rest) == MergeMap(MapOf(n.upserts), moved)
    ensures KeyedRight(l.msgs)
    ensures ContentOK(n.(upserts := rest), Filled(l, moved), gone, false)
  {
    SplitsNone(l.msgs, MapOf(n.upserts));
    hide Sorted, Holds, MergeMap, KeyedRight;
    assert KeyedRight(MapOf(n.upserts)) by { HeldKeyedRight(n.upserts, MapOf(n.upserts)); }
    DisjointUnionCommutes(gone, MapOf(rest));
  }

  lemma HeldKeyedRight(s: seq<Upsert>, m: map<Key, Upsert>)
    requires Holds(s, m)
    ensures KeyedRight(m)
  {
  }

  lemma DisjointUnionCommutes(a: map<Key, Upsert>, b: map<Key, Upsert>)
    requires a.Keys !! b.Keys
    ensures a + b == b + a
  {
  }

  // ---- splitting ------------------------------------------------------------------------------

  ghost function UpTo(m: map<Key, Upsert>, mid: Key): map<Key, Upsert> {
    map k | k in m && k <= mid :: m[k]
  }

  ghost function Above(m: map<Key, Upsert>, mid: Key): map<Key, Upsert> {
    map k | k in m && k > mid :: m[k]
  }

  lemma HalfLabels(l: Label, mid: Key)
    ensures LeftHalf(l, mid).msgs == UpTo(l.msgs, mid) && LeftHalf(l, mid).leaf == PairsUpTo(l.leaf, mid)
    ensures RightHalf(l, mid).msgs == Above(l.msgs, mid) && RightHalf(l, mid).leaf == PairsAbove(l.leaf, mid)
  {
  }

  /** A sorted run splits at the first message above `mid`. */
  lemma RunSplits(s: seq<Upsert>, mid: Key)
    requires Sorted(s)
    ensures var at := UpperBound(KeysOf(s), mid);
            Sorted(s[..at]) && Sorted(s[at..]) &&
            MapOf(s[..at]) == UpTo(MapOf(s), mid) && MapOf(s[at..]) == Above(MapOf(s), mid)
  {
    var at := UpperBound(KeysOf(s), mid);
    assert s == s[..at] + s[at..];
    MapOfConcat(s[..at], s[at..]);
    RunSides(s, at, mid);
    HeldSides(s[..at], MapOf(s[..at]));
    HeldSides(s[at..], MapOf(s[at..]));
    hide Sorted, Holds, UpperBound, KeysOf;
    SidesOf(MapOf(s), MapOf(s[..at]), MapOf(s[at..]), mid);
  }

  lemma SidesOf(m: map<Key, Upsert>, a: map<Key, Upsert>, b: map<Key, Upsert>, mid: Key)
    requires m == a + b && a.Keys !! b.Keys
    requires (forall k :: k in a ==> k <= mid) && (forall k :: k in b ==> k > mid)
    ensures a == UpTo(m, mid) && b == Above(m, mid)
  {
  }

  lemma RunSides(s: seq<Upsert>, at: nat, mid: Key)
    requires Sorted(s) && at == UpperBound(KeysOf(s), mid)
    ensures forall u :: u in s[..at] ==> u.key <= mid
    ensures forall u :: u in s[at..] ==> u.key > mid
    ensures Sorted(s[..at]) ==> forall k :: k in MapOf(s[..at]) ==> k <= mid
    ensures Sorted(s[at..]) ==> forall k :: k in MapOf(s[at..]) ==> k > mid
  {
    forall u | u in s[at..] ensures u.key > mid {
      var i :| 0 <= i < |s| - at && s[at..][i] == u;
      assert s[at].key <= s[at + i].key;
    }
    forall u | u in s[..at] ensures u.key <= mid {
      var i :| 0 <= i < at && s[..at][i] == u;
      assert KeysOf(s)[i] == u.key;
    }
    SideKeys(s[..at]);
    SideKeys(s[at..]);
  }

  lemma SideKeys(s: seq<Upsert>)
    ensures Sorted(s) ==> forall k :: k in MapOf(s) ==> exists u :: u in s && u.key == k
  {
    if Sorted(s) {
      forall k | k in MapOf(s) ensures exists u :: u in s && u.key == k {
        var u := MapOf(s)[k];
        assert u in s && u.key == k;
      }
    }
  }

  lemma HeldSides(s: seq<Upsert>, m: map<Key, Upsert>)
    requires Holds(s, m)
    ensures forall k :: k in m ==> m[k] in s && m[k].key == k
  {
  }

  /** The halves of a leaf at `mid`. */
  lemma LeafHalves(n: Node, l: Label, pending: map<Key, Upsert>, mid: Key)
    requires n.LeafNode? && ContentOK(n, l, pending, false)
    ensures |n.leaf.keys| == |n.leaf.values|
    ensures ContentOK(LeafNode(SplitLeft(n.leaf, mid)), LeftHalf(l, mid), UpTo(pending, mid), false)
    ensures ContentOK(LeafNode(SplitRight(n.leaf, mid)), RightHalf(l, mid), Above(pending, mid), false)
  {
    HalfLabels(l, mid);
    SplitLeftPairs(n.leaf, mid);
    SplitRightPairs(n.leaf, mid);
    hide LeafOK, HoldsPairs;
  }

  /** splitInnerNode on node values: the pivot at `at` moves up, the children and messages above
      it move to the new node. */
  function InnerLeft(n: Node, at: nat): Node
    requires n.InnerNode? && at < |n.pivots| && |n.children| == |n.pivots| + 1
  {
    InnerNode(n.upserts[..UpperBound(KeysOf(n.upserts), n.pivots[at])], n.pivots[..at], n.children[..at + 1])
  }

  function InnerRight(n: Node, at: nat): Node
    requires n.InnerNode? && at < |n.pivots| && |n.children| == |n.pivots| + 1
  {
    InnerNode(n.upserts[UpperBound(KeysOf(n.upserts), n.pivots[at])..], n.pivots[at + 1..], n.children[at + 1..])
  }

  lemma SplitsHalves(m: map<Key, Upsert>, a: map<Key, Upsert>, b: map<Key, Upsert>, mid: Key)
    requires Splits(m, a, b)
    ensures Splits(UpTo(m, mid), UpTo(a, mid), UpTo(b, mid))
    ensures Splits(Above(m, mid), Above(a, mid), Above(b, mid))
  {
  }

  lemma InnerHalves(n: Node, l: Label, pending: map<Key, Upsert>, at: nat)
    requires n.InnerNode? && ContentOK(n, l, pending, false) && at < |n.pivots| && |n.children| == |n.pivots| + 1
    ensures ContentOK(InnerLeft(n, at), LeftHalf(l, n.pivots[at]), UpTo(pending, n.pivots[at]), false)
    ensures ContentOK(InnerRight(n, at), RightHalf(l, n.pivots[at]), Above(pending, n.pivots[at]), false)
  {
    var mid := n.pivots[at];
    HalfLabels(l, mid);
    RunSplits(n.upserts, mid);
    SplitsHalves(l.msgs, MapOf(n.upserts), pending, mid);
    hide Sorted, Splits, Holds;
  }

  // ---- splitting what is on its way -----------------------------------------------------------

  lemma RouteLeft(pivots: seq<Key>, at: nat, k: Key)
    requires StrictlySorted(pivots) && at < |pivots|
    ensures k <= pivots[at] <==> LowerBound(pivots, k) <= at
    ensures k <= pivots[at] ==> LowerBound(pivots[..at], k) == LowerBound(pivots, k)
    ensures k > pivots[at] ==> LowerBound(pivots[at + 1..], k) == LowerBound(pivots, k) - at - 1
  {
    var lb := LowerBound(pivots, k);
    if k <= pivots[at] {
      LowerBoundUnique(pivots[..at], k, lb);
    } else {
      assert at < lb;
      var right := pivots[at + 1..];
      assert lb > at + 1 ==> right[lb - at - 2] == pivots[lb - 1];
      LowerBoundUnique(right, k, lb - at - 1);
    }
  }

  /** The messages for the children up to `at`, which the left node keeps. */
  ghost predicate IsLeftMap(flushed: MessageMap, at: nat, left: MessageMap) {
    && (forall c :: c in left ==> c in flushed && c <= at && left[c] == flushed[c])
    && (forall c :: c in flushed && c <= at ==> c in left)
  }

  /** The messages for the children after `at`, renumbered for the right node. */
  ghost predicate IsRightMap(flushed: MessageMap, at: nat, right: MessageMap) {
    && (forall d :: d in right ==> d + at + 1 in flushed && right[d] == flushed[d + at + 1])
    && (forall c :: c in flushed && c > at ==> c - at - 1 in right)
  }

  lemma LeftMapStep(part: MessageMap, at: nat, left: MessageMap, right: MessageMap, c: nat, v: seq<Upsert>)
    requires IsLeftMap(part, at, left) && IsRightMap(part, at, right) && c !in part && c <= at
    ensures IsLeftMap(part[c := v], at, left[c := v]) && IsRightMap(part[c := v], at, right)
    ensures |left[c := v]| == |left| + 1 && |part[c := v]| == |part| + 1
  {
    LeftMapStepRight(part, at, right, c, v);
    hide IsRightMap;
  }

  lemma LeftMapStepRight(part: MessageMap, at: nat, right: MessageMap, c: nat, v: seq<Upsert>)
    requires IsRightMap(part, at, right) && c !in part && c <= at
    ensures IsRightMap(part[c := v], at, right)
  {
  }

  lemma RightMapStep(part: MessageMap, at: nat, left: MessageMap, right: MessageMap, c: nat, v: seq<Upsert>)
    requires IsLeftMap(part, at, left) && IsRightMap(part, at, right) && c !in part && c > at
    ensures IsLeftMap(part[c := v], at, left) && IsRightMap(part[c := v], at, right[c - at - 1 := v])
    ensures |right[c - at - 1 := v]| == |right| + 1 && |part[c := v]| == |part| + 1
  {
    RightMapStepRight(part, at, right, c, c - at - 1, v);
    hide IsRightMap;
  }

  lemma RightMapStepRight(part: MessageMap, at: nat, right: MessageMap, c: nat, e: nat, v: seq<Upsert>)
    requires IsRightMap(part, at, right) && c !in part && c == e + at + 1
    ensures e !in right && IsRightMap(part[c := v], at, right[e := v])
  {
    var part', right' := part[c := v], right[e := v];
    forall d | d in right' ensures d + at + 1 in part' && right'[d] == part'[d + at + 1] {
      if d != e { assert d in right; }
    }
    forall b | b in part' && b > at ensures b - at - 1 in right' {
      if b != c { assert b in part; }
    }
  }

  lemma SplitMapStart(at: nat)
    ensures IsLeftMap(map[], at, map[]) && IsRightMap(map[], at, map[])
  {
  }

  /** Divides the messages of a split node between its halves. */
  method SplitMap(flushed: MessageMap, at: nat) returns (left: MessageMap, right: MessageMap)
    ensures IsLeftMap(flushed, at, left) && IsRightMap(flushed, at, right)
    ensures |left| + |right| == |flushed|
  {
    hide *;
    left, right := map[], map[];
    var todo := flushed.Keys;
    ghost var part: MessageMap := map[];
    SplitMapStart(at);
    while todo != {}
      invariant part.Keys !! todo && part.Keys + todo == flushed.Keys
      invariant forall c :: c in part ==> part[c] == flushed[c]
      invariant IsLeftMap(part, at, left) && IsRightMap(part, at, right)
      invariant |left| + |right| == |part|
      decreases |todo|
    {
      var c: nat :| c in todo;
      if c <= at {
        LeftMapStep(part, at, left, right, c, flushed[c]);
        left := left[c := flushed[c]];
      } else {
        RightMapStep(part, at, left, right, c, flushed[c]);
        right := right[c - at - 1 := flushed[c]];
      }
      part := part[c := flushed[c]];
      todo := todo - {c};
    }
    assert part == flushed;
  }

  lemma {:induction false} BoundedKeys(s: set<nat>, n: nat)
    requires forall x :: x in s ==> x < n
    ensures |s| <= n
  {
    if n == 0 {
      assert s == {};
    } else {
      BoundedKeys(s - {n - 1}, n - 1);
    }
  }

  lemma CarriesLeft(pivots: seq<Key>, flushed: MessageMap, gone: map<Key, Upsert>, at: nat, left: MessageMap)
    requires StrictlySorted(pivots) && at < |pivots| && Carries(pivots, flushed, gone)
    requires IsLeftMap(flushed, at, left)
    ensures Carries(pivots[..at], left, UpTo(gone, pivots[at]))
  {
    var ps, g := pivots[..at], UpTo(gone, pivots[at]);
    hide StrictlySorted, LowerBound, Sorted;
    forall c | c in left ensures CarriesChild(ps, left, g, c) {
      assert CarriesChild(pivots, flushed, gone, c);
      forall u: Upsert | u in left[c] ensures LowerBound(ps, u.key) == c && u.key in g && g[u.key] == u {
        RouteLeft(pivots, at, u.key);
      }
    }
    forall k | k in g ensures CarriesKey(ps, left, g, k) {
      assert CarriesKey(pivots, flushed, gone, k);
      RouteLeft(pivots, at, k);
    }
  }

  lemma CarriesRight(pivots: seq<Key>, flushed: MessageMap, gone: map<Key, Upsert>, at: nat, right: MessageMap)
    requires StrictlySorted(pivots) && at < |pivots| && Carries(pivots, flushed, gone)
    requires IsRightMap(flushed, at, right)
    ensures Carries(pivots[at + 1..], right, Above(gone, pivots[at]))
  {
    var ps, g := pivots[at + 1..], Above(gone, pivots[at]);
    hide StrictlySorted, LowerBound, Sorted;
    forall d | d in right ensures CarriesChild(ps, right, g, d) {
      assert CarriesChild(pivots, flushed, gone, d + at + 1);
      forall u: Upsert | u in right[d] ensures LowerBound(ps, u.key) == d && u.key in g && g[u.key] == u {
        RouteLeft(pivots, at, u.key);
      }
    }
    forall k | k in g ensures CarriesKey(ps, right, g, k) {
      assert CarriesKey(pivots, flushed, gone, k);
      RouteLeft(pivots, at, k);
    }
  }

  /** One child's list leaves: the others still carry the rest. */
  lemma CarriesOthers(pivots: seq<Key>, flushed: MessageMap, gone: map<Key, Upsert>, c: nat)
    requires Carries(pivots, flushed, gone) && c in flushed
    ensures Sorted(flushed[c]) && flushed[c] != []
    ensures PartOf(MapOf(flushed[c]), gone)
    ensures Carries(pivots, flushed - {c}, Without(gone, MapOf(flushed[c])))
    ensures forall k :: k in MapOf(flushed[c]) ==> LowerBound(pivots, k) == c
  {
    assert CarriesChild(pivots, flushed, gone, c);
    var m := MapOf(flushed[c]);
    HeldSides(flushed[c], m);
    var f, g := flushed - {c}, Without(gone, m);
    hide Sorted, LowerBound;
    forall k | k in m ensures k in gone && gone[k] == m[k] && LowerBound(pivots, k) == c {
      assert m[k] in flushed[c];
    }
    forall d | d in f ensures CarriesChild(pivots, f, g, d) {
      assert CarriesChild(pivots, flushed, gone, d);
      forall u: Upsert | u in f[d] ensures u.key in g && g[u.key] == u {
        assert LowerBound(pivots, u.key) == d;
      }
    }
    forall k | k in g ensures CarriesKey(pivots, f, g, k) {
      assert CarriesKey(pivots, flushed, gone, k);
    }
  }

  lemma NothingCarried(pivots: seq<Key>, gone: map<Key, Upsert>)
    requires Carries(pivots, map[], gone)
    ensures gone == map[]
  {
    assert forall k :: k in gone ==> CarriesKey(pivots, map[], gone, k);
  }

  lemma SomethingCarried(pivots: seq<Key>, flushed: MessageMap, gone: map<Key, Upsert>)
    requires Carries(pivots, flushed, gone) && flushed != map[]
    ensures gone != map[]
  {
    var c :| c in flushed;
    assert CarriesChild(pivots, flushed, gone, c);
    var u := flushed[c][0];
    assert u in flushed[c];
  }
}
