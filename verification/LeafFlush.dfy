/** Flushing messages into a leaf: the size forecast, the split at the combined median, and why
    no leaf ever overflows while the messages are applied one by one. */
module LeafFlush {
  import opened Keys
  import opened Messages
  import opened Leaves
  import opened BeSizes
  import Median

  /** A leaf after a run of messages. */
  function LeafAfter(l: Leaf, msgs: seq<Upsert>): (r: Leaf)
    requires |l.keys| == |l.values|
    ensures |r.keys| == |r.values|
  {
    if msgs == [] then l else Upserted(LeafAfter(l, msgs[..|msgs| - 1]), msgs[|msgs| - 1])
  }

  lemma LeafAfterNext(l: Leaf, msgs: seq<Upsert>, j: nat)
    requires |l.keys| == |l.values| && j < |msgs|
    ensures LeafAfter(l, msgs[..j + 1]) == Upserted(LeafAfter(l, msgs[..j]), msgs[j])
  {
    assert msgs[..j + 1][..j] == msgs[..j];
  }

  lemma ActOnOneKey(m: map<Key, Value>, u: Upsert, k: Key)
    ensures Get(ActOnPairs(m, u), k) == if k == u.key then Act(u, Get(m, k)) else Get(m, k)
  {
  }

  /** A run of messages acts on every key of a leaf as its own message says. */
  lemma {:induction false} LeafAfterActs(l: Leaf, msgs: seq<Upsert>, k: Key)
    requires LeafOK(l) && Sorted(msgs)
    ensures LeafOK(LeafAfter(l, msgs))
    ensures Get(Pairs(LeafAfter(l, msgs)), k) == ActOn(MapOf(msgs), k, Get(Pairs(l), k))
  {
    if msgs == [] {
      assert MapOf(msgs) == map[];
    } else {
      var front, u := msgs[..|msgs| - 1], msgs[|msgs| - 1];
      assert msgs == front + [u];
      MapOfAppend(front, u);
      LeafAfterActs(l, front, k);
      UpsertedPairs(LeafAfter(l, front), u);
      ActOnOneKey(Pairs(LeafAfter(l, front)), u, k);
      hide Upserted, ActOnPairs, Act, Sorted, StrictlySorted, HoldsPairs, Holds, LowerBound;
    }
  }

  /** A message for a key that no earlier message mentions finds it exactly if the leaf had it. */
  lemma LeafAfterKeeps(l: Leaf, msgs: seq<Upsert>, u: Upsert)
    requires LeafOK(l) && Sorted(msgs + [u])
    ensures Sorted(msgs) && LeafOK(LeafAfter(l, msgs))
    ensures u.key in LeafAfter(l, msgs).keys <==> u.key in l.keys
  {
    MapOfAppend(msgs, u);
    LeafAfterActs(l, msgs, u.key);
    BoundsDiffer(l.keys, u.key);
    PairsLookup(l, u.key);
    BoundsDiffer(LeafAfter(l, msgs).keys, u.key);
    PairsLookup(LeafAfter(l, msgs), u.key);
  }

  /** How one message changes the number of pairs. */
  lemma UpsertedSize(l: Leaf, u: Upsert)
    requires LeafOK(l)
    ensures |Upserted(l, u).keys| ==
            |l.keys| + (if u.kind.INSERT? && u.key !in l.keys then 1 else 0)
                     - (if u.kind.DELETE? && u.key in l.keys then 1 else 0)
  {
    BoundsDiffer(l.keys, u.key);
  }

  /** The leaf stays within its capacity after every single message. */
  ghost predicate Fits(l: Leaf, msgs: seq<Upsert>)
    requires |l.keys| == |l.values|
  {
    forall j :: 0 <= j <= |msgs| ==> |LeafAfter(l, msgs[..j]).keys| <= SIZES.leafN
  }

  // ---- the forecast ---------------------------------------------------------------------------

  /** The forecast's test for an existing key. The iterators are subtracted the wrong way round,
      so the difference wraps around and the test only ever recognises the leaf's first key. */
  predicate SeenInLeaf(keys: seq<Key>, key: Key)
    requires |keys| <= SIZES.leafN
  {
    var i := LowerBound(keys, key);
    (0 - i) % 0x1_0000_0000_0000_0000 < |keys| && keys[i] == key
  }

  /** The test recognises a key exactly if it is the leaf's first one. */
  lemma OnlyFirstIsSeen(keys: seq<Key>, key: Key)
    requires StrictlySorted(keys) && |keys| <= SIZES.leafN
    ensures SeenInLeaf(keys, key) <==> keys != [] && keys[0] == key
  {
    var i: int := LowerBound(keys, key);
    assert 0 < i ==> (0 - i) % 0x1_0000_0000_0000_0000 == 0x1_0000_0000_0000_0000 - i;
  }

  /** A leaf's second key is taken for a new one. */
  lemma SecondKeyOverlooked()
    ensures |[1, 2]| <= SIZES.leafN && !SeenInLeaf([1, 2], 2)
  {
    OnlyFirstIsSeen([1, 2], 2);
  }

  /** The forecast counts the leaf's size after a message. */
  function Forecast(size: nat, u: Upsert, seen: bool): nat {
    if u.kind.INSERT? then (if seen then size else size + 1)
    else if size >= 1 && seen then size - 1 else size
  }

  lemma ForecastStep(l: Leaf, msgs: seq<Upsert>, j: nat, size: nat, seen: bool)
    requires LeafOK(l) && Sorted(msgs) && j < |msgs|
    requires |LeafAfter(l, msgs[..j]).keys| <= size
    requires seen ==> msgs[j].key in l.keys
    ensures msgs[j].kind.UPDATE? ==> |LeafAfter(l, msgs[..j + 1]).keys| <= size
    ensures !msgs[j].kind.UPDATE? ==> |LeafAfter(l, msgs[..j + 1]).keys| <= Forecast(size, msgs[j], seen)
  {
    hide Sorted, StrictlySorted, LeafAfter, Upserted;
    LeafAfterNext(l, msgs, j);
    assert msgs == (msgs[..j] + [msgs[j]]) + msgs[j + 1..];
    SortedConcat(msgs[..j] + [msgs[j]], msgs[j + 1..]);
    LeafAfterKeeps(l, msgs[..j], msgs[j]);
    UpsertedSize(LeafAfter(l, msgs[..j]), msgs[j]);
  }

  /** The forecast after a run of messages. */
  function Estimate(l: Leaf, msgs: seq<Upsert>): nat
    requires |l.keys| <= SIZES.leafN
  {
    if msgs == [] then |l.keys|
    else
      var size, u := Estimate(l, msgs[..|msgs| - 1]), msgs[|msgs| - 1];
      if u.kind.UPDATE? then size else Forecast(size, u, SeenInLeaf(l.keys, u.key))
  }

  lemma EstimateNext(l: Leaf, msgs: seq<Upsert>, j: nat)
    requires |l.keys| <= SIZES.leafN && j < |msgs|
    ensures Estimate(l, msgs[..j + 1]) ==
            if msgs[j].kind.UPDATE? then Estimate(l, msgs[..j])
            else Forecast(Estimate(l, msgs[..j]), msgs[j], SeenInLeaf(l.keys, msgs[j].key))
  {
    assert msgs[..j + 1][..j] == msgs[..j];
  }

  /** The forecast never falls short of the leaf's real size, and never exceeds leaf and messages
      together. */
  lemma {:induction false} EstimateBounds(l: Leaf, msgs: seq<Upsert>, j: nat)
    requires LeafOK(l) && |l.keys| == |l.values| && Sorted(msgs) && |l.keys| <= SIZES.leafN && j <= |msgs|
    ensures |LeafAfter(l, msgs[..j]).keys| <= Estimate(l, msgs[..j]) <= |l.keys| + j
    decreases j
  {
    hide *;
    if j == 0 {
      EstimateStart(l, msgs);
    } else {
      var u, size := msgs[j - 1], Estimate(l, msgs[..j - 1]);
      EstimateBounds(l, msgs, j - 1);
      EstimateNext(l, msgs, j - 1);
      SeenIsThere(l.keys, u.key);
      ForecastGrowth(size, u, SeenInLeaf(l.keys, u.key));
      ForecastStep(l, msgs, j - 1, size, SeenInLeaf(l.keys, u.key));
    }
  }

  lemma SeenIsThere(keys: seq<Key>, key: Key)
    requires |keys| <= SIZES.leafN
    ensures SeenInLeaf(keys, key) ==> key in keys
  {
  }

  lemma ForecastGrowth(size: nat, u: Upsert, seen: bool)
    ensures Forecast(size, u, seen) <= size + 1
  {
  }

  lemma EstimateStart(l: Leaf, msgs: seq<Upsert>)
    requires |l.keys| <= SIZES.leafN
    ensures Estimate(l, msgs[..0]) == |l.keys|
    ensures |l.keys| == |l.values| ==> LeafAfter(l, msgs[..0]) == l
  {
  }

  /** The insertions that the forecast takes for new keys: all but one of the leaf's first key. */
  ghost function CountedAsNew(keys: seq<Key>, msgs: seq<Upsert>): set<nat> {
    set i | 0 <= i < |msgs| && msgs[i].kind.INSERT? && !(keys != [] && keys[0] == msgs[i].key)
  }

  ghost predicate DeletesFirst(keys: seq<Key>, msgs: seq<Upsert>) {
    keys != [] && exists i :: 0 <= i < |msgs| && msgs[i].kind.DELETE? && msgs[i].key == keys[0]
  }

  /** The forecast exactly: the leaf's size, one more for every insertion but one of the first key, and
      one less if the first key is deleted. */
  lemma {:induction false} EstimateIs(l: Leaf, msgs: seq<Upsert>, j: nat)
    requires LeafOK(l) && Sorted(msgs) && |l.keys| <= SIZES.leafN && j <= |msgs|
    ensures Estimate(l, msgs[..j]) ==
            |l.keys| + |CountedAsNew(l.keys, msgs[..j])| - if DeletesFirst(l.keys, msgs[..j]) then 1 else 0
    decreases j
  {
    if j == 0 {
      assert CountedAsNew(l.keys, msgs[..0]) == {};
    } else {
      var u := msgs[j - 1];
      EstimateIs(l, msgs, j - 1);
      EstimateNext(l, msgs, j - 1);
      OnlyFirstIsSeen(l.keys, u.key);
      CountedNext(l.keys, msgs, j - 1);
      hide Estimate, CountedAsNew, DeletesFirst, SeenInLeaf, Sorted;
    }
  }

  lemma CountedNext(keys: seq<Key>, msgs: seq<Upsert>, j: nat)
    requires Sorted(msgs) && j < |msgs|
    ensures var u, first := msgs[j], keys != [] && keys[0] == msgs[j].key;
            |CountedAsNew(keys, msgs[..j + 1])| == |CountedAsNew(keys, msgs[..j])| + (if u.kind.INSERT? && !first then 1 else 0) &&
            (first ==> !DeletesFirst(keys, msgs[..j])) &&
            (DeletesFirst(keys, msgs[..j + 1]) <==> DeletesFirst(keys, msgs[..j]) || (first && u.kind.DELETE?))
  {
    CountedAsNewNext(keys, msgs, j);
    DeletesFirstNext(keys, msgs, j);
    hide *;
  }

  lemma CountedAsNewNext(keys: seq<Key>, msgs: seq<Upsert>, j: nat)
    requires j < |msgs|
    ensures var u, first := msgs[j], keys != [] && keys[0] == msgs[j].key;
            |CountedAsNew(keys, msgs[..j + 1])| == |CountedAsNew(keys, msgs[..j])| + if u.kind.INSERT? && !first then 1 else 0
  {
    var u, first := msgs[j], keys != [] && keys[0] == msgs[j].key;
    assert forall i :: 0 <= i < j ==> msgs[..j + 1][i] == msgs[..j][i];
    assert msgs[..j + 1][j] == u;
    var a, b := CountedAsNew(keys, msgs[..j]), CountedAsNew(keys, msgs[..j + 1]);
    assert b == if u.kind.INSERT? && !first then a + {j} else a;
    assert j !in a;
  }

  lemma DeletesFirstNext(keys: seq<Key>, msgs: seq<Upsert>, j: nat)
    requires Sorted(msgs) && j < |msgs|
    ensures var u, first := msgs[j], keys != [] && keys[0] == msgs[j].key;
            (first ==> !DeletesFirst(keys, msgs[..j])) &&
            (DeletesFirst(keys, msgs[..j + 1]) <==> DeletesFirst(keys, msgs[..j]) || (first && u.kind.DELETE?))
  {
    assert forall i :: 0 <= i < j ==> msgs[..j + 1][i] == msgs[..j][i];
    assert msgs[..j + 1][j] == msgs[j];
  }

  /** Some prefix of the messages is forecast to exceed the leaf's capacity. */
  ghost predicate MayOverflow(l: Leaf, msgs: seq<Upsert>)
    requires |l.keys| <= SIZES.leafN
  {
    exists j :: 0 <= j <= |msgs| && Estimate(l, msgs[..j]) > SIZES.leafN
  }

  /** A negative forecast guarantees that every message can be applied without overflowing the
      leaf; a positive one, that leaf and messages together outnumber the leaf's capacity. */
  lemma ForecastIsSafe(l: Leaf, msgs: seq<Upsert>)
    requires LeafOK(l) && Sorted(msgs) && |l.keys| <= SIZES.leafN
    ensures |l.keys| == |l.values|
    ensures !MayOverflow(l, msgs) ==> Fits(l, msgs)
    ensures MayOverflow(l, msgs) ==> |l.keys| + |msgs| > SIZES.leafN
  {
    hide LeafAfter, Estimate, Sorted;
    forall j | 0 <= j <= |msgs|
      ensures |LeafAfter(l, msgs[..j]).keys| <= Estimate(l, msgs[..j]) <= |l.keys| + j
    {
      EstimateBounds(l, msgs, j);
    }
  }

  /** The remembered keys are keys of the first `j` messages. */
  ghost predicate SeenAmong(msgs: seq<Upsert>, j: nat, seenKeys: set<Key>) {
    forall q :: q in seenKeys ==> exists i :: 0 <= i < j <= |msgs| && msgs[i].key == q
  }

  lemma NotSeenBefore(msgs: seq<Upsert>, j: nat, seenKeys: set<Key>)
    requires Sorted(msgs) && j < |msgs| && SeenAmong(msgs, j, seenKeys)
    ensures msgs[j].key !in seenKeys
    ensures SeenAmong(msgs, j + 1, seenKeys)
    ensures SeenAmong(msgs, j + 1, seenKeys + {msgs[j].key}) && SeenAmong(msgs, j + 1, seenKeys - {msgs[j].key})
  {
  }

  /** The first `j` messages are not forecast to exceed the capacity. */
  ghost predicate NoneYet(l: Leaf, msgs: seq<Upsert>, j: nat)
    requires |l.keys| <= SIZES.leafN
  {
    forall i :: 0 <= i <= j && i <= |msgs| ==> Estimate(l, msgs[..i]) <= SIZES.leafN
  }

  lemma NoneYetMore(l: Leaf, msgs: seq<Upsert>, j: nat)
    requires |l.keys| <= SIZES.leafN && j <= |msgs|
    ensures Estimate(l, msgs[..j]) > SIZES.leafN ==> MayOverflow(l, msgs)
    ensures j > 0 && NoneYet(l, msgs, j - 1) && Estimate(l, msgs[..j]) <= SIZES.leafN ==> NoneYet(l, msgs, j)
    ensures j == |msgs| && NoneYet(l, msgs, j) ==> !MayOverflow(l, msgs)
  {
    hide Estimate;
  }

  lemma StartForecast(l: Leaf, msgs: seq<Upsert>)
    requires |l.keys| <= SIZES.leafN
    ensures Estimate(l, msgs[..0]) == |l.keys| && NoneYet(l, msgs, 0) && SeenAmong(msgs, 0, {})
  {
  }

  /** The size forecast of handleTraversalNode. No key is met twice, so the keys it remembers never
      matter. */
  method NeedToSplit(l: Leaf, msgs: seq<Upsert>) returns (needToSplit: bool)
    requires LeafOK(l) && Sorted(msgs) && |l.keys| <= SIZES.leafN
    ensures needToSplit <==> MayOverflow(l, msgs)
    ensures !needToSplit ==> Fits(l, msgs)
    ensures needToSplit ==> |l.keys| + |msgs| > SIZES.leafN
  {
    hide *;
    ForecastIsSafe(l, msgs);
    StartForecast(l, msgs);
    var futureSize := |l.keys|;
    var seenKeys: set<Key> := {};
    var j := 0;
    while j < |msgs|
      invariant 0 <= j <= |msgs| && futureSize == Estimate(l, msgs[..j])
      invariant SeenAmong(msgs, j, seenKeys) && NoneYet(l, msgs, j)
    {
      var u := msgs[j];
      EstimateNext(l, msgs, j);
      NoneYetMore(l, msgs, j + 1);
      NotSeenBefore(msgs, j, seenKeys);
      if u.kind != INSERT && u.kind != DELETE {
        NoneYetMore(l, msgs, j);
        StillNone(l, msgs, j);
        j := j + 1;
        continue;
      }
      var seen := u.key in seenKeys;
      if !seen {
        seenKeys := if u.kind == INSERT then seenKeys + {u.key} else seenKeys - {u.key};
        seen := SeenInLeaf(l.keys, u.key);
      }
      futureSize := Forecast(futureSize, u, seen);
      if futureSize > SIZES.leafN {
        return true;
      }
      j := j + 1;
    }
    NoneYetMore(l, msgs, j);
    return false;
  }

  lemma StillNone(l: Leaf, msgs: seq<Upsert>, j: nat)
    requires |l.keys| <= SIZES.leafN && j <= |msgs| && NoneYet(l, msgs, j)
    ensures Estimate(l, msgs[..j]) <= SIZES.leafN
  {
    hide Estimate;
  }

  // ---- the split at the combined median -------------------------------------------------------

  /** splitLeafNode: everything above the median moves to the right leaf. */
  function SplitLeft(l: Leaf, mid: Key): Leaf
    requires |l.keys| == |l.values|
  {
    Leaf(l.keys[..UpperBound(l.keys, mid)], l.values[..UpperBound(l.keys, mid)])
  }

  function SplitRight(l: Leaf, mid: Key): Leaf
    requires |l.keys| == |l.values|
  {
    Leaf(l.keys[UpperBound(l.keys, mid)..], l.values[UpperBound(l.keys, mid)..])
  }

  lemma SplitLeafSorted(l: Leaf, mid: Key)
    requires LeafOK(l)
    ensures LeafOK(SplitLeft(l, mid)) && LeafOK(SplitRight(l, mid))
    ensures l.keys == SplitLeft(l, mid).keys + SplitRight(l, mid).keys
    ensures forall k :: k in SplitLeft(l, mid).keys ==> k <= mid
    ensures forall k :: k in SplitRight(l, mid).keys ==> k > mid
  {
    var ub := UpperBound(l.keys, mid);
    forall k | k in l.keys[ub..] ensures k > mid {
      var i :| ub <= i < |l.keys| && l.keys[i] == k;
      assert l.keys[ub] <= l.keys[i];
    }
  }

  lemma FoundIs(l: Leaf, k: Key)
    requires LeafOK(l)
    ensures k in l.keys <==> LowerBound(l.keys, k) < |l.keys| && l.keys[LowerBound(l.keys, k)] == k
  {
    BoundsDiffer(l.keys, k);
  }

  /** A key's position in the half it goes to, from its position in the whole leaf. */
  lemma IndexInHalves(l: Leaf, k: Key, mid: Key)
    requires LeafOK(l) && |l.keys| == |l.values|
    ensures k <= mid ==> LowerBound(SplitLeft(l, mid).keys, k) == LowerBound(l.keys, k)
    ensures k > mid ==> LowerBound(SplitRight(l, mid).keys, k) == LowerBound(l.keys, k) - |SplitLeft(l, mid).keys|
    ensures k !in l.keys ==> k !in SplitLeft(l, mid).keys && k !in SplitRight(l, mid).keys
    ensures LeafOK(SplitLeft(l, mid)) && LeafOK(SplitRight(l, mid))
  {
    SplitLeafSorted(l, mid);
    var lb, ub := LowerBound(l.keys, k), UpperBound(l.keys, mid);
    var left, right := SplitLeft(l, mid), SplitRight(l, mid);
    if k <= mid {
      assert lb <= ub;
      LowerBoundUnique(left.keys, k, lb);
    } else {
      assert ub <= lb;
      assert lb > ub ==> right.keys[lb - ub - 1] == l.keys[lb - 1];
      LowerBoundUnique(right.keys, k, lb - ub);
    }
  }

  ghost function PairsUpTo(m: map<Key, Value>, mid: Key): map<Key, Value> {
    map k | k in m && k <= mid :: m[k]
  }

  ghost function PairsAbove(m: map<Key, Value>, mid: Key): map<Key, Value> {
    map k | k in m && k > mid :: m[k]
  }

  lemma PartHolds(l: Leaf, part: Leaf, at: nat, sub: map<Key, Value>)
    requires LeafOK(l) && LeafOK(part) && at + |part.keys| <= |l.keys|
    requires forall i :: 0 <= i < |part.keys| ==> part.keys[i] == l.keys[at + i] && part.values[i] == l.values[at + i]
    requires forall k :: k in part.keys ==> k in sub
    requires forall k :: k in sub ==> k in part.keys && k in Pairs(l) && sub[k] == Pairs(l)[k]
    ensures Pairs(part) == sub
  {
    hide StrictlySorted;
    forall i | 0 <= i < |part.keys| ensures part.keys[i] in sub && sub[part.keys[i]] == part.values[i] {
      assert part.keys[i] == l.keys[at + i] && part.keys[i] in part.keys;
    }
    PairsUnique(part, sub);
  }

  lemma SplitParts(l: Leaf, mid: Key)
    requires LeafOK(l)
    ensures LeafOK(SplitLeft(l, mid)) && LeafOK(SplitRight(l, mid))
    ensures forall k :: k in SplitLeft(l, mid).keys <==> k in l.keys && k <= mid
    ensures forall k :: k in SplitRight(l, mid).keys <==> k in l.keys && k > mid
  {
    SplitLeafSorted(l, mid);
    hide *;
  }

  lemma SplitLeftPairs(l: Leaf, mid: Key)
    requires LeafOK(l)
    ensures LeafOK(SplitLeft(l, mid))
    ensures Pairs(SplitLeft(l, mid)) == PairsUpTo(Pairs(l), mid)
  {
    SplitParts(l, mid);
    PairsKeys(l);
    hide LeafOK, Pairs, UpperBound, HoldsPairs, StrictlySorted;
    PartHolds(l, SplitLeft(l, mid), 0, PairsUpTo(Pairs(l), mid));
  }

  lemma SplitRightPairs(l: Leaf, mid: Key)
    requires LeafOK(l)
    ensures LeafOK(SplitRight(l, mid))
    ensures Pairs(SplitRight(l, mid)) == PairsAbove(Pairs(l), mid)
  {
    hide *;
    SplitParts(l, mid);
    PairsKeys(l);
    RightIndices(l, mid);
    PairsAboveAre(Pairs(l), mid);
    PartHolds(l, SplitRight(l, mid), UpperBound(l.keys, mid), PairsAbove(Pairs(l), mid));
  }

  lemma PairsAboveAre(m: map<Key, Value>, mid: Key)
    ensures forall k :: k in PairsAbove(m, mid) <==> k in m && k > mid
    ensures forall k :: k in PairsAbove(m, mid) ==> PairsAbove(m, mid)[k] == m[k]
  {
  }

  lemma RightIndices(l: Leaf, mid: Key)
    requires LeafOK(l) && LeafOK(SplitRight(l, mid))
    ensures |l.keys| == |l.values|
    ensures UpperBound(l.keys, mid) + |SplitRight(l, mid).keys| == |l.keys|
    ensures forall i :: 0 <= i < |SplitRight(l, mid).keys| ==>
              SplitRight(l, mid).keys[i] == l.keys[UpperBound(l.keys, mid) + i] &&
              SplitRight(l, mid).values[i] == l.values[UpperBound(l.keys, mid) + i]
  {
    hide StrictlySorted;
  }

  /** With four or more entries the combined median lies strictly inside the leaf's range. */
  lemma MedianInside(a: seq<Key>, b: seq<Key>, m: Key, lo: int, hi: int)
    requires StrictlySorted(a) && StrictlySorted(b) && |a| + |b| >= 4
    requires forall k :: k in a || k in b ==> lo < k <= hi
    requires Median.HasRank(a, b, m, (|a| + |b| + 1) / 2)
    ensures lo < m < hi
  {
    BelowTop(a, m, hi);
    BelowTop(b, m, hi);
  }

  /** Three entries are not enough: a leaf of two keys whose upper bound is the larger one, and an
      insertion of that key. The forecast takes the key for new, so that a leaf of capacity two would
      split; the median is the bound itself, and the right half is left without keys and range. */
  lemma TwoEntriesTooFew(l: Leaf, u: Upsert, m: Key)
    requires LeafOK(l) && |l.keys| == 2 && u.kind.INSERT? && u.key == l.keys[1]
    requires Median.HasRank(l.keys, [u.key], m, (|l.keys| + 2) / 2)
    ensures !SeenInLeaf(l.keys, u.key) && Forecast(|l.keys|, u, SeenInLeaf(l.keys, u.key)) == 3
    ensures m == l.keys[1] && SplitRight(l, m).keys == []
  {
    OnlyFirstIsSeen(l.keys, u.key);
    var k0, k1 := l.keys[0], l.keys[1];
    assert l.keys == [k0, k1];
    assert LowerBound([k1], m) <= 1 && UpperBound([k1], m) <= 1;
  }

  lemma BelowTop(s: seq<Key>, m: Key, hi: int)
    requires StrictlySorted(s) && forall k :: k in s ==> k <= hi
    ensures m >= hi ==> LowerBound(s, m) >= |s| - 1
  {
    var lb := LowerBound(s, m);
    if lb + 1 < |s| {
      assert s[lb] < s[lb + 1] && s[lb + 1] in s;
    }
  }

  /** No run of messages makes a leaf grow by more than its length, and one message less if the
      last one hits a key the leaf has. */
  lemma {:induction false} GrowthBound(l: Leaf, msgs: seq<Upsert>)
    requires LeafOK(l) && Sorted(msgs)
    ensures |LeafAfter(l, msgs).keys| <= |l.keys| + |msgs|
    ensures msgs != [] && msgs[|msgs| - 1].key in l.keys ==> |LeafAfter(l, msgs).keys| < |l.keys| + |msgs|
  {
    if msgs != [] {
      var front, u := msgs[..|msgs| - 1], msgs[|msgs| - 1];
      assert msgs == front + [u];
      LeafAfterKeeps(l, front, u);
      GrowthBound(l, front);
      UpsertedSize(LeafAfter(l, front), u);
    }
  }

  lemma FitsByGrowth(l: Leaf, msgs: seq<Upsert>)
    requires LeafOK(l) && Sorted(msgs)
    requires |l.keys| + |msgs| <= SIZES.leafN ||
             (|l.keys| + |msgs| == SIZES.leafN + 1 && msgs != [] && msgs[|msgs| - 1].key in l.keys)
    ensures Fits(l, msgs)
  {
    forall j | 0 <= j <= |msgs| ensures |LeafAfter(l, msgs[..j]).keys| <= SIZES.leafN {
      assert msgs == msgs[..j] + msgs[j..];
      SortedConcat(msgs[..j], msgs[j..]);
      GrowthBound(l, msgs[..j]);
      if j == |msgs| { assert msgs[..j] == msgs; }
    }
  }

  /** A cut at the element of rank half the total leaves at most as many elements on either side,
      or one more on the left if both arrays have that element. */
  lemma MedianHalves(a: seq<Key>, b: seq<Key>, mid: Key, limit: nat)
    requires StrictlySorted(a) && StrictlySorted(b) && |a| + |b| <= 2 * limit
    requires Median.HasRank(a, b, mid, (|a| + |b| + 1) / 2)
    ensures |a| - UpperBound(a, mid) + |b| - UpperBound(b, mid) <= limit
    ensures UpperBound(a, mid) + UpperBound(b, mid) <= limit + 1
    ensures UpperBound(a, mid) + UpperBound(b, mid) == limit + 1 ==> mid in a && mid in b
  {
    BoundsDiffer(a, mid);
    BoundsDiffer(b, mid);
    hide StrictlySorted, LowerBound, UpperBound;
  }

  lemma LastUpTo(s: seq<Key>, mid: Key)
    requires StrictlySorted(s) && mid in s
    ensures UpperBound(s, mid) > 0 && s[UpperBound(s, mid) - 1] == mid
  {
    BoundsDiffer(s, mid);
  }

  /** After a split at the combined median of the leaf's and the messages' keys, the messages up
      to the median fit the left leaf and the others the right leaf, after every message. */
  lemma HalvesFit(l: Leaf, msgs: seq<Upsert>, mid: Key)
    requires LeafOK(l) && Sorted(msgs)
    requires 0 < |l.keys| + |msgs| <= 2 * SIZES.leafN
    requires Median.HasRank(l.keys, KeysOf(msgs), mid, (|l.keys| + |msgs| + 1) / 2)
    ensures var s := UpperBound(KeysOf(msgs), mid);
            LeafOK(SplitLeft(l, mid)) && LeafOK(SplitRight(l, mid)) &&
            Fits(SplitLeft(l, mid), msgs[..s]) && Fits(SplitRight(l, mid), msgs[s..])
  {
    hide Fits, Sorted, StrictlySorted, LeafAfter, Median.HasRank, LowerBound, UpperBound, KeysOf;
    var keys := KeysOf(msgs);
    var s := UpperBound(keys, mid);
    SplitParts(l, mid);
    assert msgs == msgs[..s] + msgs[s..];
    SortedConcat(msgs[..s], msgs[s..]);
    KeysStrictlySorted(msgs);
    MedianHalves(l.keys, keys, mid, SIZES.leafN);
    if mid in l.keys && mid in keys {
      LastUpTo(keys, mid);
      assert msgs[..s][s - 1].key == mid;
    }
    FitsByGrowth(SplitLeft(l, mid), msgs[..s]);
    FitsByGrowth(SplitRight(l, mid), msgs[s..]);
  }

  lemma KeysStrictlySorted(msgs: seq<Upsert>)
    requires Sorted(msgs)
    ensures StrictlySorted(KeysOf(msgs))
  {
  }
}
