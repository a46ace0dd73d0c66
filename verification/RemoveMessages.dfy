/** Making room in a full buffer: the largest blocks of messages for one child leave first. */
module RemoveMessages {
  import opened Keys
  import opened Messages
  import MergeUpserts
  import opened Kids
  import opened Leaves

  /** Messages on their way to a node's children, by the child's index. */
  type MessageMap = map<nat, seq<Upsert>>

  /** all[first..last] goes to child number `child`. */
  datatype Block = Block(first: nat, last: nat, child: nat)

  ghost predicate BlockOf(all: seq<Upsert>, pivots: seq<Key>, b: Block) {
    && b.first < b.last <= |all|
    && forall i :: b.first <= i < b.last ==> LowerBound(pivots, all[i].key) == b.child
  }

  /** The blocks cut `all` into runs for different children, in order. */
  ghost predicate Blocks(all: seq<Upsert>, pivots: seq<Key>, blocks: seq<Block>, upTo: nat) {
    && (forall b :: 0 <= b < |blocks| ==> BlockOf(all, pivots, blocks[b]))
    && (forall b, c :: 0 <= b < c < |blocks| ==>
          blocks[b].last <= blocks[c].first && blocks[b].child < blocks[c].child)
    && (forall b :: 0 < b < |blocks| ==> blocks[b].first == blocks[b - 1].last)
    && (if blocks == [] then upTo == 0 else blocks[0].first == 0 && blocks[|blocks| - 1].last == upTo)
  }

  lemma RoutesRise(pivots: seq<Key>, k: Key, q: Key)
    requires k <= q
    ensures LowerBound(pivots, k) <= LowerBound(pivots, q)
  {
    var lk, lq := LowerBound(pivots, k), LowerBound(pivots, q);
    assert lq < |pivots| ==> q <= pivots[lq];
    assert forall i :: 0 <= i < lk ==> pivots[i] < k;
  }

  lemma BlocksAppend(all: seq<Upsert>, pivots: seq<Key>, blocks: seq<Block>, b: Block)
    requires Blocks(all, pivots, blocks, b.first) && BlockOf(all, pivots, b)
    requires blocks != [] ==> blocks[|blocks| - 1].child < b.child
    ensures Blocks(all, pivots, blocks + [b], b.last)
  {
    hide BlockOf;
    var next := blocks + [b];
    forall x, y | 0 <= x < y < |next| ensures next[x].last <= next[y].first && next[x].child < next[y].child {
      if y == |blocks| && x < |blocks| - 1 {
        var z := |blocks| - 1;
        assert blocks[x].last <= blocks[z].first && blocks[x].child < blocks[z].child;
        assert BlockOf(all, pivots, blocks[z]);
        BlockNonempty(all, pivots, blocks[z]);
      }
    }
  }

  lemma BlockNonempty(all: seq<Upsert>, pivots: seq<Key>, b: Block)
    requires BlockOf(all, pivots, b)
    ensures b.first < b.last <= |all|
  {
  }

  /** The scan has reached message `i`; the block from `lastStart` on is still open. */
  ghost predicate Scanning(all: seq<Upsert>, pivots: seq<Key>, blocks: seq<Block>, lastStart: nat, lastKey: Key, lastChild: nat, i: nat) {
    && lastStart < i <= |all| && lastKey <= all[lastStart].key
    && Blocks(all, pivots, blocks, lastStart)
    && BlockOf(all, pivots, Block(lastStart, i, lastChild))
    && (blocks != [] ==> blocks[|blocks| - 1].child < lastChild)
  }

  lemma ScanSame(all: seq<Upsert>, pivots: seq<Key>, blocks: seq<Block>, lastStart: nat, lastKey: Key, lastChild: nat, i: nat)
    requires Sorted(all) && Scanning(all, pivots, blocks, lastStart, lastKey, lastChild, i) && i < |all|
    requires LowerBound(pivots, all[i].key) == lastChild
    ensures Scanning(all, pivots, blocks, lastStart, lastKey, lastChild, i + 1)
    ensures all[i].key != lastKey
  {
    hide Blocks, LowerBound;
    assert all[lastStart].key < all[i].key;
  }

  lemma ScanNext(all: seq<Upsert>, pivots: seq<Key>, blocks: seq<Block>, lastStart: nat, lastKey: Key, lastChild: nat, i: nat)
    requires Sorted(all) && Scanning(all, pivots, blocks, lastStart, lastKey, lastChild, i) && i < |all|
    requires LowerBound(pivots, all[i].key) != lastChild
    ensures Scanning(all, pivots, blocks + [Block(lastStart, i, lastChild)], i, all[i].key, LowerBound(pivots, all[i].key), i + 1)
    ensures all[i].key != lastKey
  {
    assert all[lastStart].key < all[i].key;
    assert LowerBound(pivots, all[lastStart].key) == lastChild;
    RoutesRise(pivots, all[lastStart].key, all[i].key);
    hide Blocks, LowerBound;
    BlocksAppend(all, pivots, blocks, Block(lastStart, i, lastChild));
  }

  /** Scans the merged messages for blocks. */
  method FindBlocks(all: seq<Upsert>, pivots: seq<Key>) returns (blocks: seq<Block>)
    requires Sorted(all) && all != []
    ensures Blocks(all, pivots, blocks, |all|)
  {
    blocks := [];
    var lastStart: nat, lastKey := 0, all[0].key;
    var lastChild := LowerBound(pivots, lastKey);
    assert Scanning(all, pivots, blocks, lastStart, lastKey, lastChild, 1);
    for i := 1 to |all|
      invariant Scanning(all, pivots, blocks, lastStart, lastKey, lastChild, i)
    {
      hide *;
      var currentKey := all[i].key;
      var currentChild := LowerBound(pivots, currentKey);
      if currentChild == lastChild {
        ScanSame(all, pivots, blocks, lastStart, lastKey, lastChild, i);
      } else {
        ScanNext(all, pivots, blocks, lastStart, lastKey, lastChild, i);
      }
      if currentKey != lastKey {
        // a new block starts with another child
        if currentChild != lastChild {
          blocks := blocks + [Block(lastStart, i, lastChild)];
          lastStart, lastKey, lastChild := i, currentKey, currentChild;
        }
      }
    }
    BlocksAppend(all, pivots, blocks, Block(lastStart, |all|, lastChild));
    blocks := blocks + [Block(lastStart, |all|, lastChild)];
  }

  function Size(b: Block): int { b.last - b.first }

  /** Every number below `n` once, in any order. */
  ghost predicate Permutation(order: seq<nat>, n: nat) {
    && |order| == n
    && (forall i :: 0 <= i < |order| ==> order[i] < n)
    && (forall b :: 0 <= b < n ==> b in order)
    && (forall i, j :: 0 <= i < j < |order| ==> order[i] != order[j])
  }

  /** The largest block comes first. */
  ghost predicate LargestFirst(blocks: seq<Block>, order: seq<nat>) {
    && (forall i :: 0 <= i < |order| ==> order[i] < |blocks|)
    && (forall i, j :: 0 <= i < j < |order| ==> Size(blocks[order[i]]) >= Size(blocks[order[j]]))
  }

  lemma PermutationInsert(order: seq<nat>, n: nat, at: nat)
    requires Permutation(order, n) && at <= n
    ensures Permutation(InsertAt(order, at, n), n + 1)
  {
    var next := InsertAt(order, at, n);
    hide InsertAt;
    forall b | 0 <= b < n + 1 ensures b in next {
      if b < n {
        assert b in order;
        var i :| 0 <= i < |order| && order[i] == b;
        assert next[if i < at then i else i + 1] == b;
      } else {
        assert next[at] == b;
      }
    }
  }

  lemma LargestFirstInsert(blocks: seq<Block>, order: seq<nat>, n: nat, at: nat)
    requires LargestFirst(blocks, order) && n < |blocks| && at <= |order|
    requires at > 0 ==> Size(blocks[order[at - 1]]) >= Size(blocks[n])
    requires at < |order| ==> Size(blocks[n]) >= Size(blocks[order[at]])
    ensures LargestFirst(blocks, InsertAt(order, at, n))
  {
    var next := InsertAt(order, at, n);
    hide InsertAt;
    assert forall i :: 0 <= i < at ==> Size(blocks[order[i]]) >= Size(blocks[n]);
    assert forall i :: at <= i < |order| ==> Size(blocks[n]) >= Size(blocks[order[i]]);
  }

  /** Sorts the block references by block size, the largest first. */
  method SortBySize(blocks: seq<Block>) returns (order: seq<nat>)
    ensures Permutation(order, |blocks|) && LargestFirst(blocks, order)
  {
    order := [];
    for n := 0 to |blocks|
      invariant Permutation(order, n) && LargestFirst(blocks, order)
    {
      var at := 0;
      while at < |order| && Size(blocks[order[at]]) > Size(blocks[n])
        invariant 0 <= at <= |order|
        invariant at > 0 ==> Size(blocks[order[at - 1]]) >= Size(blocks[n])
      {
        at := at + 1;
      }
      hide *;
      PermutationInsert(order, n, at);
      LargestFirstInsert(blocks, order, n, at);
      order := InsertAt(order, at, n);
    }
  }

  /** The list for child `c` is sorted, not empty, routed to `c`, and taken from `gone`. */
  ghost predicate CarriesChild(pivots: seq<Key>, flushed: MessageMap, gone: map<Key, Upsert>, c: nat)
    requires c in flushed
  {
    && flushed[c] != [] && Sorted(flushed[c]) && c <= |pivots|
    && forall u :: u in flushed[c] ==> LowerBound(pivots, u.key) == c && u.key in gone && gone[u.key] == u
  }

  /** The message for `k` is listed under the child that `k` is routed to. */
  ghost predicate CarriesKey(pivots: seq<Key>, flushed: MessageMap, gone: map<Key, Upsert>, k: Key)
    requires k in gone
  {
    gone[k].key == k && LowerBound(pivots, k) in flushed && gone[k] in flushed[LowerBound(pivots, k)]
  }

  /** `flushed` lists exactly the messages of `gone`, each under the child its key is routed to. */
  ghost predicate Carries(pivots: seq<Key>, flushed: MessageMap, gone: map<Key, Upsert>) {
    && (forall c :: c in flushed ==> CarriesChild(pivots, flushed, gone, c))
    && (forall k :: k in gone ==> CarriesKey(pivots, flushed, gone, k))
  }

  lemma CarriesMore(pivots: seq<Key>, flushed: MessageMap, gone: map<Key, Upsert>, c: nat, run: seq<Upsert>)
    requires Carries(pivots, flushed, gone) && c !in flushed && c <= |pivots|
    requires Sorted(run) && run != [] && forall u :: u in run ==> LowerBound(pivots, u.key) == c
    ensures Carries(pivots, flushed[c := run], gone + MapOf(run))
    ensures |gone + MapOf(run)| == |gone| + |run|
    ensures |flushed[c := run]| == |flushed| + 1
  {
    hide *;
    var m := MapOf(run);
    CarriesElsewhere(pivots, flushed, gone, c, run, m);
    CarriesUnion(pivots, flushed, gone, c, run, m);
    MapOfSize(run);
    DisjointUnionSize(gone, m);
    assert |flushed[c := run].Keys| == |flushed.Keys + {c}|;
  }

  lemma CarriesElsewhere(pivots: seq<Key>, flushed: MessageMap, gone: map<Key, Upsert>, c: nat, run: seq<Upsert>, m: map<Key, Upsert>)
    requires Carries(pivots, flushed, gone) && c !in flushed
    requires forall u :: u in run ==> LowerBound(pivots, u.key) == c
    requires Holds(run, m)
    ensures gone.Keys !! m.Keys
  {
    forall k | k in gone ensures k !in m {
      assert CarriesKey(pivots, flushed, gone, k);
      assert forall q :: q in m ==> m[q] in run;
    }
  }

  lemma CarriesUnion(pivots: seq<Key>, flushed: MessageMap, gone: map<Key, Upsert>, c: nat, run: seq<Upsert>, m: map<Key, Upsert>)
    requires Carries(pivots, flushed, gone) && c !in flushed && c <= |pivots|
    requires Sorted(run) && run != [] && forall u :: u in run ==> LowerBound(pivots, u.key) == c
    requires Holds(run, m) && gone.Keys !! m.Keys
    ensures Carries(pivots, flushed[c := run], gone + m)
  {
    hide Sorted, LowerBound, CarriesChild, CarriesKey;
    var flushed', gone' := flushed[c := run], gone + m;
    forall d | d in flushed' ensures CarriesChild(pivots, flushed', gone', d) {
      if d == c { CarriesRun(pivots, flushed, gone, c, run, m); } else { CarriesStill(pivots, flushed, gone, c, run, m, d); }
    }
    forall k | k in gone' ensures CarriesKey(pivots, flushed', gone', k) {
      CarriesEachKey(pivots, flushed, gone, c, run, m, k);
    }
  }

  lemma CarriesRun(pivots: seq<Key>, flushed: MessageMap, gone: map<Key, Upsert>, c: nat, run: seq<Upsert>, m: map<Key, Upsert>)
    requires c <= |pivots| && Sorted(run) && run != [] && forall u :: u in run ==> LowerBound(pivots, u.key) == c
    requires Holds(run, m)
    ensures CarriesChild(pivots, flushed[c := run], gone + m, c)
  {
    hide Sorted, LowerBound;
  }

  lemma CarriesStill(pivots: seq<Key>, flushed: MessageMap, gone: map<Key, Upsert>, c: nat, run: seq<Upsert>, m: map<Key, Upsert>, d: nat)
    requires d in flushed && d != c && CarriesChild(pivots, flushed, gone, d) && gone.Keys !! m.Keys
    ensures CarriesChild(pivots, flushed[c := run], gone + m, d)
  {
    hide Sorted, LowerBound;
  }

  lemma CarriesEachKey(pivots: seq<Key>, flushed: MessageMap, gone: map<Key, Upsert>, c: nat, run: seq<Upsert>, m: map<Key, Upsert>, k: Key)
    requires k in gone + m && (k !in m ==> CarriesKey(pivots, flushed, gone, k)) && c !in flushed
    requires forall u :: u in run ==> LowerBound(pivots, u.key) == c
    requires Holds(run, m)
    ensures CarriesKey(pivots, flushed[c := run], gone + m, k)
  {
    hide LowerBound;
    if k in m { assert m[k] in run; }
  }

  lemma DisjointUnionSize(a: map<Key, Upsert>, b: map<Key, Upsert>)
    requires a.Keys !! b.Keys
    ensures |a + b| == |a| + |b|
  {
    assert (a + b).Keys == a.Keys + b.Keys;
    assert |(a + b).Keys| == |a + b| && |a.Keys| == |a| && |b.Keys| == |b|;
  }

  // ---- taking blocks --------------------------------------------------------------------------

  /** Block `b` still holds its messages from `start[b]` on; those before have left. */
  ghost predicate LeftFrom(all: seq<Upsert>, blocks: seq<Block>, start: seq<nat>, gone: map<Key, Upsert>, b: nat)
    requires b < |blocks| == |start|
  {
    && blocks[b].first <= start[b] <= blocks[b].last <= |all|
    && forall i :: blocks[b].first <= i < blocks[b].last ==> (all[i].key in gone <==> i < start[b])
  }

  /** The first `it` blocks of `order` have been taken from, the others are untouched. */
  ghost predicate Taken(blocks: seq<Block>, order: seq<nat>, it: nat, start: seq<nat>, flushed: MessageMap)
    requires |blocks| == |start| && forall i :: 0 <= i < |order| ==> order[i] < |blocks|
  {
    && it <= |order|
    && (forall j :: 0 <= j < it ==> blocks[order[j]].child in flushed)
    && (forall j :: it <= j < |order| ==>
          start[order[j]] == blocks[order[j]].first && blocks[order[j]].child !in flushed)
  }

  lemma RunOfBlock(all: seq<Upsert>, pivots: seq<Key>, b: Block, to: nat)
    requires Sorted(all) && BlockOf(all, pivots, b) && b.first < to <= b.last
    ensures Sorted(all[b.first..to]) && all[b.first..to] != []
    ensures forall u :: u in all[b.first..to] ==> LowerBound(pivots, u.key) == b.child
    ensures PartOf(MapOf(all[b.first..to]), MapOf(all))
    ensures b.child <= |pivots|
  {
    BlockNonempty(all, pivots, b);
    SliceSorted(all, b.first, to);
    BlockRoutes(all, pivots, b, to);
    hide *;
    SubrunPart(all[b.first..to], all);
  }

  lemma BlockRoutes(all: seq<Upsert>, pivots: seq<Key>, b: Block, to: nat)
    requires BlockOf(all, pivots, b) && b.first < to <= b.last
    ensures forall u :: u in all[b.first..to] ==> LowerBound(pivots, u.key) == b.child
    ensures b.child <= |pivots|
  {
    hide LowerBound;
    var run := all[b.first..to];
    assert LowerBound(pivots, all[b.first].key) == b.child;
    forall u | u in run ensures LowerBound(pivots, u.key) == b.child {
      var i :| 0 <= i < |run| && run[i] == u;
      RoutedAt(all, pivots, b, b.first + i);
    }
  }

  lemma RoutedAt(all: seq<Upsert>, pivots: seq<Key>, b: Block, i: nat)
    requires BlockOf(all, pivots, b) && b.first <= i < b.last
    ensures i < |all| && LowerBound(pivots, all[i].key) == b.child
  {
  }

  lemma SliceSorted(all: seq<Upsert>, first: nat, to: nat)
    requires Sorted(all) && first <= to <= |all|
    ensures Sorted(all[first..to])
    ensures forall u :: u in all[first..to] ==> u in all
  {
  }

  lemma SubrunPart(run: seq<Upsert>, all: seq<Upsert>)
    requires Sorted(run) && Sorted(all) && forall u :: u in run ==> u in all
    ensures PartOf(MapOf(run), MapOf(all))
  {
    hide Sorted;
    assert forall k :: k in MapOf(run) ==> MapOf(run)[k] in run;
  }

  /** Keys at different positions differ. */
  lemma PositionsDiffer(all: seq<Upsert>, i: nat, first: nat, to: nat)
    requires Sorted(all) && i < |all| && first <= to <= |all|
    requires Sorted(all[first..to])
    ensures all[i].key in MapOf(all[first..to]) <==> first <= i < to
  {
    var run := all[first..to];
    var m := MapOf(run);
    if all[i].key in m {
      assert m[all[i].key] in run;
      var j :| 0 <= j < |run| && run[j] == m[all[i].key];
      assert all[first + j].key == all[i].key;
    }
    if first <= i < to {
      assert run[i - first] == all[i] && all[i] in run;
    }
  }

  lemma StillLeft(all: seq<Upsert>, pivots: seq<Key>, blocks: seq<Block>, start: seq<nat>, gone: map<Key, Upsert>, b: nat, to: nat, c: nat)
    requires Sorted(all) && Blocks(all, pivots, blocks, |all|) && |start| == |blocks| && b < |blocks| && c < |blocks|
    requires LeftFrom(all, blocks, start, gone, c) && start[b] == blocks[b].first && blocks[b].first < to <= blocks[b].last
    requires Sorted(all[blocks[b].first..to])
    ensures LeftFrom(all, blocks, start[b := to], gone + MapOf(all[blocks[b].first..to]), c)
  {
    assert BlockOf(all, pivots, blocks[b]) && BlockOf(all, pivots, blocks[c]);
    assert c < b ==> blocks[c].last <= blocks[b].first;
    assert b < c ==> blocks[b].last <= blocks[c].first;
    var cut := blocks[b].first;
    var m := MapOf(all[cut..to]);
    hide Blocks, BlockOf, Sorted;
    forall i | blocks[c].first <= i < blocks[c].last
      ensures all[i].key in gone + m <==> i < start[b := to][c]
    {
      PositionsDiffer(all, i, cut, to);
    }
  }

  /** The loop's state after `it` blocks. */
  ghost predicate Taking(all: seq<Upsert>, pivots: seq<Key>, blocks: seq<Block>, order: seq<nat>, it: nat,
                         start: seq<nat>, flushed: MessageMap, gone: map<Key, Upsert>) {
    && Sorted(all) && |start| == |blocks| && Permutation(order, |blocks|)
    && Blocks(all, pivots, blocks, |all|)
    && (forall b :: 0 <= b < |blocks| ==> LeftFrom(all, blocks, start, gone, b))
    && PartOf(gone, MapOf(all))
    && Carries(pivots, flushed, gone)
    && Taken(blocks, order, it, start, flushed)
    && |flushed| == it
  }

  lemma StartTaking(all: seq<Upsert>, pivots: seq<Key>, blocks: seq<Block>, order: seq<nat>)
    requires Sorted(all) && Permutation(order, |blocks|) && Blocks(all, pivots, blocks, |all|)
    ensures Taking(all, pivots, blocks, order, 0, seq(|blocks|, b requires 0 <= b < |blocks| => blocks[b].first), map[], map[])
  {
    var start := seq(|blocks|, b requires 0 <= b < |blocks| => blocks[b].first);
    forall b | 0 <= b < |blocks| ensures LeftFrom(all, blocks, start, map[], b) {
      assert BlockOf(all, pivots, blocks[b]);
      assert blocks[b].last <= |all|;
    }
  }

  lemma TakenMore(all: seq<Upsert>, pivots: seq<Key>, blocks: seq<Block>, order: seq<nat>, it: nat, start: seq<nat>, flushed: MessageMap, to: nat, run: seq<Upsert>)
    requires |blocks| == |start| && Permutation(order, |blocks|) && it < |order|
    requires Blocks(all, pivots, blocks, |all|)
    requires Taken(blocks, order, it, start, flushed)
    ensures var b := order[it];
            Taken(blocks, order, it + 1, start[b := to], flushed[blocks[b].child := run])
  {
    var b := order[it];
    forall j | it < j < |order| ensures blocks[order[j]].child != blocks[b].child && order[j] != b {
      assert order[it] != order[j];
      assert b < order[j] ==> blocks[b].child < blocks[order[j]].child;
      assert order[j] < b ==> blocks[order[j]].child < blocks[b].child;
    }
  }

  lemma TakeStep(all: seq<Upsert>, pivots: seq<Key>, blocks: seq<Block>, order: seq<nat>, it: nat,
                 start: seq<nat>, flushed: MessageMap, gone: map<Key, Upsert>, to: nat)
    requires Taking(all, pivots, blocks, order, it, start, flushed, gone) && it < |order|
    requires order[it] < |blocks| && blocks[order[it]].first < to <= blocks[order[it]].last
    ensures var b := order[it]; var run := all[blocks[b].first..to];
            to <= |all| && |start| == |blocks| && Sorted(run) &&
            |gone + MapOf(run)| == |gone| + |run| && start[b] == blocks[b].first &&
            Taking(all, pivots, blocks, order, it + 1, start[b := to], flushed[blocks[b].child := run], gone + MapOf(run))
  {
    var b := order[it];
    assert BlockOf(all, pivots, blocks[b]);
    BlockNonempty(all, pivots, blocks[b]);
    assert start[b] == blocks[b].first && blocks[b].child !in flushed;
    hide Sorted, Blocks, BlockOf, LeftFrom, PartOf, Carries, Permutation, Taken, Holds, LowerBound;
    RunOfBlock(all, pivots, blocks[b], to);
    var run := all[blocks[b].first..to];
    var start', gone' := start[b := to], gone + MapOf(run);
    forall c | 0 <= c < |blocks| ensures LeftFrom(all, blocks, start', gone', c) {
      assert LeftFrom(all, blocks, start, gone, c);
      StillLeft(all, pivots, blocks, start, gone, b, to, c);
    }
    CarriesMore(pivots, flushed, gone, blocks[b].child, run);
    PartOfUnion(gone, MapOf(run), MapOf(all));
    TakenMore(all, pivots, blocks, order, it, start, flushed, to, run);
  }

  lemma PartOfUnion(a: map<Key, Upsert>, b: map<Key, Upsert>, m: map<Key, Upsert>)
    requires PartOf(a, m) && PartOf(b, m)
    ensures PartOf(a + b, m)
  {
  }

  /** Every block taken from is used up. */
  ghost predicate Emptied(blocks: seq<Block>, order: seq<nat>, it: nat, start: seq<nat>) {
    forall j :: 0 <= j < it <= |order| && order[j] < |blocks| == |start| ==> start[order[j]] == blocks[order[j]].last
  }

  lemma EmptiedMore(blocks: seq<Block>, order: seq<nat>, it: nat, start: seq<nat>)
    requires Permutation(order, |blocks|) && |start| == |blocks| && it < |order|
    requires Emptied(blocks, order, it, start)
    ensures Emptied(blocks, order, it + 1, start[order[it] := blocks[order[it]].last])
  {
    assert forall j :: 0 <= j < it ==> order[j] != order[it];
  }

  lemma PermutationIndex(order: seq<nat>, n: nat, it: nat)
    requires Permutation(order, n) && it < |order|
    ensures order[it] < n
  {
  }

  lemma BlockAt(all: seq<Upsert>, pivots: seq<Key>, blocks: seq<Block>, b: nat)
    requires Blocks(all, pivots, blocks, |all|) && b < |blocks|
    ensures BlockOf(all, pivots, blocks[b])
    ensures blocks[b].first < blocks[b].last <= |all|
  {
    assert BlockOf(all, pivots, blocks[b]);
  }

  lemma NothingEmptied(all: seq<Upsert>, pivots: seq<Key>, blocks: seq<Block>, order: seq<nat>, start: seq<nat>)
    requires Permutation(order, |blocks|) && Blocks(all, pivots, blocks, |all|)
    ensures Emptied(blocks, order, 0, start)
    ensures all != [] ==> |order| >= 1
  {
  }

  /** Where each block starts. */
  function FirstOf(blocks: seq<Block>): seq<nat> {
    seq(|blocks|, b requires 0 <= b < |blocks| => blocks[b].first)
  }

  /** How many messages the first `n` blocks of the order hold. */
  function SizeOfFirst(blocks: seq<Block>, order: seq<nat>, n: nat): int {
    if n == 0 then 0
    else SizeOfFirst(blocks, order, n - 1) +
         if n <= |order| && order[n - 1] < |blocks| then Size(blocks[order[n - 1]]) else 0
  }

  /** Short of the limit, the blocks taken from are used up, and what has been collected is all they
      held; and without the last of them there would not have been enough. */
  ghost predicate TakenWhole(blocks: seq<Block>, order: seq<nat>, it: nat, start: seq<nat>, needed: nat, maxRemoved: nat, collected: nat) {
    && (collected < maxRemoved ==> Emptied(blocks, order, it, start) && collected == SizeOfFirst(blocks, order, it))
    && (it > 0 ==> SizeOfFirst(blocks, order, it - 1) < needed)
  }

  /** Without one of the lists not enough messages would have left. */
  ghost predicate NoneTooMany(flushed: MessageMap, taken: nat, needed: nat) {
    flushed != map[] ==> exists c :: c in flushed && taken < needed + |flushed[c]|
  }

  /** The state of the loop below: `collected` messages have been taken from the first `it` blocks
      of the order. */
  ghost predicate Collecting(all: seq<Upsert>, pivots: seq<Key>, blocks: seq<Block>, order: seq<nat>, it: nat,
                             start: seq<nat>, flushed: MessageMap, gone: map<Key, Upsert>,
                             needed: nat, maxRemoved: nat, collected: nat) {
    && it <= |order| && |start| == |blocks|
    && Taking(all, pivots, blocks, order, it, start, flushed, gone)
    && it <= collected == |gone| <= maxRemoved
    && TakenWhole(blocks, order, it, start, needed, maxRemoved, collected)
    && (forall c :: c in flushed ==> |flushed[c]| <= maxRemoved)
    && (needed <= 1 ==> it <= 1)
    && (it == 0 ==> collected == 0)
    && NoneTooMany(flushed, collected, needed)
  }

  lemma StartCollecting(all: seq<Upsert>, pivots: seq<Key>, blocks: seq<Block>, order: seq<nat>, needed: nat, maxRemoved: nat)
    requires Sorted(all) && Permutation(order, |blocks|) && Blocks(all, pivots, blocks, |all|)
    ensures Collecting(all, pivots, blocks, order, 0, FirstOf(blocks), map[], map[], needed, maxRemoved, 0)
    ensures all != [] ==> |order| >= 1
  {
    StartTaking(all, pivots, blocks, order);
    NothingEmptied(all, pivots, blocks, order, FirstOf(blocks));
    hide Taking, Emptied, Blocks, Permutation, Sorted;
    assert TakenWhole(blocks, order, 0, FirstOf(blocks), needed, maxRemoved, 0);
    assert NoneTooMany(map[], 0, needed);
  }

  /** What the next block is, and how much of it is taken. */
  lemma NextBlock(all: seq<Upsert>, pivots: seq<Key>, blocks: seq<Block>, order: seq<nat>, it: nat,
                  start: seq<nat>, flushed: MessageMap, gone: map<Key, Upsert>,
                  needed: nat, maxRemoved: nat, collected: nat)
    requires Collecting(all, pivots, blocks, order, it, start, flushed, gone, needed, maxRemoved, collected) && it < |order|
    ensures order[it] < |blocks| == |start| && blocks[order[it]].first < blocks[order[it]].last <= |all|
    ensures collected <= maxRemoved
  {
    hide LeftFrom, Carries, Taken, Sorted, BlockOf, Emptied, TakenWhole;
    PermutationIndex(order, |blocks|, it);
    BlockAt(all, pivots, blocks, order[it]);
  }

  lemma CollectMore(all: seq<Upsert>, pivots: seq<Key>, blocks: seq<Block>, order: seq<nat>, it: nat,
                    start: seq<nat>, flushed: MessageMap, gone: map<Key, Upsert>,
                    needed: nat, maxRemoved: nat, collected: nat, toRemove: nat)
    requires Collecting(all, pivots, blocks, order, it, start, flushed, gone, needed, maxRemoved, collected)
    requires it < |order| && collected < needed <= maxRemoved && order[it] < |blocks| == |start|
    requires var b := blocks[order[it]];
             b.first < b.last <= |all| &&
             toRemove == if collected + (b.last - b.first) > maxRemoved then maxRemoved - collected else b.last - b.first
    ensures var b := blocks[order[it]];
            b.first + toRemove <= |all| && Sorted(all[b.first..b.first + toRemove]) &&
            Collecting(all, pivots, blocks, order, it + 1, start[order[it] := b.first + toRemove],
                       flushed[b.child := all[b.first..b.first + toRemove]], gone + MapOf(all[b.first..b.first + toRemove]),
                       needed, maxRemoved, collected + toRemove)
  {
    hide *;
    CollectingParts(all, pivots, blocks, order, it, start, flushed, gone, needed, maxRemoved, collected);
    var b := blocks[order[it]];
    var to := b.first + toRemove;
    TakeStep(all, pivots, blocks, order, it, start, flushed, gone, to);
    var run := all[b.first..to];
    CollectedRun(blocks, order, it, start, flushed, needed, maxRemoved, collected, toRemove, b.child, run);
    RunWasNeeded(flushed, b.child, run, collected, needed);
    CollectingFrom(all, pivots, blocks, order, it + 1, start[order[it] := to], flushed[b.child := run], gone + MapOf(run),
                   needed, maxRemoved, collected + toRemove);
  }

  lemma CollectingParts(all: seq<Upsert>, pivots: seq<Key>, blocks: seq<Block>, order: seq<nat>, it: nat,
                        start: seq<nat>, flushed: MessageMap, gone: map<Key, Upsert>,
                        needed: nat, maxRemoved: nat, collected: nat)
    requires Collecting(all, pivots, blocks, order, it, start, flushed, gone, needed, maxRemoved, collected)
    ensures Taking(all, pivots, blocks, order, it, start, flushed, gone) && Permutation(order, |blocks|)
    ensures it <= |order| && |start| == |blocks| && it <= collected == |gone| <= maxRemoved
    ensures TakenWhole(blocks, order, it, start, needed, maxRemoved, collected)
    ensures forall c :: c in flushed ==> |flushed[c]| <= maxRemoved
    ensures needed <= 1 ==> it <= 1
    ensures it == 0 ==> collected == 0
  {
  }

  lemma CollectingFrom(all: seq<Upsert>, pivots: seq<Key>, blocks: seq<Block>, order: seq<nat>, it: nat,
                       start: seq<nat>, flushed: MessageMap, gone: map<Key, Upsert>,
                       needed: nat, maxRemoved: nat, collected: nat)
    requires Taking(all, pivots, blocks, order, it, start, flushed, gone)
    requires it <= |order| && |start| == |blocks| && it <= collected == |gone| <= maxRemoved
    requires TakenWhole(blocks, order, it, start, needed, maxRemoved, collected)
    requires forall c :: c in flushed ==> |flushed[c]| <= maxRemoved
    requires needed <= 1 ==> it <= 1
    requires it == 0 ==> collected == 0
    requires NoneTooMany(flushed, collected, needed)
    ensures Collecting(all, pivots, blocks, order, it, start, flushed, gone, needed, maxRemoved, collected)
  {
  }

  lemma RunWasNeeded(flushed: MessageMap, c: nat, run: seq<Upsert>, collected: nat, needed: nat)
    requires collected < needed
    ensures NoneTooMany(flushed[c := run], collected + |run|, needed)
  {
    var flushed' := flushed[c := run];
    assert c in flushed' && |flushed'[c]| == |run|;
  }

  lemma CollectedRun(blocks: seq<Block>, order: seq<nat>, it: nat, start: seq<nat>, flushed: MessageMap,
                     needed: nat, maxRemoved: nat, collected: nat, toRemove: nat, c: nat, run: seq<Upsert>)
    requires it < |order| && |start| == |blocks| && Permutation(order, |blocks|) && order[it] < |blocks|
    requires TakenWhole(blocks, order, it, start, needed, maxRemoved, collected)
    requires forall d :: d in flushed ==> |flushed[d]| <= maxRemoved
    requires var b := blocks[order[it]];
             b.first < b.last && collected < needed <= maxRemoved && |run| == toRemove &&
             toRemove == if collected + (b.last - b.first) > maxRemoved then maxRemoved - collected else b.last - b.first
    ensures TakenWhole(blocks, order, it + 1, start[order[it] := blocks[order[it]].first + toRemove], needed, maxRemoved, collected + toRemove)
    ensures var flushed' := flushed[c := run]; forall d :: d in flushed' ==> |flushed'[d]| <= maxRemoved
  {
    EmptiedMore(blocks, order, it, start);
    hide Emptied, Permutation;
    var b := blocks[order[it]];
    assert collected + toRemove < maxRemoved ==> b.first + toRemove == b.last;
  }

  /** Takes blocks in the given order until enough slots are free; the last block is cut short
      if it would exceed the limit. */
  method TakeBlocks(all: seq<Upsert>, pivots: seq<Key>, blocks: seq<Block>, order: seq<nat>, needed: nat, maxRemoved: nat)
    returns (start: seq<nat>, flushed: MessageMap, it: nat, ghost gone: map<Key, Upsert>)
    requires Sorted(all) && Permutation(order, |blocks|) && Blocks(all, pivots, blocks, |all|)
    requires needed <= maxRemoved
    ensures Taking(all, pivots, blocks, order, it, start, flushed, gone)
    ensures |gone| <= maxRemoved
    ensures |gone| >= needed || Emptied(blocks, order, |order|, start)
    ensures forall c :: c in flushed ==> |flushed[c]| <= maxRemoved
    ensures needed >= 1 && all != [] ==> it >= 1
    ensures needed <= 1 ==> it <= 1
    ensures TakenWhole(blocks, order, it, start, needed, maxRemoved, |gone|)
    ensures NoneTooMany(flushed, |gone|, needed)
  {
    hide *;
    start := FirstOf(blocks);
    flushed, it, gone := map[], 0, map[];
    StartCollecting(all, pivots, blocks, order, needed, maxRemoved);
    var collected := 0;
    while collected < needed && it < |order|
      invariant it <= |order|
      invariant Collecting(all, pivots, blocks, order, it, start, flushed, gone, needed, maxRemoved, collected)
    {
      NextBlock(all, pivots, blocks, order, it, start, flushed, gone, needed, maxRemoved, collected);
      var b := blocks[order[it]];
      var blockSize: nat := b.last - b.first;
      var toRemove := blockSize;
      if collected + blockSize > maxRemoved {
        toRemove := maxRemoved - collected;
      }
      CollectMore(all, pivots, blocks, order, it, start, flushed, gone, needed, maxRemoved, collected, toRemove);
      var run := all[b.first..b.first + toRemove];
      start, flushed := start[order[it] := b.first + toRemove], flushed[b.child := run];
      gone := gone + MapOf(run);
      collected := collected + toRemove;
      it := it + 1;
    }
    Collected(all, pivots, blocks, order, it, start, flushed, gone, needed, maxRemoved, collected);
  }

  lemma Collected(all: seq<Upsert>, pivots: seq<Key>, blocks: seq<Block>, order: seq<nat>, it: nat,
                  start: seq<nat>, flushed: MessageMap, gone: map<Key, Upsert>,
                  needed: nat, maxRemoved: nat, collected: nat)
    requires Collecting(all, pivots, blocks, order, it, start, flushed, gone, needed, maxRemoved, collected)
    requires (collected >= needed || it >= |order|) && needed <= maxRemoved
    ensures Taking(all, pivots, blocks, order, it, start, flushed, gone)
    ensures |gone| <= maxRemoved
    ensures |gone| >= needed || Emptied(blocks, order, |order|, start)
    ensures forall c :: c in flushed ==> |flushed[c]| <= maxRemoved
    ensures needed >= 1 && |order| >= 1 ==> it >= 1
    ensures needed <= 1 ==> it <= 1
    ensures TakenWhole(blocks, order, it, start, needed, maxRemoved, |gone|)
    ensures NoneTooMany(flushed, |gone|, needed)
  {
    hide Taking, Emptied, NoneTooMany, SizeOfFirst;
  }

  /** What is left of the first `upTo` messages is what `gone` does not hold of them. */
  ghost predicate Rebuilt(all: seq<Upsert>, upTo: nat, gone: map<Key, Upsert>, rest: seq<Upsert>) {
    && upTo <= |all| && Sorted(rest)
    && (forall u :: u in rest ==> u in all && u.key !in gone && Before(all, upTo, u))
    && (forall i :: 0 <= i < upTo && all[i].key !in gone ==> all[i] in rest)
  }

  ghost predicate Before(all: seq<Upsert>, upTo: nat, u: Upsert) {
    upTo < |all| ==> u.key < all[upTo].key
  }

  lemma BeforeLater(all: seq<Upsert>, s: nat, l: nat, u: Upsert)
    requires Sorted(all) && s <= l <= |all| && Before(all, s, u)
    ensures Before(all, l, u)
  {
  }

  lemma RunMembers(all: seq<Upsert>, blocks: seq<Block>, start: seq<nat>, gone: map<Key, Upsert>, b: nat, u: Upsert)
    requires Sorted(all) && b < |blocks| == |start| && LeftFrom(all, blocks, start, gone, b)
    requires u in all[start[b]..blocks[b].last]
    ensures u in all && u.key !in gone && Before(all, blocks[b].last, u)
    ensures all[blocks[b].first].key <= u.key
  {
    var run := all[start[b]..blocks[b].last];
    var i :| 0 <= i < |run| && run[i] == u;
    assert all[start[b] + i] == u;
  }

  lemma RebuildStep(all: seq<Upsert>, blocks: seq<Block>, start: seq<nat>, gone: map<Key, Upsert>, b: nat, rest: seq<Upsert>)
    requires Sorted(all) && b < |blocks| == |start| && LeftFrom(all, blocks, start, gone, b)
    requires blocks[b].first < blocks[b].last
    requires Rebuilt(all, blocks[b].first, gone, rest)
    ensures Rebuilt(all, blocks[b].last, gone, rest + all[start[b]..blocks[b].last])
  {
    hide *;
    RunLeft(all, blocks, start, gone, b);
    RestBefore(all, blocks[b].first, blocks[b].last, gone, rest);
    var run := all[start[b]..blocks[b].last];
    SortedJoin(rest, run);
    NothingMissing(all, blocks, start, gone, b, rest);
    RebuiltFrom(all, blocks[b].last, gone, rest, run);
  }

  /** What is left of a block. */
  lemma RunLeft(all: seq<Upsert>, blocks: seq<Block>, start: seq<nat>, gone: map<Key, Upsert>, b: nat)
    requires Sorted(all) && b < |blocks| == |start| && LeftFrom(all, blocks, start, gone, b)
    requires blocks[b].first < blocks[b].last
    ensures start[b] <= blocks[b].last <= |all| && Sorted(all[start[b]..blocks[b].last])
    ensures forall u :: u in all[start[b]..blocks[b].last] ==>
              u in all && u.key !in gone && Before(all, blocks[b].last, u) && all[blocks[b].first].key <= u.key
  {
    SliceSorted(all, start[b], blocks[b].last);
    hide Sorted, Before;
    forall u | u in all[start[b]..blocks[b].last]
      ensures u in all && u.key !in gone && Before(all, blocks[b].last, u) && all[blocks[b].first].key <= u.key
    {
      RunMembers(all, blocks, start, gone, b, u);
    }
  }

  lemma RestBefore(all: seq<Upsert>, first: nat, last: nat, gone: map<Key, Upsert>, rest: seq<Upsert>)
    requires Sorted(all) && Rebuilt(all, first, gone, rest) && first < last <= |all|
    ensures Sorted(rest)
    ensures forall u :: u in rest ==> u in all && u.key !in gone && Before(all, last, u) && u.key < all[first].key
  {
    hide Sorted;
    forall u | u in rest ensures Before(all, last, u) && u.key < all[first].key {
      assert Before(all, first, u);
      BeforeLater(all, first, last, u);
    }
  }

  lemma NothingMissing(all: seq<Upsert>, blocks: seq<Block>, start: seq<nat>, gone: map<Key, Upsert>, b: nat, rest: seq<Upsert>)
    requires b < |blocks| == |start| && LeftFrom(all, blocks, start, gone, b) && Rebuilt(all, blocks[b].first, gone, rest)
    requires start[b] <= blocks[b].last <= |all|
    ensures forall i :: 0 <= i < blocks[b].last && all[i].key !in gone ==> all[i] in rest + all[start[b]..blocks[b].last]
  {
    hide Sorted, Before;
    var s, l := start[b], blocks[b].last;
    var run := all[s..l];
    forall i | 0 <= i < l && all[i].key !in gone ensures all[i] in rest + run {
      if s <= i { assert run[i - s] == all[i]; }
    }
  }

  lemma RebuiltFrom(all: seq<Upsert>, upTo: nat, gone: map<Key, Upsert>, rest: seq<Upsert>, run: seq<Upsert>)
    requires upTo <= |all| && Sorted(rest + run)
    requires forall u :: u in rest ==> u in all && u.key !in gone && Before(all, upTo, u)
    requires forall u :: u in run ==> u in all && u.key !in gone && Before(all, upTo, u)
    requires forall i :: 0 <= i < upTo && all[i].key !in gone ==> all[i] in rest + run
    ensures Rebuilt(all, upTo, gone, rest + run)
  {
    hide Sorted, Before;
  }

  lemma SortedJoin(a: seq<Upsert>, b: seq<Upsert>)
    requires Sorted(a) && Sorted(b) && forall u, v :: u in a && v in b ==> u.key < v.key
    ensures Sorted(a + b)
  {
    var t := a + b;
    forall i, j | 0 <= i < j < |t| ensures t[i].key < t[j].key {
      if i < |a| <= j { assert a[i] in a && b[j - |a|] in b; }
    }
  }

  lemma RebuiltMap(all: seq<Upsert>, gone: map<Key, Upsert>, rest: seq<Upsert>)
    requires Sorted(all) && Rebuilt(all, |all|, gone, rest) && PartOf(gone, MapOf(all))
    ensures MapOf(rest) == MapOf(all) - gone.Keys
    ensures |rest| == |all| - |gone|
  {
    assert all[..|all|] == all;
    var m, g := MapOf(all), MapOf(all) - gone.Keys;
    forall k | k in g ensures g[k] in rest && g[k].key == k {
      var i :| 0 <= i < |all| && all[i] == m[k];
    }
    forall u | u in rest ensures u.key in g && g[u.key] == u {
      assert u in all;
    }
    HoldsUnique(rest, g);
    MapOfSize(all);
    MapOfSize(rest);
    assert g.Keys == m.Keys - gone.Keys && gone.Keys <= m.Keys;
    assert |g.Keys| == |m.Keys| - |gone.Keys|;
  }

  /** Moves the remaining messages back to the node, block by block in their natural order. */
  method Rebuild(all: seq<Upsert>, pivots: seq<Key>, blocks: seq<Block>, start: seq<nat>, ghost gone: map<Key, Upsert>)
    returns (rest: seq<Upsert>)
    requires Sorted(all) && Blocks(all, pivots, blocks, |all|) && |start| == |blocks|
    requires forall b :: 0 <= b < |blocks| ==> LeftFrom(all, blocks, start, gone, b)
    ensures Rebuilt(all, |all|, gone, rest)
    ensures (forall b :: 0 <= b < |blocks| ==> start[b] == blocks[b].last) ==> rest == []
  {
    rest := [];
    assert Rebuilt(all, 0, gone, rest);
    for b := 0 to |blocks|
      invariant Rebuilt(all, if b == 0 then 0 else blocks[b - 1].last, gone, rest)
      invariant (forall c :: 0 <= c < b ==> start[c] == blocks[c].last) ==> rest == []
    {
      BlockStart(all, pivots, blocks, b);
      BlockAt(all, pivots, blocks, b);
      assert LeftFrom(all, blocks, start, gone, b);
      RebuildStep(all, blocks, start, gone, b, rest);
      if start[b] == blocks[b].last {
        // its messages have left the buffer
        assert rest + all[start[b]..blocks[b].last] == rest;
        continue;
      }
      rest := rest + all[start[b]..blocks[b].last];
    }
    assert blocks == [] ==> |all| == 0;
  }

  lemma BlockStart(all: seq<Upsert>, pivots: seq<Key>, blocks: seq<Block>, b: nat)
    requires Blocks(all, pivots, blocks, |all|) && b < |blocks|
    ensures blocks[b].first == if b == 0 then 0 else blocks[b - 1].last
  {
  }

  // ---- which blocks leave ---------------------------------------------------------------------

  /** The keys of `m` that are routed to child `c`. */
  ghost function Routed(m: map<Key, Upsert>, pivots: seq<Key>, c: nat): set<Key> {
    set k | k in m && LowerBound(pivots, k) == c
  }

  lemma BlockHolding(all: seq<Upsert>, pivots: seq<Key>, blocks: seq<Block>, i: nat) returns (b: nat)
    requires Blocks(all, pivots, blocks, |all|) && i < |all|
    ensures b < |blocks| && blocks[b].first <= i < blocks[b].last
    ensures LowerBound(pivots, all[i].key) == blocks[b].child
  {
    b := |blocks| - 1;
    while i < blocks[b].first
      invariant b < |blocks| && i < blocks[b].last
    {
      assert blocks[b].first == if b == 0 then 0 else blocks[b - 1].last;
      b := b - 1;
    }
    assert BlockOf(all, pivots, blocks[b]);
  }

  lemma MessageIndex(all: seq<Upsert>, k: Key) returns (i: nat)
    requires Sorted(all) && k in MapOf(all)
    ensures i < |all| && all[i].key == k
  {
    i :| 0 <= i < |all| && all[i] == MapOf(all)[k];
  }

  /** A block holds all messages routed to its child. */
  lemma RoutedIsBlock(all: seq<Upsert>, pivots: seq<Key>, blocks: seq<Block>, b: nat)
    requires Sorted(all) && Blocks(all, pivots, blocks, |all|) && b < |blocks|
    ensures |Routed(MapOf(all), pivots, blocks[b].child)| == Size(blocks[b])
  {
    BlockAt(all, pivots, blocks, b);
    RunOfBlock(all, pivots, blocks[b], blocks[b].last);
    var run := all[blocks[b].first..blocks[b].last];
    var m, r := MapOf(all), Routed(MapOf(all), pivots, blocks[b].child);
    hide Holds, BlockOf, Sorted, LowerBound;
    forall k | k in r ensures k in MapOf(run) {
      var i := MessageIndex(all, k);
      var c := BlockHolding(all, pivots, blocks, i);
      assert c == b;
      PositionsDiffer(all, i, blocks[b].first, blocks[b].last);
    }
    forall k | k in MapOf(run) ensures k in r {
      var i := MessageIndex(run, k);
      assert run[i] in run;
    }
    assert r == MapOf(run).Keys;
    MapOfSize(run);
  }

  lemma RoutedNowhere(all: seq<Upsert>, pivots: seq<Key>, blocks: seq<Block>, d: nat)
    requires Sorted(all) && Blocks(all, pivots, blocks, |all|)
    requires forall b :: 0 <= b < |blocks| ==> blocks[b].child != d
    ensures Routed(MapOf(all), pivots, d) == {}
  {
    hide Blocks, Sorted, LowerBound;
    forall k | k in MapOf(all) ensures LowerBound(pivots, k) != d {
      var i := MessageIndex(all, k);
      var b := BlockHolding(all, pivots, blocks, i);
    }
  }

  /** No child left out has more messages waiting than a child that was served. */
  ghost predicate ServesLargest(m: map<Key, Upsert>, pivots: seq<Key>, flushed: MessageMap) {
    forall c, d :: c in flushed && d !in flushed ==> |Routed(m, pivots, d)| <= |Routed(m, pivots, c)|
  }

  lemma OrderIndex(blocks: seq<Block>, order: seq<nat>, b: nat) returns (j: nat)
    requires Permutation(order, |blocks|) && b < |blocks|
    ensures j < |order| && order[j] == b
  {
    assert b in order;
    j :| 0 <= j < |order| && order[j] == b;
  }

  /** A served child belongs to one of the blocks taken. */
  lemma ServedBlock(all: seq<Upsert>, pivots: seq<Key>, blocks: seq<Block>, order: seq<nat>, it: nat,
                    start: seq<nat>, flushed: MessageMap, gone: map<Key, Upsert>, c: nat) returns (j: nat)
    requires Taking(all, pivots, blocks, order, it, start, flushed, gone) && c in flushed
    ensures j < it <= |order| && order[j] < |blocks| && blocks[order[j]].child == c
  {
    assert CarriesChild(pivots, flushed, gone, c);
    var u := flushed[c][0];
    assert u in flushed[c];
    var i := MessageIndex(all, u.key);
    var b := BlockHolding(all, pivots, blocks, i);
    j := OrderIndex(blocks, order, b);
  }

  lemma TakenServesLargest(all: seq<Upsert>, pivots: seq<Key>, blocks: seq<Block>, order: seq<nat>, it: nat,
                           start: seq<nat>, flushed: MessageMap, gone: map<Key, Upsert>)
    requires Taking(all, pivots, blocks, order, it, start, flushed, gone) && LargestFirst(blocks, order)
    ensures ServesLargest(MapOf(all), pivots, flushed)
  {
    hide Sorted, Blocks, LeftFrom, PartOf, Carries, Routed, Permutation;
    forall c, d | c in flushed && d !in flushed
      ensures |Routed(MapOf(all), pivots, d)| <= |Routed(MapOf(all), pivots, c)|
    {
      var j := ServedBlock(all, pivots, blocks, order, it, start, flushed, gone, c);
      RoutedIsBlock(all, pivots, blocks, order[j]);
      if b :| 0 <= b < |blocks| && blocks[b].child == d {
        var i := OrderIndex(blocks, order, b);
        RoutedIsBlock(all, pivots, blocks, b);
        assert i >= it;
      } else {
        RoutedNowhere(all, pivots, blocks, d);
      }
    }
  }

  // ---- how much of them leaves, and how many --------------------------------------------------

  /** A child gets all that waits for it, unless the limit has been reached. */
  ghost predicate WholeBlocks(m: map<Key, Upsert>, pivots: seq<Key>, flushed: MessageMap, taken: nat, maxRemoved: nat) {
    forall c :: c in flushed ==> |flushed[c]| == |Routed(m, pivots, c)| || taken == maxRemoved
  }

  /** Of the messages for one child those with the lowest keys leave. */
  ghost predicate LowestLeave(gone: map<Key, Upsert>, kept: map<Key, Upsert>, pivots: seq<Key>) {
    forall k, q :: k in gone && q in kept && LowerBound(pivots, k) == LowerBound(pivots, q) ==> k < q
  }

  /** The keys of `m` that are routed to one of the children `cs`. */
  ghost function RoutedIn(m: map<Key, Upsert>, pivots: seq<Key>, cs: set<nat>): set<Key> {
    set k | k in m && LowerBound(pivots, k) in cs
  }

  /** No fewer than `n` children have as many messages waiting as are needed. */
  ghost predicate NoFewer(m: map<Key, Upsert>, pivots: seq<Key>, n: nat, needed: int) {
    forall cs: set<nat> :: |cs| < n ==> |RoutedIn(m, pivots, cs)| < needed
  }

  /** A list holds the messages of `gone` for its child. */
  lemma ListIsRouted(pivots: seq<Key>, flushed: MessageMap, gone: map<Key, Upsert>, c: nat)
    requires Carries(pivots, flushed, gone) && c in flushed
    ensures |flushed[c]| == |Routed(gone, pivots, c)|
  {
    assert CarriesChild(pivots, flushed, gone, c);
    var m := MapOf(flushed[c]);
    forall k | k in Routed(gone, pivots, c) ensures k in m {
      assert CarriesKey(pivots, flushed, gone, k);
      assert gone[k] in flushed[c];
    }
    forall k | k in m ensures k in Routed(gone, pivots, c) {
      assert m[k] in flushed[c];
    }
    assert m.Keys == Routed(gone, pivots, c);
    MapOfSize(flushed[c]);
  }

  lemma TakenAreWhole(all: seq<Upsert>, pivots: seq<Key>, blocks: seq<Block>, order: seq<nat>, it: nat,
                      start: seq<nat>, flushed: MessageMap, gone: map<Key, Upsert>, needed: nat, maxRemoved: nat)
    requires Taking(all, pivots, blocks, order, it, start, flushed, gone)
    requires TakenWhole(blocks, order, it, start, needed, maxRemoved, |gone|) && |gone| <= maxRemoved
    ensures WholeBlocks(MapOf(all), pivots, flushed, |gone|, maxRemoved)
  {
    hide *;
    TakingParts(all, pivots, blocks, order, it, start, flushed, gone);
    forall c | c in flushed && |gone| < maxRemoved ensures |flushed[c]| == |Routed(MapOf(all), pivots, c)| {
      var j := ServedBlock(all, pivots, blocks, order, it, start, flushed, gone, c);
      EmptiedAt(blocks, order, it, start, needed, maxRemoved, |gone|, j);
      ListIsRouted(pivots, flushed, gone, c);
      BlockHasLeft(all, pivots, blocks, order, it, start, flushed, gone, order[j]);
    }
    WholeBlocksFrom(MapOf(all), pivots, flushed, |gone|, maxRemoved);
  }

  lemma WholeBlocksFrom(m: map<Key, Upsert>, pivots: seq<Key>, flushed: MessageMap, taken: nat, maxRemoved: nat)
    requires taken <= maxRemoved
    requires forall c :: c in flushed && taken < maxRemoved ==> |flushed[c]| == |Routed(m, pivots, c)|
    ensures WholeBlocks(m, pivots, flushed, taken, maxRemoved)
  {
    hide Routed;
  }

  lemma EmptiedAt(blocks: seq<Block>, order: seq<nat>, it: nat, start: seq<nat>, needed: nat, maxRemoved: nat, taken: nat, j: nat)
    requires TakenWhole(blocks, order, it, start, needed, maxRemoved, taken) && taken < maxRemoved
    requires j < it <= |order| && order[j] < |blocks| == |start|
    ensures start[order[j]] == blocks[order[j]].last
  {
  }

  /** Of a block that is used up no message has stayed. */
  lemma BlockHasLeft(all: seq<Upsert>, pivots: seq<Key>, blocks: seq<Block>, order: seq<nat>, it: nat,
                     start: seq<nat>, flushed: MessageMap, gone: map<Key, Upsert>, b: nat)
    requires Taking(all, pivots, blocks, order, it, start, flushed, gone) && b < |blocks|
    requires start[b] == blocks[b].last
    ensures Routed(gone, pivots, blocks[b].child) == Routed(MapOf(all), pivots, blocks[b].child)
  {
    assert LeftFrom(all, blocks, start, gone, b);
    hide Sorted, BlockOf, Carries, Permutation, Taken, LowerBound;
    forall k | k in MapOf(all) && LowerBound(pivots, k) == blocks[b].child ensures k in gone {
      var i := MessageIndex(all, k);
      var c := BlockHolding(all, pivots, blocks, i);
      assert c == b;
    }
  }

  lemma TakenAreLowest(all: seq<Upsert>, pivots: seq<Key>, blocks: seq<Block>, order: seq<nat>, it: nat,
                       start: seq<nat>, flushed: MessageMap, gone: map<Key, Upsert>)
    requires Taking(all, pivots, blocks, order, it, start, flushed, gone)
    ensures LowestLeave(gone, MapOf(all) - gone.Keys, pivots)
  {
    hide BlockOf, Carries, Permutation, Taken, LowerBound;
    forall k, q | k in gone && q in MapOf(all) && q !in gone && LowerBound(pivots, k) == LowerBound(pivots, q) ensures k < q {
      var i := MessageIndex(all, k);
      var j := MessageIndex(all, q);
      var b := BlockHolding(all, pivots, blocks, i);
      var c := BlockHolding(all, pivots, blocks, j);
      assert b == c && LeftFrom(all, blocks, start, gone, b);
    }
  }

  // ---- fewer children would not do ------------------------------------------------------------

  predicate Chosen(blocks: seq<Block>, order: seq<nat>, cs: set<nat>, j: nat) {
    j < |order| && order[j] < |blocks| && blocks[order[j]].child in cs
  }

  function ChosenCount(blocks: seq<Block>, order: seq<nat>, cs: set<nat>, n: nat): nat {
    if n == 0 then 0 else ChosenCount(blocks, order, cs, n - 1) + if Chosen(blocks, order, cs, n - 1) then 1 else 0
  }

  function ChosenSize(blocks: seq<Block>, order: seq<nat>, cs: set<nat>, n: nat): int {
    if n == 0 then 0
    else ChosenSize(blocks, order, cs, n - 1) + if Chosen(blocks, order, cs, n - 1) then Size(blocks[order[n - 1]]) else 0
  }

  /** Chosen blocks hold no more than as many blocks from the front of the order. */
  lemma {:induction false} ChosenAtMost(blocks: seq<Block>, order: seq<nat>, cs: set<nat>, n: nat)
    requires LargestFirst(blocks, order) && n <= |order|
    ensures ChosenCount(blocks, order, cs, n) <= n
    ensures ChosenSize(blocks, order, cs, n) <= SizeOfFirst(blocks, order, ChosenCount(blocks, order, cs, n))
  {
    if n > 0 {
      ChosenAtMost(blocks, order, cs, n - 1);
      var c := ChosenCount(blocks, order, cs, n - 1);
      if Chosen(blocks, order, cs, n - 1) {
        assert c <= n - 1 && Size(blocks[order[c]]) >= Size(blocks[order[n - 1]]);
        assert SizeOfFirst(blocks, order, c + 1) == SizeOfFirst(blocks, order, c) + Size(blocks[order[c]]);
      }
    }
  }

  /** The chosen children among the first `n` blocks of the order. */
  ghost function ChosenAmong(blocks: seq<Block>, order: seq<nat>, cs: set<nat>, n: nat): set<nat> {
    set c | c in cs && exists j :: 0 <= j < n && Chosen(blocks, order, {c}, j)
  }

  lemma ChosenAmongNext(all: seq<Upsert>, pivots: seq<Key>, blocks: seq<Block>, order: seq<nat>, cs: set<nat>, n: nat)
    requires Permutation(order, |blocks|) && Blocks(all, pivots, blocks, |all|) && n < |order|
    ensures order[n] < |blocks|
    ensures var d := blocks[order[n]].child;
            d !in ChosenAmong(blocks, order, cs, n) &&
            ChosenAmong(blocks, order, cs, n + 1) == ChosenAmong(blocks, order, cs, n) + if d in cs then {d} else {}
  {
    var d := blocks[order[n]].child;
    forall j | 0 <= j < n ensures blocks[order[j]].child != d {
      assert order[j] != order[n];
    }
    hide Permutation, Blocks;
    forall c ensures c in ChosenAmong(blocks, order, cs, n + 1) <==> c in ChosenAmong(blocks, order, cs, n) || (c in cs && c == d) {
      if c == d { assert Chosen(blocks, order, {c}, n); }
    }
  }

  /** What the chosen children have waiting, block by block. */
  lemma {:induction false} ChosenRouted(all: seq<Upsert>, pivots: seq<Key>, blocks: seq<Block>, order: seq<nat>, cs: set<nat>, n: nat)
    requires Sorted(all) && Permutation(order, |blocks|) && Blocks(all, pivots, blocks, |all|) && n <= |order|
    ensures var among := ChosenAmong(blocks, order, cs, n);
            |among| == ChosenCount(blocks, order, cs, n) &&
            |RoutedIn(MapOf(all), pivots, among)| == ChosenSize(blocks, order, cs, n)
  {
    hide *;
    if n == 0 {
      NoneChosen(all, pivots, blocks, order, cs);
    } else {
      ChosenRouted(all, pivots, blocks, order, cs, n - 1);
      ChosenAmongNext(all, pivots, blocks, order, cs, n - 1);
      RoutedIsBlock(all, pivots, blocks, order[n - 1]);
      var among, d := ChosenAmong(blocks, order, cs, n - 1), blocks[order[n - 1]].child;
      ChosenNext(blocks, order, cs, n);
      RoutedMore(MapOf(all), pivots, among, d);
      assert among + {} == among;
    }
  }

  lemma NoneChosen(all: seq<Upsert>, pivots: seq<Key>, blocks: seq<Block>, order: seq<nat>, cs: set<nat>)
    ensures ChosenAmong(blocks, order, cs, 0) == {} && ChosenCount(blocks, order, cs, 0) == ChosenSize(blocks, order, cs, 0) == 0
    ensures Sorted(all) ==> RoutedIn(MapOf(all), pivots, {}) == {}
  {
    hide MapOf;
  }

  lemma ChosenNext(blocks: seq<Block>, order: seq<nat>, cs: set<nat>, n: nat)
    requires 0 < n <= |order| && order[n - 1] < |blocks|
    ensures var b := blocks[order[n - 1]]; var c := b.child in cs;
            ChosenCount(blocks, order, cs, n) == ChosenCount(blocks, order, cs, n - 1) + (if c then 1 else 0) &&
            ChosenSize(blocks, order, cs, n) == ChosenSize(blocks, order, cs, n - 1) + if c then Size(b) else 0
  {
  }

  lemma RoutedMore(m: map<Key, Upsert>, pivots: seq<Key>, cs: set<nat>, d: nat)
    requires d !in cs
    ensures |cs + {d}| == |cs| + 1
    ensures |RoutedIn(m, pivots, cs + {d})| == |RoutedIn(m, pivots, cs)| + |Routed(m, pivots, d)|
  {
    hide LowerBound;
    assert RoutedIn(m, pivots, cs + {d}) == RoutedIn(m, pivots, cs) + Routed(m, pivots, d);
    assert RoutedIn(m, pivots, cs) !! Routed(m, pivots, d);
  }

  /** Any children have waiting what those of them have that own a block. */
  lemma OnlyBlocksRouted(all: seq<Upsert>, pivots: seq<Key>, blocks: seq<Block>, order: seq<nat>, cs: set<nat>)
    requires Sorted(all) && Permutation(order, |blocks|) && Blocks(all, pivots, blocks, |all|)
    ensures RoutedIn(MapOf(all), pivots, cs) == RoutedIn(MapOf(all), pivots, ChosenAmong(blocks, order, cs, |order|))
    ensures |ChosenAmong(blocks, order, cs, |order|)| <= |cs|
  {
    var among := ChosenAmong(blocks, order, cs, |order|);
    Contained(among, cs);
    forall k | k in MapOf(all) && LowerBound(pivots, k) in cs ensures LowerBound(pivots, k) in among {
      var i := MessageIndex(all, k);
      var b := BlockHolding(all, pivots, blocks, i);
      var j := OrderIndex(blocks, order, b);
      assert Chosen(blocks, order, {blocks[b].child}, j);
    }
  }

  lemma Contained<T>(a: set<T>, b: set<T>)
    requires a <= b
    ensures |a| <= |b|
  {
    assert b == a + (b - a);
  }

  lemma {:induction false} FirstGrow(blocks: seq<Block>, order: seq<nat>, n: nat, m: nat)
    requires n <= m && forall b :: 0 <= b < |blocks| ==> Size(blocks[b]) >= 0
    ensures SizeOfFirst(blocks, order, n) <= SizeOfFirst(blocks, order, m)
    decreases m
  {
    if n < m { FirstGrow(blocks, order, n, m - 1); }
  }

  /** With fewer children than were served, however chosen, not enough messages would leave. */
  lemma FewerAreNotEnough(all: seq<Upsert>, pivots: seq<Key>, blocks: seq<Block>, order: seq<nat>, it: nat,
                          start: seq<nat>, needed: nat, maxRemoved: nat, collected: nat)
    requires Sorted(all) && Permutation(order, |blocks|) && Blocks(all, pivots, blocks, |all|) && LargestFirst(blocks, order)
    requires TakenWhole(blocks, order, it, start, needed, maxRemoved, collected)
    ensures NoFewer(MapOf(all), pivots, it, needed)
  {
    hide RoutedIn, ChosenAmong, Chosen, Sorted, Permutation;
    forall b | 0 <= b < |blocks| ensures Size(blocks[b]) >= 0 { BlockAt(all, pivots, blocks, b); }
    forall cs: set<nat> | |cs| < it ensures |RoutedIn(MapOf(all), pivots, cs)| < needed {
      OnlyBlocksRouted(all, pivots, blocks, order, cs);
      ChosenRouted(all, pivots, blocks, order, cs, |order|);
      ChosenAtMost(blocks, order, cs, |order|);
      FirstGrow(blocks, order, ChosenCount(blocks, order, cs, |order|), it - 1);
    }
  }

  /** Enough messages leave, if the buffer was within its capacity. */
  lemma EnoughLeave(upserts: seq<Upsert>, additional: seq<Upsert>, all: seq<Upsert>, gone: map<Key, Upsert>, rest: seq<Upsert>, capacity: nat)
    requires Sorted(upserts) && Sorted(additional) && Sorted(all) && MapOf(all) == MergeMap(MapOf(upserts), MapOf(additional))
    requires |upserts| <= capacity && |rest| == |all| - |gone|
    requires |gone| >= |upserts| + |additional| - capacity || rest == []
    ensures |gone| >= |upserts| + |additional| - capacity
  {
    MapOfSize(all);
    MapOfSize(additional);
    MergedAtLeast(MapOf(upserts), MapOf(additional));
    hide *;
  }

  lemma MergedAtLeast(a: map<Key, Upsert>, b: map<Key, Upsert>)
    requires KeyedRight(a) && KeyedRight(b)
    ensures |MergeMap(a, b)| >= |b|
  {
    hide SquashUpserts, KeyedRight;
    assert b.Keys <= MergeMap(a, b).Keys;
    hide MergeMap;
    Contained(b.Keys, MergeMap(a, b).Keys);
  }

  // ---- removeMessages -------------------------------------------------------------------------

  lemma NothingLost(m: map<Key, Upsert>, gone: map<Key, Upsert>)
    requires PartOf(gone, m)
    ensures gone.Keys !! (m - gone.Keys).Keys
    ensures gone + (m - gone.Keys) == m
  {
  }

  lemma MergedNonempty(a: seq<Upsert>, b: seq<Upsert>, all: seq<Upsert>)
    requires Sorted(a) && Sorted(b) && Sorted(all) && MapOf(all) == MergeMap(MapOf(a), MapOf(b))
    requires |a| + |b| >= 1
    ensures all != []
  {
    var u := if a != [] then a[0] else b[0];
    assert u in a || u in b;
    assert u.key in MapOf(all);
  }

  lemma TakingParts(all: seq<Upsert>, pivots: seq<Key>, blocks: seq<Block>, order: seq<nat>, it: nat,
                    start: seq<nat>, flushed: MessageMap, gone: map<Key, Upsert>)
    requires Taking(all, pivots, blocks, order, it, start, flushed, gone)
    ensures |start| == |blocks| && forall b :: 0 <= b < |blocks| ==> LeftFrom(all, blocks, start, gone, b)
    ensures Sorted(all) && PartOf(gone, MapOf(all)) && Carries(pivots, flushed, gone) && |flushed| == it
    ensures Emptied(blocks, order, |order|, start) ==>
              forall b :: 0 <= b < |blocks| ==> start[b] == blocks[b].last
  {
    if Emptied(blocks, order, |order|, start) {
      forall b | 0 <= b < |blocks| ensures start[b] == blocks[b].last {
        var j := OrderIndex(blocks, order, b);
      }
    }
  }

  /** removeMessages: merges the buffer with the additional messages and removes enough of them to
      make the rest fit the buffer, the largest blocks first. No message is lost or changed: what
      leaves and what stays make up the merged messages. */
  method RemoveMessages(upserts: seq<Upsert>, pivots: seq<Key>, additional: seq<Upsert>, capacity: nat, maxRemoved: nat)
    returns (rest: seq<Upsert>, flushed: MessageMap, ghost gone: map<Key, Upsert>)
    requires Sorted(upserts) && Sorted(additional) && |upserts| + |additional| >= 1
    requires 0 <= |upserts| + |additional| - capacity <= maxRemoved
    ensures Sorted(rest) && |rest| <= capacity
    ensures gone.Keys !! MapOf(rest).Keys
    ensures gone + MapOf(rest) == MergeMap(MapOf(upserts), MapOf(additional))
    ensures Carries(pivots, flushed, gone)
    ensures |gone| <= maxRemoved && forall c :: c in flushed ==> |flushed[c]| <= maxRemoved
    ensures ServesLargest(gone + MapOf(rest), pivots, flushed)
    ensures |upserts| + |additional| > capacity ==> flushed != map[]
    ensures WholeBlocks(gone + MapOf(rest), pivots, flushed, |gone|, maxRemoved) && LowestLeave(gone, MapOf(rest), pivots)
    ensures NoneTooMany(flushed, |gone|, |upserts| + |additional| - capacity)
    ensures NoFewer(gone + MapOf(rest), pivots, |flushed|, |upserts| + |additional| - capacity)
    ensures |upserts| <= capacity ==> |gone| >= |upserts| + |additional| - capacity
    ensures |upserts| + |additional| == capacity + 1 ==> |flushed| == 1
  {
    hide *;
    var needed := |upserts| + |additional| - capacity;
    var all := MergeUpserts.MergeUpserts(upserts, additional);
    MergedNonempty(upserts, additional, all);
    var blocks := FindBlocks(all, pivots);
    var order := SortBySize(blocks);
    var start, it;
    start, flushed, it, gone := TakeBlocks(all, pivots, blocks, order, needed, maxRemoved);
    TakingParts(all, pivots, blocks, order, it, start, flushed, gone);
    rest := Rebuild(all, pivots, blocks, start, gone);
    RebuiltMap(all, gone, rest);
    NothingLost(MapOf(all), gone);
    TakenServesLargest(all, pivots, blocks, order, it, start, flushed, gone);
    TakenAreWhole(all, pivots, blocks, order, it, start, flushed, gone, needed, maxRemoved);
    TakenAreLowest(all, pivots, blocks, order, it, start, flushed, gone);
    FewerAreNotEnough(all, pivots, blocks, order, it, start, needed, maxRemoved, |gone|);
    assert |upserts| <= capacity ==> |gone| >= needed by {
      if |upserts| <= capacity { EnoughLeave(upserts, additional, all, gone, rest, capacity); }
    }
  }
}
