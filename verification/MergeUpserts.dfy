/** Merging two sorted runs of messages, squashing the messages of shared keys. */
module MergeUpserts {
  import opened Keys
  import opened Messages

  /** Every key both maps hold has its older message in `older`. */
  ghost predicate Precedes(older: map<Key, Upsert>, newer: map<Key, Upsert>) {
    forall k :: k in older && k in newer ==> older[k].timeStamp < newer[k].timeStamp
  }

  /** A merged map acts on every key as the older map followed by the newer one. */
  lemma MergeActsInOrder(older: map<Key, Upsert>, newer: map<Key, Upsert>, k: Key, base: Option<Value>)
    requires KeyedRight(older) && KeyedRight(newer) && Precedes(older, newer)
    ensures KeyedRight(MergeMap(older, newer))
    ensures ActOn(MergeMap(older, newer), k, base) == ActOn(newer, k, ActOn(older, k, base))
  {
    forall q | q in MergeMap(older, newer) ensures MergeMap(older, newer)[q].key == q {
      if q in older && q in newer { SquashActsInOrder(older[q], newer[q], base); }
    }
  }

  lemma TakeFirst(a: map<Key, Upsert>, b: map<Key, Upsert>, u: Upsert)
    requires KeyedRight(a) && KeyedRight(b)
    requires u.key !in a && u.key !in b
    ensures MergeMap(a[u.key := u], b) == MergeMap(a, b)[u.key := u]
    ensures MergeMap(a, b[u.key := u]) == MergeMap(a, b)[u.key := u]
  {
  }

  lemma TakeBoth(a: map<Key, Upsert>, b: map<Key, Upsert>, u: Upsert, v: Upsert)
    requires KeyedRight(a) && KeyedRight(b)
    requires u.key == v.key && u.key !in a && u.key !in b
    ensures MergeMap(a[u.key := u], b[v.key := v]) == MergeMap(a, b)[u.key := SquashUpserts(u, v)]
  {
  }

  lemma TakeRest(a: map<Key, Upsert>, b: map<Key, Upsert>, rest: map<Key, Upsert>)
    requires KeyedRight(a) && KeyedRight(b) && KeyedRight(rest)
    requires rest.Keys !! a.Keys && rest.Keys !! b.Keys
    ensures MergeMap(a + rest, b) == MergeMap(a, b) + rest
    ensures MergeMap(a, b + rest) == MergeMap(a, b) + rest
  {
  }

  ghost predicate AllBelow(s: seq<Upsert>, k: Key) {
    forall u :: u in s ==> u.key < k
  }

  /** Nothing merged so far reaches the next message of a run. */
  ghost predicate Ready(out: seq<Upsert>, run: seq<Upsert>, i: nat)
    requires i <= |run|
  {
    i < |run| ==> AllBelow(out, run[i].key)
  }

  lemma Advance(run: seq<Upsert>, i: nat)
    requires Sorted(run) && i < |run|
    ensures Sorted(run[..i]) && Sorted(run[..i + 1])
    ensures run[i].key !in MapOf(run[..i])
    ensures MapOf(run[..i + 1]) == MapOf(run[..i])[run[i].key := run[i]]
    ensures i + 1 < |run| ==> run[i].key < run[i + 1].key
  {
    assert run[..i + 1] == run[..i] + [run[i]];
    MapOfAppend(run[..i], run[i]);
  }

  lemma Finish(run: seq<Upsert>, i: nat)
    requires Sorted(run) && i <= |run|
    ensures Sorted(run[..i]) && Sorted(run[i..])
    ensures MapOf(run) == MapOf(run[..i]) + MapOf(run[i..])
    ensures MapOf(run[..i]).Keys !! MapOf(run[i..]).Keys
  {
    assert run == run[..i] + run[i..];
    MapOfConcat(run[..i], run[i..]);
  }

  lemma AppendRun(out: seq<Upsert>, run: seq<Upsert>, i: nat)
    requires Sorted(out) && Sorted(run) && i <= |run| && Ready(out, run, i)
    ensures Sorted(out + run[i..])
    ensures Sorted(run[i..])
    ensures MapOf(out + run[i..]) == MapOf(out) + MapOf(run[i..])
    ensures MapOf(out).Keys !! MapOf(run[i..]).Keys
  {
    assert Sorted(out + run[i..]) by {
      var t := out + run[i..];
      forall x, y | 0 <= x < y < |t| ensures t[x].key < t[y].key {
        if x < |out| <= y { assert out[x] in out && run[i].key <= t[y].key; }
      }
    }
    MapOfConcat(out, run[i..]);
  }

  lemma AppendOne(out: seq<Upsert>, u: Upsert)
    requires Sorted(out) && AllBelow(out, u.key)
    ensures Sorted(out + [u])
    ensures MapOf(out + [u]) == MapOf(out)[u.key := u]
    ensures u.key !in MapOf(out)
    ensures forall k: Key :: u.key < k ==> AllBelow(out + [u], k)
  {
    MapOfAppend(out, u);
  }

  /** The loop's state: `out` is the merge of the consumed prefixes, below all that is left. */
  ghost predicate Merged(first: seq<Upsert>, i: nat, second: seq<Upsert>, j: nat, out: seq<Upsert>) {
    && i <= |first| && j <= |second| && |out| <= i + j
    && Sorted(out) && Sorted(first[..i]) && Sorted(second[..j])
    && MapOf(out) == MergeMap(MapOf(first[..i]), MapOf(second[..j]))
    && Ready(out, first, i) && Ready(out, second, j)
  }

  lemma StartMerge(first: seq<Upsert>, second: seq<Upsert>)
    ensures Merged(first, 0, second, 0, [])
  {
    assert MapOf(first[..0]) == map[] && MapOf(second[..0]) == map[] && MapOf([]) == map[];
  }

  lemma MergedKeys(a: map<Key, Upsert>, b: map<Key, Upsert>)
    requires KeyedRight(a) && KeyedRight(b)
    ensures MergeMap(a, b).Keys == a.Keys + b.Keys
  {
  }

  lemma NotBelow(out: seq<Upsert>, k: Key)
    requires Sorted(out) && AllBelow(out, k)
    ensures k !in MapOf(out)
  {
    hide Sorted;
    assert forall q :: q in MapOf(out) ==> MapOf(out)[q] in out && q < k;
  }

  /** Keys consumed from either run lie below whatever both runs may still deliver. */
  lemma ConsumedBelow(first: seq<Upsert>, i: nat, second: seq<Upsert>, j: nat, out: seq<Upsert>, k: Key)
    requires Merged(first, i, second, j, out) && AllBelow(out, k)
    ensures k !in MapOf(first[..i]) && k !in MapOf(second[..j])
  {
    NotBelow(out, k);
    hide MergeMap, Sorted, AllBelow, Ready, Holds;
    MergedKeys(MapOf(first[..i]), MapOf(second[..j]));
  }

  lemma TakeSecondStep(first: seq<Upsert>, i: nat, second: seq<Upsert>, j: nat, out: seq<Upsert>)
    requires Sorted(first) && Sorted(second) && Merged(first, i, second, j, out)
    requires i < |first| && j < |second|
    requires first[i].key != second[j].key && After(first[i], second[j])
    ensures Merged(first, i, second, j + 1, out + [second[j]])
  {
    ConsumedBelow(first, i, second, j, out, second[j].key);
    Advance(second, j);
    AppendOne(out, second[j]);
    TakeFirst(MapOf(first[..i]), MapOf(second[..j]), second[j]);
  }

  lemma TakeFirstStep(first: seq<Upsert>, i: nat, second: seq<Upsert>, j: nat, out: seq<Upsert>)
    requires Sorted(first) && Sorted(second) && Merged(first, i, second, j, out)
    requires i < |first| && j < |second|
    requires first[i].key != second[j].key && !After(first[i], second[j])
    ensures Merged(first, i + 1, second, j, out + [first[i]])
  {
    ConsumedBelow(first, i, second, j, out, first[i].key);
    Advance(first, i);
    AppendOne(out, first[i]);
    TakeFirst(MapOf(first[..i]), MapOf(second[..j]), first[i]);
  }

  lemma TakeBothStep(first: seq<Upsert>, i: nat, second: seq<Upsert>, j: nat, out: seq<Upsert>, w: Upsert)
    requires Sorted(first) && Sorted(second) && Merged(first, i, second, j, out)
    requires i < |first| && j < |second| && first[i].key == second[j].key
    requires w == SquashUpserts(first[i], second[j])
    ensures Merged(first, i + 1, second, j + 1, out + [w])
  {
    hide SquashUpserts;
    ConsumedBelow(first, i, second, j, out, first[i].key);
    Advance(first, i);
    Advance(second, j);
    AppendOne(out, w);
    TakeBoth(MapOf(first[..i]), MapOf(second[..j]), first[i], second[j]);
  }

  lemma TakeRestOfFirst(first: seq<Upsert>, i: nat, second: seq<Upsert>, out: seq<Upsert>)
    requires Sorted(first) && Sorted(second) && Merged(first, i, second, |second|, out)
    ensures Sorted(out + first[i..])
    ensures MapOf(out + first[i..]) == MergeMap(MapOf(first), MapOf(second))
  {
    AppendRun(out, first, i);
    Finish(first, i);
    TakeRest(MapOf(first[..i]), MapOf(second), MapOf(first[i..]));
    assert second[..|second|] == second;
  }

  lemma TakeRestOfSecond(first: seq<Upsert>, second: seq<Upsert>, j: nat, out: seq<Upsert>)
    requires Sorted(first) && Sorted(second) && Merged(first, |first|, second, j, out)
    ensures Sorted(out + second[j..])
    ensures MapOf(out + second[j..]) == MergeMap(MapOf(first), MapOf(second))
  {
    AppendRun(out, second, j);
    Finish(second, j);
    TakeRest(MapOf(first), MapOf(second[..j]), MapOf(second[j..]));
    assert first[..|first|] == first;
  }

  /** mergeUpserts: the output is sorted with one message per key, and its map is the merge of
      the two input maps; both runs are read once, front to back. */
  method MergeUpserts(first: seq<Upsert>, second: seq<Upsert>) returns (out: seq<Upsert>)
    requires Sorted(first) && Sorted(second)
    ensures Sorted(out)
    ensures MapOf(out) == MergeMap(MapOf(first), MapOf(second))
    ensures |out| <= |first| + |second|
  {
    hide *;
    out := [];
    var i, j := 0, 0;
    StartMerge(first, second);
    while i != |first|
      decreases |first| - i + |second| - j
      invariant i <= |first| && j <= |second| && |out| <= i + j
      invariant Merged(first, i, second, j, out)
    {
      if j == |second| {
        TakeRestOfFirst(first, i, second, out);
        out := out + first[i..];
        return;
      }
      if first[i].key == second[j].key {
        var w := SquashUpserts(first[i], second[j]);
        TakeBothStep(first, i, second, j, out, w);
        out := out + [w];
        i, j := i + 1, j + 1;
      } else if After(first[i], second[j]) {
        TakeSecondStep(first, i, second, j, out);
        out := out + [second[j]];
        j := j + 1;
      } else {
        TakeFirstStep(first, i, second, j, out);
        out := out + [first[i]];
        i := i + 1;
      }
    }
    TakeRestOfSecond(first, second, j, out);
    out := out + second[j..];
  }

}
