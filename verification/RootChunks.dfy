/** How splitRootNode cuts the arrays of a full root into new inner nodes. */
module RootChunks {
  import opened Keys

  /** The arrays of one new child. */
  datatype Chunk = Chunk(pivots: seq<Key>, children: seq<PageId>)

  function Min(a: nat, b: nat): nat { if a <= b then a else b }

  /** The new children: `c` pivots each, with one pivot skipped after each but the last. */
  function Chunks(ps: seq<Key>, cs: seq<PageId>, c: nat): (r: seq<Chunk>)
    requires |cs| == |ps| + 1
    ensures r != []
    decreases |ps|
  {
    if |ps| <= c + 1 then [Chunk(ps[..Min(c, |ps|)], cs[..Min(c, |ps|) + 1])]
    else [Chunk(ps[..c], cs[..c + 1])] + Chunks(ps[c + 1..], cs[c + 1..], c)
  }

  /** The skipped pivots, which the root keeps. */
  function Separators(ps: seq<Key>, c: nat): seq<Key>
    decreases |ps|
  {
    if |ps| <= c + 1 then [] else [ps[c]] + Separators(ps[c + 1..], c)
  }

  /** The new level read from left to right: pivots with their separators, and children. */
  function ReadPivots(chunks: seq<Chunk>, seps: seq<Key>): seq<Key>
    requires |chunks| == |seps| + 1
  {
    if seps == [] then chunks[0].pivots
    else chunks[0].pivots + [seps[0]] + ReadPivots(chunks[1..], seps[1..])
  }

  function ReadChildren(chunks: seq<Chunk>): seq<PageId> {
    if chunks == [] then [] else chunks[0].children + ReadChildren(chunks[1..])
  }

  /** Every new child is small, well-formed and gets one separator less than there are children. */
  lemma {:induction false} ChunksShape(ps: seq<Key>, cs: seq<PageId>, c: nat)
    requires |cs| == |ps| + 1
    ensures |Chunks(ps, cs, c)| == |Separators(ps, c)| + 1
    ensures forall k :: k in Chunks(ps, cs, c) ==> |k.pivots| <= c && |k.children| == |k.pivots| + 1
    ensures ps != [] ==> |Separators(ps, c)| < |ps|
    decreases |ps|
  {
    if |ps| > c + 1 {
      ChunksShape(ps[c + 1..], cs[c + 1..], c);
    }
  }

  lemma AtLeast(m: int, d: int)
    requires m >= 0
    ensures d >= 1 ==> m * d >= m
    ensures d <= -1 ==> m * d <= -m
  {
    if d >= 1 {
      assert m * d == m * (d - 1) + m;
    } else if d <= -1 {
      assert m * d == m * (d + 1) - m;
    }
  }

  lemma ModuloStep(n: nat, m: nat)
    requires 0 < m <= n
    ensures n % m == (n - m) % m
  {
    var q, q' := n / m, (n - m) / m;
    assert n == m * q + n % m && n - m == m * q' + (n - m) % m;
    assert m * (q - 1 - q') == m * q - m - m * q';
    AtLeast(m, q - 1 - q');
  }

  lemma ReadOneMore(k: Chunk, p: Key, chunks: seq<Chunk>, seps: seq<Key>)
    requires |chunks| == |seps| + 1
    ensures ReadPivots([k] + chunks, [p] + seps) == k.pivots + [p] + ReadPivots(chunks, seps)
    ensures ReadChildren([k] + chunks) == k.children + ReadChildren(chunks)
  {
    assert ([k] + chunks)[1..] == chunks && ([p] + seps)[1..] == seps;
  }

  lemma ReadFirst(k: Chunk)
    ensures ReadPivots([k], []) == k.pivots && ReadChildren([k]) == k.children
  {
    assert [k][1..] == [];
  }

  /** The cut keeps every pivot and child in place if the number of pivots is not a multiple of
      the step; otherwise it loses exactly the last pivot and the last child. */
  lemma {:induction false} CutReadsBack(ps: seq<Key>, cs: seq<PageId>, c: nat)
    requires |cs| == |ps| + 1 && ps != []
    ensures |Chunks(ps, cs, c)| == |Separators(ps, c)| + 1
    ensures var chunks, seps := Chunks(ps, cs, c), Separators(ps, c);
            if |ps| % (c + 1) != 0 then ReadPivots(chunks, seps) == ps && ReadChildren(chunks) == cs
            else ReadPivots(chunks, seps) == ps[..|ps| - 1] && ReadChildren(chunks) == cs[..|cs| - 1]
    decreases |ps|
  {
    hide *;
    ChunksShape(ps, cs, c);
    if |ps| <= c + 1 {
      OneChunkReadsBack(ps, cs, c);
    } else {
      var ps', cs' := ps[c + 1..], cs[c + 1..];
      CutReadsBack(ps', cs', c);
      ModuloStep(|ps|, c + 1);
      ChunksShape(ps', cs', c);
      ReadsBackStep(ps, cs, c, Chunks(ps', cs', c), Separators(ps', c));
      ChunksUnfold(ps, cs, c);
    }
  }

  lemma ChunksUnfold(ps: seq<Key>, cs: seq<PageId>, c: nat)
    requires |cs| == |ps| + 1 && |ps| > c + 1
    ensures Chunks(ps, cs, c) == [Chunk(ps[..c], cs[..c + 1])] + Chunks(ps[c + 1..], cs[c + 1..], c)
    ensures Separators(ps, c) == [ps[c]] + Separators(ps[c + 1..], c)
  {
  }

  lemma OneChunkReadsBack(ps: seq<Key>, cs: seq<PageId>, c: nat)
    requires |cs| == |ps| + 1 && 0 < |ps| <= c + 1
    ensures Chunks(ps, cs, c) == [Chunk(ps[..Min(c, |ps|)], cs[..Min(c, |ps|) + 1])] && Separators(ps, c) == []
    ensures var chunks, seps := Chunks(ps, cs, c), Separators(ps, c);
            if |ps| % (c + 1) != 0 then ReadPivots(chunks, seps) == ps && ReadChildren(chunks) == cs
            else ReadPivots(chunks, seps) == ps[..|ps| - 1] && ReadChildren(chunks) == cs[..|cs| - 1]
  {
    var p := Min(c, |ps|);
    ReadFirst(Chunk(ps[..p], cs[..p + 1]));
    SmallModulo(|ps|, c + 1);
    assert p == |ps| ==> ps[..p] == ps && cs[..p + 1] == cs;
    hide ReadPivots, ReadChildren;
  }

  lemma SmallModulo(n: nat, m: nat)
    requires 0 < n <= m
    ensures n % m == if n == m then 0 else n
  {
    if n == m { ModuloStep(n, m); }
  }

  lemma ReadsBackStep(ps: seq<Key>, cs: seq<PageId>, c: nat, chunks: seq<Chunk>, seps: seq<Key>)
    requires |cs| == |ps| + 1 && |ps| > c + 1 && |chunks| == |seps| + 1
    ensures var k, ps', cs' := Chunk(ps[..c], cs[..c + 1]), ps[c + 1..], cs[c + 1..];
            (ReadPivots(chunks, seps) == ps' ==> ReadPivots([k] + chunks, [ps[c]] + seps) == ps) &&
            (ReadPivots(chunks, seps) == ps'[..|ps'| - 1] ==> ReadPivots([k] + chunks, [ps[c]] + seps) == ps[..|ps| - 1]) &&
            (ReadChildren(chunks) == cs' ==> ReadChildren([k] + chunks) == cs) &&
            (ReadChildren(chunks) == cs'[..|cs'| - 1] ==> ReadChildren([k] + chunks) == cs[..|cs| - 1])
  {
    hide ReadPivots, ReadChildren;
    ReadOneMore(Chunk(ps[..c], cs[..c + 1]), ps[c], chunks, seps);
    CutWhole(ps, c);
    CutChildren(cs, c);
  }

  lemma CutWhole(ps: seq<Key>, c: nat)
    requires |ps| > c + 1
    ensures ps[..c] + [ps[c]] + ps[c + 1..] == ps
    ensures ps[..c] + [ps[c]] + ps[c + 1..][..|ps| - c - 2] == ps[..|ps| - 1]
  {
  }

  lemma CutChildren(cs: seq<PageId>, c: nat)
    requires |cs| > c + 2
    ensures cs[..c + 1] + cs[c + 1..] == cs
    ensures cs[..c + 1] + cs[c + 1..][..|cs| - c - 2] == cs[..|cs| - 1]
  {
  }

  /** splitRootNode preserves the root's pivots and children exactly when the number of pivots is
      not a multiple of the step. */
  lemma NothingDroppedIff(ps: seq<Key>, cs: seq<PageId>, c: nat)
    requires |cs| == |ps| + 1 && ps != []
    ensures |Chunks(ps, cs, c)| == |Separators(ps, c)| + 1
    ensures (ReadPivots(Chunks(ps, cs, c), Separators(ps, c)) == ps && ReadChildren(Chunks(ps, cs, c)) == cs)
            <==> |ps| % (c + 1) != 0
  {
    CutReadsBack(ps, cs, c);
  }

  lemma OddIsNoEvenMultiple(n: nat, c: nat)
    requires n % 2 == 1 && c % 2 == 1
    ensures n % (c + 1) != 0
  {
    var q, m := n / (c + 1), c + 1;
    assert n == q * m + n % m;
    assert m == 2 * (m / 2);
    assert q * m == 2 * (q * (m / 2));
  }

  /** A full root has an odd number of pivots; if INNER_N / 2 is odd, as for INNER_N == 3, nothing is
      ever dropped. */
  lemma OddChunksDropNothing(ps: seq<Key>, cs: seq<PageId>, c: nat)
    requires |cs| == |ps| + 1 && |ps| % 2 == 1 && c % 2 == 1
    ensures |Chunks(ps, cs, c)| == |Separators(ps, c)| + 1
    ensures ReadPivots(Chunks(ps, cs, c), Separators(ps, c)) == ps && ReadChildren(Chunks(ps, cs, c)) == cs
  {
    OddIsNoEvenMultiple(|ps|, c);
    NothingDroppedIff(ps, cs, c);
  }

  /** A full root of nine pivots above inner nodes with five, cut in steps of three, loses its last
      child. */
  lemma LastChildDropped(ps: seq<Key>, cs: seq<PageId>)
    requires |ps| == 9 && |cs| == 10
    ensures |Chunks(ps, cs, 5 / 2)| == |Separators(ps, 5 / 2)| + 1
    ensures ReadChildren(Chunks(ps, cs, 5 / 2)) == cs[..9]
    ensures ReadPivots(Chunks(ps, cs, 5 / 2), Separators(ps, 5 / 2)) == ps[..8]
  {
    CutReadsBack(ps, cs, 5 / 2);
  }

  /** What is left of the cut from position `i` on. */
  ghost predicate CutAt(ps: seq<Key>, cs: seq<PageId>, c: nat, i: nat, chunks: seq<Chunk>, seps: seq<Key>) {
    && |cs| == |ps| + 1 && i < |ps| && |chunks| == |seps| && |seps| <= i
    && Chunks(ps, cs, c) == chunks + Chunks(ps[i..], cs[i..], c)
    && Separators(ps, c) == seps + Separators(ps[i..], c)
  }

  lemma CutStart(ps: seq<Key>, cs: seq<PageId>, c: nat)
    requires |cs| == |ps| + 1 && ps != []
    ensures CutAt(ps, cs, c, 0, [], [])
  {
    assert ps[0..] == ps && cs[0..] == cs;
  }

  lemma CutNext(ps: seq<Key>, cs: seq<PageId>, c: nat, i: nat, chunks: seq<Chunk>, seps: seq<Key>)
    requires CutAt(ps, cs, c, i, chunks, seps) && i + c + 1 < |ps|
    ensures CutAt(ps, cs, c, i + c + 1, chunks + [Chunk(ps[i..i + c], cs[i..i + c + 1])], seps + [ps[i + c]])
  {
    var ps', cs', k := ps[i..], cs[i..], Chunk(ps[i..i + c], cs[i..i + c + 1]);
    assert ps'[c + 1..] == ps[i + c + 1..] && cs'[c + 1..] == cs[i + c + 1..];
    assert ps'[..c] == ps[i..i + c] && cs'[..c + 1] == cs[i..i + c + 1];
    assert Chunks(ps', cs', c) == [k] + Chunks(ps[i + c + 1..], cs[i + c + 1..], c);
    assert Separators(ps', c) == [ps[i + c]] + Separators(ps[i + c + 1..], c);
    hide Chunks, Separators;
    assert chunks + ([k] + Chunks(ps[i + c + 1..], cs[i + c + 1..], c)) == chunks + [k] + Chunks(ps[i + c + 1..], cs[i + c + 1..], c);
    assert seps + ([ps[i + c]] + Separators(ps[i + c + 1..], c)) == seps + [ps[i + c]] + Separators(ps[i + c + 1..], c);
  }

  lemma CutLast(ps: seq<Key>, cs: seq<PageId>, c: nat, i: nat, chunks: seq<Chunk>, seps: seq<Key>)
    requires CutAt(ps, cs, c, i, chunks, seps) && i + c + 1 >= |ps|
    ensures var p := Min(c, |ps| - i);
            Chunks(ps, cs, c) == chunks + [Chunk(ps[i..i + p], cs[i..i + p + 1])] && Separators(ps, c) == seps
  {
    var p := Min(c, |ps| - i);
    assert ps[i..][..p] == ps[i..i + p] && cs[i..][..p + 1] == cs[i..i + p + 1];
  }

  /** One round: a child's arrays are moved out, then the separator behind them and the child's
      id are stored at the front. */
  method MoveOut(pivots: array<Key>, children: array<PageId>, i: nat, count: nat, at: nat, newId: PageId, lastIteration: bool)
    returns (chunk: Chunk)
    requires at <= i && i + count + (if lastIteration then 0 else 1) <= pivots.Length && i + count < children.Length
    modifies pivots, children
    ensures chunk == Chunk(old(pivots[i..i + count]), old(children[i..i + count + 1]))
    ensures pivots[..] == if lastIteration then old(pivots[..]) else old(pivots[..])[at := old(pivots[i + count])]
    ensures children[..] == old(children[..])[at := newId]
  {
    chunk := Chunk(pivots[i..i + count], children[i..i + count + 1]);
    if !lastIteration {
      pivots[at] := pivots[i + count];
    }
    children[at] := newId;
  }

  /** Before a round the front of the arrays is written and the rest still holds `ps` and `cs`. */
  ghost predicate HalfCut(pv: seq<Key>, ch: seq<PageId>, ps: seq<Key>, cs: seq<PageId>, c: nat, i: nat,
                          newSize: nat, newIds: seq<PageId>, chunks: seq<Chunk>, seps: seq<Key>) {
    && CutAt(ps, cs, c, i, chunks, seps)
    && newSize == |seps| && |ps| <= |pv| && |cs| <= |ch| && |ps| <= |newIds|
    && (forall x :: 0 <= x < newSize ==> pv[x] == seps[x])
    && (forall x :: 0 <= x < newSize ==> ch[x] == newIds[x])
    && (forall x :: i <= x < |ps| ==> pv[x] == ps[x])
    && (forall x :: i <= x < |cs| ==> ch[x] == cs[x])
  }

  /** After the last round. */
  ghost predicate AllCut(pv: seq<Key>, ch: seq<PageId>, ps: seq<Key>, cs: seq<PageId>, c: nat,
                         newSize: nat, newIds: seq<PageId>, chunks: seq<Chunk>) {
    && |cs| == |ps| + 1 && newSize < |ps| <= |pv| && |cs| <= |ch| && |ps| <= |newIds|
    && chunks == Chunks(ps, cs, c)
    && pv[..newSize] == Separators(ps, c) && ch[..newSize + 1] == newIds[..newSize + 1]
  }

  lemma HalfCutStart(pv: seq<Key>, ch: seq<PageId>, size: nat, c: nat, newIds: seq<PageId>)
    requires 0 < size <= |pv| && size < |ch| && size <= |newIds|
    ensures HalfCut(pv, ch, pv[..size], ch[..size + 1], c, 0, 0, newIds, [], [])
  {
    CutStart(pv[..size], ch[..size + 1], c);
  }

  lemma HalfCutBounds(pv: seq<Key>, ch: seq<PageId>, ps: seq<Key>, cs: seq<PageId>, c: nat, i: nat,
                      newSize: nat, newIds: seq<PageId>, chunks: seq<Chunk>, seps: seq<Key>)
    requires HalfCut(pv, ch, ps, cs, c, i, newSize, newIds, chunks, seps)
    ensures newSize <= i < |ps| <= |pv| && |cs| == |ps| + 1 && |cs| <= |ch| && |ps| <= |newIds|
  {
  }

  lemma HalfCutRound(pv: seq<Key>, ch: seq<PageId>, ps: seq<Key>, cs: seq<PageId>, c: nat, i: nat,
                     newSize: nat, newIds: seq<PageId>, chunks: seq<Chunk>, seps: seq<Key>)
    requires HalfCut(pv, ch, ps, cs, c, i, newSize, newIds, chunks, seps) && newSize < |newIds| && newSize < |ch| && newSize < |pv|
    requires i + c + 1 < |ps| && i + c < |pv| && i + c + 1 <= |ch|
    ensures HalfCut(pv[newSize := pv[i + c]], ch[newSize := newIds[newSize]], ps, cs, c, i + c + 1,
                    newSize + 1, newIds, chunks + [Chunk(pv[i..i + c], ch[i..i + c + 1])], seps + [ps[i + c]])
  {
    CutNext(ps, cs, c, i, chunks, seps);
    assert pv[i..i + c] == ps[i..i + c] && ch[i..i + c + 1] == cs[i..i + c + 1];
    hide CutAt;
  }

  lemma LastCutRound(pv: seq<Key>, ch: seq<PageId>, ps: seq<Key>, cs: seq<PageId>, c: nat, i: nat,
                     newSize: nat, newIds: seq<PageId>, chunks: seq<Chunk>, seps: seq<Key>)
    requires HalfCut(pv, ch, ps, cs, c, i, newSize, newIds, chunks, seps) && newSize < |newIds| && newSize < |ch|
    requires i + c + 1 >= |ps| && i + Min(c, |ps| - i) < |ch| && i + Min(c, |ps| - i) <= |pv|
    ensures var p := Min(c, |ps| - i);
            AllCut(pv, ch[newSize := newIds[newSize]], ps, cs, c, newSize, newIds, chunks + [Chunk(pv[i..i + p], ch[i..i + p + 1])])
  {
    CutLast(ps, cs, c, i, chunks, seps);
    var p, ch' := Min(c, |ps| - i), ch[newSize := newIds[newSize]];
    assert pv[i..i + p] == ps[i..i + p] && ch[i..i + p + 1] == cs[i..i + p + 1];
    assert pv[..newSize] == seps;
    assert ch'[..newSize + 1] == newIds[..newSize + 1];
  }

  /** splitRootNode on the root's arrays. The separators and the ids of the new children are
      written over the front of the arrays while their rest is still being read; no entry is
      overwritten before it has been moved out. */
  method SplitRootInPlace(pivots: array<Key>, children: array<PageId>, size: nat, c: nat, newIds: seq<PageId>)
    returns (newSize: nat, chunks: seq<Chunk>)
    requires 0 < size <= pivots.Length && size < children.Length && size <= |newIds|
    modifies pivots, children
    ensures newSize < size
    ensures chunks == Chunks(old(pivots[..size]), old(children[..size + 1]), c)
    ensures pivots[..newSize] == Separators(old(pivots[..size]), c)
    ensures children[..newSize + 1] == newIds[..newSize + 1]
  {
    hide *;
    ghost var ps, cs := pivots[..][..size], children[..][..size + 1];
    assert ps == pivots[..size] && cs == children[..size + 1];
    HalfCutStart(pivots[..], children[..], size, c, newIds);
    newSize, chunks := 0, [];
    var i := 0;
    ghost var seps: seq<Key> := [];
    while i < size
      invariant i < size ==> HalfCut(pivots[..], children[..], ps, cs, c, i, newSize, newIds, chunks, seps)
      invariant i >= size ==> AllCut(pivots[..], children[..], ps, cs, c, newSize, newIds, chunks)
    {
      ghost var pv, ch := pivots[..], children[..];
      HalfCutBounds(pv, ch, ps, cs, c, i, newSize, newIds, chunks, seps);
      var lastIteration := i + (c + 1) >= size;
      var count := if c <= size - i then c else size - i;
      MinIs(c, size - i);
      var chunk := MoveOut(pivots, children, i, count, newSize, newIds[newSize], lastIteration);
      assert chunk == Chunk(pv[i..i + count], ch[i..i + count + 1]);
      if lastIteration {
        LastCutRound(pv, ch, ps, cs, c, i, newSize, newIds, chunks, seps);
      } else {
        HalfCutRound(pv, ch, ps, cs, c, i, newSize, newIds, chunks, seps);
        seps := seps + [ps[i + count]];
        newSize := newSize + 1;
      }
      chunks := chunks + [chunk];
      i := i + (c + 1);
    }
    AllCutParts(pivots[..], children[..], ps, cs, c, newSize, newIds, chunks);
    assert pivots[..][..newSize] == pivots[..newSize] && children[..][..newSize + 1] == children[..newSize + 1];
  }

  lemma AllCutParts(pv: seq<Key>, ch: seq<PageId>, ps: seq<Key>, cs: seq<PageId>, c: nat, newSize: nat, newIds: seq<PageId>, chunks: seq<Chunk>)
    requires AllCut(pv, ch, ps, cs, c, newSize, newIds, chunks)
    ensures |cs| == |ps| + 1 && newSize < |ps| <= |pv| && |cs| <= |ch| && |ps| <= |newIds|
    ensures chunks == Chunks(ps, cs, c)
    ensures pv[..newSize] == Separators(ps, c) && ch[..newSize + 1] == newIds[..newSize + 1]
  {
  }

  lemma MinIs(a: nat, b: nat)
    ensures Min(a, b) == if a <= b then a else b
  {
  }
}
