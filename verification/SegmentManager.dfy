/** The block file: segments that grow in number, the set of those with free blocks, and block ids
    that name a segment and a block in it. */
module SegmentManagers {
  import opened Keys
  import opened BlockIds
  import opened Segments

  // ---- where segments lie in the file ---------------------------------------------------------

  /** Where a segment ends in the file. */
  function End(s: Segment): nat { s.fileOffset + s.TotalSize() }

  /** The first segment follows the manager's header, every other one its predecessor. */
  ghost predicate LaidOut(segments: seq<Segment>) {
    forall i :: 0 <= i < |segments| ==> Follows(segments, i)
  }

  ghost predicate Follows(segments: seq<Segment>, i: nat)
    requires i < |segments|
  {
    segments[i].fileOffset == if i == 0 then BLOCK_SIZE else End(segments[i - 1])
  }

  /** No two segments overlap in the file. */
  lemma {:induction false} SegmentsDisjoint(segments: seq<Segment>, i: nat, j: nat)
    requires LaidOut(segments) && i < j < |segments|
    ensures End(segments[i]) <= segments[j].fileOffset
    decreases j
  {
    assert Follows(segments, j);
    hide End;
    if i < j - 1 {
      SegmentsDisjoint(segments, i, j - 1);
      StartsBeforeEnd(segments[j - 1]);
    }
  }

  lemma StartsBeforeEnd(s: Segment)
    ensures s.fileOffset <= End(s)
  {
  }

  lemma BlockInside(s: Segment, a: nat)
    requires a < s.allocatedBlocks
    ensures s.fileOffset <= s.Offset(a) && s.Offset(a) + BLOCK_SIZE <= End(s)
  {
    MulMono(a + 1, s.allocatedBlocks);
    assert (a + 1) * BLOCK_SIZE == a * BLOCK_SIZE + BLOCK_SIZE;
  }

  /** How many blocks' worth of space the first `n` segments take, each with one for its header. */
  function SpaceBefore(segments: seq<Segment>, n: nat): nat
    requires n <= |segments|
  {
    if n == 0 then 0 else SpaceBefore(segments, n - 1) + 1 + segments[n - 1].allocatedBlocks
  }

  /** Where a block is in the file: behind the manager's header, the segments before its own, its
      segment's header, and the blocks before it. Nothing lies between two segments. */
  lemma {:induction false} OffsetIs(segments: seq<Segment>, i: nat, b: nat)
    requires LaidOut(segments) && i < |segments|
    ensures segments[i].fileOffset == (1 + SpaceBefore(segments, i)) * BLOCK_SIZE
    ensures segments[i].Offset(b) == (2 + SpaceBefore(segments, i) + b) * BLOCK_SIZE
    decreases i
  {
    assert Follows(segments, i);
    if i > 0 {
      OffsetIs(segments, i - 1, 0);
      var x, n := SpaceBefore(segments, i - 1), segments[i - 1].allocatedBlocks;
      Distribute(1 + x, 1 + n);
      Distribute(1, n);
    }
    Distribute(1 + SpaceBefore(segments, i), 1 + b);
    Distribute(1, b);
  }

  lemma Distribute(x: nat, y: nat)
    ensures (x + y) * BLOCK_SIZE == x * BLOCK_SIZE + y * BLOCK_SIZE
  {
  }

  /** The next segment starts where the last block of a segment ends, and its first block one block
      behind that. */
  lemma NextSegment(segments: seq<Segment>, i: nat)
    requires LaidOut(segments) && i + 1 < |segments| && segments[i].allocatedBlocks > 0
    ensures var last := segments[i].Offset(segments[i].allocatedBlocks - 1);
            segments[i + 1].fileOffset == last + BLOCK_SIZE && segments[i + 1].Offset(0) == last + 2 * BLOCK_SIZE
  {
    assert Follows(segments, i + 1);
    Distribute(segments[i].allocatedBlocks - 1, 1);
  }

  /** No two blocks overlap in the file, whichever segments they are in. */
  lemma BlocksDisjoint(segments: seq<Segment>, i: nat, a: nat, j: nat, b: nat)
    requires LaidOut(segments) && i < |segments| && j < |segments|
    requires a < segments[i].allocatedBlocks && b < segments[j].allocatedBlocks && (i != j || a != b)
    ensures segments[i].Offset(a) + BLOCK_SIZE <= segments[j].Offset(b) || segments[j].Offset(b) + BLOCK_SIZE <= segments[i].Offset(a)
  {
    hide LaidOut, End;
    if i == j {
      if a < b { segments[i].BlocksDisjoint(a, b); } else { segments[i].BlocksDisjoint(b, a); }
    } else {
      BlockInside(segments[i], a);
      BlockInside(segments[j], b);
      if i < j { SegmentsDisjoint(segments, i, j); } else { SegmentsDisjoint(segments, j, i); }
    }
  }

  // ---- how large segments are -----------------------------------------------------------------

  /** The blocks of the next segment after one of `last` blocks, or the first one if `last` is zero. */
  function NextSize(last: nat, growthFactor: real): nat {
    var grown := (last as real * growthFactor).Floor;
    if grown > 10 then grown else 10
  }

  /** The first segment has the smallest size, every other one what its predecessor asks for; `last` is
      the size of the last one. */
  ghost predicate Sized(segments: seq<Segment>, last: nat, growthFactor: real) {
    && (forall i :: 0 <= i < |segments| ==> SizeFollows(segments, i, growthFactor))
    && last == if segments == [] then 0 else segments[|segments| - 1].allocatedBlocks
  }

  ghost predicate SizeFollows(segments: seq<Segment>, i: nat, growthFactor: real)
    requires i < |segments|
  {
    segments[i].allocatedBlocks == NextSize(if i == 0 then 0 else segments[i - 1].allocatedBlocks, growthFactor)
  }

  lemma SizedNone(growthFactor: real)
    ensures Sized([], 0, growthFactor)
  {
  }

  lemma SizedMore(segments: seq<Segment>, last: nat, growthFactor: real, s: Segment)
    requires Sized(segments, last, growthFactor) && s.allocatedBlocks == NextSize(last, growthFactor)
    ensures Sized(segments + [s], s.allocatedBlocks, growthFactor)
  {
    hide NextSize;
    var all := segments + [s];
    forall i | 0 <= i < |all| ensures SizeFollows(all, i, growthFactor) {
      if i < |segments| {
        assert SizeFollows(segments, i, growthFactor);
        assert all[i] == segments[i] && (i > 0 ==> all[i - 1] == segments[i - 1]);
      } else if i > 0 {
        assert all[i - 1] == segments[i - 1];
      }
    }
  }

  lemma GrowsBelow(last: nat, growthFactor: real)
    requires last >= 10
    ensures growthFactor >= 1.1 ==> NextSize(last, growthFactor) > last
    ensures growthFactor < 1.1 && last == 10 ==> NextSize(last, growthFactor) == 10
  {
    if growthFactor >= 1.1 {
      assert last as real * growthFactor >= last as real * 1.1;
    }
  }

  /** Segments grow, each one larger than the last, if and only if the growth factor is at least 1.1;
      below that all of them have ten blocks. */
  lemma {:induction false} SegmentsGrow(segments: seq<Segment>, last: nat, growthFactor: real, i: nat, j: nat)
    requires Sized(segments, last, growthFactor) && i < j < |segments|
    ensures 10 <= segments[i].allocatedBlocks
    ensures segments[i].allocatedBlocks < segments[j].allocatedBlocks <==> growthFactor >= 1.1
    ensures growthFactor < 1.1 ==> segments[i].allocatedBlocks == segments[j].allocatedBlocks == 10
    decreases j
  {
    assert SizeFollows(segments, j, growthFactor);
    if i < j - 1 {
      SegmentsGrow(segments, last, growthFactor, i, j - 1);
    } else if i > 0 {
      SegmentsGrow(segments, last, growthFactor, i - 1, i);
    } else {
      assert SizeFollows(segments, 0, growthFactor);
    }
    GrowsBelow(segments[j - 1].allocatedBlocks, growthFactor);
  }

  // ---- the state ------------------------------------------------------------------------------

  ghost predicate Distinct(segments: seq<Segment>) {
    forall i, j :: 0 <= i < j < |segments| ==> segments[i] != segments[j]
  }

  ghost predicate AllValid(segments: seq<Segment>)
    reads segments
  {
    forall i :: 0 <= i < |segments| ==> segments[i].Valid()
  }

  /** A segment is in the free set exactly if it has a free block. */
  ghost predicate FreeListed(segments: seq<Segment>, free: set<nat>)
    reads segments
  {
    && (forall i :: i in free ==> i < |segments|)
    && (forall i :: 0 <= i < |segments| ==> (i in free <==> segments[i].FreeBlocks() > 0))
  }

  lemma OthersDiffer(segments: seq<Segment>, k: nat)
    requires Distinct(segments) && k < |segments|
    ensures forall i :: 0 <= i < |segments| && i != k ==> segments[i] != segments[k]
  {
  }

  lemma SegmentsAre(segments: seq<Segment>, free: set<nat>)
    requires AllValid(segments) && FreeListed(segments, free)
    ensures forall i :: i in free ==> i < |segments|
    ensures forall i :: 0 <= i < |segments| ==> segments[i].Valid() && (i in free <==> segments[i].FreeBlocks() > 0)
  {
  }

  lemma SegmentsFrom(segments: seq<Segment>, free: set<nat>)
    requires forall i :: i in free ==> i < |segments|
    requires forall i :: 0 <= i < |segments| ==> segments[i].Valid() && (i in free <==> segments[i].FreeBlocks() > 0)
    ensures AllValid(segments) && FreeListed(segments, free)
  {
    hide ChainOK;
  }

  lemma SegmentFreed(segments: seq<Segment>, free: set<nat>, k: nat)
    requires k < |segments| && segments[k].Valid() && segments[k].FreeBlocks() > 0
    requires forall i :: i in free ==> i < |segments|
    requires forall i :: 0 <= i < |segments| && i != k ==> segments[i].Valid() && (i in free <==> segments[i].FreeBlocks() > 0)
    ensures AllValid(segments) && FreeListed(segments, free + {k})
  {
    hide ChainOK;
  }

  lemma OneInvalid(segments: seq<Segment>, k: nat)
    requires k < |segments| && !segments[k].Valid()
    ensures !AllValid(segments)
  {
    hide ChainOK;
  }

  lemma Appended(segments: seq<Segment>, free: set<nat>, s: Segment)
    requires Distinct(segments) && LaidOut(segments) && AllValid(segments) && FreeListed(segments, free)
    requires s !in segments && s.Valid() && s.FreeBlocks() > 0
    requires s.fileOffset == if segments == [] then BLOCK_SIZE else End(segments[|segments| - 1])
    ensures Distinct(segments + [s]) && LaidOut(segments + [s])
    ensures AllValid(segments + [s]) && FreeListed(segments + [s], free + {|segments|})
  {
    AppendedLayout(segments, s);
    var all := segments + [s];
    assert forall i :: 0 <= i < |segments| ==> all[i] == segments[i];
    hide LaidOut;
  }

  lemma AppendedLayout(segments: seq<Segment>, s: Segment)
    requires LaidOut(segments) && s.fileOffset == if segments == [] then BLOCK_SIZE else End(segments[|segments| - 1])
    ensures LaidOut(segments + [s])
  {
    var all := segments + [s];
    forall i | 0 <= i < |all| ensures Follows(all, i) {
      if i < |segments| {
        assert Follows(segments, i);
        assert all[i] == segments[i] && (i > 0 ==> all[i - 1] == segments[i - 1]);
      } else if i > 0 {
        assert all[i - 1] == segments[i - 1];
      }
    }
  }

  /** Within the bits of an id, the id of a block is that of no other. */
  lemma NewId(index: nat, block: nat)
    ensures index < TWO_TO_16 && block < TWO_TO_48 ==>
              IndexOf(Pack(index, block)) == index && BlockOf(Pack(index, block)) == block &&
              forall i: nat, b: nat :: i < TWO_TO_16 && b < TWO_TO_48 && Pack(i, b) == Pack(index, block) ==> i == index && b == block
  {
    if index < TWO_TO_16 && block < TWO_TO_48 {
      hide Pack, IndexOf, BlockOf;
      UnpackPackIff(index, block);
      forall i: nat, b: nat | i < TWO_TO_16 && b < TWO_TO_48 && Pack(i, b) == Pack(index, block) ensures i == index && b == block {
        PackInjective(i, b, index, block);
      }
    }
  }

  class SegmentManager {
    var segments: seq<Segment>
    var freeSegments: set<nat>
    var numberOfSegments: nat
    var lastAllocatedBlocks: nat
    const growthFactor: real

    ghost predicate Valid()
      reads this, segments
    {
      && numberOfSegments == |segments| && Distinct(segments) && LaidOut(segments)
      && Sized(segments, lastAllocatedBlocks, growthFactor)
      && AllValid(segments) && FreeListed(segments, freeSegments)
    }

    /** Block `block` of segment `index` is in use. */
    ghost predicate Live(index: nat, block: nat)
      reads this, segments
    {
      index < |segments| && segments[index].Live(block)
    }

    constructor (growth: real)
      ensures Valid() && segments == [] && growthFactor == growth
    {
      segments, freeSegments, numberOfSegments, lastAllocatedBlocks := [], {}, 0, 0;
      growthFactor := growth;
      SizedNone(growth);
    }

    /** A segment of at least ten blocks is added behind the others, larger than the last one by the
        growth factor; `disk` is what the file holds there. */
    method AddSegment(disk: nat -> Block) returns (segment: Segment)
      requires Valid()
      modifies this
      ensures Valid() && fresh(segment) && segments == old(segments) + [segment]
      ensures segment.allocatedBlocks == NextSize(old(lastAllocatedBlocks), growthFactor)
      ensures segment.chain == [] && segment.occupiedBlocks == 0
      ensures freeSegments == old(freeSegments) + {|old(segments)|}
    {
      var size := NextSize(lastAllocatedBlocks, growthFactor);
      var segmentOffset := if numberOfSegments == 0 then BLOCK_SIZE else End(segments[|segments| - 1]);
      segment := new Segment(segmentOffset, size, seq(size, disk));
      Append(segment);
    }

    method Append(segment: Segment)
      requires Valid() && segment !in segments && segment.Valid() && segment.FreeBlocks() > 0
      requires segment.allocatedBlocks == NextSize(lastAllocatedBlocks, growthFactor)
      requires segment.fileOffset == if segments == [] then BLOCK_SIZE else End(segments[|segments| - 1])
      modifies this
      ensures Valid() && segments == old(segments) + [segment]
      ensures freeSegments == old(freeSegments) + {|old(segments)|}
    {
      Appended(segments, freeSegments, segment);
      SizedMore(segments, lastAllocatedBlocks, growthFactor, segment);
      hide End, Distinct, LaidOut, AllValid, FreeListed, Sized, NextSize;
      lastAllocatedBlocks := segment.allocatedBlocks;
      segments := segments + [segment];
      freeSegments := freeSegments + {|segments| - 1};
      numberOfSegments := numberOfSegments + 1;
    }

    /** A block of a segment that has one; the segment leaves the free set with its last block. */
    method CreateIn(index: nat) returns (block: nat)
      requires Valid() && index in freeSegments
      modifies `freeSegments, segments[index]
      ensures Valid() && !old(Live(index, block)) && block < segments[index].allocatedBlocks
      ensures forall i, b :: Live(i, b) <==> old(Live(i, b)) || (i == index && b == block)
      ensures forall i :: 0 <= i < |segments| ==> segments[i].blocks == old(segments[i].blocks)
    {
      hide Distinct, LaidOut, Sized, NextSize, End, ChainOK;
      OthersDiffer(segments, index);
      SegmentsAre(segments, freeSegments);
      hide AllValid, FreeListed;
      var segment := segments[index];
      if segment.FreeBlocks() == 1 {
        freeSegments := freeSegments - {index};
      }
      var created := segment.CreateBlock();
      block := created.value;
      forall i | 0 <= i < |segments| && i != index
        ensures segments[i].Valid() && segments[i].FreeBlocks() == old(segments[i].FreeBlocks())
        ensures (forall b :: segments[i].Live(b) <==> old(segments[i].Live(b))) && segments[i].blocks == old(segments[i].blocks)
      {
        assert segments[i] != segment && old(segments[i].Valid());
      }
      SegmentsFrom(segments, freeSegments);
    }

    /** createBlock never hands out a block that is in use, and adds a segment only if no segment
        has a free block. */
    method CreateBlock(disk: nat -> Block) returns (id: nat, ghost index: nat, ghost block: nat)
      requires Valid()
      modifies this, segments
      ensures Valid() && index < |segments| && block < segments[index].allocatedBlocks
      ensures |old(segments)| <= |segments| <= |old(segments)| + 1 && forall i :: 0 <= i < |old(segments)| ==>
                segments[i] == old(segments)[i] && segments[i].blocks == old(segments[i].blocks)
      ensures |segments| > |old(segments)| ==>
                segments[|old(segments)|].allocatedBlocks == NextSize(old(lastAllocatedBlocks), growthFactor) && fresh(segments[|old(segments)|])
      ensures id == Pack(index, block) && !old(Live(index, block))
      ensures forall i, b :: Live(i, b) <==> old(Live(i, b)) || (i == index && b == block)
      ensures segments == old(segments) <==> exists i :: 0 <= i < |old(segments)| && old(segments[i].FreeBlocks()) > 0
      ensures index < TWO_TO_16 && block < TWO_TO_48 ==>
                Live(IndexOf(id), BlockOf(id)) && !old(Live(IndexOf(id), BlockOf(id))) &&
                forall i: nat, b: nat :: old(Live(i, b)) && i < TWO_TO_16 && b < TWO_TO_48 ==> Pack(i, b) != id
    {
      hide NextSize, Sized, LaidOut, Distinct, ChainOK, End;
      if segments == [] || freeSegments == {} {
        assert forall i :: 0 <= i < |segments| ==> i !in freeSegments;
        var segmentIndex := |segments|;
        ghost var before := segments;
        var segment := AddSegment(disk);
        assert forall i :: 0 <= i < |before| ==> segments[i] == before[i];
        var blockID := CreateIn(segmentIndex);
        index, block := segmentIndex, blockID;
        id := Pack(segmentIndex, blockID);
        NewId(index, block);
        return;
      }
      var segmentIndex :| segmentIndex in freeSegments;
      assert segments[segmentIndex].FreeBlocks() > 0;
      var blockID := CreateIn(segmentIndex);
      index, block := segmentIndex, blockID;
      id := Pack(segmentIndex, blockID);
      NewId(index, block);
    }

    /** deleteBlock frees a block in use, which makes its segment free. An id without a segment is
        refused; the id of a block that is not in use breaks the segment's list. */
    method DeleteBlock(id: nat) returns (ok: bool)
      requires Valid()
      modifies `freeSegments, if IndexOf(id) < |segments| then {segments[IndexOf(id)]} else {}
      ensures ok <==> IndexOf(id) < |segments|
      ensures Valid() <==> !ok || old(Live(IndexOf(id), BlockOf(id)))
      ensures Valid() ==> forall i, b :: Live(i, b) <==> old(Live(i, b)) && !(i == IndexOf(id) && b == BlockOf(id))
      ensures forall i :: 0 <= i < |segments| && i != IndexOf(id) ==> segments[i].blocks == old(segments[i].blocks)
      ensures old(Live(IndexOf(id), BlockOf(id))) ==>
                forall k :: 0 <= k < |segments[IndexOf(id)].blocks| && k != BlockOf(id) ==>
                  segments[IndexOf(id)].blocks[k] == old(segments[IndexOf(id)].blocks)[k]
    {
      hide Distinct, LaidOut, Sized, NextSize, ChainOK, IndexOf, BlockOf;
      var segmentIndex, blockID := IndexOf(id), BlockOf(id);
      if segmentIndex >= |segments| {
        return false;
      }
      ok := true;
      OthersDiffer(segments, segmentIndex);
      SegmentsAre(segments, freeSegments);
      hide AllValid, FreeListed;
      var segment := segments[segmentIndex];
      freeSegments := freeSegments + {segmentIndex};
      segment.FreeBlocksCount();
      segment.DeleteBlock(blockID);
      forall i | 0 <= i < |segments| && i != segmentIndex
        ensures segments[i].Valid() && (i in old(freeSegments) <==> segments[i].FreeBlocks() > 0)
        ensures (forall b :: segments[i].Live(b) <==> old(segments[i].Live(b))) && segments[i].blocks == old(segments[i].blocks)
      {
        assert segments[i] != segment && old(segments[i].Valid());
      }
      if segment.Valid() {
        SegmentFreed(segments, old(freeSegments), segmentIndex);
      } else {
        OneInvalid(segments, segmentIndex);
      }
    }

    /** writeBlock changes the block that the id names and no other; an id without a segment is
        refused. Only a write to a block that is not in use can break a segment's list. */
    method WriteBlock(id: nat, b: Block) returns (ok: bool)
      requires Valid()
      modifies if IndexOf(id) < |segments| then {segments[IndexOf(id)]} else {}
      ensures ok <==> IndexOf(id) < |segments|
      ensures Valid() <==> !ok || PointerKept(segments[IndexOf(id)].chain, BlockOf(id), b)
      ensures old(Live(IndexOf(id), BlockOf(id))) ==> Valid()
      ensures forall i, k :: Live(i, k) <==> old(Live(i, k))
      ensures forall i :: 0 <= i < |segments| && i != IndexOf(id) ==> segments[i].blocks == old(segments[i].blocks)
      ensures ok ==> segments[IndexOf(id)].blocks == if BlockOf(id) < segments[IndexOf(id)].allocatedBlocks
                then old(segments[IndexOf(id)].blocks)[BlockOf(id) := b] else old(segments[IndexOf(id)].blocks)
    {
      var segmentIndex, blockID := IndexOf(id), BlockOf(id);
      if segmentIndex >= |segments| {
        return false;
      }
      var segment := segments[segmentIndex];
      OthersDiffer(segments, segmentIndex);
      hide Distinct, LaidOut, Sized, ChainOK, IndexOf, BlockOf, PointerKept;
      SegmentsAre(segments, freeSegments);
      hide AllValid, FreeListed;
      segment.WriteBlock(blockID, b);
      forall i | 0 <= i < |segments| && i != segmentIndex
        ensures segments[i].Valid() && segments[i].FreeBlocks() == old(segments[i].FreeBlocks()) && segments[i].blocks == old(segments[i].blocks)
      {
        assert segments[i] != segment && old(segments[i].Valid());
      }
      if segment.Valid() {
        SegmentsFrom(segments, freeSegments);
      } else {
        OneInvalid(segments, segmentIndex);
      }
      return true;
    }

    method ReadBlock(id: nat) returns (b: Block)
      requires Valid() && Live(IndexOf(id), BlockOf(id))
      ensures b == segments[IndexOf(id)].blocks[BlockOf(id)]
    {
      b := segments[IndexOf(id)].ReadBlock(BlockOf(id));
    }
  }
}
