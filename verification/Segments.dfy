/** One segment of the block file: a header, and blocks of which the deleted ones form a list that
    is threaded through the blocks themselves. */
module Segments {
  import opened Keys

  type Data(==, 0, !new)

  /** A block; its first eight bytes double as the list pointer while it is deleted. */
  datatype Block = Block(head: nat, rest: Data)

  /** The bytes of a block, B in the source. */
  const BLOCK_SIZE: nat

  /** The chain starts at the head, follows the pointers stored in its blocks, visits no block
      twice, and visits only blocks that were handed out once. */
  ghost predicate ChainOK(chain: seq<nat>, head: Option<nat>, deleted: nat, occupied: nat, blocks: seq<Block>) {
    && |chain| == deleted && occupied <= |blocks|
    && (head.None? <==> chain == []) && (chain != [] ==> head == Some(chain[0]))
    && (forall i :: 0 <= i < |chain| ==> chain[i] < occupied)
    && (forall i, j :: 0 <= i < j < |chain| ==> chain[i] != chain[j])
    && (forall i :: 0 <= i < |chain| - 1 ==> blocks[chain[i]].head == chain[i + 1])
  }

  /** Head, pointers and length determine the chain. */
  lemma {:induction false} ChainUnique(chain: seq<nat>, other: seq<nat>, head: Option<nat>, deleted: nat, occupied: nat, blocks: seq<Block>, i: nat)
    requires ChainOK(chain, head, deleted, occupied, blocks) && ChainOK(other, head, deleted, occupied, blocks) && i < |chain|
    ensures other[i] == chain[i]
  {
    if i > 0 {
      ChainUnique(chain, other, head, deleted, occupied, blocks, i - 1);
      assert blocks[chain[i - 1]].head == chain[i] && blocks[other[i - 1]].head == other[i];
    }
  }

  ghost function Below(n: nat): (s: set<nat>)
    ensures forall id: nat :: id in s <==> id < n
    ensures |s| == n
  {
    if n == 0 then {} else Below(n - 1) + {n - 1}
  }

  ghost function Members(chain: seq<nat>): (s: set<nat>)
    ensures forall id :: id in s <==> id in chain
    ensures |s| <= |chain|
  {
    if chain == [] then {} else
    assert chain == chain[..|chain| - 1] + [chain[|chain| - 1]];
    Members(chain[..|chain| - 1]) + {chain[|chain| - 1]}
  }

  lemma {:induction false} DistinctSize(chain: seq<nat>)
    requires forall i, j :: 0 <= i < j < |chain| ==> chain[i] != chain[j]
    ensures |Members(chain)| == |chain|
  {
    if chain != [] {
      var front, last := chain[..|chain| - 1], chain[|chain| - 1];
      assert forall i :: 0 <= i < |front| ==> front[i] == chain[i];
      DistinctSize(front);
      assert last !in front;
    }
  }

  /** A chain has at most as many blocks as were handed out, and all of them if it has as many. */
  lemma ChainSize(chain: seq<nat>, occupied: nat)
    requires forall i :: 0 <= i < |chain| ==> chain[i] < occupied
    requires forall i, j :: 0 <= i < j < |chain| ==> chain[i] != chain[j]
    ensures |chain| <= occupied
    ensures |chain| == occupied ==> forall id :: 0 <= id < occupied ==> id in chain
  {
    DistinctSize(chain);
    var a, b := Members(chain), Below(occupied);
    assert b == a + (b - a) && a !! (b - a);
    assert |b| == |a| + |b - a|;
    assert |b - a| == 0 ==> b - a == {};
  }

  class Segment {
    const fileOffset: nat
    const allocatedBlocks: nat
    var occupiedBlocks: nat
    var deletedBlocks: nat
    var freeNodesHead: Option<nat>
    /** The segment's part of the file, behind its header. */
    var blocks: seq<Block>
    /** The deleted blocks, the most recently deleted first. */
    ghost var chain: seq<nat>

    ghost predicate Valid()
      reads this
    {
      |blocks| == allocatedBlocks && ChainOK(chain, freeNodesHead, deletedBlocks, occupiedBlocks, blocks)
    }

    /** A block that has been handed out and not been deleted since. */
    ghost predicate Live(id: nat)
      reads this
    {
      id < occupiedBlocks && id !in chain
    }

    constructor (offset: nat, segmentSize: nat, file: seq<Block>)
      requires |file| == segmentSize
      ensures Valid() && fileOffset == offset && allocatedBlocks == segmentSize && blocks == file
      ensures occupiedBlocks == 0 && chain == [] && FreeBlocks() == segmentSize
    {
      fileOffset, allocatedBlocks := offset, segmentSize;
      occupiedBlocks, deletedBlocks, freeNodesHead := 0, 0, None;
      blocks, chain := file, [];
    }

    /** getTotalSize: the header takes the space of one block. */
    function TotalSize(): nat {
      BLOCK_SIZE + allocatedBlocks * BLOCK_SIZE
    }

    /** Where a block starts in the file. */
    function Offset(id: nat): nat {
      fileOffset + BLOCK_SIZE + id * BLOCK_SIZE
    }

    function FreeBlocks(): int
      reads this
    {
      allocatedBlocks - occupiedBlocks + deletedBlocks
    }

    /** A segment has free blocks exactly if some block is not live. */
    lemma FreeBlocksCount()
      requires Valid()
      ensures 0 <= FreeBlocks() <= allocatedBlocks
      ensures FreeBlocks() == 0 <==> forall id :: 0 <= id < allocatedBlocks ==> Live(id)
    {
      ChainSize(chain, occupiedBlocks);
      if FreeBlocks() > 0 {
        if chain != [] {
          assert !Live(chain[0]) && chain[0] in chain;
        } else {
          assert !Live(occupiedBlocks) && occupiedBlocks < allocatedBlocks;
        }
      }
    }

    /** createBlock: the most recently deleted block, or else the next one that was never handed
        out; it raises an error exactly if there is no free block. */
    method CreateBlock() returns (id: Option<nat>)
      requires Valid()
      modifies this
      ensures Valid() && blocks == old(blocks)
      ensures id.None? <==> old(FreeBlocks()) == 0
      ensures id.None? ==> FreeBlocks() == 0 && forall k :: Live(k) <==> old(Live(k))
      ensures id.Some? ==>
                id.value < allocatedBlocks && !old(Live(id.value)) && FreeBlocks() == old(FreeBlocks()) - 1 &&
                forall k :: Live(k) <==> old(Live(k)) || k == id.value
      ensures id.Some? && old(chain) != [] ==> id.value == old(chain)[0] && chain == old(chain)[1..]
      ensures id.Some? && old(chain) == [] ==> id.value == old(occupiedBlocks) && chain == []
    {
      if deletedBlocks > 0 {
        var result := freeNodesHead.value;
        if deletedBlocks > 1 {
          var nextID := blocks[result].head;
          freeNodesHead := Some(nextID);
        } else {
          freeNodesHead := None;
        }
        deletedBlocks := deletedBlocks - 1;
        assert chain == [chain[0]] + chain[1..];
        chain := chain[1..];
        return Some(result);
      }
      if allocatedBlocks > occupiedBlocks {
        var result := occupiedBlocks;
        occupiedBlocks := occupiedBlocks + 1;
        return Some(result);
      }
      return None;
    }

    /** deleteBlock stores the old head in the block and makes it the new head. Head, pointers and
        count thread a chain without repetition exactly if the block was live. Nothing is checked: for
        a number beyond the segment the old head is written behind it. */
    method DeleteBlock(id: nat)
      requires Valid()
      modifies this
      ensures Valid() <==> old(Live(id))
      ensures (exists c :: ChainOK(c, freeNodesHead, deletedBlocks, occupiedBlocks, blocks)) <==> old(Live(id))
      ensures old(Live(id)) ==>
                FreeBlocks() == old(FreeBlocks()) + 1 && (forall k :: Live(k) <==> old(Live(k)) && k != id) &&
                forall k :: 0 <= k < |blocks| && k != id ==> blocks[k] == old(blocks)[k]
      ensures chain == [id] + old(chain) && occupiedBlocks == old(occupiedBlocks)
    {
      ghost var wasLive := Live(id);
      if deletedBlocks > 0 {
        var nextID := freeNodesHead.value;
        if id < |blocks| {
          blocks := blocks[id := blocks[id].(head := nextID)];
        }
        freeNodesHead := Some(id);
      } else {
        freeNodesHead := Some(id);
      }
      deletedBlocks := deletedBlocks + 1;
      ghost var before := chain;
      chain := [id] + chain;
      assert forall i :: 0 < i < |chain| ==> chain[i] == before[i - 1];
      if wasLive {
        assert ChainOK(chain, freeNodesHead, deletedBlocks, occupiedBlocks, blocks);
      } else {
        NoChainAfterwards(before, id, old(freeNodesHead), old(occupiedBlocks), old(blocks), freeNodesHead, deletedBlocks, blocks);
        NotAChain(before, id, old(occupiedBlocks));
      }
    }

    method ReadBlock(id: nat) returns (b: Block)
      requires Valid() && id < allocatedBlocks
      ensures b == blocks[id]
    {
      b := blocks[id];
    }

    /** writeBlock overwrites one block, whatever it is used for. The list stays what it is exactly if
        the block is not in it, or last in it, or the pointer stored in it is written again. */
    method WriteBlock(id: nat, b: Block)
      requires Valid()
      modifies this`blocks
      ensures blocks == if id < allocatedBlocks then old(blocks)[id := b] else old(blocks)
      ensures Valid() <==> PointerKept(chain, id, b)
      ensures old(Live(id)) ==> PointerKept(chain, id, b)
    {
      if id < |blocks| {
        blocks := blocks[id := b];
      }
      assert forall i :: 0 <= i < |chain| - 1 && chain[i] == id ==> blocks[chain[i]].head == b.head;
    }

    /** Different blocks of a segment occupy disjoint bytes, all inside the segment. */
    lemma BlocksDisjoint(a: nat, b: nat)
      requires a < b < allocatedBlocks
      ensures fileOffset + BLOCK_SIZE <= Offset(a) && Offset(a) + BLOCK_SIZE <= Offset(b)
      ensures Offset(b) + BLOCK_SIZE <= fileOffset + TotalSize()
    {
      MulMono(a + 1, b);
      MulMono(b + 1, allocatedBlocks);
      assert (a + 1) * BLOCK_SIZE == a * BLOCK_SIZE + BLOCK_SIZE;
      assert (b + 1) * BLOCK_SIZE == b * BLOCK_SIZE + BLOCK_SIZE;
    }
  }

  /** A block with contents `b` still points to its successor in the list, if it has one. */
  ghost predicate PointerKept(chain: seq<nat>, id: nat, b: Block) {
    forall i :: 0 <= i < |chain| - 1 && chain[i] == id ==> chain[i + 1] == b.head
  }

  lemma MulMono(a: nat, b: nat)
    requires a <= b
    ensures a * BLOCK_SIZE <= b * BLOCK_SIZE
  {
    assert b * BLOCK_SIZE == a * BLOCK_SIZE + (b - a) * BLOCK_SIZE;
  }

  /** Any chain that the pages thread after a deletion starts with the deleted block and goes on as
      the chain before, up to the place where it reaches that block again. */
  lemma {:induction false} FollowsOld(chain: seq<nat>, id: nat, head: Option<nat>, occupied: nat, blocks: seq<Block>,
                                      head': Option<nat>, blocks': seq<Block>, c: seq<nat>, i: nat)
    requires ChainOK(chain, head, |chain|, occupied, blocks) && id < |blocks| && head' == Some(id)
    requires blocks' == if chain == [] then blocks else blocks[id := blocks[id].(head := chain[0])]
    requires ChainOK(c, head', |chain| + 1, occupied, blocks') && i < |chain|
    ensures c[i + 1] == chain[i] && chain[i] != id
  {
    if i > 0 {
      FollowsOld(chain, id, head, occupied, blocks, head', blocks', c, i - 1);
    }
    assert c[0] == id && blocks'[c[i]].head == c[i + 1] && c[0] != c[i + 1];
    assert i > 0 ==> blocks[chain[i - 1]].head == chain[i];
  }

  lemma NoChainAfterwards(chain: seq<nat>, id: nat, head: Option<nat>, occupied: nat, blocks: seq<Block>,
                          head': Option<nat>, deleted': nat, blocks': seq<Block>)
    requires ChainOK(chain, head, |chain|, occupied, blocks) && head' == Some(id) && deleted' == |chain| + 1
    requires blocks' == if chain == [] || id >= |blocks| then blocks else blocks[id := blocks[id].(head := chain[0])]
    requires id >= occupied || id in chain
    ensures forall c :: !ChainOK(c, head', deleted', occupied, blocks')
  {
    forall c ensures !ChainOK(c, head', deleted', occupied, blocks') {
      if ChainOK(c, head', deleted', occupied, blocks') {
        assert c[0] == id && id < |blocks|;
        forall i | 0 <= i < |chain| ensures chain[i] != id {
          FollowsOld(chain, id, head, occupied, blocks, head', blocks', c, i);
        }
        assert false;
      }
    }
  }

  lemma NotAChain(chain: seq<nat>, id: nat, occupied: nat)
    requires id >= occupied || id in chain
    ensures var c := [id] + chain;
            !((forall i :: 0 <= i < |c| ==> c[i] < occupied) && (forall i, j :: 0 <= i < j < |c| ==> c[i] != c[j]))
  {
    var c := [id] + chain;
    assert c[0] == id;
    if id in chain {
      var i :| 0 <= i < |chain| && chain[i] == id;
      assert c[i + 1] == id;
    }
  }
}
