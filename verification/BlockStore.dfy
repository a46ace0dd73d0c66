/** What the block file is for: over any run of creations, deletions, writes and reads, every read gets
    what was last written to that block, whichever other blocks have come and gone. */
module BlockStores {
  import opened Keys
  import opened BlockIds
  import opened Segments
  import opened SegmentManagers

  /** A client's requests. A block is named by the number of the creation it came from; `disk` is what
      the file holds where a new segment is laid out. */
  datatype Request = Create(disk: nat -> Block) | Delete(k: nat) | Write(k: nat, b: Block) | Read(k: nat)

  datatype Entry = Unwritten | Written(b: Block) | Deleted

  predicate InUse(store: seq<Entry>, k: nat) { k < |store| && !store[k].Deleted? }

  /** What a request does to a plain list of blocks; blocks not in use are left alone. */
  function PlainStep(store: seq<Entry>, r: Request): seq<Entry> {
    match r
    case Create(_) => store + [Unwritten]
    case Delete(k) => if InUse(store, k) then store[k := Deleted] else store
    case Write(k, b) => if InUse(store, k) then store[k := Written(b)] else store
    case Read(_) => store
  }

  function PlainReply(store: seq<Entry>, r: Request): Option<Block> {
    if r.Read? && InUse(store, r.k) && store[r.k].Written? then Some(store[r.k].b) else None
  }

  function PlainRun(reqs: seq<Request>): seq<Entry> {
    if |reqs| == 0 then [] else PlainStep(PlainRun(reqs[..|reqs| - 1]), reqs[|reqs| - 1])
  }

  function PlainReplies(reqs: seq<Request>): seq<Option<Block>> {
    if |reqs| == 0 then []
    else PlainReplies(reqs[..|reqs| - 1]) + [PlainReply(PlainRun(reqs[..|reqs| - 1]), reqs[|reqs| - 1])]
  }

  lemma PlainNext(reqs: seq<Request>, j: nat)
    requires j < |reqs|
    ensures PlainRun(reqs[..j + 1]) == PlainStep(PlainRun(reqs[..j]), reqs[j])
    ensures PlainReplies(reqs[..j + 1]) == PlainReplies(reqs[..j]) + [PlainReply(PlainRun(reqs[..j]), reqs[j])]
  {
    assert reqs[..j + 1][..j] == reqs[..j];
  }

  /** The ids have room for one more segment. */
  predicate RoomForOne(m: SegmentManager)
    reads m
  {
    |m.segments| < TWO_TO_16 && NextSize(m.lastAllocatedBlocks, m.growthFactor) <= TWO_TO_48
  }

  /** An id names its segment and block: different ids name different blocks. */
  lemma IdsDiffer(a: nat, b: nat)
    ensures IndexOf(a) == IndexOf(b) && BlockOf(a) == BlockOf(b) ==> a == b
  {
  }

  /** Every segment has block numbers of 48 bits. */
  ghost predicate Fits(segments: seq<Segment>) {
    |segments| <= TWO_TO_16 && forall i :: 0 <= i < |segments| ==> segments[i].allocatedBlocks <= TWO_TO_48
  }

  /** What the client remembers of a block: its id, whether it is in use, and whether it was written. */
  datatype Handle = Handle(id: nat, inUse: bool, written: bool)

  /** A block is live under its id, with its contents if it was written. */
  ghost predicate InPlace(m: SegmentManager, id: nat, e: Entry)
    reads m, m.segments
  {
    && IndexOf(id) < |m.segments| && m.Live(IndexOf(id), BlockOf(id))
    && BlockOf(id) < |m.segments[IndexOf(id)].blocks|
    && (e.Written? ==> m.segments[IndexOf(id)].blocks[BlockOf(id)] == e.b)
  }

  /** The client's handles tell what is in use and written. */
  ghost predicate Matches(handles: seq<Handle>, store: seq<Entry>) {
    && |handles| == |store|
    && forall k :: 0 <= k < |store| ==>
         (handles[k].inUse <==> !store[k].Deleted?) && (handles[k].inUse ==> (handles[k].written <==> store[k].Written?))
  }

  ghost predicate IdsDistinct(handles: seq<Handle>) {
    forall k, l :: 0 <= k < l < |handles| && handles[k].inUse && handles[l].inUse ==> handles[k].id != handles[l].id
  }

  /** The file holds the plain list: every block in use is in place under an id of its own. */
  ghost predicate Represents(m: SegmentManager, handles: seq<Handle>, store: seq<Entry>)
    reads m, m.segments
  {
    && m.Valid() && Fits(m.segments) && Matches(handles, store) && IdsDistinct(handles)
    && forall k :: 0 <= k < |store| && handles[k].inUse ==> InPlace(m, handles[k].id, store[k])
  }

  lemma RepresentsParts(m: SegmentManager, handles: seq<Handle>, store: seq<Entry>)
    requires Represents(m, handles, store)
    ensures m.Valid() && Fits(m.segments) && Matches(handles, store) && |handles| == |store| && IdsDistinct(handles)
    ensures forall k :: 0 <= k < |store| && handles[k].inUse ==> InPlace(m, handles[k].id, store[k])
  {
    hide Fits, IdsDistinct, InPlace, m.Valid;
  }

  lemma RepresentsFrom(m: SegmentManager, handles: seq<Handle>, store: seq<Entry>)
    requires m.Valid() && Fits(m.segments) && Matches(handles, store) && |handles| == |store| && IdsDistinct(handles)
    requires forall k :: 0 <= k < |store| && handles[k].inUse ==> InPlace(m, handles[k].id, store[k])
    ensures Represents(m, handles, store)
  {
    hide Fits, IdsDistinct, InPlace, m.Valid;
  }

  lemma InPlaceIs(m: SegmentManager, id: nat, e: Entry)
    ensures InPlace(m, id, e) <==>
            IndexOf(id) < |m.segments| && m.Live(IndexOf(id), BlockOf(id)) && BlockOf(id) < |m.segments[IndexOf(id)].blocks| &&
            (e.Written? ==> m.segments[IndexOf(id)].blocks[BlockOf(id)] == e.b)
  {
  }

  lemma AllInPlace(m: SegmentManager, handles: seq<Handle>, store: seq<Entry>)
    requires |handles| == |store|
    ensures (forall k :: 0 <= k < |store| && handles[k].inUse ==> InPlace(m, handles[k].id, store[k])) <==>
            (forall k :: 0 <= k < |store| && handles[k].inUse ==>
               IndexOf(handles[k].id) < |m.segments| && m.Live(IndexOf(handles[k].id), BlockOf(handles[k].id)) &&
               BlockOf(handles[k].id) < |m.segments[IndexOf(handles[k].id)].blocks| &&
               (store[k].Written? ==> m.segments[IndexOf(handles[k].id)].blocks[BlockOf(handles[k].id)] == store[k].b))
  {
    forall k | 0 <= k < |store| { InPlaceIs(m, handles[k].id, store[k]); }
    hide *;
  }

  /** Other blocks in use are other blocks. */
  lemma OtherBlocks(handles: seq<Handle>, k: nat)
    requires IdsDistinct(handles) && k < |handles| && handles[k].inUse
    ensures forall l :: 0 <= l < |handles| && l != k && handles[l].inUse ==>
              IndexOf(handles[l].id) != IndexOf(handles[k].id) || BlockOf(handles[l].id) != BlockOf(handles[k].id)
  {
    forall l | 0 <= l < |handles| && l != k && handles[l].inUse
      ensures IndexOf(handles[l].id) != IndexOf(handles[k].id) || BlockOf(handles[l].id) != BlockOf(handles[k].id)
    {
      IdsDiffer(handles[l].id, handles[k].id);
    }
  }

  /** A live block has a number in its segment. */
  lemma LiveInSegment(m: SegmentManager, index: nat, block: nat)
    requires m.Valid() && m.Live(index, block)
    ensures index < |m.segments| && block < |m.segments[index].blocks| == m.segments[index].allocatedBlocks
  {
    assert m.segments[index].Valid();
  }

  lemma OneMore(handles: seq<Handle>, store: seq<Entry>, id: nat)
    requires Matches(handles, store) && IdsDistinct(handles)
    requires forall k :: 0 <= k < |handles| && handles[k].inUse ==> handles[k].id != id
    ensures Matches(handles + [Handle(id, true, false)], store + [Unwritten]) && IdsDistinct(handles + [Handle(id, true, false)])
  {
  }

  lemma OneDeleted(handles: seq<Handle>, store: seq<Entry>, k: nat)
    requires Matches(handles, store) && IdsDistinct(handles) && k < |handles| && handles[k].inUse
    ensures var h := handles[k := handles[k].(inUse := false)]; Matches(h, store[k := Deleted]) && IdsDistinct(h)
  {
  }

  lemma OneChanged(handles: seq<Handle>, store: seq<Entry>, k: nat, b: Block)
    requires Matches(handles, store) && IdsDistinct(handles) && k < |handles| && handles[k].inUse
    ensures var h := handles[k := handles[k].(written := true)]; Matches(h, store[k := Written(b)]) && IdsDistinct(h)
  {
  }

  /** A creation: the blocks in use stay as they are, and the new one has an id of its own. */
  method CreateNew(m: SegmentManager, handles: seq<Handle>, disk: nat -> Block, ghost store: seq<Entry>) returns (id: nat)
    requires Represents(m, handles, store) && RoomForOne(m)
    modifies m, m.segments
    ensures m.Valid() && Fits(m.segments) && |handles| == |store| && InPlace(m, id, Unwritten)
    ensures forall k :: 0 <= k < |store| && handles[k].inUse ==> InPlace(m, handles[k].id, store[k]) && handles[k].id != id
    ensures |old(m.segments)| <= |m.segments| <= |old(m.segments)| + 1
    ensures forall i :: 0 <= i < |old(m.segments)| ==> m.segments[i] == old(m.segments)[i]
    ensures |m.segments| > |old(m.segments)| ==> fresh(m.segments[|old(m.segments)|])
  {
    assert |m.segments| < TWO_TO_16 && NextSize(m.lastAllocatedBlocks, m.growthFactor) <= TWO_TO_48;
    hide *;
    RepresentsParts(m, handles, store);
    AllInPlace(m, handles, store);
    ghost var index, block;
    id, index, block := m.CreateBlock(disk);
    GrownIs(old(m.segments), m.segments);
    GrownFits(old(m.segments), m.segments);
    FitsAt(m.segments, index);
    assert forall k :: 0 <= k < |store| && handles[k].inUse ==> InPlace(m, handles[k].id, store[k]) by {
      AllInPlace(m, handles, store);
    }
    LiveInSegment(m, IndexOf(id), BlockOf(id));
    InPlaceIs(m, id, Unwritten);
  }

  /** The segments are the old ones, with at most one more. */
  ghost predicate Grown(before: seq<Segment>, after: seq<Segment>) {
    |before| <= |after| <= |before| + 1 && after[..|before|] == before
  }

  lemma GrownIs(before: seq<Segment>, after: seq<Segment>)
    requires |before| <= |after| <= |before| + 1 && forall i :: 0 <= i < |before| ==> after[i] == before[i]
    ensures Grown(before, after)
  {
  }

  lemma GrownFits(before: seq<Segment>, after: seq<Segment>)
    requires Fits(before) && |before| < TWO_TO_16 && Grown(before, after)
    requires |after| > |before| ==> after[|before|].allocatedBlocks <= TWO_TO_48
    ensures Fits(after)
  {
    assert forall i :: 0 <= i < |before| ==> after[..|before|][i] == after[i];
  }

  lemma FitsAt(segments: seq<Segment>, i: nat)
    requires Fits(segments) && i < |segments|
    ensures i < TWO_TO_16 && segments[i].allocatedBlocks <= TWO_TO_48
  {
  }

  method PerformCreate(m: SegmentManager, handles: seq<Handle>, disk: nat -> Block, ghost store: seq<Entry>)
    returns (handles': seq<Handle>)
    requires Represents(m, handles, store) && RoomForOne(m)
    modifies m, m.segments
    ensures Represents(m, handles', store + [Unwritten])
    ensures forall i :: 0 <= i < |m.segments| ==> m.segments[i] in old(m.segments) || fresh(m.segments[i])
  {
    hide *;
    assert Matches(handles, store) && IdsDistinct(handles) by { RepresentsParts(m, handles, store); }
    var id := CreateNew(m, handles, disk, store);
    OneMore(handles, store, id);
    handles' := handles + [Handle(id, true, false)];
    RepresentsFrom(m, handles', store + [Unwritten]);
  }

  method PerformDelete(m: SegmentManager, handles: seq<Handle>, k: nat, ghost store: seq<Entry>) returns (handles': seq<Handle>)
    requires Represents(m, handles, store) && k < |handles| && handles[k].inUse
    modifies m, m.segments
    ensures Represents(m, handles', store[k := Deleted]) && m.segments == old(m.segments)
  {
    hide *;
    RepresentsParts(m, handles, store);
    AllInPlace(m, handles, store);
    OtherBlocks(handles, k);
    SegmentSizes(m);
    var ok := m.DeleteBlock(handles[k].id);
    SegmentSizes(m);
    OneDeleted(handles, store, k);
    handles' := handles[k := handles[k].(inUse := false)];
    AllInPlace(m, handles', store[k := Deleted]);
    RepresentsFrom(m, handles', store[k := Deleted]);
  }

  method PerformWrite(m: SegmentManager, handles: seq<Handle>, k: nat, b: Block, ghost store: seq<Entry>) returns (handles': seq<Handle>)
    requires Represents(m, handles, store) && k < |handles| && handles[k].inUse
    modifies m.segments
    ensures Represents(m, handles', store[k := Written(b)])
  {
    hide *;
    RepresentsParts(m, handles, store);
    AllInPlace(m, handles, store);
    OtherBlocks(handles, k);
    SegmentSizes(m);
    var ok := m.WriteBlock(handles[k].id, b);
    SegmentSizes(m);
    OneChanged(handles, store, k, b);
    handles' := handles[k := handles[k].(written := true)];
    AllInPlace(m, handles', store[k := Written(b)]);
    RepresentsFrom(m, handles', store[k := Written(b)]);
  }

  lemma SegmentSizes(m: SegmentManager)
    requires m.Valid()
    ensures forall i :: 0 <= i < |m.segments| ==> |m.segments[i].blocks| == m.segments[i].allocatedBlocks
  {
  }

  /** One request. */
  method Perform(m: SegmentManager, handles: seq<Handle>, r: Request, ghost store: seq<Entry>)
    returns (handles': seq<Handle>, reply: Option<Block>)
    requires Represents(m, handles, store) && (r.Create? ==> RoomForOne(m))
    modifies m, m.segments
    ensures Represents(m, handles', PlainStep(store, r)) && reply == PlainReply(store, r)
    ensures forall i :: 0 <= i < |m.segments| ==> m.segments[i] in old(m.segments) || fresh(m.segments[i])
  {
    RepresentsParts(m, handles, store);
    AllInPlace(m, handles, store);
    hide Represents, IdsDistinct, InPlace, m.Valid, Fits, IndexOf, BlockOf;
    handles', reply := handles, None;
    match r {
      case Create(disk) =>
        handles' := PerformCreate(m, handles, disk, store);
      case Delete(k) =>
        if k < |handles| && handles[k].inUse {
          handles' := PerformDelete(m, handles, k, store);
        }
      case Write(k, b) =>
        if k < |handles| && handles[k].inUse {
          handles' := PerformWrite(m, handles, k, b, store);
        }
      case Read(k) =>
        if k < |handles| && handles[k].inUse && handles[k].written {
          var b := m.ReadBlock(handles[k].id);
          reply := Some(b);
        }
    }
  }

  /** A run of requests on a new file is answered as by a plain list of blocks, at least until one more
      segment would be beyond 2^16 or have more than 2^48 blocks, when ids can no longer tell all apart. */
  method Run(reqs: seq<Request>, growthFactor: real) returns (m: SegmentManager, replies: seq<Option<Block>>)
    ensures |replies| <= |reqs| && replies == PlainReplies(reqs[..|replies|])
    ensures |replies| < |reqs| ==> !RoomForOne(m)
  {
    m := new SegmentManager(growthFactor);
    var handles: seq<Handle> := [];
    replies := [];
    ghost var store: seq<Entry> := [];
    assert reqs[..0] == [];
    hide *;
    PlainNone();
    NothingHeld(m);
    for j := 0 to |reqs|
      invariant fresh(m) && forall i :: 0 <= i < |m.segments| ==> fresh(m.segments[i])
      invariant |replies| == j && store == PlainRun(reqs[..j]) && replies == PlainReplies(reqs[..j])
      invariant Represents(m, handles, store)
    {
      if reqs[j].Create? && !RoomForOne(m) {
        return;
      }
      PlainNext(reqs, j);
      var reply;
      handles, reply := Perform(m, handles, reqs[j], store);
      store := PlainStep(store, reqs[j]);
      replies := replies + [reply];
    }
  }

  lemma PlainNone()
    ensures PlainRun([]) == [] && PlainReplies([]) == []
  {
  }

  lemma NothingHeld(m: SegmentManager)
    requires m.Valid() && m.segments == []
    ensures Represents(m, [], [])
  {
  }
}
