/** The page buffer used by one thread: when pinPage finds, loads, evicts, or gives up, and why
    the buffer always agrees with the page store it speeds up. */
module PageBuffers {
  import opened Keys
  import opened Leaves
  import opened Queues
  import opened BufferSteps
  import BufferSafety
  import BufferRuns

  /** What the buffer says of one page: not resident, it is on disk as last written; resident, it
      is in its slot as last written, and if the disk differs the slot is dirty or owed. */
  ghost predicate ContentOK(s: State, owed: set<Slot>, raw: set<Slot>, id: Id) {
    if id !in s.table then s.disk(id) == s.current(id)
    else
      var i := s.table[id];
      i < |s.pages| && (i !in raw ==> s.pages[i].data == s.current(id)) &&
      (s.disk(id) == s.current(id) || s.pages[i].dirty || i in owed)
  }

  /** The buffer between two calls. `owed` are the slots with contents that have not been unpinned
      as dirty yet, `raw` those pinned with skipLoad that have not been written yet. */
  ghost predicate StateOK(s: State, owed: set<Slot>, raw: set<Slot>) {
    && BufferSafety.TableOK(s) && BufferSafety.QueuesOK(s)
    && (forall i :: i in s.free ==> i < |s.pages| && s.pages[i].pins == 0)
    && (forall i :: i in owed ==> i < |s.pages| && s.pages[i].pins > 0)
    && (forall i :: i in raw ==> i in owed && i < |s.pages| && !s.pages[i].dirty)
    && (forall id :: ContentOK(s, owed, raw, id))
  }

  /** All slots hold pinned pages. */
  predicate AllPinned(pages: seq<Page>) {
    forall i :: 0 <= i < |pages| ==> pages[i].pins > 0
  }

  /** The entry that findOne picks: the last unpinned one. */
  predicate LastUnpinned(q: Entries, pages: seq<Page>, id: Id) {
    var i := Position(q, id);
    i < |q| && q[i].value < |pages| && pages[q[i].value].pins == 0 &&
    forall j :: i < j < |q| ==> q[j].value < |pages| && pages[q[j].value].pins > 0
  }

  predicate NoneUnpinned(q: Entries, pages: seq<Page>) {
    forall j :: 0 <= j < |q| ==> q[j].value < |pages| && pages[q[j].value].pins > 0
  }

  /** The page that has to go, by the 2Q policy: the oldest unpinned page of the FIFO queue, or of
      the LRU queue if the FIFO queue has none. */
  predicate Victim(fifo: Entries, lru: Entries, pages: seq<Page>, id: Id) {
    LastUnpinned(fifo, pages, id) || (NoneUnpinned(fifo, pages) && LastUnpinned(lru, pages, id))
  }

  lemma TableParts(s: State)
    requires BufferSafety.TableOK(s)
    ensures |s.pages| == SLOTS
    ensures forall id :: id in s.table ==> s.table[id] < SLOTS && s.table[id] !in s.free && s.pages[s.table[id]].id == id
    ensures forall a, b :: a in s.table && b in s.table && s.table[a] == s.table[b] ==> a == b
  {
  }

  lemma QueueParts(s: State, id: Id)
    requires BufferSafety.QueuesOK(s)
    ensures UniqueKeys(s.fifo) && UniqueKeys(s.lru)
    ensures id in s.table ==> (HasKey(s.fifo, id) <==> !HasKey(s.lru, id))
    ensures id !in s.table ==> !HasKey(s.fifo, id) && !HasKey(s.lru, id)
    ensures id in s.table && Position(s.fifo, id) < |s.fifo| ==> s.fifo[Position(s.fifo, id)] == Entry(id, s.table[id])
    ensures id in s.table && Position(s.lru, id) < |s.lru| ==> s.lru[Position(s.lru, id)] == Entry(id, s.table[id])
  {
    if id !in s.table { BufferSafety.NotQueued(s, id); }
    PositionIff(s.fifo, id);
    PositionIff(s.lru, id);
    QueuedAt(s, s.fifo, Position(s.fifo, id));
    QueuedAt(s, s.lru, Position(s.lru, id));
  }

  lemma QueuedAt(s: State, q: Entries, i: nat)
    requires BufferSafety.QueuesOK(s) && (q == s.fifo || q == s.lru)
    ensures i < |q| ==> q[i].key in s.table && q[i] == Entry(q[i].key, s.table[q[i].key])
  {
    if i < |q| {
      var e := q[i];
      assert e in q;
      assert BufferSafety.InTable(s.table, e);
      EntryEta(e);
    }
  }

  /** The table is full exactly if there is no free slot. */
  lemma FullTable(s: State)
    requires BufferSafety.TableOK(s)
    ensures |s.table| <= SLOTS && (|s.table| < SLOTS <==> s.free != {})
  {
    BufferRuns.CountBelow(s, SLOTS);
    BufferRuns.AllBelow(s);
    assert |s.table.Keys| == |s.table|;
  }

  /** With a full table, no unpinned entry in either queue means that every slot is pinned. */
  lemma QueuesCoverSlots(s: State)
    requires BufferSafety.TableOK(s) && BufferSafety.QueuesOK(s) && s.free == {}
    ensures NoneUnpinned(s.fifo, s.pages) && NoneUnpinned(s.lru, s.pages) <==> AllPinned(s.pages)
  {
    if NoneUnpinned(s.fifo, s.pages) && NoneUnpinned(s.lru, s.pages) {
      forall i | 0 <= i < |s.pages| ensures s.pages[i].pins > 0 {
        var id := s.pages[i].id;
        assert id in s.table && s.table[id] == i;
        QueueParts(s, id);
        PositionIff(s.fifo, id);
        PositionIff(s.lru, id);
      }
    }
    if AllPinned(s.pages) {
      forall j | 0 <= j < |s.fifo| ensures s.fifo[j].value < |s.pages| { QueuedInRange(s, s.fifo, j); }
      forall j | 0 <= j < |s.lru| ensures s.lru[j].value < |s.pages| { QueuedInRange(s, s.lru, j); }
    }
  }

  lemma QueuedInRange(s: State, q: Entries, i: nat)
    requires BufferSafety.TableOK(s) && BufferSafety.QueuesOK(s) && (q == s.fifo || q == s.lru) && i < |q|
    ensures q[i].value < |s.pages|
  {
    BufferRuns.QueuedInRange(s, q, i);
  }

  /** What findOne has found is the last unpinned entry, bound to its slot in the table. */
  lemma FoundEntry(s: State, q: Entries, id: Id, slot: Slot)
    requires BufferSafety.TableOK(s) && BufferSafety.QueuesOK(s) && (q == s.fifo || q == s.lru)
    requires Position(q, id) < |q| && q[Position(q, id)] == Entry(id, slot) && Unpinned(s.pages, slot)
    requires forall j :: Position(q, id) < j < |q| ==> !Unpinned(s.pages, q[j].value)
    ensures LastUnpinned(q, s.pages, id) && id in s.table && s.table[id] == slot && HasKey(q, id)
  {
    QueuedAt(s, q, Position(q, id));
    PositionIff(q, id);
    forall j | Position(q, id) < j < |q| ensures q[j].value < |s.pages| { QueuedInRange(s, q, j); }
  }

  lemma FoundNone(s: State, q: Entries)
    requires BufferSafety.TableOK(s) && BufferSafety.QueuesOK(s) && (q == s.fifo || q == s.lru)
    requires forall j :: 0 <= j < |q| ==> !Unpinned(s.pages, q[j].value)
    ensures NoneUnpinned(q, s.pages)
  {
    forall j | 0 <= j < |q| ensures q[j].value < |s.pages| { QueuedInRange(s, q, j); }
  }

  predicate Unpinned(pages: seq<Page>, i: Slot) { i < |pages| && pages[i].pins == 0 }

  lemma OKParts(s: State, owed: set<Slot>, raw: set<Slot>)
    requires StateOK(s, owed, raw)
    ensures BufferSafety.TableOK(s) && BufferSafety.QueuesOK(s) && |s.pages| == SLOTS
    ensures forall id :: id in s.table ==> s.table[id] < SLOTS && s.table[id] !in s.free && s.pages[s.table[id]].id == id
    ensures forall id :: ContentOK(s, owed, raw, id)
  {
  }

  lemma VictimSlot(s: State, owed: set<Slot>, raw: set<Slot>, victim: Id)
    requires StateOK(s, owed, raw) && victim in s.table
    ensures s.table[victim] < |s.pages| && s.table[victim] !in s.free
  {
    OKParts(s, owed, raw);
  }

  /** Counters, flags and data do not matter to the table and the queues. */
  lemma SameTable(s: State, s': State)
    requires BufferSafety.TableOK(s) && BufferSafety.QueuesOK(s) && |s'.pages| == |s.pages|
    requires s'.table == s.table && s'.free == s.free && s'.fifo == s.fifo && s'.lru == s.lru
    requires forall i :: 0 <= i < |s.pages| ==> s'.pages[i].id == s.pages[i].id
    ensures BufferSafety.TableOK(s') && BufferSafety.QueuesOK(s')
  {
    BufferSafety.SameQueues(s, s');
  }

  function CountedTo(s: State, i: Slot, pins: nat): State
    requires i < |s.pages|
  {
    s.(pages := s.pages[i := s.pages[i].(pins := pins)])
  }

  lemma PinnedOK(s: State, owed: set<Slot>, raw: set<Slot>, id: Id)
    requires StateOK(s, owed, raw) && id in s.table
    ensures var i := s.table[id]; i < |s.pages| && StateOK(CountedTo(s, i, s.pages[i].pins + 1), owed, raw)
  {
    var i := s.table[id];
    var s' := CountedTo(s, i, s.pages[i].pins + 1);
    SameTable(s, s');
    hide BufferSafety.QueuesOK;
    forall q ensures ContentOK(s', owed, raw, q) {
      assert ContentOK(s, owed, raw, q);
    }
  }

  /** A page whose counter has gone from zero to one moves to the front of the LRU queue. */
  function Requeued(s: State, id: Id): State
    requires id in s.table
  {
    if Position(s.fifo, id) < |s.fifo| then s.(fifo := Removed(s.fifo, id), lru := Pushed(s.lru, id, s.table[id]))
    else s.(lru := MovedToFront(s.lru, id))
  }

  lemma RequeuedOK(s: State, owed: set<Slot>, raw: set<Slot>, id: Id)
    requires StateOK(s, owed, raw) && id in s.table
    ensures StateOK(Requeued(s, id), owed, raw)
  {
    PositionIff(s.fifo, id);
    if Position(s.fifo, id) < |s.fifo| {
      BufferSafety.MoveToLru(s, id, s.table[id]);
    } else {
      BufferSafety.FrontOfLru(s, id);
    }
    hide BufferSafety.QueuesOK, Removed, Pushed, MovedToFront;
    forall q ensures ContentOK(Requeued(s, id), owed, raw, q) {
      assert ContentOK(s, owed, raw, q);
    }
  }

  /** A resident page with one more pin. */
  function Pinned(s: State, id: Id): State
    requires id in s.table && s.table[id] < |s.pages|
  {
    var i := s.table[id];
    var counted := CountedTo(s, i, s.pages[i].pins + 1);
    if s.pages[i].pins == 0 then Requeued(counted, id) else counted
  }

  /** A hit: one pin more, and nothing else but the queues. A first pin takes the page to the front of
      the LRU queue, wherever it was; no other entry moves. */
  ghost predicate OneMorePin(s: State, id: Id, i: Slot, s': State) {
    i < |s.pages| &&
    var p := s.pages[i];
    s' == s.(pages := s.pages[i := p.(pins := p.pins + 1)], fifo := s'.fifo, lru := s'.lru) &&
    if p.pins == 0 then s'.fifo == Others(s.fifo, id) && s'.lru == [Entry(id, i)] + Others(s.lru, id)
    else s'.fifo == s.fifo && s'.lru == s.lru
  }

  /** A miss with a free slot: the slot is bound to the page, which is in front of the FIFO queue. */
  ghost predicate LoadedInto(s: State, id: Id, i: Slot, skipLoad: bool, s': State) {
    i in s.free && i < |s.pages| &&
    s' == s.(table := s.table[id := i], free := s.free - {i}, fifo := [Entry(id, i)] + s.fifo,
             pages := s.pages[i := Page(id, 1, false, if skipLoad then s.pages[i].data else s.disk(id))])
  }

  /** A miss without a free slot: the victim leaves its slot and its queue, and is on disk if it was
      dirty; the page is in front of the FIFO queue; no other entry moves. */
  ghost predicate Replaced(s: State, id: Id, i: Slot, skipLoad: bool, s': State) {
    i < |s.pages| &&
    var p := s.pages[i];
    Victim(s.fifo, s.lru, s.pages, p.id) && p.id in s.table && s.table[p.id] == i &&
    (forall q :: s'.disk(q) == if q == p.id && p.dirty then p.data else s.disk(q)) &&
    s' == s.(table := (s.table - {p.id})[id := i], fifo := [Entry(id, i)] + Others(s.fifo, p.id), lru := Others(s.lru, p.id), disk := s'.disk,
             pages := s.pages[i := Page(id, 1, false, if skipLoad then p.data else s'.disk(id))])
  }

  /** The page `id` is pinned in slot `i`, which holds its current contents unless the load was
      skipped and it has not been written since. */
  ghost predicate PinnedIn(s: State, raw: set<Slot>, id: Id, i: Slot) {
    && id in s.table && s.table[id] == i && i < |s.pages| && s.pages[i].id == id && s.pages[i].pins > 0
    && (i !in raw ==> s.pages[i].data == s.current(id))
  }

  lemma PinnedInFrom(s: State, owed: set<Slot>, raw: set<Slot>, id: Id, i: Slot)
    requires StateOK(s, owed, raw) && id in s.table && s.table[id] == i && i < |s.pages| && s.pages[i].pins > 0
    ensures PinnedIn(s, raw, id, i)
  {
    OKParts(s, owed, raw);
    assert ContentOK(s, owed, raw, id);
  }

  /** A slot bound to `id`: what it holds has been loaded, or is left to the client. */
  function BoundPage(s: State, id: Id, i: Slot, skipLoad: bool): Page
    requires i < |s.pages|
  {
    Page(id, 1, false, if skipLoad then s.pages[i].data else s.disk(id))
  }

  function Taken(s: State, id: Id, i: Slot, skipLoad: bool): State
    requires i < |s.pages|
  {
    s.(free := s.free - {i}, table := s.table[id := i], fifo := Pushed(s.fifo, id, i), pages := s.pages[i := BoundPage(s, id, i, skipLoad)])
  }

  function Owing(owed: set<Slot>, i: Slot, skipLoad: bool): set<Slot> { if skipLoad then owed + {i} else owed }

  lemma TakenOK(s: State, owed: set<Slot>, raw: set<Slot>, id: Id, i: Slot, skipLoad: bool)
    requires StateOK(s, owed, raw) && id !in s.table && i in s.free && i < |s.pages|
    ensures StateOK(Taken(s, id, i, skipLoad), Owing(owed, i, skipLoad), Owing(raw, i, skipLoad))
  {
    var s' := Taken(s, id, i, skipLoad);
    BufferSafety.BindQueues(s, s', id, i);
    hide BufferSafety.QueuesOK, Pushed;
    assert BufferSafety.TableOK(s');
    assert i !in owed && i !in raw;
    forall q ensures ContentOK(s', Owing(owed, i, skipLoad), Owing(raw, i, skipLoad), q) {
      assert ContentOK(s, owed, raw, q);
    }
  }

  /** The disk after the victim has been written back, if it was dirty. */
  function SavedDisk(s: State, i: Slot): Id -> Data
    requires i < |s.pages|
  {
    if s.pages[i].dirty then Put(s.disk, s.pages[i].id, s.pages[i].data) else s.disk
  }

  /** The page in slot `i` is pinned once and written back if it was dirty. */
  function Cleaned(s: State, i: Slot): State
    requires i < |s.pages|
  {
    s.(disk := SavedDisk(s, i), pages := s.pages[i := s.pages[i].(pins := 1, dirty := false)])
  }

  lemma CleanedOK(s: State, owed: set<Slot>, raw: set<Slot>, i: Slot)
    requires StateOK(s, owed, raw) && i < |s.pages| && i !in s.free && s.pages[i].pins == 0
    ensures StateOK(Cleaned(s, i), owed, raw) && i !in owed && i !in raw
  {
    var s' := Cleaned(s, i);
    SameTable(s, s');
    hide BufferSafety.QueuesOK;
    assert s.pages[i].id in s.table && s.table[s.pages[i].id] == i;
    forall q ensures ContentOK(s', owed, raw, q) {
      assert ContentOK(s, owed, raw, q);
    }
  }

  /** The clean page `victim` leaves slot `i` to `id`. */
  function Rebound(s: State, victim: Id, fromFifo: bool, id: Id, i: Slot, skipLoad: bool): State
    requires i < |s.pages|
  {
    s.(table := (s.table - {victim})[id := i],
       fifo := Pushed(if fromFifo then Removed(s.fifo, victim) else s.fifo, id, i),
       lru := if fromFifo then s.lru else Removed(s.lru, victim),
       pages := s.pages[i := Page(id, s.pages[i].pins, false, if skipLoad then s.pages[i].data else s.disk(id))])
  }

  /** The state after `victim` has made room for `id` in slot `i`. */
  function Evicted(s: State, victim: Id, fromFifo: bool, id: Id, i: Slot, skipLoad: bool): State
    requires i < |s.pages|
  {
    Rebound(Cleaned(s, i), victim, fromFifo, id, i, skipLoad)
  }

  lemma ReboundOK(s: State, owed: set<Slot>, raw: set<Slot>, victim: Id, fromFifo: bool, id: Id, i: Slot, skipLoad: bool)
    requires StateOK(s, owed, raw) && id !in s.table && victim in s.table && s.table[victim] == i && i < |s.pages|
    requires s.pages[i].pins == 1 && !s.pages[i].dirty && i !in owed && i !in raw
    requires HasKey(if fromFifo then s.fifo else s.lru, victim)
    ensures StateOK(Rebound(s, victim, fromFifo, id, i, skipLoad), Owing(owed, i, skipLoad), Owing(raw, i, skipLoad))
  {
    hide *;
    OKParts(s, owed, raw);
    var s', owed', raw' := Rebound(s, victim, fromFifo, id, i, skipLoad), Owing(owed, i, skipLoad), Owing(raw, i, skipLoad);
    ReboundQueues(s, victim, fromFifo, id, i, skipLoad);
    ReboundIs(s, victim, fromFifo, id, i, skipLoad);
    EvictedTable(s, s', victim, id, i);
    ReboundContent(s, s', owed, raw, victim, id, i, skipLoad);
    EvictedSlots(s, s', owed, raw, i, skipLoad);
    OKFrom(s', owed', raw');
  }

  lemma OKFrom(s: State, owed: set<Slot>, raw: set<Slot>)
    requires BufferSafety.TableOK(s) && BufferSafety.QueuesOK(s)
    requires forall i :: i in s.free ==> i < |s.pages| && s.pages[i].pins == 0
    requires forall i :: i in owed ==> i < |s.pages| && s.pages[i].pins > 0
    requires forall i :: i in raw ==> i in owed && i < |s.pages| && !s.pages[i].dirty
    requires forall id :: ContentOK(s, owed, raw, id)
    ensures StateOK(s, owed, raw)
  {
  }

  lemma ReboundQueues(s: State, victim: Id, fromFifo: bool, id: Id, i: Slot, skipLoad: bool)
    requires BufferSafety.QueuesOK(s) && id !in s.table && victim in s.table && i < |s.pages|
    requires HasKey(if fromFifo then s.fifo else s.lru, victim)
    ensures BufferSafety.QueuesOK(Rebound(s, victim, fromFifo, id, i, skipLoad))
  {
    BufferSafety.UnbindQueues(s, victim, fromFifo);
    var s1 := s.(table := s.table - {victim}, fifo := if fromFifo then Removed(s.fifo, victim) else s.fifo,
                 lru := if fromFifo then s.lru else Removed(s.lru, victim));
    hide BufferSafety.QueuesOK, HasKey, Pushed, Removed;
    BufferSafety.BindQueues(s1, Rebound(s, victim, fromFifo, id, i, skipLoad), id, i);
  }

  lemma ReboundIs(s: State, victim: Id, fromFifo: bool, id: Id, i: Slot, skipLoad: bool)
    requires i < |s.pages|
    ensures var s' := Rebound(s, victim, fromFifo, id, i, skipLoad);
            s'.table == (s.table - {victim})[id := i] && s'.free == s.free && |s'.pages| == |s.pages| && s'.pages[i].id == id &&
            s'.disk == s.disk && s'.current == s.current &&
            s'.pages == s.pages[i := Page(id, s.pages[i].pins, false, if skipLoad then s.pages[i].data else s'.disk(id))] &&
            s'.fifo == Pushed(if fromFifo then Removed(s.fifo, victim) else s.fifo, id, i) &&
            s'.lru == (if fromFifo then s.lru else Removed(s.lru, victim)) && s'.threads == s.threads &&
            forall j :: 0 <= j < |s.pages| && j != i ==> s'.pages[j] == s.pages[j]
  {
    hide Pushed, Removed;
  }

  lemma EvictedSlots(s: State, s': State, owed: set<Slot>, raw: set<Slot>, i: Slot, skipLoad: bool)
    requires StateOK(s, owed, raw) && i < |s.pages| && i !in s.free && s'.free == s.free && |s'.pages| == |s.pages|
    requires s'.pages[i].pins == 1 && !s'.pages[i].dirty && forall j :: 0 <= j < |s.pages| && j != i ==> s'.pages[j] == s.pages[j]
    ensures forall j :: j in s'.free ==> j < |s'.pages| && s'.pages[j].pins == 0
    ensures forall j :: j in Owing(owed, i, skipLoad) ==> j < |s'.pages| && s'.pages[j].pins > 0
    ensures forall j :: j in Owing(raw, i, skipLoad) ==> j in Owing(owed, i, skipLoad) && j < |s'.pages| && !s'.pages[j].dirty
  {
  }

  lemma EvictedTable(s: State, s': State, victim: Id, id: Id, i: Slot)
    requires BufferSafety.TableOK(s) && id !in s.table && victim in s.table && s.table[victim] == i && i < |s.pages|
    requires s'.table == (s.table - {victim})[id := i] && s'.free == s.free && |s'.pages| == |s.pages| && s'.pages[i].id == id
    requires forall j :: 0 <= j < |s.pages| && j != i ==> s'.pages[j] == s.pages[j]
    ensures BufferSafety.TableOK(s')
  {
  }

  lemma ReboundContent(s: State, s': State, owed: set<Slot>, raw: set<Slot>, victim: Id, id: Id, i: Slot, skipLoad: bool)
    requires BufferSafety.TableOK(s) && forall q :: ContentOK(s, owed, raw, q)
    requires id !in s.table && victim in s.table && s.table[victim] == i && i < |s.pages| && i !in owed && i !in raw && !s.pages[i].dirty
    requires s'.table == (s.table - {victim})[id := i] && s'.disk == s.disk && s'.current == s.current
    requires s'.pages == s.pages[i := Page(id, 1, false, if skipLoad then s.pages[i].data else s'.disk(id))]
    ensures forall q :: ContentOK(s', Owing(owed, i, skipLoad), Owing(raw, i, skipLoad), q)
  {
    forall q ensures ContentOK(s', Owing(owed, i, skipLoad), Owing(raw, i, skipLoad), q) {
      assert ContentOK(s, owed, raw, q) && ContentOK(s, owed, raw, victim);
      if q in s.table && q != victim { assert s.table[q] != i; }
    }
  }

  lemma WrittenOK(s: State, owed: set<Slot>, raw: set<Slot>, i: Slot, data: Data)
    requires StateOK(s, owed, raw) && i < |s.pages| && s.pages[i].pins > 0
    ensures StateOK(s.(pages := s.pages[i := s.pages[i].(data := data)], current := Put(s.current, s.pages[i].id, data)), owed + {i}, raw - {i})
  {
    var s' := s.(pages := s.pages[i := s.pages[i].(data := data)], current := Put(s.current, s.pages[i].id, data));
    SameTable(s, s');
    hide BufferSafety.QueuesOK;
    forall q ensures ContentOK(s', owed + {i}, raw - {i}, q) {
      assert ContentOK(s, owed, raw, q);
    }
  }

  lemma UnpinnedOK(s: State, owed: set<Slot>, raw: set<Slot>, i: Slot, dirty: bool)
    requires StateOK(s, owed, raw) && i < |s.pages| && s.pages[i].pins > 0 && i !in raw && (i in owed && s.pages[i].pins == 1 ==> dirty)
    ensures var p := s.pages[i];
            StateOK(s.(pages := s.pages[i := p.(pins := p.pins - 1, dirty := p.dirty || dirty)]), if dirty then owed - {i} else owed, raw)
  {
    var p := s.pages[i];
    var s' := s.(pages := s.pages[i := p.(pins := p.pins - 1, dirty := p.dirty || dirty)]);
    var owed' := if dirty then owed - {i} else owed;
    SameTable(s, s');
    hide BufferSafety.QueuesOK;
    forall q ensures ContentOK(s', owed', raw, q) {
      assert ContentOK(s, owed, raw, q);
    }
  }

  lemma SavedOK(s: State, owed: set<Slot>, raw: set<Slot>, i: Slot)
    requires StateOK(s, owed, raw) && i < |s.pages| && i !in s.free && s.pages[i].dirty
    ensures StateOK(s.(disk := SavedDisk(s, i)), owed, raw)
  {
    var s' := s.(disk := SavedDisk(s, i));
    SameTable(s, s');
    hide BufferSafety.QueuesOK;
    forall q ensures ContentOK(s', owed, raw, q) {
      assert ContentOK(s, owed, raw, q);
    }
  }

  class PageBuffer {
    var pageTable: map<Id, Slot>
    var freeSlots: set<Slot>
    var pages: seq<Page>
    /** What the two queues hold; class Queue shows that they hold it. */
    var fifoQueue: Entries
    var lruQueue: Entries
    /** The block store behind the buffer. */
    var disk: Id -> Data
    /** The last contents written to each page. */
    ghost var current: Id -> Data
    ghost var owed: set<Slot>
    ghost var raw: set<Slot>

    ghost function Now(): State
      reads this
    {
      State(pageTable, freeSlots, fifoQueue, lruQueue, pages, disk, current, map[])
    }

    ghost predicate Valid()
      reads this
    {
      StateOK(Now(), owed, raw)
    }

    constructor (store: Id -> Data)
      ensures Valid()
      ensures pageTable == map[] && disk == store && current == store && owed == {} && raw == {}
      ensures fifoQueue == [] && lruQueue == [] && |pages| == SLOTS && forall i :: i in freeSlots <==> 0 <= i < SLOTS
      ensures forall i :: 0 <= i < SLOTS ==> pages[i].pins == 0 && !pages[i].dirty
    {
      pageTable := map[];
      freeSlots := {};
      pages := seq(SLOTS, _ => Page(0, 0, false, store(0)));
      disk, current := store, store;
      owed, raw := {}, {};
      fifoQueue, lruQueue := [], [];
      new;
      for index := 0 to SLOTS
        invariant forall i :: i in freeSlots <==> 0 <= i < index
        invariant fifoQueue == [] && lruQueue == [] && pageTable == map[]
        invariant disk == store && current == store && owed == {} && raw == {}
        invariant |pages| == SLOTS && (forall i :: 0 <= i < |pages| ==> pages[i].pins == 0 && !pages[i].dirty)
      {
        freeSlots := freeSlots + {index};
      }
    }

    /** The 2Q move of a page whose counter has gone from zero to one; the third case, a page in
        neither queue, does not occur. */
    method MoveInQueues(id: Id, slot: Slot)
      requires Valid() && id in pageTable && pageTable[id] == slot
      modifies `fifoQueue, `lruQueue
      ensures Valid() && Now() == Requeued(old(Now()), id)
      ensures fifoQueue == Others(old(fifoQueue), id) && lruQueue == [Entry(id, slot)] + Others(old(lruQueue), id)
    {
      ghost var s := Now();
      RequeuedFront(s, id);
      OKParts(s, owed, raw);
      QueueParts(s, id);
      PositionIff(s.fifo, id);
      PositionIff(s.lru, id);
      RequeuedOK(s, owed, raw, id);
      hide StateOK, Removed, Pushed, MovedToFront;
      if Position(fifoQueue, id) < |fifoQueue| {
        fifoQueue := Removed(fifoQueue, id);
        lruQueue := Pushed(lruQueue, id, slot);
      } else if Position(lruQueue, id) < |lruQueue| {
        lruQueue := MovedToFront(lruQueue, id);
      } else {
        assert false;
      }
    }

    /** A free slot is bound to a page that is not in memory. */
    method LoadIntoFreeSlot(id: Id, skipLoad: bool) returns (slot: Slot)
      requires Valid() && id !in pageTable && |pageTable| < SLOTS
      modifies this
      ensures Valid() && slot in old(freeSlots) && slot < |old(pages)|
      ensures Now() == Taken(old(Now()), id, slot, skipLoad)
      ensures owed == Owing(old(owed), slot, skipLoad) && raw == Owing(old(raw), slot, skipLoad)
    {
      ghost var s := Now();
      OKParts(s, owed, raw);
      FullTable(s);
      slot :| slot in freeSlots;
      assert slot < |pages|;
      TakenOK(s, owed, raw, id, slot, skipLoad);
      TakenIs(s, id, slot, skipLoad);
      hide StateOK, Taken, Pushed;
      var page := pages[slot].(id := id, pins := 1, dirty := false);
      if !skipLoad {
        page := page.(data := disk(id));
      }
      freeSlots := freeSlots - {slot};
      pageTable := pageTable[id := slot];
      fifoQueue := Pushed(fifoQueue, id, slot);
      pages := pages[slot := page];
      owed, raw := Owing(owed, slot, skipLoad), Owing(raw, slot, skipLoad);
    }

    /** The victim is pinned and, if it is dirty, marked as clean and written to disk. */
    method PinAndClean(slot: Slot)
      requires Valid() && slot < |pages| && slot !in freeSlots && pages[slot].pins == 0
      modifies `pages, `disk
      ensures Valid() && Now() == Cleaned(old(Now()), slot) && slot !in owed && slot !in raw
    {
      ghost var s := Now();
      CleanedOK(s, owed, raw, slot);
      hide StateOK;
      var page := pages[slot];
      page := page.(pins := page.pins + 1);
      if page.dirty {
        page := page.(dirty := false);
        disk := Put(disk, page.id, page.data);
      }
      pages := pages[slot := page];
      assert Now() == Cleaned(s, slot);
    }

    /** The slot of a clean page that nobody else has pinned changes hands. */
    method Rebind(victim: Id, slot: Slot, fromFifo: bool, id: Id, skipLoad: bool)
      requires slot < |pages|
      modifies `pageTable, `fifoQueue, `lruQueue, `pages
      ensures Now() == Rebound(old(Now()), victim, fromFifo, id, slot, skipLoad)
    {
      hide Pushed, Removed;
      pageTable := pageTable - {victim};
      if fromFifo {
        fifoQueue := Removed(fifoQueue, victim);
      } else {
        lruQueue := Removed(lruQueue, victim);
      }
      pageTable := pageTable[id := slot];
      fifoQueue := Pushed(fifoQueue, id, slot);
      var data := if skipLoad then pages[slot].data else disk(id);
      pages := pages[slot := Page(id, pages[slot].pins, false, data)];
    }

    /** An unpinned page makes room. Used by one thread the page is still in its queue, unpinned and
        clean when it is checked again after the write, so that the eviction always goes through. */
    method EvictAndLoad(victim: Id, slot: Slot, fromFifo: bool, id: Id, skipLoad: bool)
      requires Valid() && id !in pageTable && victim in pageTable && pageTable[victim] == slot && slot < |pages| && pages[slot].pins == 0
      requires HasKey(if fromFifo then fifoQueue else lruQueue, victim)
      modifies this
      ensures Valid() && Now() == Evicted(old(Now()), victim, fromFifo, id, slot, skipLoad)
      ensures owed == Owing(old(owed), slot, skipLoad) && raw == Owing(old(raw), slot, skipLoad)
    {
      hide StateOK, HasKey, Rebound, Cleaned, Owing, BufferSafety.QueuesOK, BufferSafety.TableOK, ContentOK, Position;
      VictimSlot(Now(), owed, raw, victim);
      PositionIff(if fromFifo then fifoQueue else lruQueue, victim);
      CleanedIs(Now(), slot);
      PinAndClean(slot);
      ghost var s := Now();
      var stillQueued := Position(if fromFifo then fifoQueue else lruQueue, victim) < |if fromFifo then fifoQueue else lruQueue|;
      if id !in pageTable && stillQueued && pages[slot].pins == 1 && !pages[slot].dirty {
        ReboundOK(s, owed, raw, victim, fromFifo, id, slot, skipLoad);
        Rebind(victim, slot, fromFifo, id, skipLoad);
        owed, raw := Owing(owed, slot, skipLoad), Owing(raw, slot, skipLoad);
      } else {
        assert false;
      }
    }

    /** findOne: the oldest unpinned page of a queue. */
    method FindOne(q: Entries) returns (key: Option<Id>)
      requires UniqueKeys(q)
      ensures key.None? ==> forall j :: 0 <= j < |q| ==> !Unpinned(pages, q[j].value)
      ensures key.Some? ==>
                var p := Position(q, key.value);
                p < |q| && Unpinned(pages, q[p].value) && forall j :: p < j < |q| ==> !Unpinned(pages, q[j].value)
    {
      var i := |q|;
      while i > 0
        invariant 0 <= i <= |q|
        invariant forall j :: i <= j < |q| ==> !Unpinned(pages, q[j].value)
      {
        i := i - 1;
        if Unpinned(pages, q[i].value) {
          PositionUnique(q, i);
          return Some(q[i].key);
        }
      }
      return None;
    }

    /** The miss with all slots taken: a page is evicted by the 2Q policy, or the buffer is full. */
    method MakeRoom(id: Id, skipLoad: bool) returns (slot: Option<Slot>)
      requires Valid() && id !in pageTable && |pageTable| == SLOTS
      modifies this
      ensures Valid() && (slot.None? <==> AllPinned(old(pages)))
      ensures slot.None? ==> Now() == old(Now()) && owed == old(owed) && raw == old(raw)
      ensures slot.Some? ==>
                var i, s := slot.value, old(Now());
                i < |s.pages| && s.pages[i].id in s.table && s.table[s.pages[i].id] == i &&
                Victim(s.fifo, s.lru, s.pages, s.pages[i].id) &&
                Now() == Evicted(s, s.pages[i].id, !NoneUnpinned(s.fifo, s.pages), id, i, skipLoad) &&
                owed == Owing(old(owed), i, skipLoad) && raw == Owing(old(raw), i, skipLoad)
    {
      ghost var s := Now();
      OKParts(s, owed, raw);
      FullTable(s);
      QueuesCoverSlots(s);
      QueueParts(s, id);
      hide StateOK, BufferSafety.QueuesOK, BufferSafety.TableOK, Evicted, HasKey;
      var key := FindOne(fifoQueue);
      if key.Some? {
        var i := fifoQueue[Position(fifoQueue, key.value)].value;
        FoundIn(s, s.fifo, key.value);
        NotAllPinned(pages, i);
        EvictAndLoad(key.value, i, true, id, skipLoad);
        return Some(i);
      }
      FoundNone(s, fifoQueue);
      key := FindOne(lruQueue);
      if key.Some? {
        var i := lruQueue[Position(lruQueue, key.value)].value;
        FoundIn(s, s.lru, key.value);
        NotAllPinned(pages, i);
        EvictAndLoad(key.value, i, false, id, skipLoad);
        return Some(i);
      }
      FoundNone(s, lruQueue);
      return None;
    }

    /** A hit: the page gets one more pin, and its first pin moves it to the front of the LRU queue. */
    method PinResident(id: Id)
      requires Valid() && id in pageTable && pageTable[id] < |pages|
      modifies `pages, `fifoQueue, `lruQueue
      ensures Valid() && Now() == Pinned(old(Now()), id)
      ensures OneMorePin(old(Now()), id, pageTable[id], Now())
    {
      ghost var s := Now();
      PinnedOK(s, owed, raw, id);
      PinnedFrom(s, owed, raw, id);
      hide StateOK, Requeued, OneMorePin, Others;
      var i := pageTable[id];
      pages := pages[i := pages[i].(pins := pages[i].pins + 1)];
      assert Now() == CountedTo(s, i, s.pages[i].pins + 1);
      if pages[i].pins == 1 {
        RequeuedIs(Now(), id);
        MoveInQueues(id, i);
      }
    }

    /** pinPage, as one thread sees it. It gives up, with nothing changed, exactly if the page is
        not in memory and all slots are pinned; otherwise it returns the page's slot with one more
        pin, and the only other page that can have gone is an unpinned one, by the 2Q policy. */
    method PinPage(id: Id, skipLoad: bool) returns (slot: Option<Slot>)
      requires Valid()
      modifies this
      ensures Valid() && current == old(current)
      ensures slot.None? <==> id !in old(pageTable) && |old(pageTable)| == SLOTS && AllPinned(old(pages))
      ensures slot.None? ==> Now() == old(Now()) && owed == old(owed) && raw == old(raw)
      ensures slot.Some? ==> PinnedIn(Now(), raw, id, slot.value)
      ensures id in old(pageTable) ==>
                slot == Some(old(pageTable)[id]) && OneMorePin(old(Now()), id, slot.value, Now()) && owed == old(owed) && raw == old(raw)
      ensures slot.Some? && id !in old(pageTable) ==>
                owed == Owing(old(owed), slot.value, skipLoad) && raw == Owing(old(raw), slot.value, skipLoad)
      ensures id !in old(pageTable) && |old(pageTable)| < SLOTS ==>
                slot.Some? && LoadedInto(old(Now()), id, slot.value, skipLoad, Now())
      ensures slot.Some? && id !in old(pageTable) && |old(pageTable)| == SLOTS ==>
                Replaced(old(Now()), id, slot.value, skipLoad, Now())
    {
      ghost var s := Now();
      hide *;
      PinCases(id);
      var exclusivePageTableLock := false;
      while true
        invariant Valid() && Now() == s && owed == old(owed) && raw == old(raw)
        decreases !exclusivePageTableLock
      {
        PinCases(id);
        if id in pageTable {
          var i := pageTable[id];
          if pages[i].pins + 1 == 1 && !exclusivePageTableLock {
            exclusivePageTableLock := true;
            continue;
          }
          PinnedFrom(s, owed, raw, id);
          PinResident(id);
          CurrentIs();
          OutcomePinned(s, owed, raw, id, i, skipLoad, Now());
          return Some(i);
        }
        if |pageTable| < SLOTS {
          if !exclusivePageTableLock {
            exclusivePageTableLock := true;
            continue;
          }
          var i := LoadIntoFreeSlot(id, skipLoad);
          TakenFrom(s, old(owed), old(raw), id, i, skipLoad);
          CurrentIs();
          OutcomePinned(s, owed, raw, id, i, skipLoad, Now());
          return Some(i);
        }
        slot := MakeRoom(id, skipLoad);
        if slot.Some? {
          EvictedFrom(s, old(owed), old(raw), id, slot.value, skipLoad);
          CurrentIs();
          OutcomePinned(s, owed, raw, id, slot.value, skipLoad, Now());
        }
        CurrentIs();
        return;
      }
    }

    lemma CurrentIs()
      ensures Now().current == current && (Valid() <==> StateOK(Now(), owed, raw))
    {
    }

    lemma PinCases(id: Id)
      requires Valid()
      ensures StateOK(Now(), owed, raw) && Now().table == pageTable && Now().free == freeSlots && Now().pages == pages && Now().current == current
      ensures |pages| == SLOTS && |pageTable| <= SLOTS
      ensures id in pageTable ==> pageTable[id] < |pages|
    {
      OKParts(Now(), owed, raw);
      FullTable(Now());
    }

    /** The client writes the page it has pinned exclusively. */
    method WritePage(i: Slot, data: Data)
      requires Valid() && i < |pages| && pages[i].pins > 0
      modifies `pages, `current, `owed, `raw
      ensures Valid() && pages == old(pages)[i := old(pages)[i].(data := data)]
      ensures forall q :: current(q) == if q == pages[i].id then data else old(current)(q)
      ensures owed == old(owed) + {i} && raw == old(raw) - {i}
    {
      ghost var s := Now();
      WrittenOK(s, owed, raw, i, data);
      hide StateOK;
      pages := pages[i := pages[i].(data := data)];
      current := Put(current, pages[i].id, data);
      owed, raw := owed + {i}, raw - {i};
      assert Now() == s.(pages := s.pages[i := s.pages[i].(data := data)], current := Put(s.current, s.pages[i].id, data));
    }

    /** unpinPage: what has been written is unpinned as dirty, at the latest with the last pin. */
    method UnpinPage(i: Slot, dirty: bool)
      requires Valid() && i < |pages| && pages[i].pins >= 1 && i !in raw && (i in owed && pages[i].pins == 1 ==> dirty)
      modifies `pages, `owed
      ensures Valid() && current == old(current)
      ensures var p := old(pages)[i]; pages == old(pages)[i := p.(pins := p.pins - 1, dirty := p.dirty || dirty)]
      ensures owed == if dirty then old(owed) - {i} else old(owed)
    {
      ghost var s := Now();
      UnpinnedOK(s, owed, raw, i, dirty);
      hide StateOK;
      var page := pages[i];
      if dirty {
        page := page.(dirty := true);
      }
      page := page.(pins := page.pins - 1);
      pages := pages[i := page];
      owed := if dirty then owed - {i} else owed;
      assert Now() == s.(pages := s.pages[i := s.pages[i].(pins := s.pages[i].pins - 1, dirty := s.pages[i].dirty || dirty)]);
    }

    /** flush: afterwards the disk holds every page as it was last unpinned. */
    method Flush()
      requires Valid()
      modifies `disk
      ensures Valid() && current == old(current) && pages == old(pages)
      ensures forall id :: id !in pageTable || pageTable[id] !in owed ==> disk(id) == current(id)
      ensures forall id :: disk(id) == if DirtyBelow(Now(), SLOTS, id) then pages[pageTable[id]].data else old(disk)(id)
    {
      hide StateOK, ContentOK;
      OKParts(Now(), owed, raw);
      for index := 0 to SLOTS
        invariant Valid() && current == old(current) && pages == old(pages) && pageTable == old(pageTable)
        invariant forall id :: disk(id) == if DirtyBelow(Now(), index, id) then pages[pageTable[id]].data else old(disk)(id)
      {
        ghost var s := Now();
        OKParts(s, owed, raw);
        DirtyNext(s, owed, raw, index);
        if index !in freeSlots && pages[index].dirty {
          SavedOK(s, owed, raw, index);
          disk := Put(disk, pages[index].id, pages[index].data);
          assert Now() == s.(disk := SavedDisk(s, index));
        }
      }
      AllFlushed(Now(), owed, raw);
    }
  }

  /** A disk that shows all dirty pages shows every page that is not owed as it is. */
  lemma AllFlushed(s: State, owed: set<Slot>, raw: set<Slot>)
    requires StateOK(s, owed, raw)
    requires forall id :: DirtyBelow(s, SLOTS, id) ==> s.disk(id) == s.pages[s.table[id]].data
    ensures forall id :: id !in s.table || s.table[id] !in owed ==> s.disk(id) == s.current(id)
  {
    OKParts(s, owed, raw);
    forall id | id !in s.table || s.table[id] !in owed ensures s.disk(id) == s.current(id) {
      assert ContentOK(s, owed, raw, id);
    }
  }

  lemma FoundIn(s: State, q: Entries, id: Id)
    requires BufferSafety.TableOK(s) && BufferSafety.QueuesOK(s) && (q == s.fifo || q == s.lru)
    requires Position(q, id) < |q| && Unpinned(s.pages, q[Position(q, id)].value)
    requires forall j :: Position(q, id) < j < |q| ==> !Unpinned(s.pages, q[j].value)
    ensures var slot := q[Position(q, id)].value;
            LastUnpinned(q, s.pages, id) && id in s.table && s.table[id] == slot && HasKey(q, id) && s.pages[slot].id == id
    ensures !NoneUnpinned(q, s.pages)
  {
    EntryEta(q[Position(q, id)]);
    FoundEntry(s, q, id, q[Position(q, id)].value);
    TableParts(s);
  }

  lemma NotAllPinned(pages: seq<Page>, i: Slot)
    requires Unpinned(pages, i)
    ensures !AllPinned(pages)
  {
  }

  lemma RequeuedIs(s: State, id: Id)
    requires id in s.table
    ensures var r := Requeued(s, id); r == s.(fifo := r.fifo, lru := r.lru)
  {
  }

  lemma EvictedIs(s: State, fromFifo: bool, id: Id, i: Slot, skipLoad: bool)
    requires i < |s.pages|
    ensures var e := Evicted(s, s.pages[i].id, fromFifo, id, i, skipLoad);
            e.threads == s.threads && e.table == (s.table - {s.pages[i].id})[id := i] && e.current == s.current && |e.pages| == |s.pages| &&
            e.pages[i].id == id && e.pages[i].pins == 1 && forall j :: 0 <= j < |s.pages| && j != i ==> e.pages[j] == s.pages[j]
  {
  }

  /** The moved page is in front of the LRU queue, and the others are where they were. */
  lemma RequeuedFront(s: State, id: Id)
    requires BufferSafety.QueuesOK(s) && id in s.table
    ensures var r := Requeued(s, id); r.fifo == Others(s.fifo, id) && r.lru == [Entry(id, s.table[id])] + Others(s.lru, id)
  {
    QueueParts(s, id);
    PositionIff(s.fifo, id);
    PositionIff(s.lru, id);
    MovesKeepOthers(s.fifo, id);
    MovesKeepOthers(s.lru, id);
    hide BufferSafety.QueuesOK, Others, UniqueKeys, HasKey;
  }

  lemma PinnedFrom(s: State, owed: set<Slot>, raw: set<Slot>, id: Id)
    requires StateOK(s, owed, raw) && id in s.table
    ensures s.table[id] < |s.pages| && OneMorePin(s, id, s.table[id], Pinned(s, id)) && Pinned(s, id).current == s.current
  {
    hide *;
    OKParts(s, owed, raw);
    var i := s.table[id];
    var c := CountedTo(s, i, s.pages[i].pins + 1);
    PinnedOK(s, owed, raw, id);
    OKParts(c, owed, raw);
    CountedIs(s, i, s.pages[i].pins + 1);
    RequeuedFront(c, id);
    RequeuedIs(c, id);
    PinnedParts(s, id);
  }

  lemma CountedIs(s: State, i: Slot, pins: nat)
    requires i < |s.pages|
    ensures CountedTo(s, i, pins) == s.(pages := s.pages[i := s.pages[i].(pins := pins)])
  {
  }

  lemma PinnedParts(s: State, id: Id)
    requires id in s.table && s.table[id] < |s.pages|
    requires var i := s.table[id];
             var c := CountedTo(s, i, s.pages[i].pins + 1);
             id in c.table &&
             var r := Requeued(c, id);
             r == c.(fifo := r.fifo, lru := r.lru) && r.fifo == Others(c.fifo, id) && r.lru == [Entry(id, i)] + Others(c.lru, id)
    ensures OneMorePin(s, id, s.table[id], Pinned(s, id)) && Pinned(s, id).current == s.current
  {
    hide Requeued, Others;
  }

  lemma TakenFrom(s: State, owed: set<Slot>, raw: set<Slot>, id: Id, i: Slot, skipLoad: bool)
    requires StateOK(s, owed, raw) && id !in s.table && i in s.free && i < |s.pages|
    ensures var t := Taken(s, id, i, skipLoad); LoadedInto(s, id, i, skipLoad, t) && t.current == s.current
  {
    TakenIs(s, id, i, skipLoad);
    hide StateOK;
  }

  lemma EvictedFrom(s: State, owed: set<Slot>, raw: set<Slot>, id: Id, i: Slot, skipLoad: bool)
    requires StateOK(s, owed, raw) && i < |s.pages| && s.pages[i].id in s.table && s.table[s.pages[i].id] == i
    requires Victim(s.fifo, s.lru, s.pages, s.pages[i].id)
    ensures var e := Evicted(s, s.pages[i].id, !NoneUnpinned(s.fifo, s.pages), id, i, skipLoad);
            Replaced(s, id, i, skipLoad, e) && e.current == s.current
  {
    hide *;
    OKParts(s, owed, raw);
    VictimQueued(s.fifo, s.lru, s.pages, s.pages[i].id);
    EvictedIs(s, !NoneUnpinned(s.fifo, s.pages), id, i, skipLoad);
    EvictedOthers(s, !NoneUnpinned(s.fifo, s.pages), id, i, skipLoad);
    ReplacedFrom(s, id, i, skipLoad, Evicted(s, s.pages[i].id, !NoneUnpinned(s.fifo, s.pages), id, i, skipLoad));
  }

  lemma VictimQueued(fifo: Entries, lru: Entries, pages: seq<Page>, id: Id)
    requires Victim(fifo, lru, pages, id)
    ensures HasKey(if !NoneUnpinned(fifo, pages) then fifo else lru, id)
  {
    PositionIff(fifo, id);
    PositionIff(lru, id);
    hide HasKey, Position;
  }

  lemma ReplacedFrom(s: State, id: Id, i: Slot, skipLoad: bool, e: State)
    requires i < |s.pages| && s.pages[i].id in s.table && s.table[s.pages[i].id] == i && Victim(s.fifo, s.lru, s.pages, s.pages[i].id)
    requires var p := s.pages[i];
             e.table == (s.table - {p.id})[id := i] && e.free == s.free && e.fifo == [Entry(id, i)] + Others(s.fifo, p.id) &&
             e.lru == Others(s.lru, p.id) && (forall q :: e.disk(q) == if q == p.id && p.dirty then p.data else s.disk(q)) &&
             e.pages == s.pages[i := Page(id, 1, false, if skipLoad then p.data else e.disk(id))] &&
             e.current == s.current && e.threads == s.threads
    ensures Replaced(s, id, i, skipLoad, e)
  {
    hide Victim, Others;
  }

  /** Whatever way the page has come into its slot, it is pinned there. */
  lemma OutcomePinned(s: State, owed: set<Slot>, raw: set<Slot>, id: Id, i: Slot, skipLoad: bool, s': State)
    requires StateOK(s', owed, raw)
    requires (id in s.table && s.table[id] == i && OneMorePin(s, id, i, s')) || LoadedInto(s, id, i, skipLoad, s') || Replaced(s, id, i, skipLoad, s')
    ensures PinnedIn(s', raw, id, i)
  {
    PinnedInFrom(s', owed, raw, id, i);
    hide StateOK, Victim, Others;
  }

  /** The victim is gone from its queue, and the new page is in front of the FIFO queue. */
  lemma EvictedOthers(s: State, fromFifo: bool, id: Id, i: Slot, skipLoad: bool)
    requires BufferSafety.QueuesOK(s) && i < |s.pages| && s.pages[i].id in s.table
    requires HasKey(if fromFifo then s.fifo else s.lru, s.pages[i].id)
    ensures var e, p := Evicted(s, s.pages[i].id, fromFifo, id, i, skipLoad), s.pages[i];
            e.free == s.free && e.fifo == [Entry(id, i)] + Others(s.fifo, p.id) && e.lru == Others(s.lru, p.id) &&
            (forall q :: e.disk(q) == if q == p.id && p.dirty then p.data else s.disk(q)) &&
            e.pages == s.pages[i := Page(id, 1, false, if skipLoad then p.data else e.disk(id))]
  {
    QueueParts(s, s.pages[i].id);
    MovesKeepOthers(s.fifo, s.pages[i].id);
    MovesKeepOthers(s.lru, s.pages[i].id);
    hide BufferSafety.QueuesOK, Others, UniqueKeys, HasKey, Removed;
  }

  /** The page is resident in one of the first `n` slots, and dirty. */
  predicate DirtyBelow(s: State, n: nat, id: Id) {
    id in s.table && s.table[id] < n && s.table[id] < |s.pages| && s.pages[s.table[id]].dirty
  }

  lemma DirtyNext(s: State, owed: set<Slot>, raw: set<Slot>, i: Slot)
    requires StateOK(s, owed, raw) && i < |s.pages|
    ensures forall id :: DirtyBelow(s, i + 1, id) <==>
              DirtyBelow(s, i, id) || (id == s.pages[i].id && i !in s.free && s.pages[i].dirty)
  {
    OKParts(s, owed, raw);
    hide StateOK;
  }

  lemma CleanedIs(s: State, i: Slot)
    requires i < |s.pages|
    ensures var c := Cleaned(s, i);
            c.table == s.table && c.free == s.free && c.fifo == s.fifo && c.lru == s.lru && |c.pages| == |s.pages| &&
            c.pages[i].pins == 1 && !c.pages[i].dirty
  {
  }

  lemma TakenIs(s: State, id: Id, i: Slot, skipLoad: bool)
    requires i < |s.pages|
    ensures Taken(s, id, i, skipLoad) ==
            s.(free := s.free - {i}, table := s.table[id := i], fifo := Pushed(s.fifo, id, i),
               pages := s.pages[i := Page(id, 1, false, if skipLoad then s.pages[i].data else s.disk(id))])
  {
  }
}
