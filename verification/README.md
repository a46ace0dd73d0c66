# A verified model of the Bε-tree store

This project models, in Dafny, a key-value store built on a Bε-tree and, beside it, a plain B-tree;
the page buffer both trees pin their pages in; the segmented block file below the buffer; and the
barrier that the benchmark's worker threads meet at. It proves that each of them does what it is for,
over all inputs and all runs:

* **Bε-tree.** Inserts, updates and deletions travel as messages that are buffered in inner nodes,
  squashed per key and flushed downwards in a level-order cascade, while leaves split at a combined
  median, inner nodes split before they must, and a full root splits many ways. For every run of
  operations the tree denotes exactly what a plain map holds after the same run; no flush overflows a
  leaf; a flush serves no more children than it must, and of those it splits exactly the leaves whose
  forecast exceeds a leaf and the inner nodes without a free pivot per served child; the cascade ends;
  the shape of the tree is kept; a client that updates only present keys never makes `find` fail; and
  the page buffer keeps every page that an operation has changed, exactly but for one kind of insertion.
  The value type is arbitrary with an associative `+` that need not commute; keys are 64-bit unsigned.
* **B-tree.** The same plain map is refined. The optimistic insertion gives up exactly if the key's
  leaf is full, and the exclusive retry always completes, splits only full nodes, and loses no change.
* **Page buffer.** A step system for any number of threads, in which the table lock is dropped while
  a victim is saved and the situation is checked again afterwards: nothing dirty is lost, pinned
  pages stay, a client sees what was last written, the code's assertions hold, and the queues follow
  the 2Q policy step by step. A class models the buffer as one thread sees it, and a thread of the step
  system that is left alone arrives at exactly what the class says.
* **Block file.** A free list threaded through deleted blocks, growing segments, packed ids. Any run of
  creations, deletions, writes and reads is answered as by a plain list of blocks. Segments grow if and
  only if the growth factor is at least 1.1.
* **Barrier.** Two counters and two compare-exchanges, for any number of threads and rounds.

## How the proofs are built

Every page of a tree carries a ghost *label*: its height, the key range it answers for, its parent,
the messages waiting in it, a leaf's pairs, and the *view* that a lookup has of every key from there
on down (`Labels.dfy`). Labels are linked pairwise, child to parent. All that either tree ever does is
one of five steps on labels: a message is taken in at the root, messages move one level down, a leaf
applies its messages, a page splits, the tree grows a level; each is proved to leave the view from the
root as it should be. The Bε-tree's node level (`BeNodes.dfy` to `BeTraversal.dfy`) ties pages to
labels while messages are on their way; the class `BeTree` runs the actual algorithms on pages; and
`BeMeaning.dfy` shows that what the labels say is what a reader finds by walking the pages.
`BeSplits.dfy` says of a cascade which children have to split, from the pages before the flush and the
messages alone. The B-tree uses the same labels, with a write as a single message that travels to its
leaf.

Both trees also record which pages they have pinned exclusively and what the page buffer is sure to
keep of every page, namely what it was when it was last unpinned as dirty (`PinnedPages.dfy`). Every
exclusive pin and its unpin is there, with the flag of the source. `Durable()` says that what is kept is
what is in memory; `BePins.dfy` and `BPins.dfy` have the lemmas. In a cascade of the Bε-tree all that is
changed is kept; that nothing else is marked as dirty is only said of the other operations.

The page buffer is there twice: `BufferSteps.dfy` has the steps of its threads, `BufferSafety.dfy` what
every step keeps, `BufferRuns.dfy` what holds in every run; `PageBuffer.dfy` has the class for one thread,
and `BufferAlone.dfy` shows that the two agree.

The node arrays that the source shifts in place are modelled in place too, each proved against the
sequence operation that the tree-level model uses: `LeafArrays.dfy`, `InsertPivots.dfy`,
`RootChunks.dfy`, `SplitBuffer.dfy`, on top of `Arrays.dfy`.

## What the code does not do

The model follows the code where it falls short of what one would expect. For each such point the
exact condition under which the code is right is proved, with a concrete input that shows it fail
where the contract itself does not say so.

* `find` of the Bε-tree returns nothing as long as the root is a leaf, whatever the leaf holds.
* `find` of the Bε-tree fails its assertion if, and only if, updates wait for a key that has no base
  value on its path. A client avoids this by updating present keys only (`FindAfterRun`); one update
  of a key without a base is enough to cause it (`UpdateThenFind`).
* An insertion into the Bε-tree loses half a leaf if, and only if, the root has a free pivot and its
  child for the key is a full leaf that has the key with this very value. The exclusive attempt splits
  the leaf, finds nothing to overwrite, and unpins the half the key belongs to as clean
  (src/betree/BeTree.h:934), although the split has just changed it. If the key is the leaf's largest
  the half is a new page, of which nothing is kept (`BeTrees.RewriteLargest`, reached from a new tree by
  `BeTrees.FillAndRewrite`); otherwise it is at most kept as it was before. In memory the tree is right
  until the page is evicted. The B-tree passes its `split` flag at the same place
  (src/btree/BTree.h:255) and loses nothing, in any run.
* Before a flush inserts a new key into a leaf, an assertion reads the slot at the key's position. It
  fails if, and only if, the key goes behind all others and the slot there still shows it, as after the
  largest key has been deleted (`LeafArrays.ReinsertLargest`). The default build keeps assertions, so
  the program stops there. What is proved of the whole tree holds with this assertion compiled out. No
  rule for clients of the tree excludes it: a fresh page is pinned without being loaded, so the slots
  behind the keys of a new leaf show whatever the buffer's slot held before, be it the very key that is
  inserted next.
* `splitRootNode` keeps all children if, and only if, the number of pivots is not a multiple of
  INNER_N/2 + 1; otherwise it drops the last child. As ROOT_N is odd, that takes an odd INNER_N/2 + 1,
  for example INNER_N = 5 and ROOT_N = 9. The node sizes are required to avoid that case.
* The right half of `splitInnerNode` gets its messages from the tail that `std::remove_if` leaves
  behind, which is right if, and only if, no kept message stands behind a removed one. A sorted buffer
  always satisfies this.
* The forecast of a leaf's size subtracts two iterators the wrong way round and therefore recognises
  a key if, and only if, it is the leaf's first. It is modelled as written; it only overestimates.
* A block id unpacks to what was packed if, and only if, its parts fit 16 and 48 bits.
* Deleting a block of a segment that is not in use leaves nothing on disk that is a free list, and
  only that does.
* Inserting a key twice into a queue breaks its index map, and only that does.
* A thread that raises "Buffer is full!" leaves the page table locked.
* A comment at src/buffer/PageBuffer.h:48 says that the two queues only handle pages with zero pins;
  in the code, and in the model, every resident page is in exactly one queue, pinned or not.

## Sizes and other requirements

`BeSizes.dfy` and `BNodes.dfy` fix node capacities as constants that satisfy the static assertions of
the node wrappers. On top of those the Bε-tree requires leaves of at least three entries, so that a
split leaves both halves a range of keys (`LeafFlush.MedianInside`; with two entries one half may get
none, `LeafFlush.TwoEntriesTooFew`), and a root whose pivot count does not make `splitRootNode` drop a
child.

What is proved of the concurrent page buffer is for clients that keep two rules, stated in the guard of
its steps: a page pinned with skipLoad is used by nobody else until it has been written and unpinned,
and a page that was written is unpinned as dirty. The B-tree keeps the second rule always; the Bε-tree
keeps it exactly but for the insertions above, so that `BufferRuns.NothingLost` and
`BufferRuns.PinnedIsCurrent` do not cover a page released in such an insertion. `BeTrees.BeTree.Run`
tells what the tree denotes from the pages as they are in memory; that eviction does not change them is
`Durable()`, which the run keeps if no insertion repeats the value its key has.

## Model

| member | source | states |
|---|---|---|
| BeTrees.BeTree.Run | src/betree/BeTree.h:1185-1232 | any run of insert, update and erase leaves the tree denoting exactly the map that the same run leaves of a plain map, so every flush, squash and split is invisible; a key whose updates the run settles stays sound, so that no update dangles; if no insertion of the run repeats the value its key has, the buffer keeps every page as the run leaves it |
| BeTrees.BeTree.Insert | src/betree/BeTree.h:1205-1212 | afterwards the key denotes the value; every other key denotes what it did; the buffer keeps every changed and created page if and only if it is not the case that the root, with a free pivot, has a full leaf for the key that has it with this value already: then the half the key belongs to is lost |
| BeTrees.BeTree.Update | src/betree/BeTree.h:1215-1222 | adds to the value of a present key, does nothing for an absent one; every other key denotes what it did; the buffer keeps every changed page; if the message stays with the child of the root, no other page changes |
| BeTrees.BeTree.Erase | src/betree/BeTree.h:1225-1232 | afterwards the key denotes nothing; every other key denotes what it did; the buffer keeps every changed page |
| BeTrees.BeTree.Find | src/betree/BeTree.h:1235-1319 | with a root node above the leaves it returns exactly what the tree denotes, unless updates wait for a key without a base value: then, and only then, its assertion fails, and never for a sound key; while the root is a leaf it returns nothing |
| BeTrees.LeafRootHidesKeys | src/betree/BeTree.h:1237-1240 | a concrete run on which find misses a stored key: insert into a new tree, then find |
| BeTrees.FindAfterRun | src/betree/BeTree.h:1235-1319 | a client that updates a key only while it is present finds, after any run from a new tree, exactly what the plain map holds once the root is a node: the assertion never fails; without insertions that repeat a key with its value the buffer keeps all of it |
| BeTrees.RewriteLargest | src/betree/BeTree.h:851-936 | from any tree in order, kept by the buffer, with a full leaf below a root with a free pivot: inserting the leaf's largest key again with its value leaves the tree denoting the value, but read from the pages the buffer keeps the key means nothing |
| BeTrees.FillAndRewrite | src/betree/BeTree.h:851-936 | such a tree comes about: keys inserted into a new tree in ascending order until the right leaf is full, the last of them once more, and it is lost |
| BeTrees.FillRightLeaf | src/betree/BeTree.h:868-958 | filling the right leaf keeps every page; the tree ends with two leaves below the root, the right one full and ending with the last key |
| BePins.LostMeansNothing | src/betree/BeTree.h:1251-1318 | a key whose leaf the buffer does not keep means nothing when the kept pages are read, at any depth |
| BeTrees.UpdateThenFind | src/betree/BeTree.h:1215-1319 | from any valid tree in which the message stays with the child of the root: update followed by find fails the assertion if and only if the key had no base, and otherwise returns what the tree denotes |
| BeUpdates.UpdateDanglesIff | src/betree/BeTree.h:963-994 | an update that is squashed or inserted in the buffer below the root is left dangling if and only if the path of its key gives it no base |
| BeUpdates.NoBaseElsewhere | src/betree/BeTree.h:1251-1297 | whether a path gives a key a base does not depend on pages that are not below its start |
| BeDangling.UpdateDangles | src/betree/BeTree.h:1314-1317 | a concrete tree in order on which the assertion of find fails: two inner nodes with two empty leaves each below a root with a pivot, and one update waiting for an absent key |
| BeTrees.BeTree.constructor | src/betree/BeTree.h:264-287 | a new tree is one empty leaf, kept by the buffer, and denotes the empty map |
| BeTrees.BeTree.Upsert | src/betree/BeTree.h:1185-1202 | one message acts on its own key and no other; an attempt that gave up is repeated and then succeeds; afterwards nothing is pinned, and the buffer keeps every page exactly unless the message is the forgotten insertion; the root is cut into chunks if and only if it is full, and then gains one pivot, at the child's cut, if and only if the child has to split |
| BeTrees.BeTree.HandleRootRootUpsert | src/betree/BeTree.h:798-1065 | the message acts on what the tree denotes; an attempt without exclusive access gives up, changing nothing, exactly if the root is full or the child has to split; the root itself is cut if and only if it is full, gains one pivot if and only if its child then has to split, and stays otherwise; every page pinned is unpinned once, and all changes are kept if and only if it is not the forgotten insertion |
| BeTrees.BeTree.UpsertLeafChild | src/betree/BeTree.h:846-958 | the leaf below the root takes the message and no other page changes, unless it is full and the message inserts: then an exclusive attempt splits it first, which gives the root its median as a pivot, and any other gives up; without a split nothing but a leaf that changes is marked as dirty, and with one all is kept if and only if it is not a full leaf that gets a key of its own with the same value |
| BeTrees.BeTree.SplitFullChild | src/betree/BeTree.h:857-944 | a full leaf below the root splits and the half the key belongs to takes the insertion; if and only if the leaf has the key with this value already, that half is unpinned as clean although the split has changed it, and nothing of it is kept if the key is the leaf's largest |
| BeTrees.BeTree.TakeAtHalf | src/betree/BeTree.h:879-957 | the other half is unpinned as dirty; the half that takes the insertion exactly if its lookup of the key was not the value |
| BePins.SplitOutcome | src/betree/BeTree.h:866-957 | the pages kept after the split are the pages in memory if and only if the last unpin was dirty; otherwise the page the root routes the key to is lost |
| BePins.ForgottenIsDenoted | src/betree/BeTree.h:926-936 | an insertion that is forgotten finds the key with its value in the tree, so that only a client that repeats a value can cause it |
| BeTrees.BeTree.UpsertInnerChild | src/betree/BeTree.h:959-1064 | the inner child squashes the message with the one it has for the key, or inserts it at its lower bound if it has room, and no other page changes or is marked as dirty; otherwise it flushes; the buffer keeps all changes in every case |
| BeTrees.BeTree.FlushRootChild | src/betree/BeTree.h:995-1064 | a full buffer below the root passes one block on, no block is larger, and all of it leaves unless it exceeds MAX_FLUSH_SIZE; the rest is in the buffer when the cascade is over, or its lower part if the node had no free pivot and split; the root gains a pivot exactly then; every page the cascade has changed is kept |
| BeTrees.BeTree.SplitRootChild | src/betree/BeTree.h:1001-1047 | the child that flushes splits first at its middle pivot, which the root gets: the root is released as dirty, and so is the half that gets no messages; exactly the enqueued pages stay pinned |
| BeTrees.BeTree.HandleRootLeafUpsert | src/betree/BeTree.h:1068-1182 | a lone leaf takes the message and nothing else changes, unless it is full and a new key is inserted: then, and only then, it splits at the median into two leaves below a new root node; all is kept, and a leaf that stays as it is is not marked as dirty |
| BeTrees.BeTree.SplitLoneLeaf | src/betree/BeTree.h:1123-1180 | below the new root node are exactly the two halves at the median of leaf and key, the one the key belongs to with the message applied; all three pages are kept |
| BeTrees.MakeRoom | src/betree/BeTree.h:683-687 | with too little room some messages always leave, for at most one child more than there are pivots, and for no more children than have to; a child gets all that waits for it unless the flush limit is reached, the largest blocks first, and the lowest keys of a block that is cut short; for a single message exactly one block leaves |
| BeTrees.BeTree.HandleTraversalNode | src/betree/BeTree.h:584-795 | handling one queue entry keeps the state of the cascade and the view from the root, enqueues only nodes one level lower, and leaves exactly the queued pages pinned with all others kept; the handled node gains exactly one pivot and one child, on the right of it, for each child that had to split before the call; the assertion on slots behind a leaf is compiled out |
| BeTrees.BeTree.ServeChildren | src/betree/BeTree.h:596-719 | in whatever order the children with messages are served, the node owes one new pivot for each that had to split before, and neither root nodes nor the messages at this level and above have changed |
| BeTrees.BeTree.ServeChild | src/betree/BeTree.h:596-719 | serving one child changes no other page; the child splits if and only if it has to, and then, and only then, the node owes a new pivot; an inner child is enqueued if and only if it has no room for its messages |
| BeTrees.BeTree.TraverseLevels | src/betree/BeTree.h:1057-1063 | the level-order cascade ends for every tree and message load, with root nodes and the buffers at the first level and above as they were, nothing pending, nothing pinned, every page kept and the view from the root unchanged |
| BePins.ChildUnpinned | src/betree/BeTree.h:596-601 | a child is pinned once: when its turn comes it is neither the handled node nor enqueued nor a leaf waiting for its messages, so that the cascade does not wait for itself |
| BeTrees.BeTree.ServeLeafChild | src/betree/BeTree.h:602-653 | a leaf child is split at the median of keys and messages, for one more pivot, if and only if the forecast exceeds its capacity; otherwise no page changes and no pivot is owed; its messages then fit it or its halves, and exactly those stay pinned |
| BeTrees.BeTree.ServeInnerChild | src/betree/BeTree.h:654-718 | an inner child merges its messages into its buffer if it has room for them; otherwise, and only then, it is enqueued with what removeMessages takes out, and its buffer holds what stays; it splits if and only if it has to |
| BeTrees.BeTree.FlushInnerChild | src/betree/BeTree.h:683-717 | the child splits, for one more pivot, if and only if however the children to be served are chosen its free pivots do not suffice; otherwise its pivots and children stay; the entries it enqueues have a free pivot slot for every child that gets messages |
| BeTrees.BeTree.FlushHalves | src/betree/BeTree.h:687-714 | the child is cut at its middle pivot, which the node gets; its halves share the removed messages and have the free pivots for them |
| BeSplits.ServedTooMany | src/betree/BeTree.h:683-687 | removeMessages serves more children than there are free pivots if and only if no choice of that many children has enough messages waiting |
| BeSplits.ServedMore | src/betree/BeTree.h:596-719 | the pivots owed are exactly those of the children served so far that had to split, told from the pages before the node was handled |
| BeTrees.BeTree.ApplyTask | src/betree/BeTree.h:729-794 | a leaf, or the two halves of a split one, end up as the messages say, applied in order |
| BeTrees.BeTree.ApplyLeafMessages | src/betree/BeTree.h:728-794 | all leaves on the list get their messages and are released as dirty; only enqueued nodes stay pinned |
| BeTrees.BeTree.ApplyMessage | src/betree/BeTree.h:737-787 | one message makes of the leaf what it says; a new key finds a free slot, as the first assertion says; the second is compiled out here and modelled in LeafArrays.UpsertInPlace |
| BeTrees.BeTree.SplitRootNode | src/betree/BeTree.h:368-410 | the root keeps exactly the separators, which are fewer than fit, new pages hold exactly the chunks between them, and no key changes its meaning |
| BeTrees.BeTree.SplitLeafNode | src/betree/BeTree.h:300-328 | everything above the median moves to a new page |
| BeTrees.BeTree.SplitInnerNode | src/betree/BeTree.h:331-365 | the middle pivot moves up, and the pivots, children and messages above it move to a new page, which gets half of the pivots |
| BeTrees.BeTree.DenotesView | src/betree/BeTree.h:1251-1318 | between any two operations, what reading the pages gives for a key — leaf value with the buffered messages on its path applied bottom-up — is the view that the root's label carries |
| BeTrees.BeTree.StructureHolds | src/betree/BeTree.h:1185-1232 | between operations every node is sorted, within capacity and within its key range, and all leaves are equally deep |
| BeStructure.ShapeHolds | src/betree/BeTree.h:300-454 | strictly sorted pivots and buffers, one message per key, everything inside its subtree's range, equal leaf depth, from any page on down |
| BeStructure.OneParent | src/betree/BeTree.h:300-454 | no page is listed by two parents or twice by one, and the root by none |
| BeStructure.StampsFall | src/betree/BeTree.h:1205-1232 | on every key's path the time stamps of its messages fall strictly from the root to the leaf |
| BeMeaning.MeaningIsView | src/betree/BeTree.h:1251-1318 | while nothing is pending, the recursive reading of the pages and the view a label carries agree on every key |
| BeMeaning.SearchStep | src/betree/BeTree.h:1251-1297 | one step of the search: an update joins those collected in front of them, an insert or delete ends the search |
| BeMeaning.ReadBuffer | src/betree/BeTree.h:1255-1289 | a node's buffer contributes the one message it has for the key, told apart by its type |
| BeMeaning.SoundNeverDangles | src/betree/BeTree.h:1251-1318 | below every update that waits for a sound key the key has a value, however far the updates have been flushed, so that none dangles |
| BeMeaning.NoBaseMeansNothing | src/betree/BeTree.h:1251-1318 | a key without a base on its path means nothing |
| Messages.SquashActsInOrder | src/betree/BeTree.h:32-91 | squashing two messages for a key acts on any optional value as the older followed by the newer, in whichever order they are passed |
| MergeUpserts.MergeUpserts | src/betree/BeTree.h:93-119 | the output is strictly sorted and holds exactly the union of both runs, shared keys squashed |
| MergeUpserts.MergeActsInOrder | src/betree/BeTree.h:93-119 | a merged run acts on every key as the older run followed by the newer one |
| RemoveMessages.RemoveMessages | src/betree/BeTree.h:458-581 | what leaves and what stay make up exactly the merge; each message leaves for its lower-bound child; at most maxRemoved leave, the largest blocks first and no block more than needed; a block leaves whole unless maxRemoved is reached, and else with its lowest keys; no fewer children could have been served; the rest fits the buffer, sorted |
| RemoveMessages.FindBlocks | src/betree/BeTree.h:484-514 | the merged messages are cut into runs for different children, in order |
| RemoveMessages.SortBySize | src/betree/BeTree.h:515-527 | every block once, the largest first |
| RemoveMessages.TakeBlocks | src/betree/BeTree.h:528-560 | enough messages leave to make room, never more than allowed; short of the limit the blocks taken are used up, and without the last one there would be too few |
| RemoveMessages.Rebuild | src/betree/BeTree.h:561-577 | the buffer is rebuilt from exactly the messages that have not left |
| RemoveMessages.RebuiltMap | src/betree/BeTree.h:561-581 | a rebuilt buffer holds the merged messages minus those that left, and its size is the difference |
| RemoveMessages.TakenServesLargest | src/betree/BeTree.h:518-560 | no child left out has more messages waiting than a child that was served |
| RemoveMessages.TakenAreWhole | src/betree/BeTree.h:538-550 | a child gets all messages that wait for it, unless the limit has been reached |
| RemoveMessages.TakenAreLowest | src/betree/BeTree.h:538-560 | of the messages for one child those that leave have lower keys than those that stay |
| RemoveMessages.FewerAreNotEnough | src/betree/BeTree.h:515-560 | no choice of fewer children has as many messages waiting as are needed |
| SplitBuffer.RemoveIfAbove | src/betree/BeTree.h:351-356 | remove_if gathers the kept messages in front and leaves what is behind them as it was |
| SplitBuffer.TailIsRemovedIff | src/betree/BeTree.h:351-360 | the tail read for the right node holds the removed messages if and only if no kept message stands behind a removed one |
| SplitBuffer.SortedSplitsAtBound | src/betree/BeTree.h:351-363 | a sorted buffer splits exactly at the upper bound of the key |
| SplitBuffer.UnsortedLosesMessage | src/betree/BeTree.h:351-360 | an unsorted buffer of two messages loses one of them |
| Leaves.UpsertedPairs | src/betree/BeTree.h:737-787 | one message keeps a leaf sorted and changes its map as the message says, at its own key only |
| LeafArrays.UpsertInPlace | src/betree/BeTree.h:738-787 | the shifts of the two arrays leave what the message makes of the contents, and every slot behind them as it was; of the assertions before an insertion the first holds, and the second fails if and only if the key goes behind all others and the slot there still shows it |
| LeafArrays.ReinsertLargest | src/betree/BeTree.h:743-775 | on every nonempty leaf the second assertion fails when its largest key is deleted and inserted again |
| LeafArrays.ShiftLeft | src/betree/BeTree.h:748-756 | shifting the tail one to the left removes the entry |
| LeafArrays.ShiftRight | src/betree/BeTree.h:776-785 | shifting the tail one to the right and storing the entry inserts it |
| Arrays.MoveBackward | src/betree/BeTree.h:777-782 | a block moves to the right onto itself without losing an element |
| Arrays.MoveForward | src/betree/BeTree.h:748-754 | a block moves to the left onto itself without losing an element |
| LeafFlush.NeedToSplit | src/betree/BeTree.h:604-638 | asks for a split exactly if the forecast, as written, exceeds the capacity after some message; without one every message can be applied without overflow |
| LeafFlush.OnlyFirstIsSeen | src/betree/BeTree.h:620-624 | the test for a present key, with its iterators subtracted the wrong way round, recognises a key if and only if it is the leaf's first |
| LeafFlush.SecondKeyOverlooked | src/betree/BeTree.h:620-624 | a concrete leaf whose second key is taken for a new one |
| LeafFlush.EstimateBounds | src/betree/BeTree.h:609-638 | the forecast never falls short of the leaf's real size after any message, and never exceeds leaf and messages together |
| LeafFlush.EstimateIs | src/betree/BeTree.h:609-638 | the forecast exactly: the size of the leaf, one more for every insertion but one of its first key, one less if its first key is deleted |
| LeafFlush.ForecastIsSafe | src/betree/BeTree.h:604-638 | a forecast that never exceeds the capacity means that the messages fit, one by one; one that does means that leaf and messages together exceed it |
| LeafFlush.HalvesFit | src/betree/BeTree.h:639-651 | after a split at the combined median both halves stay within capacity after every single message |
| LeafFlush.LeafAfterActs | src/betree/BeTree.h:729-787 | a run of messages acts on every key of the leaf as its own message says |
| LeafFlush.GrowthBound | src/betree/BeTree.h:186-187 | no run of messages makes a leaf grow by more than its length, and by less if the last one hits a present key |
| LeafFlush.MedianHalves | src/betree/BeTree.h:640-647 | the combined median leaves at most a leafful on either side, or one more on the left when both sides have the median |
| LeafFlush.SplitLeafSorted | src/betree/BeTree.h:300-328 | the two leaves are sorted, read in order they are the old leaf, and the median separates them |
| LeafFlush.SplitLeftPairs | src/betree/BeTree.h:300-328 | the left leaf holds exactly the pairs up to the median |
| LeafFlush.SplitRightPairs | src/betree/BeTree.h:300-328 | the right leaf holds exactly the pairs above the median |
| Median.FindMedianKey | src/betree/BeTree.h:133-165 | the element of rank ceil(n/2) of the union of two sorted arrays; the indices never underflow and the error exit is unreachable |
| Median.CutIsMedian | src/betree/BeTree.h:147-157 | a cut whose left parts do not exceed its right parts ends at the element whose rank is the number of elements on its left |
| LeafFlush.MedianInside | src/betree/BeTree.h:640-650 | with four or more entries the median lies strictly inside the leaf's range, so both halves keep a range |
| LeafFlush.TwoEntriesTooFew | src/betree/BeTree.h:604-650 | with leaves of two keys it fails: an insertion of the leaf's second key makes the forecast ask for a split, whose median is that key, and the right half is empty |
| BeServe.ServeLeaf | src/betree/BeTree.h:639-653 | a leaf with room keeps its messages pending; the node being handled still serves the others |
| BeServe.ServeLeafSplit | src/betree/BeTree.h:640-653 | a leaf split at the median leaves both halves with messages that fit, and the parent one pivot to insert |
| BeServe.ServeInner | src/betree/BeTree.h:655-717 | an inner child stores the merged messages, or passes some on with the free pivots they need |
| BeServe.ServeInnerSplit | src/betree/BeTree.h:687-714 | a child split before its flush leaves both halves with as many free pivots as children that get messages |
| BeFlush.SplitMap | src/betree/BeTree.h:692-703 | the messages of a split node go to the half that has their child, renumbered for the right half, none lost |
| BeFlush.CarriesLeft | src/betree/BeTree.h:694-697 | the left half's list carries exactly the messages up to the pivot, under the children they are routed to |
| BeFlush.CarriesRight | src/betree/BeTree.h:698-702 | the right half's list carries exactly the messages above the pivot, under the renumbered children |
| BeCascade.AfterChild | src/betree/BeTree.h:596-719 | serving one child keeps the whole state of the cascade: consistent tree, ready entries and tasks, free pivots |
| BeTraversal.BeginServing | src/betree/BeTree.h:1059-1062 | the first entry's node can be handled: its children are untouched and it lies at the front level |
| BeTraversal.EndServing | src/betree/BeTree.h:720-727 | inserting the new pivots releases the node, with the pivots within capacity |
| BeTraversal.ReleaseTask | src/betree/BeTree.h:728-793 | carrying out one leaf task keeps the view from the root and leaves the others ready |
| BeTraversal.NextLevel | src/betree/BeTree.h:1057-1063 | when the front of the queue is used up, the rest lies exactly one level lower |
| BeRoot.RootTakes | src/betree/BeTree.h:798-845 | a message newer than everything told about its key acts on the view from the root |
| BeRoot.RootRoutes | src/betree/BeTree.h:834-841 | the root's lower bound finds the child that answers for the key |
| BeRootUpsert.RootLeafSplit | src/betree/BeTree.h:851-882 | the split of a full leaf below the root and the insertion leave the tree whole, with the message told |
| BeRootUpsert.RootInnerKeeps | src/betree/BeTree.h:966-994 | a child that stores the message in its buffer leaves the tree whole, with the message told |
| BeRootUpsert.BufferSquashed | src/betree/BeTree.h:966-978 | squashing in place is merging the message into the buffer |
| BeRootUpsert.BufferInserted | src/betree/BeTree.h:979-994 | inserting at the lower bound is merging the message into the buffer |
| BeRootUpsert.RootInnerFlush | src/betree/BeTree.h:1048-1056 | a child that passes messages on starts a cascade that is in order |
| BeRootUpsert.RootInnerSplit | src/betree/BeTree.h:1000-1047 | a child that splits and passes messages on starts a cascade that is in order, from both halves |
| BeRootLeaf.RootLeafFull | src/betree/BeTree.h:1125-1161 | a full lone leaf splits below a new root node and takes the message, leaving the tree whole |
| RootChunks.SplitRootInPlace | src/betree/BeTree.h:372-409 | the in-place compaction moves out exactly the planned chunks and separators: no entry is overwritten before it has been read |
| RootChunks.CutReadsBack | src/betree/BeTree.h:377-406 | read left to right the new level is the old root, or lacks exactly its last pivot and child when the pivot count is a multiple of the step |
| RootChunks.NothingDroppedIff | src/betree/BeTree.h:377-406 | the split preserves the root if and only if its number of pivots is not a multiple of INNER_N/2 + 1 |
| RootChunks.LastChildDropped | src/betree/BeTree.h:377-406 | any full root of nine pivots above inner nodes with five loses its last pivot and its last child |
| RootChunks.OddChunksDropNothing | src/betree/BeNode.h:150-154 | with an odd number of pivots, as ROOT_N always is, and an odd INNER_N/2, as for INNER_N equal to 3, the split preserves the root |
| RootChunks.ChunksShape | src/betree/BeTree.h:374-394 | every new child is small and well-formed, and there is one separator less than there are children |
| BeRootSplit.RootCut | src/betree/BeTree.h:368-410 | a root split that drops nothing leaves the tree whole and its view unchanged |
| InsertPivots.InsertInPlace | src/betree/BeTree.h:413-454 | one backward pass of shifted moves leaves the arrays that inserting the pairs one at a time leaves, and nothing behind them changes |
| InsertPivots.PlaceOne | src/betree/BeTree.h:440-450 | one block move across the gap inserts one element and leaves the gap one slot smaller |
| InsertPivots.KidsInserted | src/betree/BeTree.h:413-454 | after the insertion every child lies between its pivots, if each new key lies in the range of its child |
| InsertPivots.NewKeysRise | src/betree/BeTree.h:419-429 | the new pivots, sorted by the index of their child, have strictly rising keys, as the second sorting assertion says |
| InsertPivots.SortByIndex | src/betree/BeTree.h:720-724 | the new pivots in the order of their children, none lost |
| Kids.KidsSorted | src/betree/BeTree.h:430-454 | a node whose children answer for adjacent ranges has strictly sorted pivots inside its own range |
| Kids.KidsSplit | src/betree/BeTree.h:331-348 | the two nodes of a split inner node list the children of their halves, each between its pivots |
| Kids.RouteIs | src/betree/BeTree.h:835-838 | a key is routed by lower_bound to the one child that answers for it |
| Labels.MessageAtRoot | src/betree/BeTree.h:1185-1202 | a message taken in at the root changes the view of its key as the message says and of no other |
| Labels.MoveDown | src/betree/BeTree.h:657-717 | moving messages to a child, over those waiting there, changes nobody's view from above |
| Labels.ApplyToLeaf | src/betree/BeTree.h:729-787 | applying a leaf's waiting messages changes nobody's view |
| Labels.SplitPage | src/betree/BeTree.h:300-365 | splitting a page changes nobody's view from above |
| Labels.GrowLevel | src/betree/BeTree.h:1133-1149 | a new level below the root changes nothing in the view from the root |
| BTrees.BTree.Run | src/btree/BTree.h:463-572 | any run of insert, update and erase leaves the tree denoting exactly what the same run leaves of a plain map, and, whatever the run, the buffer keeps every page as the run leaves it |
| BTrees.BTree.Insert | src/btree/BTree.h:463-478 | afterwards the key denotes the value; every other key denotes what it did; the exclusive retry always completes; a node that was not full has lost no key, pivot or child, and none grows by more than one; every changed and created page is kept, and none is marked as dirty that has not changed |
| BTrees.BTree.Update | src/btree/BTree.h:481-521 | adds to the value of a present key, does nothing for an absent one; every other key denotes what it did; the changed leaf is kept, and no page is marked as dirty but a leaf with the key |
| BTrees.BTree.Erase | src/btree/BTree.h:524-572 | afterwards the key denotes nothing; every other key denotes what it did; the changed leaf is kept, and no page is marked as dirty that has not changed |
| BTrees.BTree.Find | src/btree/BTree.h:575-606 | returns exactly what the tree denotes |
| BTrees.BTree.InsertTraversal | src/btree/BTree.h:179-319 | an optimistic attempt gives up, changing nothing, exactly if the key's leaf is full; an exclusive one is called on a node with a free pivot, always completes, splits only full nodes, touches no page above, and releases a page as dirty if and only if it has changed, its start excepted |
| BTrees.BTree.InsertIntoLeaf | src/btree/BTree.h:199-293 | the leaf, or the half that gets the key, takes it although the position is read through an iterator into the leaf as it was before the split; only a full leaf splits; the flags split and dirtyParent keep every change |
| BTrees.BTree.SplitFullLeaf | src/btree/BTree.h:214-242 | a full leaf splits below its parent; parent and the other half are released as dirty, and the half that gets the key, which has room, stays pinned |
| BTrees.BTree.InsertAtPosition | src/btree/BTree.h:250-278 | the leaf takes the key; it is released as dirty exactly if it did not have the key with this value, or has just split, so that the split is kept |
| BTrees.BTree.SplitFullInner | src/btree/BTree.h:286-312 | a full inner node splits below its parent; the half to be entered has a free pivot and is the only page not kept yet |
| BTrees.StaleHalves | src/btree/BTree.h:203-241 | the position found before the split still shows the same key at the adjusted index of the right half |
| BTrees.BTree.HandleRootInnerInsert | src/btree/BTree.h:322-373 | an exclusive attempt first splits a full root below a new one; an optimistic one gives up exactly if the key's leaf is full; only full nodes split, and every change is kept |
| BTrees.BTree.SplitFullRoot | src/btree/BTree.h:339-371 | the root's halves move below a new root without a change in its view; the half that is entered has a free pivot and is the only page not kept yet |
| BTrees.BTree.HandleRootLeafInsert | src/btree/BTree.h:376-460 | a lone leaf takes the key; a full one that lacks it, and only such a one, splits below a new root; all is kept |
| BTrees.BTree.SplitRootLeaf | src/btree/BTree.h:401-459 | the halves of the full lone leaf move below a new root, and the right one takes the key |
| BTrees.BTree.SplitFullRootLeaf | src/btree/BTree.h:403-431 | the halves of the full lone leaf move below a new root; the half that gets the key has room, shows the key at the adjusted position, and is the only page not kept yet |
| BTrees.BTree.SplitLeafNode | src/btree/BTree.h:130-151 | the left leaf keeps the pairs up to the middle key, the right one has half the size |
| BTrees.BTree.SplitInnerNode | src/btree/BTree.h:155-176 | the middle pivot moves up, what is above it moves to a new page, which gets half of the pivots |
| BPins.SplitThenRest | src/btree/BTree.h:281-319 | after a split below a parent the descent marks no page in vain: neither parent nor child can come to be as they were |
| BTrees.BTree.DescendToLeaf | src/btree/BTree.h:489-506 | the descent ends at the leaf that answers for the key |
| BTrees.BTree.StructureHolds | src/btree/BTree.h:130-460 | all leaves are at one depth, every node has strictly sorted pivots inside the key range that its parent leaves it and one child more, no page is listed twice, and the root by none |
| BStructure.ShapeHolds | src/btree/BTree.h:130-460 | key ranges, sorted nodes within capacity and equal leaf depth, from any page on down |
| BStructure.OneParent | src/btree/BTree.h:130-460 | no page is listed by two parents or twice by one, and the root by none |
| BStructure.StepThenRest | src/btree/BTree.h:179-319 | one step of the descent and the rest of it split only full nodes together, and change no page above the node they start at |
| BTrees.MeaningIsView | src/btree/BTree.h:575-606 | the recursive reading of the pages and the view a label carries agree on every key |
| BNodes.SplitLeafChild | src/btree/BTree.h:213-241 | a full leaf split below a parent with a free pivot leaves the tree and its view in order |
| BNodes.SplitInnerChild | src/btree/BTree.h:281-311 | a full inner node split below a parent with a free pivot leaves the tree and its view in order |
| BNodes.GrowRoot | src/btree/BTree.h:344-361 | moving the root's content below a new root changes nothing in the view from the root |
| BufferRuns.NothingLost | src/buffer/PageBuffer.h:105-376 | in every run of any number of threads, a page that is not resident is on disk as it was last written, although the table is unlocked during the save |
| BufferRuns.PinnedIsCurrent | src/buffer/PageBuffer.h:105-376 | in every run, what a client holds after pinPage is the page's current contents, in the slot bound to its id, skipped loads aside |
| BufferRuns.PinProtects | src/buffer/PageBuffer.h:105-376 | no step of any run evicts a page that another thread has pinned |
| BufferRuns.WritersExclude | src/buffer/PageBuffer.h:150-160 | two clients never hold one page at a time if one of them may write it |
| BufferRuns.ReadersShare | src/buffer/PageBuffer.h:150-160 | a thread that wants to read a page another one is reading gets it at once, and then both hold it |
| BufferRuns.LookUpsShare | src/buffer/PageBuffer.h:115-128 | a thread that asks for the table in shared mode gets it at once while others have it in shared mode |
| BufferRuns.Partition | src/buffer/PageBuffer.h:163-206 | free slots and table slots partition the N slots, and the table is injective |
| BufferRuns.DirtyFlags | src/buffer/PageBuffer.h:213-376 | what any step of any run does to a slot's dirty flag: unpinPage raises it exactly on request, the eviction clears it before it saves the page, a page that comes in is clean, and nothing else touches it |
| BufferRuns.DirtyWasUnpinned | src/buffer/PageBuffer.h:366-376 | in every run a resident page is marked as dirty only if somebody has unpinned that page as dirty before |
| BufferRuns.SavesAreDue | src/buffer/PageBuffer.h:213-239 | in every run the disk is only written for a page that somebody has unpinned as dirty before |
| BufferRuns.FallbackIsDead | src/buffer/PageBuffer.h:141-148 | in every run a resident id is in exactly one of the two queues, so the fallback insertion is dead code |
| BufferRuns.HitMovesPage | src/buffer/PageBuffer.h:125-161 | in every run, from the step that counts a pin to the step that settles it: a counter that was zero takes the page to the front of the LRU queue and to no other place if the table is locked exclusively, and makes the thread start again if not; a positive counter moves no entry |
| BufferRuns.QueuesFollow2Q | src/buffer/PageBuffer.h:105-360 | in every run table and queues change in three ways only: a resident page goes to the front of the LRU queue, a page comes in front of the FIFO queue in a free slot, or in the slot of the one page that leaves; all other entries keep their order |
| BufferRuns.PickedIsOldest | src/buffer/PageBuffer.h:207-216 | in every run the page a thread picks for eviction has been seen unpinned, and every entry behind it in its queue pinned, under one table lock; one of the LRU queue only after the whole FIFO queue has been seen pinned |
| BufferAlone.AloneIsSequential | src/buffer/PageBuffer.h:105-364 | from any state of the step system in which the other threads are outside or hold pages, the steps of one thread through pinPage lead to exactly the state of the sequential buffer: a hit, a load, a 2Q eviction with the victim written if dirty, or "Buffer is full!" if and only if the page is absent and all slots are pinned |
| BufferAlone.ScanAlone | src/buffer/PageBuffer.h:207-363 | an undisturbed scan ends at the victim of the 2Q policy, or finds that there is none |
| BufferAlone.CleanAlone | src/buffer/PageBuffer.h:213-239 | an undisturbed eviction writes the victim if and only if it is dirty, and has the table locked exclusively afterwards |
| BufferRuns.GuardIsEnough | src/buffer/PageBuffer.h:105-376 | in every reachable state the code's assertions hold: a free slot when one is needed, positive counters, indices in range, page locks marked instant really free |
| BufferRuns.FullBlocksTable | src/buffer/PageBuffer.h:361-363 | a thread that raised "Buffer is full!" keeps the table locked, so that nobody can lock it exclusively any more: neither a thread that looks a page up for writing the table nor one that comes back from saving a victim |
| BufferRuns.FullHasSeen | src/buffer/PageBuffer.h:207-363 | a thread that raised "Buffer is full!" found its id absent and the table full, and every slot was pinned at some moment since it took the table lock, in any interleaving |
| BufferRuns.PinnedScanIsFull | src/buffer/PageBuffer.h:207-363 | a scan that starts while every queued page is pinned, and is not disturbed, raises "Buffer is full!" |
| BufferRuns.TableFrozen | src/buffer/PageBuffer.h:105-376 | while a thread holds the table lock in either mode, no step of another thread changes table or queues |
| BufferRuns.RunsKeepInv | src/buffer/PageBuffer.h:105-376 | the invariant holds in every state of every run |
| BufferSafety.StepHolds | src/buffer/PageBuffer.h:105-376 | every step of every thread keeps the invariant |
| BufferSafety.TakeOverHolds | src/buffer/PageBuffer.h:240-251 | when the slot changes hands the page is clean, otherwise unpinned, still queued, and on disk as last written, although pins and dirty flag were read in separate steps |
| BufferSafety.SoleThread | src/buffer/PageBuffer.h:240-242 | a thread that finds its pick still evictable, with a counter of one, has the only pin of the page and the only lock of the table |
| BufferSafety.SaveHolds | src/buffer/PageBuffer.h:215-230 | writing the victim while the table is unlocked keeps the invariant |
| BufferSafety.SettleHolds | src/buffer/PageBuffer.h:128-149 | settling a hit keeps the invariant: the queues change only under the exclusive table lock, and a first pin under a shared one is undone |
| BufferSafety.TakeFreeHolds | src/buffer/PageBuffer.h:163-187 | binding a free slot keeps the invariant |
| BufferSafety.OnlyPinner | src/buffer/PageBuffer.h:240-242 | a counter of one that includes the thread's own pin leaves no other pinner |
| PageBuffers.PageBuffer.PinPage | src/buffer/PageBuffer.h:105-364 | used by one thread: it terminates, raises "full" exactly if the id is absent and all N slots are pinned, and otherwise leaves the whole state as stated: after a hit one more pin, a first one taking the page to the front of the LRU queue with all other entries in order; after a load the page in front of the FIFO queue in a slot that was free; after an eviction in that of the 2Q victim, which is on disk if it was dirty |
| PageBuffers.PageBuffer.PinResident | src/buffer/PageBuffer.h:125-161 | a hit gives the page one more pin; its first pin moves it from either queue to the front of the LRU queue, and no other entry moves |
| PageBuffers.PageBuffer.LoadIntoFreeSlot | src/buffer/PageBuffer.h:163-206 | a free slot is bound, queued in FIFO order and loaded unless the load is skipped |
| PageBuffers.PageBuffer.MakeRoom | src/buffer/PageBuffer.h:207-360 | the victim is the oldest unpinned page of the FIFO queue, or of the LRU queue if the FIFO queue has none; none exactly if all slots are pinned |
| PageBuffers.PageBuffer.EvictAndLoad | src/buffer/PageBuffer.h:213-275 | the victim is written back if dirty, and the slot changes hands; used by one thread the re-validation never fails |
| PageBuffers.PageBuffer.FindOne | src/buffer/PageBuffer.h:209-211 | the last unpinned entry of a queue, or none if all are pinned |
| PageBuffers.PageBuffer.MoveInQueues | src/buffer/PageBuffer.h:141-148 | the page is in front of the LRU queue and no longer in the FIFO queue; all other entries of both keep their order |
| PageBuffers.PageBuffer.UnpinPage | src/buffer/PageBuffer.h:367-376 | one pin less, dirty if asked to; the buffer still agrees with the store |
| PageBuffers.PageBuffer.WritePage | src/buffer/PageBuffer.h:24-33 | what the client writes becomes the page's current contents, owed to the store until it is unpinned as dirty |
| PageBuffers.PageBuffer.Flush | src/buffer/PageBuffer.h:384-392 | afterwards the store holds every page as it was last unpinned, and exactly the dirty pages have been written |
| PageBuffers.QueuesCoverSlots | src/buffer/PageBuffer.h:207-362 | with a full table, both queues have no unpinned entry exactly if every slot is pinned |
| Queues.Queue.Insert | src/buffer/queue/Queue.h:55-59 | the entry comes in front; list and index map stay in step if and only if the key is new |
| Queues.Queue.Remove | src/buffer/queue/Queue.h:62-68 | takes out the entry of the key wherever it stands and keeps the order of the others; there is a result exactly for a key in the queue |
| Queues.Queue.FindOne | src/buffer/queue/Queue.h:71-82 | the oldest entry the predicate accepts, or none if it accepts none |
| Queues.Queue.Contains | src/buffer/queue/Queue.h:85-87 | true exactly if the list has the key |
| Queues.Queue.FindFifo | src/buffer/queue/FIFOQueue.h:21-26 | finds the key's entry and leaves the order as it is; raises exactly if the key is absent |
| Queues.Queue.FindLru | src/buffer/queue/LRUQueue.h:21-31 | finds the key's entry and, if asked to, moves that entry and no other to the front |
| Queues.RemovedKeys | src/buffer/queue/Queue.h:62-68 | removing leaves exactly the other entries, each key still once |
| Queues.MovedKeys | src/buffer/queue/LRUQueue.h:26-29 | moving to the front keeps all entries, each key still once |
| Queues.MovesKeepOthers | src/buffer/queue/LRUQueue.h:21-31 | removing an entry leaves the others in their order, moving it to the front leaves them behind it in their order |
| Queues.IndexedKeys | src/buffer/queue/Queue.h:55-87 | an index map in step with the list points every key to the position of its only entry |
| Segments.Segment.CreateBlock | src/file/Segment.h:137-159 | hands out the most recently deleted block, or else the next one never used, which was not live and becomes so; raises an error exactly if no block is free; writes no block |
| Segments.Segment.DeleteBlock | src/file/Segment.h:162-173 | for any number: head, stored pointers and count thread some chain without repetition if and only if the block was live; then exactly that block stops being live and no other block changes |
| Segments.NoChainAfterwards | src/file/Segment.h:162-173 | after the deletion of a block that was not live no chain at all fits head, stored pointers and count |
| Segments.Segment.WriteBlock | src/file/Segment.h:185-189 | for any number: overwrites that block and no other; the free list stays in order exactly if the block is not in it, is last in it, or gets the pointer it had, as every live block does |
| Segments.Segment.ReadBlock | src/file/Segment.h:176-182 | reads the block as last written |
| Segments.Segment.FreeBlocksCount | src/file/Segment.h:127-129 | freeBlocks lies between zero and the allocation, and is zero exactly if every block is live |
| Segments.Segment.BlocksDisjoint | src/file/Segment.h:185-189 | different blocks occupy disjoint bytes inside the segment |
| Segments.ChainUnique | src/file/Segment.h:137-150 | head, stored pointers and length determine the free list |
| Segments.ChainSize | src/file/Segment.h:127-129 | a free list never has more blocks than were handed out, and all of them if as many |
| SegmentManagers.SegmentManager.CreateBlock | src/file/SegmentManager.h:115-174 | never hands out a live block, makes exactly it live, and adds a segment exactly if no segment has a free block; writes no block of any segment; within 16 and 48 bits the id names that block and is the id of no other live block |
| SegmentManagers.SegmentManager.CreateIn | src/file/SegmentManager.h:155-173 | takes a block of a free segment, which leaves the free set exactly with its last block, and writes none |
| SegmentManagers.SegmentManager.AddSegment | src/file/SegmentManager.h:118-148 | a segment follows the last one, with as many blocks as that one times the growth factor, but at least ten, and is free |
| SegmentManagers.SegmentManager.DeleteBlock | src/file/SegmentManager.h:177-196 | refuses exactly the ids without a segment; otherwise the lists stay in order if and only if the block was live, and then exactly it stops being live and no other block changes |
| SegmentManagers.SegmentManager.WriteBlock | src/file/SegmentManager.h:222-241 | refuses exactly the ids without a segment; changes exactly the named block, whichever it is; the lists stay in order exactly if that block of its segment keeps its pointer, as every live block does |
| SegmentManagers.SegmentManager.ReadBlock | src/file/SegmentManager.h:199-219 | reads exactly the named block |
| BlockStores.Run | src/file/SegmentManager.h:115-241 | any run of creations, deletions, writes and reads on a new file gets the replies of a plain list of blocks, for any growth factor, until one more segment would be beyond the 2^16 that ids can name or have more than 2^48 blocks |
| BlockStores.Perform | src/file/SegmentManager.h:115-241 | one request keeps every other block in place under its own id, with what was last written to it, and answers a read with it |
| BlockStores.CreateNew | src/file/SegmentManager.h:115-174 | a creation leaves every block in use as it is and gives an id that no block in use has |
| SegmentManagers.SegmentsDisjoint | src/file/SegmentManager.h:126-130 | no two segments overlap in the file |
| SegmentManagers.SegmentsGrow | src/file/SegmentManager.h:124 | segments grow, each larger than the one before, if and only if the growth factor is at least 1.1; below that all have ten blocks |
| SegmentManagers.NextSegment | src/file/SegmentManager.h:124-130 | the next segment starts where the last block of a segment ends |
| SegmentManagers.OffsetIs | src/file/SegmentManager.h:124-144 | where a block lies in the file, in blocks: behind the header of the file, the segments before its own with their headers, its own header, and the blocks before it |
| SegmentManagers.BlocksDisjoint | src/file/SegmentManager.h:126-142 | no two blocks overlap in the file, whichever segments they are in |
| BlockIds.UnpackPackIff | src/file/SegmentManager.h:105-112 | an id unpacks to the segment and block it was packed from if and only if the block number fits 48 bits (segment number within 16) |
| BlockIds.PackInjective | src/file/SegmentManager.h:153-173 | different blocks get different ids |
| BlockIds.BlockOverflow | src/file/SegmentManager.h:153-173 | a block number of 2^48 in segment 0 names block 0 of segment 1 |
| ThreadsFence.NobodyLeavesEarly | UCSB/src/core/threads_fence.hpp:17-32 | in no run of any number of threads and rounds has a thread passed its wait of a round that another thread has not entered |
| ThreadsFence.LateResetIsHarmless | UCSB/src/core/threads_fence.hpp:24-31 | a thread still about to reset when the next round has begun writes neither counter |
| ThreadsFence.SomebodyCanMove | UCSB/src/core/threads_fence.hpp:17-32 | in every reachable state some thread can take a step |
| ThreadsFence.RunsKeepInv | UCSB/src/core/threads_fence.hpp:17-32 | the invariant on counters, rounds and the pending reset holds in every state of every run |
| ThreadsFence.StepHolds | UCSB/src/core/threads_fence.hpp:17-32 | every step of every thread keeps the invariant |
| ThreadsFence.NextGeneration | UCSB/src/core/threads_fence.hpp:24-31 | the reset that opens the next round finds every thread released and both counters at zero afterwards |

## Left out

- BeTrees.BeTree.HandleTraversalNode: pages are values in a map and nodes are updated as values; that the source's shifts inside a node's arrays compute the same is proved separately, array by array. It holds with the assertion on the slot behind a leaf's keys compiled out (LeafArrays.UpsertInPlace says when that one fails).
- BeTrees.BeTree.ApplyMessage: a leaf's keys and values are sequences without the slots behind them, so the assertion that reads such a slot is compiled out; LeafArrays.UpsertInPlace has it.
- Views.CreatePage: any id not in use; the trees' model does not run on the modelled page buffer, so waiting for page locks is not part of the tree proofs, and of pinning and eviction only what PinnedPages.dfy has: exclusive pins, the dirty flags of all unpins after a change, and what is kept of each page. Shared pins, under which nothing is written, and the pins of find are not listed.
- BeTrees.BeTree.Run: one thread; several threads inside the trees at once are left out, because a page's kind is read before the page is locked. It holds with the assertion on the slot behind a leaf's keys compiled out: with it, a run may stop in a flush that inserts a leaf's deleted largest key again. For a run with an insertion that repeats a value, Durable() is only decided operation by operation (Insert).
- BTrees.BTree.Run: one thread, as above.
- BufferRuns.PinnedIsCurrent: holds for clients that keep the two rules above; a page pinned with skipLoad and not written yet is exempt.
- BufferRuns.PinProtects: the page lock is released in the mode it was taken in, although unpinPage calls the exclusive unlock in both modes.
- BufferRuns.GuardIsEnough: safety only; that a waiting thread gets its lock at last is not stated, since an evictor waits for a page lock while it holds the table lock.
- PageBuffers.PageBuffer.PinPage: the queues are fields holding sequences, whose list and index map are the class in Queues.dfy; the retry after a lost upgrade of the table lock takes one round.
- Queues.Queue.Remove: nothing is promised for an absent key, for which the source erases a default-constructed iterator; its callers only remove keys that are in the queue.
- SegmentManagers.SegmentManager.CreateBlock: one thread; the hand-over from the manager's lock to the segment's is left out, and the product of a segment's size and the growth factor is taken in real numbers, then rounded down.
- SegmentManagers.SegmentManager.DeleteBlock: for a block number beyond its segment, which is never handed out, the bytes behind the segment that are overwritten are not modelled.
- SegmentManagers.SegmentManager.WriteBlock: as above for a block number beyond its segment.
- SegmentManagers.SegmentManager.ReadBlock: reading a block that is not live, which returns whatever is there, is left out.
- BlockStores.Run: requests for blocks that are not in use are left out, since the source does not check them; when one more segment would be beyond 2^16 segments or 2^48 blocks, ids are no longer unique, and the run ends.
- Segments.Segment.CreateBlock: the disk is a sequence of blocks with all reads and writes succeeding.
- ThreadsFence.NobodyLeavesEarly: compare-exchange is strong; a spurious failure of the weak form is left out.
- Messages.SquashActsInOrder: two messages for one key have different time stamps, and time stamps are unbounded, so their 64-bit wrap-around is left out, as is the message type INVALID, which nothing creates.
- MergeUpserts.MergeUpserts: returns its output as a new sequence; where the source writes it over the node's buffer it reads from a copy.
- Opening an existing file, saving headers, and I/O errors: plumbing.
- Byte layout, alignment and the computation of the node sizes: floating point and memory layout.
- Graph output, main programs, explicit instantiations, OptimalPageBuffer, the other parts of UCSB and the vendored libraries: no behaviour of the store.
