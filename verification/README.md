# Verified models of the node's core

This project models the parts of the node that carry its hardest promises, and proves those promises for
every input, every schedule and every run:

- **Block queue.** Blocks move between unknown, ready (unverified, verifying, verified), draining and bad
  while verifier threads finish out of order. Every critical section is one step of a state machine
  (`QueueState`); what a purge takes out is proved for every state (`QueuePurge`), the invariant over all
  interleavings (`QueueSafety`, `QueueUpdateBad`, `QueueRuns`), what is left of it where the code's own
  removal goes wrong (`QueueAllRuns`, `QueueOrphans`), what becomes of accepted blocks (`QueueConservation`),
  when each answer of an import is given and what it lets in (`QueueImports`), what the verifiers do and when
  they come to a standstill (`QueueVerifiers`), and class `Queue` (`BlockQueue`) carries the loops over the
  queues, sets and worklists.
- **Chain import and fork switch.** The block tree and `treeRoute` (`BlockTree`), the two-level bloom index
  (`BloomIndex`), `insertBlockAndExtras` with its roll-back and its caches (`ForkSwitch`), whole runs of
  imports (`ForkRuns`), what becomes of irreversible blocks over them (`ForkIrreversible` for the check in
  `treeRoute`, `ForkCommitted` for the undo history behind it), and the threaded transaction check
  (`ParallelVerify`). LevelDB is a map; the producer is a log that accepts or refuses a block depending on the
  log alone, and can be truncated.
- **RLP** (Appendix B of the Ethereum Yellow Paper): the recursive code and its inverse (`Rlp`, on
  `BigEndian`), the code byte by byte (`RlpForm`), the back-patching stream (`RlpStream`), cached indexing and
  iteration (`RlpView`).
- **Patricia tree and hex-prefix code** (Appendices C and D): the tree over an ordered map (`Trie`), the
  three encoders (`HexPrefix`), nodes as bytes and the root (`TrieRoot`), how nodes are mentioned and read
  back (`TrieForm`), the construction that writes straight into an RLP stream (`TrieHash`), ordered roots
  (`OrderedTrie`). `sha3` is a parameter.
- **RangeMask**: sets of integers as disjoint intervals.
- **Sealing and replay** of a block (`Sealing` on values, `SealingForm` for what each header field is,
  `BlockState` for the object). Transaction execution and the root functions are parameters; committing the
  state trie is the identity on its content.
- **Ethash** (Appendix J): light and full evaluation, over words as numbers below 2^32 (`Words`). The Keccak
  functions are parameters; words are little-endian, so the endian fixes are identities.

The source changes most of this step by step, so objects are classes whose methods are tied to
functions on values (`Abs() == Step(old(Abs()), …)`), and the theorems are about those functions.

## Where the code departs from its documentation or its own invariants

Each is proved with the exact condition under which the promise does hold.

- `SizedBlockQueue::removeIf` (libethereum/BlockQueue.h, lines 117-123) does not return the removed elements
  but whatever `std::remove_if` leaves behind the new end. `updateBad` takes them for the removed ones, so a
  removal whose victims are not at the end of the queue leaves a hash in the ready set that is in no queue
  (`RemoveIfExact`, `StepExact`, `TheCodeLosesABlock`). `Removal` names the two behaviours: `Shifting` is the code, `Partitioning` what
  its callers expect. For `Partitioning` the invariant is proved over all runs (`PartitioningIsSafe`), for
  `Shifting` along runs whose removals are clean (`RunsAreSafe`). Over all other runs of the code everything
  about the sets and the order still holds but for such stray ready hashes (`AllRunsSettle`, `InvExact`), and
  every `updateBad` takes exactly the doomed entries and the children of bad blocks (`UpdateBadExact`). A stray
  is never taken in again (`StraysForever`). A verified block has a bad parent only after the verifier of a
  stray block failed (`StepGoodExact`, `TheCodeKeepsAnOrphan`). A drained batch is parents-first exactly if no
  block in it is the child of a stray or bad block outside the chain (`BatchExact`, `TheCodeDrainsAnOrphan`),
  and a verifier that takes a block between two reports can change what is lost (`TakeCanMakeADifference`).
- `updateBad` takes slots out of the verifying queue without moving finished ones on. If a finished slot is
  first afterwards, nothing joins the verified queue any more, whatever is imported and verified, until a
  verifier fails or another purge takes the slot out (`StallForever`). Nothing but a purge brings this about
  (`StallBegins`), and the code can come to it (`TheCodeStalls`).
- The third component of `treeRoute` is not the position of the common ancestor when the target is an
  ancestor or only the first half is asked for (`IndexExact`); the code's own caller works around it.
- `withBlockBloom` looks at one top-level chunk too many unless `latest` is a multiple of 256, and finds
  next to nothing when rounding up wraps (`ReachExact`, `ReachWraps`).
- The second cache clear of a fork switch wipes the in-memory blooms of the new branch up to the old head's
  height (`WipedIsComplete`), and a later roll-back fills wiped entries in again. Which entries are filled is
  said for every outcome (`Insert`) and every run (`ImportAll`), and when queries are complete (`CompleteExact`).
- The irreversible number that `treeRoute` checks against is read from the producer's database, which a fork
  switch rewinds. So the check alone protects irreversible blocks over whole runs if and only if no accepted
  switch lowers the number (`IrreversibleExact`, with a run past an irreversible block in `IrreversibleLost`).
  The database commits its undo history up to that number, and `databaseReversion`
  (libproducer/chain_controller.cpp, lines 744-753) never ends below what was committed (libproducer/chainbase.hpp,
  lines 313-314 and 451-457): imports that return never take out a block that was irreversible
  (`OnceIrreversible`), but imports can fail to return (`LostRunStalls`; exactly when, in `NeverStuckExact`).
- `queryExtras` (libethereum/BlockChain.h, lines 356-375) is not atomic: a reader that took a hash from the
  database before the switch and caches it after the second clear leaves a stale entry, exactly for heights
  above the ancestor (`StaleReadExact`).
- After the threads of `verifyBlock` are joined, the exception is rethrown outside any handler; the two
  variants of the code end alike exactly when no transaction is bad (`VerdictsAgree`), and name the same
  transaction exactly when one is bad (`ReportExact`).
- `bytesRequired` counts in 32 bits, so integers of 2^32 bytes or more cannot be appended (`BytesRequired`,
  `AppendInt`); `RLP::toInt` has the same limit (`IntRoundTrip`).
- `RangeMask::lowest` computes in 32 bits and misses elements exactly when a visited interval overflows
  (`LowestExact`); `next` of the greatest number starts over; `-=` with a wider mask adds the widening, and
  `r -= r` leaves `r` as it is instead of empty (`SubtractMask`, with the exact condition).
- `Block::enact` does not compare a state root that equals the parent's (`StateRootExact`,
  `WrongRootAccepted`); a copied committed block is rewarded twice (`CopyRewardsAgain`), once more
  for each copy taken while committed (`RewardsCounted`).

## Model

| member | source | states |
|---|---|---|
| `QueueRuns.RunsAreSafe` | libethereum/BlockQueue.cpp:93-532 | in every run and interleaving of import, dequeue, fail, finish, drain and doneDrain (stale jobs included) whose removals are clean: the three queues hold distinct hashes and exactly the ready set; ready, draining, unknown, bad and chain are disjoint; the unknown set is the multimap's; parents come first; enqueue order is kept; no verified block has a bad parent |
| `QueueRuns.StepInv` | libethereum/BlockQueue.cpp:93-532 | every single critical section whose removals are clean keeps that invariant |
| `QueueOrphans.BatchExact` | libethereum/BlockQueue.cpp:471-496 | as coded, in every state of every run: a drained batch has distinct blocks, and each has its parent in the chain or earlier in the batch if and only if no parent is a stray or bad hash outside the chain |
| `QueueOrphans.TheCodeDrainsAnOrphan` | libethereum/BlockQueue.cpp:471-496 | a reachable state whose drained batch holds a block with its parent neither in the chain nor in the batch |
| `QueueAllRuns.PartitioningBatches` | libethereum/BlockQueue.cpp:471-496 | with a `removeIf` that returns what it removes, every batch of every run has distinct blocks, parents first |
| `QueueRuns.PartitioningEventsAreClean` | libethereum/BlockQueue.cpp:291-339 | with a `removeIf` that returns what it removes, every event is clean |
| `QueueRuns.StepExact` | libethereum/BlockQueue.cpp:291-372 | as coded, an event keeps "ready set = hashes in the queues" if and only if each `removeIf` it issues finds its victims at the end |
| `QueueRuns.TheCodeLosesABlock` | libethereum/BlockQueue.cpp:291-372 | a reachable state and a report after which a ready hash is in no queue |
| `QueueRuns.DrainVerifiedInv` | libethereum/BlockQueue.cpp:172-185 | moving finished slots over, with bad-parent slots turned bad, keeps the invariant |
| `QueueRuns.TakeInv` | libethereum/BlockQueue.cpp:93-110 | handing a block to a verifier keeps the invariant |
| `QueueRuns.FailInv` | libethereum/BlockQueue.cpp:124-136 | a failed verification keeps the invariant, also when its slot was removed meanwhile |
| `QueueRuns.FinishInv` | libethereum/BlockQueue.cpp:138-170 | a finished verification keeps the invariant, whatever its place in line, also when its slot was removed |
| `QueueRuns.ImportInv` | libethereum/BlockQueue.cpp:187-289 | every outcome of an import keeps the invariant; for a bad chain, if the removals it causes are clean |
| `QueueRuns.DrainInv` | libethereum/BlockQueue.cpp:471-496 | draining keeps the invariant |
| `QueueRuns.DoneDrainInv` | libethereum/BlockQueue.cpp:357-372 | the importer's report keeps the invariant, if the removals it causes are clean |
| `QueueConservation.NothingIsLost` | libethereum/BlockQueue.cpp:93-532 | as coded, over every run: a block that was queued, waiting, drained, known bad or stray still is one of these, and no stray where the invariant holds |
| `QueueConservation.ImportTraces` | libethereum/BlockQueue.cpp:187-289 | as coded: a block answered with success, unknown parent or bad chain is one of these from then on, and an import loses none of the others |
| `QueueConservation.StraysForever` | libethereum/BlockQueue.cpp:187-372 | over every run a stray stays a stray until it turns bad, and every later import of it is answered as already known |
| `QueueImports.AnswerExact` | libethereum/BlockQueue.cpp:187-289 | for each of the nine answers, exactly when it is given, told by the four sets before the call and by what the chain and the clock say; the six refusals leave the queue as it was |
| `QueueImports.LetInExact` | libethereum/BlockQueue.cpp:187-289 | in every state of every run: an accepted block joins the end of the line, followed by exactly the blocks that waited for it or for one of these, parents first, and all of them are ready; a block without a known parent waits |
| `QueueImports.OnlyCheckedBlocks` | libethereum/BlockQueue.cpp:187-289 | over every run: a block that waits, stands in line, is verified or was drained came in by an import that found it well-formed, not in the chain, not below the irreversible block and not ahead of time |
| `QueueImports.DrainForm` | libethereum/BlockQueue.cpp:471-496 | a batch is the oldest verified blocks, as many as asked for or as there are, and none while another is draining; they leave the ready set for the draining one and nothing else changes |
| `QueueImports.DoneDrainForm` | libethereum/BlockQueue.cpp:357-372 | nothing is draining any more and every reported block is bad |
| `QueueConservation.DrainVerifiedExact` | libethereum/BlockQueue.cpp:172-185 | as coded, in every state of every run: exactly the finished slots at the front leave, the next one is unfinished; the verified queue is extended by those of them whose parent is not bad, in their order, and the bad set by exactly the others |
| `QueueAllRuns.PartitioningIsSafe` | libethereum/BlockQueue.cpp:93-532 | with a `removeIf` that returns what it removes, the invariant holds over every run |
| `QueueAllRuns.AllRunsSettle` | libethereum/BlockQueue.cpp:93-532 | as coded, over every run: the queues hold distinct ready hashes, parents first, in the order of arrival; ready, draining, unknown and bad are disjoint and disjoint from the chain (but for uncle hashes taken for block hashes); the unknown set is the multimap's and jobs match their slots: the one thing lost is that every ready hash is in a queue |
| `QueueAllRuns.StepSettled` | libethereum/BlockQueue.cpp:93-532 | every single event keeps that, as coded and without any condition on its removals |
| `QueueOrphans.InvExact` | libethereum/BlockQueue.cpp:93-532 | the full invariant holds if and only if this does and there is no stray, no verified block with a bad parent and no uncle hash among the bad |
| `QueueOrphans.StepGoodExact` | libethereum/BlockQueue.cpp:93-532 | as coded, in every such state: an event leaves no verified block with a bad parent if and only if it is not the failure of a block with a verified child |
| `QueueOrphans.FailExact` | libethereum/BlockQueue.cpp:124-136 | the same for a failed verification; only a block whose slot is gone can have a verified child |
| `QueueOrphans.TheCodeKeepsAnOrphan` | libethereum/BlockQueue.cpp:124-136 | a reachable state and a failure after which a verified block has a bad parent |
| `QueueAllRuns.NothingIsForgotten` | libethereum/BlockQueue.cpp:93-532 | as coded, over every run: a hash once ready, draining, waiting, bad or in the chain stays one of these |
| `QueueAllRuns.ReportsTakingSettle` | libethereum/BlockQueue.cpp:357-372 | the same for the reports of a doneDrain when verifiers take blocks between two of them, where the lock is released |
| `QueueAllRuns.TakeMakesNoDifference` | libethereum/BlockQueue.cpp:357-372 | where the removals are clean either way, a block taken before a report or after it: the same line, ready set, bad set and waiting blocks |
| `QueueOrphans.TakeCanMakeADifference` | libethereum/BlockQueue.cpp:291-372 | as coded, a reachable state in which a report loses a block, and loses none if a verifier takes the block first |
| `QueueInvariant.HarvestExact` | libethereum/BlockQueue.cpp:341-355 | the worklist over the unknown multimap takes exactly the descendants: the least set closed under children |
| `QueueInvariant.HarvestPartition` | libethereum/BlockQueue.cpp:510-532 | what is taken and what stays are disjoint and together the multimap |
| `QueueSafety.RemoveIfExact` | libethereum/BlockQueue.cpp:297-337 | `removeIf`, as the purge loop uses it: the returned elements are the removed ones if and only if those stood at the end |
| `QueueUpdateBad.UpdateBadExact` | libethereum/BlockQueue.cpp:291-355 | in every state and as coded: afterwards no queued block has a bad parent, exactly the entries doomed by the bad set left the queues, in order, and, if none waited for a bad block before, exactly the children of bad blocks stopped waiting; where the invariant held and the removals are clean, the bad set is the least one closed under children |
| `QueueUpdateBad.UpdateAllExact` | libethereum/BlockQueue.cpp:357-372 | the same for a list of reported blocks |
| `QueueAllRuns.UpdateExactAsCoded` | libethereum/BlockQueue.cpp:291-355 | as coded, in every state of every run: exactly the doomed entries left the queues, and exactly the children of bad blocks, which are exactly the blocks now bad, stopped waiting |
| `QueueAllRuns.BadChainExact` | libethereum/BlockQueue.cpp:187-289 | the same for an import on a bad chain |
| `QueueAllRuns.DoneDrainExact` | libethereum/BlockQueue.cpp:357-372 | the same for the reports of a doneDrain |
| `QueuePurge.LoopLeavesNoBadParent` | libethereum/BlockQueue.cpp:297-337 | the purge loop, in every state and with either removal, ends with no queued block whose parent is bad |
| `QueuePurge.DoneDrainLeavesNoBadParent` | libethereum/BlockQueue.cpp:357-372 | so does the importer's report of any bad block, in every state |
| `QueuePurge.LeftForm` | libethereum/BlockQueue.cpp:297-337 | which entries a purge leaves: those without a bad parent or bad hash, a finished verifying slot being judged by its uncle hash instead of its own |
| `QueuePurge.PurgeMarks` | libethereum/BlockQueue.cpp:297-337 | as coded, one removal marks all that stands from the number of kept entries on, by block hash or by the uncle hash of a moved-from slot, and else only blocks that were waiting |
| `QueueVerifiers.FailForm` | libethereum/BlockQueue.cpp:124-136 | after a failure exactly the slot of that block is gone, the others stand in their order, and finished slots move on |
| `QueueVerifiers.FinishForm` | libethereum/BlockQueue.cpp:140-163 | after a success the slot is finished where it stands, moving on only if it is first; without a slot only the job ends |
| `QueueVerifiers.StallForever` | libethereum/BlockQueue.cpp:93-185 | once a finished slot is first, it stays first and nothing joins the verified queue over every run without a failure or purge |
| `QueueVerifiers.StallBegins` | libethereum/BlockQueue.cpp:93-372 | no event but a purge brings this about, and every failure ends it |
| `QueueVerifiers.TheCodeStalls` | libethereum/BlockQueue.cpp:291-372 | a run of the code into such a state, in which a block on a good parent is marked bad as well |
| `QueueUpdateBad.PurgeLoopExact` | libethereum/BlockQueue.cpp:297-337 | the purge loop keeps "ready set = hashes in the queues" if and only if all its removals are clean |
| `QueueUpdateBad.NewlyBadExact` | libethereum/BlockQueue.cpp:291-339 | the same for `updateBad` on a newly bad block |
| `QueueUpdateBad.ReportsExact` | libethereum/BlockQueue.cpp:357-372 | the same for a list of reports |
| `BlockQueue.RemoveIf` | libethereum/BlockQueue.cpp:297-337 | `removeIf` of the queue template: the shifting loop keeps the survivors in order and hands out the slots behind them, moved-from ones included |
| `BlockQueue.Queue.CollectUnknownBad` | libethereum/BlockQueue.cpp:341-355 | the worklist loop is the harvest, condemned |
| `BlockQueue.Queue.NoteReady` | libethereum/BlockQueue.cpp:510-532 | the worklist loop is the harvest, admitted to the end of the line |
| `BlockQueue.Queue.UpdateBad` | libethereum/BlockQueue.cpp:291-339 | the loop with its three removals is the purge loop of the model, and terminates |
| `BlockQueue.Queue.DrainVerified` | libethereum/BlockQueue.cpp:172-185 | the loop is the model's step |
| `BlockQueue.Queue.Fail` | libethereum/BlockQueue.cpp:124-136 | the loop is the model's step, with the search for the slot by its tag |
| `BlockQueue.Queue.Finish` | libethereum/BlockQueue.cpp:138-170 | likewise, for the first slot and for a slot further back |
| `BlockQueue.Queue.Replace` | libethereum/BlockQueue.cpp:157-161 | `replace` of the queue template: the first slot with the tag is replaced, none if there is none |
| `BlockQueue.Queue.Import` | libethereum/BlockQueue.cpp:187-289 | every outcome, with the answer returned |
| `BlockQueue.Queue.Drain` | libethereum/BlockQueue.cpp:471-496 | the batch and the new state |
| `BlockQueue.Queue.DoneDrain` | libethereum/BlockQueue.cpp:357-372 | the new state and whether anything is ready |
| `BlockTree.TreeRoute` | libethereum/BlockChain.cpp:1430-1498 | for every tree, pair of blocks and flags: the two branches of the lowest common ancestor with the ancestor once, the ancestor itself, the code's index; refused exactly if the ancestor lies below the last irreversible number |
| `BlockTree.Climb` | libethereum/BlockChain.cpp:1441-1461 | the loops that level the ends collect the branch down to the given height |
| `BlockTree.WalkTogether` | libethereum/BlockChain.cpp:1463-1492 | the joint loop stops at the lowest common ancestor, or at the first step below the irreversible number |
| `BlockTree.RouteIsAPath` | libethereum/BlockChain.cpp:1430-1498 | the full route goes from one block to the other along parent links and repeats none |
| `BlockTree.RouteIsUnique` | libethereum/BlockChain.cpp:1430-1498 | a path along parent links from one block to the other repeats no block if and only if it is the full route |
| `BlockTree.PathIsWalk` | libethereum/BlockChain.cpp:1430-1498 | every path without repetition goes down for a while and then only up |
| `BlockTree.TurnsAtMeet` | libethereum/BlockChain.cpp:1430-1498 | going down and up repeats no block if and only if it turns at the lowest common ancestor |
| `BlockTree.FlagsExact` | libethereum/BlockChain.cpp:1430-1498 | for every choice of flags the list is the full route cut at its lowest block: the part before, that block once, the part behind |
| `BlockTree.IndexExact` | libethereum/BlockChain.cpp:1493-1497 | the third component is the place of the ancestor in the list (where it would stand, if it is left out), or one more if the ancestor was put into the first part and the second is empty |
| `BlockTree.IrreversibleStays` | libethereum/BlockChain.cpp:901-935 | an accepted switch removes only blocks above the last irreversible number |
| `BloomIndex.AddCoherent` | libethereum/BlockChain.cpp:987-1004 | adding a block keeps each upper entry the union of its 16 lower ones |
| `BloomIndex.AddForm` | libethereum/BlockChain.cpp:987-1004 | the bits are added to the block's own entry and to the one for its 16 blocks, and every other entry stays |
| `BloomIndex.CoherentForm` | libethereum/BlockChain.cpp:1294-1334 | an upper entry has exactly the bits of its 16 lower ones |
| `BloomIndex.Blooms.Clear` | libethereum/BlockChain.cpp:1294-1334 | the range is zeroed, all other lower entries stay, and every upper entry is again the union of its lower ones |
| `BloomIndex.ForkIsRebuild` | libethereum/BlockChain.cpp:987-1004 | clearing from the fork point and adding the new branch gives, entry by entry, the index built from scratch |
| `BloomIndex.AddAllRepresents` | libethereum/BlockChain.cpp:987-1004 | adding blocks one by one to the index of a chain gives the index of the longer chain |
| `BloomIndex.Blooms.AddBlock` | libethereum/BlockChain.cpp:987-1004 | the in-place loop over the levels keeps every upper entry the union of its lower ones, and turns the index of a chain into that of the chain with the block on top |
| `BloomIndex.Blooms.WithBlockBloom` | libethereum/BlockChain.cpp:1720-1732 | ascending and without repetition, exactly the matching blocks from `earliest` on that are reached |
| `BloomIndex.Blooms.QueryHigh` | libethereum/BlockChain.cpp:1734-1772 | a top-level chunk, skipping below entries without the pattern without losing a match |
| `BloomIndex.Blooms.QueryLow` | libethereum/BlockChain.cpp:1734-1772 | a bottom-level chunk, cut at both ends |
| `BloomIndex.ReachExact` | libethereum/BlockChain.cpp:1720-1732 | a query reaches exactly the blocks up to `latest` and, unless `latest` is a multiple of 256, the next chunk of 256 blocks |
| `BloomIndex.ReachWraps` | libethereum/BlockChain.cpp:1704-1728 | when rounding up wraps, exactly the first 256 blocks are reached |
| `ForkSwitch.SwitchedChain` | libethereum/BlockChain.cpp:899-985 | new chain = old chain without the dead blocks, followed by the fresh ones |
| `ForkSwitch.SwitchConsistent` | libethereum/BlockChain.cpp:899-1156 | after a successful switch, number index and producer log are the chain of the new head |
| `ForkSwitch.AsideConsistent` | libethereum/BlockChain.cpp:899-901 | a block not above the head leaves chain, index and log alone |
| `ForkSwitch.SwitchedIndex` | libethereum/BlockChain.cpp:1082-1082 | overwriting the index with the new branch leaves no entry of the old one |
| `ForkSwitch.VerdictExact` | libethereum/BlockChain.cpp:899-1156 | which of the four outcomes occurs, told by the two chains alone: put aside if the new one is no longer, refused if it leaves the present one below the irreversible number, switched to if the producer accepts all of it, rolled back otherwise |
| `ForkSwitch.ChainDb.Insert` | libethereum/BlockChain.cpp:829-1292 | the whole import: which of its four outcomes occurs is decided by heights, the irreversible number and the producer; index, log and head stay one chain; dead and fresh blocks are reported; a refused or rolled-back import leaves tree, index, log and head; the cache agrees with the database whatever other threads read before and after the write; the bloom entries, in every state: unchanged if put aside or refused, those of the old branch filled in if rolled back, those above the ancestor empty up to the old head and the new head's set if switched |
| `ForkSwitch.ChainDb.TrySwitch` | libethereum/BlockChain.cpp:949-1150 | pushes the branch; if a block is refused, the log is the old one again, and exactly the bloom entries of the old branch are those of its blocks, in every state |
| `ForkSwitch.ChainDb.Replay` | libethereum/BlockChain.cpp:1108-1148 | the old branch is pushed back in ascending order and accepted again, and its bloom entries are filled in |
| `ForkSwitch.ChainDb.Commit` | libethereum/BlockChain.cpp:1151-1254 | databases, second clear and head; the cache agrees afterwards although readers filled it meanwhile |
| `ForkSwitch.ChainDb.ClearCaches` | libethereum/BlockChain.cpp:1665-1702 | exactly the given heights leave the cache, and the blooms are cleared above |
| `ForkSwitch.ChainDb.NumberHash` | libethereum/BlockChain.cpp:1209-1215 | the readers the second clear is for: read-through lookup that does not cache misses |
| `ForkSwitch.ChainDb.RouteTo` | libethereum/BlockChain.cpp:901-947 | the route is split at the ancestor into dead and fresh blocks |
| `ForkSwitch.WipedIsComplete` | libethereum/BlockChain.cpp:1209-1215 | blooms are complete after the second clear if and only if every wiped block has an empty bloom |
| `ForkSwitch.StaleReadExact` | libethereum/BlockChain.cpp:1209-1215 | a lookup that caches its answer only after the switch is wrong if and only if it asked above the ancestor |
| `ForkRuns.EveryRunIsSound` | libethereum/BlockChain.cpp:829-1292 | after any sequence of imports the index holds exactly the heights up to the head, each with the head's ancestor; nothing stands above the head; the head never moved down |
| `ForkRuns.AfterSound` | libethereum/BlockChain.cpp:829-1292 | one import keeps that, and a new head is one higher than the old |
| `ForkRuns.ImportAll` | libethereum/BlockChain.cpp:829-1292 | the object follows these runs, with readers interfering at every import; after each run exactly the tracked heights have the bloom entry of their canonical block, and all others are empty |
| `ForkRuns.BloomsFollow` | libethereum/BlockChain.cpp:987-1156 | which heights are filled after an import, for each of its outcomes |
| `ForkRuns.CompleteExact` | libethereum/BlockChain.cpp:1209-1215 | bloom queries over the chain are complete after a run if and only if no block at an unfilled height has a bloom bit |
| `ForkIrreversible.IrreversibleExact` | libethereum/BlockChain.cpp:1463-1477 | for producers that can always go on: the check keeps what is irreversible in the chain over all runs if and only if no accepted switch lowers the irreversible number |
| `ForkIrreversible.IrreversibleForever` | libethereum/BlockChain.cpp:901-935 | where no accepted switch lowers it, no run of imports takes an irreversible block out of the chain |
| `ForkIrreversible.LoweringLoses` | libethereum/BlockChain.cpp:901-935 | for such producers, any switch that lowers it can be followed by one past a block that was irreversible |
| `ForkIrreversible.IrreversibleLost` | libethereum/BlockChain.cpp:1463-1477 | such a run: from a chain with an irreversible block to one without it |
| `ForkCommitted.OnceIrreversible` | libethereum/BlockChain.cpp:901-935 | whatever the producer does, a block that is irreversible at some point of a run stays in the chain as long as the imports return |
| `ForkCommitted.CommittedForever` | libproducer/chainbase.hpp:313-457 | so does everything the producer's database has committed |
| `ForkCommitted.NeverStuckExact` | libethereum/BlockChain.cpp:901-1150 | for producers that can always go on and whose number never falls while blocks are pushed: every import of every run returns if and only if no accepted switch lowers the number and no broken-off one raises it |
| `ForkCommitted.GapStalls` | libproducer/chainbase.hpp:313-457 | wherever more is committed than the check protects below the head, a switch in between passes the check and never returns |
| `ForkCommitted.LostRunStalls` | libethereum/BlockChain.cpp:901-935 | that run, of a producer whose number never falls while blocks are pushed, never returns |
| `ParallelVerify.EveryScheduleIsSafe` | libethereum/BlockChain.cpp:1958-2024 | in every schedule of any number of threads the indices are handed out as 0, 1, 2 and so on, none is in two hands or verified twice, and at most one report is made |
| `ParallelVerify.VerifiedExact` | libethereum/BlockChain.cpp:1958-2024 | when all threads have stopped, exactly the indices handed out were verified, each once |
| `ParallelVerify.EveryScheduleIsRight` | libethereum/BlockChain.cpp:1958-2028 | when all threads have stopped: none bad, all transactions in their slots and no report; some bad, the flag is set and exactly one bad one was reported |
| `ParallelVerify.EveryScheduleEnds` | libethereum/BlockChain.cpp:1972-2024 | a schedule has at most five steps a transaction and two a thread |
| `ParallelVerify.FlagStops` | libethereum/BlockChain.cpp:1974-1984 | in every schedule, once a bad transaction is seen only threads that looked at the flag before claim another index, each at most one |
| `ParallelVerify.StepInv` | libethereum/BlockChain.cpp:1974-2017 | every atomic step keeps the invariant behind these |
| `ParallelVerify.Sequential` | libethereum/BlockChain.cpp:2029-2052 | the other variant: all transactions, or the first bad one reported and rethrown |
| `ParallelVerify.VerdictsAgree` | libethereum/BlockChain.cpp:2019-2052 | both variants end alike if and only if no transaction is bad |
| `ParallelVerify.ReportExact` | libethereum/BlockChain.cpp:1974-2052 | all schedules report what the sequential loop reports if and only if one transaction is bad |
| `BigEndian.BytesRequired` | libdevcore/CommonData.h:216-222 | the length of the shortest big-endian form, modulo 2^32 |
| `BigEndian.FromBigEndian` | libdevcore/CommonData.h:138-145 | the number a byte string stands for |
| `BigEndian.WriteBackwards` | libdevcore/RLP.h:448-459 | the number's bytes are written in front of a position and nothing else changes |
| `BigEndian.FromTo` | libdevcore/CommonData.h:124-145 | reading back a written number gives it, and there is no leading zero |
| `BigEndian.ToFrom` | libdevcore/CommonData.h:124-145 | writing a number read without leading zero gives the bytes back |
| `Rlp.DecodeEncode` | libdevcore/RLP.cpp:29-46 | decoding the encoding of any nested item gives the item |
| `Rlp.EncodeDecode` | libdevcore/RLP.cpp:108-215 | whatever the strict decoder accepts at every level re-encodes to itself |
| `Rlp.PrefixFree` | libdevcore/RLP.cpp:108-117 | an encoding that starts with another is the same item's |
| `Rlp.EncodedSize` | libdevcore/RLP.cpp:108-117 | the size of an item is read from its own bytes, whatever follows |
| `Rlp.StrictShape` | libdevcore/RLP.cpp:119-215 | strictly accepted bytes are the canonical prefix followed by the payload |
| `Rlp.IntRoundTrip` | libdevcore/RLP.h:274-295 | every integer that can be appended reads back; the encoding of a longer one would be refused |
| `Rlp.IntCanonical` | libdevcore/RLP.h:274-295 | an accepted integer has one encoding |
| `RlpForm.ShortData` | libdevcore/RLP.cpp:296-315 | up to 55 bytes: a single byte below 0x80 is its own code, other strings have 0x80 plus their length in front |
| `RlpForm.LongData` | libdevcore/RLP.cpp:296-315 | from 56 bytes on: 0xb7 plus the number of length bytes, the length without leading zero, the string |
| `RlpForm.ShortList` | libdevcore/RLP.cpp:276-294 | up to 55 bytes of payload: 0xc0 plus its length, the payload |
| `RlpForm.LongList` | libdevcore/RLP.cpp:237-274 | from 56 bytes on: 0xf7 plus the number of length bytes, the length without leading zero, the payload |
| `RlpForm.ListPayload` | libdevcore/RLP.cpp:230-235 | the payload is the items' encodings one after the other |
| `RlpForm.EveryFirstByte` | libdevcore/RLP.h:46-54 | each of the 256 byte values is the first byte of some encoding |
| `RlpForm.LengthForm` | libdevcore/RLP.cpp:163-215 | what the reader takes the length to be for each first byte, and which error it reports |
| `RlpForm.StrictExact` | libdevcore/RLP.cpp:108-117 | strict construction accepts exactly if the first item is all there is, and reports a bad prefix, missing or left-over bytes otherwise |
| `RlpForm.IntExact` | libdevcore/RLP.h:274-295 | exactly the encodings of integers of fewer than 2^32 bytes are read as integers |
| `RlpStream.StreamingRefinesRecursion` | libdevcore/RLP.cpp:230-349 | driving the stream over any nested item appends exactly the recursive encoding and counts as one item, however many lists that completes |
| `RlpStream.WholeItem` | libdevcore/RLP.cpp:230-349 | a fresh stream ends up with the encoding and no open list |
| `RlpStream.DriveAllIsOnePush` | libdevcore/RLP.cpp:237-284 | writing all items an open list waits for is one push of their concatenation |
| `RlpStream.NoteCompletes` | libdevcore/RLP.cpp:237-274 | which open lists a count completes, that they are closed from the inside out, and what the next one out waits for |
| `RlpStream.NoteRefuses` | libdevcore/RLP.cpp:237-274 | a count is refused as too many exactly if it is more than the innermost list waits for |
| `RlpStream.NoteTooLarge` | libdevcore/RLP.cpp:237-274 | the other refusal means a payload of 2^64 bytes or more |
| `RlpStream.TrimmedExact` | libdevcore/RLP.cpp:296-302 | trimming takes off exactly the leading zeros |
| `RlpStream.Writer.NoteAppended` | libdevcore/RLP.cpp:237-274 | the cascade of closings, with the two ways to fail |
| `RlpStream.Writer.InsertHeader` | libdevcore/RLP.cpp:237-274 | making room and back-patching the prefix puts the canonical header in front of the payload |
| `RlpStream.Writer.Append` | libdevcore/RLP.cpp:296-315 | appends the canonical encoding of the string, trimmed if asked |
| `RlpStream.Writer.AppendInt` | libdevcore/RLP.cpp:317-340 | appends the canonical encoding of the number, up to the size at which the 32-bit byte count wraps |
| `RlpStream.Writer.AppendList` | libdevcore/RLP.cpp:276-284 | opens a list, or appends the empty one |
| `RlpStream.Writer.PushCount` | libdevcore/RLP.cpp:342-349 | writes the canonical long prefix |
| `RlpStream.Writer.AppendItem` | libdevcore/RLP.cpp:230-349 | the calls for a nested item, together |
| `RlpView.View.At` | libdevcore/RLP.cpp:76-91 | any index in any order, through the cache: the item there, null past the end |
| `RlpView.CountItems` | libdevcore/RLP.cpp:217-228 | the number of items |
| `RlpView.Traverse` | libdevcore/RLP.cpp:48-74 | iteration lists the same items in order, and terminates |
| `RlpView.SplitEncoded` | libdevcore/RLP.cpp:217-228 | the items of an encoded list are the encodings of its elements |
| `Trie.LookupFinds` | libdevcore/TrieHash.cpp:27-79 | for every ordered map with non-empty values, looking a path up in the tree is looking it up in the map |
| `Trie.BuildIsCanonical` | libdevcore/TrieHash.cpp:27-79 | extensions have non-empty paths and lead to branches; branches have two occupied slots |
| `Trie.CanonicalIsUnique` | libdevcore/TrieHash.cpp:27-79 | only one canonical tree answers all lookups in a given way |
| `Trie.TreeDeterminesMap` | libdevcore/TrieHash.cpp:27-79 | two maps have the same tree if and only if they are the same |
| `Trie.LessExact` | libdevcore/TrieCommon.h:74-85 | the order of the map: a proper prefix first, otherwise the first difference decides |
| `HexPrefix.DecodeEncoded` | libdevcore/TrieCommon.h:97-112 | `keyOf` and `isLeaf` give back the nibbles and the flag |
| `HexPrefix.EncodeDecoded` | libdevcore/TrieCommon.h:97-112 | exactly which byte strings are codes |
| `HexPrefix.EncodedForm` | libdevcore/TrieCommon.cpp:46-61 | the code byte by byte: 0x00 or 0x20 before an even path, 0x10 or 0x30 with the first nibble of an odd one, then two nibbles to a byte |
| `HexPrefix.EncodeVector` | libdevcore/TrieCommon.cpp:46-61 | the pairwise encoder of a slice, a negative end counting from one behind the last nibble |
| `HexPrefix.EncodeBytes` | libdevcore/TrieCommon.cpp:63-82 | the nibble encoder of a view gives the same code for the same nibbles |
| `HexPrefix.EncodeTwo` | libdevcore/TrieCommon.cpp:84-114 | the encoder of two views gives the code of their concatenation |
| `HexPrefix.SharedNibbles` | libdevcore/TrieCommon.h:38-48 | the length of the longest common prefix |
| `HexPrefix.Contains` | libdevcore/TrieCommon.h:65-68 | being a prefix |
| `HexPrefix.IsEarlierThan` | libdevcore/TrieCommon.h:74-85 | the lexicographic order |
| `TrieRoot.RootCommits` | libdevcore/TrieHash.cpp:81-110 | two roots are equal if and only if the maps are, as long as the hash separates the nodes of the two trees |
| `TrieRoot.ItemDeterminesNode` | libdevcore/TrieHash.cpp:27-92 | nodes written inline and nodes written as hashes cannot be confused: the item determines the tree |
| `TrieForm.RefForm` | libdevcore/TrieHash.cpp:81-92 | a node is mentioned by at most 33 bytes: by its own if they are fewer than 32, otherwise by 0xa0 and its hash |
| `TrieForm.ReadsBack` | libdevcore/TrieHash.cpp:27-92 | every canonical tree is read back from what is written for it by a reader that can look up the hashes of its nodes |
| `TrieForm.RootReadsBack` | libdevcore/TrieHash.cpp:81-110 | so from the root alone every entry of the map is found |
| `TrieHash.WriteNode` | libdevcore/TrieHash.cpp:27-79 | the recursion into the stream appends exactly the encoding of the tree over the range, and terminates |
| `TrieHash.WriteBranch` | libdevcore/TrieHash.cpp:55-77 | the scan for the 16 runs and the value |
| `TrieHash.WriteExtension` | libdevcore/TrieHash.cpp:49-54 | the shared nibbles and the rest, for keys whose length fits an `int` |
| `TrieHash.WriteLeaf` | libdevcore/TrieHash.cpp:31-35 | the last entry |
| `TrieHash.WriteRef` | libdevcore/TrieHash.cpp:81-92 | inline below 32 bytes, else the hash |
| `TrieHash.SharedPrefix` | libdevcore/TrieHash.cpp:40-48 | the loop, early exit included, finds the longest prefix all keys share |
| `TrieHash.FindRun` | libdevcore/TrieHash.cpp:64-66 | in an ordered map the entries with a given next nibble are one run |
| `OrderedTrie.MapLookup` | libdevcore/TrieHash.cpp:94-105 | for every map with non-empty values, looking up any byte string in its tree gives what the map gives |
| `OrderedTrie.MapRootCommits` | libdevcore/TrieHash.cpp:94-110 | two such maps have the same root if and only if they are equal, as long as the hash separates their nodes |
| `OrderedTrie.Rlp256` | libdevcore/TrieHash.cpp:94-105 | the bytes of the tree over the map, empty map included |
| `OrderedTrie.HexMap` | libdevcore/TrieHash.cpp:99-101 | the nibble map holds exactly the entries, in order, in whatever order they were inserted |
| `OrderedTrie.OrderedTrieRoot` | libdevcore/TrieHash.cpp:112-128 | the root of the list as a map from encoded index |
| `OrderedTrie.OrderedLookup` | libdevcore/TrieHash.cpp:112-128 | every element is found under its encoded index, and nothing under any other byte string |
| `OrderedTrie.OrderedRootCommits` | libdevcore/TrieHash.cpp:112-128 | two lists of non-empty strings have the same root if and only if they are equal, as long as the hash separates their nodes |
| `RangeMask.Mask.UnionRange` | libdevcore/RangeMask.h:233-291 | the merging loop terminates, keeps the intervals non-empty, apart and inside the ground range, and adds exactly the elements of the range |
| `RangeMask.Mask.UnionMask` | libdevcore/RangeMask.h:102-109 | set union, ground ranges joined; united with itself, a mask is unchanged |
| `RangeMask.HullExact` | libdevcore/RangeMask.h:102-109 | the joined ground range is the least one around both |
| `RangeMask.Mask.UnionElement` | libdevcore/RangeMask.h:118-121 | adds one element |
| `RangeMask.Mask.Inverted` | libdevcore/RangeMask.h:78-91 | the loop computes the gaps |
| `RangeMask.Mask.Invert` | libdevcore/RangeMask.h:95-95 | exact complement in the ground range, canonical again |
| `RangeMask.GapsInvolution` | libdevcore/RangeMask.h:78-95 | complementing twice gives the mask back |
| `RangeMask.Mask.SubtractRange` | libdevcore/RangeMask.h:98-98 | set difference |
| `RangeMask.Mask.SubtractMask` | libdevcore/RangeMask.h:98-98 | set difference plus what the ground range gained and the argument lacks; subtracted from itself, a mask is unchanged; the result is the difference if and only if the gain lies in the argument, or the mask is subtracted from itself and empty |
| `RangeMask.CanonicalIsUnique` | libdevcore/RangeMask.h:217-222 | canonical masks with the same elements are the same |
| `RangeMask.LowestExact` | libdevcore/RangeMask.h:66-72 | the result holds exactly the elements with fewer than that many below them, if and only if no visited interval overflows |
| `RangeMask.LowestForm` | libdevcore/RangeMask.h:66-72 | what is taken of the first interval and how many are wanted of the rest, modulo 2^32 |
| `RangeMask.Mask.LowestOf` | libdevcore/RangeMask.h:66-72 | the loop is that function |
| `RangeMask.Mask.Contains` | libdevcore/RangeMask.h:123-129 | membership |
| `RangeMask.Mask.Full` | libdevcore/RangeMask.h:136-139 | everything in the ground range is held |
| `RangeMask.Mask.NextAfter` | libdevcore/RangeMask.h:183-192 | the least element from the successor on, or the end of the ground range |
| `RangeMask.Mask.Elements` | libdevcore/RangeMask.h:157-192 | iteration lists exactly the elements in ascending order, as many as `size()` |
| `RangeMask.Mask.Size` | libdevcore/RangeMask.h:195-201 | the number of elements |
| `RangeMask.Mask.FirstOut` | libdevcore/RangeMask.h:203-208 | the least number of the ground range not held, or its end |
| `RangeMask.Mask.LastIn` | libdevcore/RangeMask.h:210-215 | the greatest element |
| `Sealing.RewardedOnce` | libethereum/Block.cpp:636-777 | after every run of executions, commitments and seals: transactions, receipts and hash set are in step, and the state is the transactions folded over the parent's state with the reward once if committed |
| `Sealing.StepInv` | libethereum/Block.cpp:636-777 | every operation keeps that, refused ones included, and a committed header describes the contents |
| `Sealing.CommitTwice` | libethereum/Block.cpp:670-749 | committing again changes nothing but the extra data |
| `Sealing.CommitUncommit` | libethereum/Block.cpp:670-749 | taking a commitment back restores everything but the header, and committing again repeats the first commitment |
| `Sealing.SealedReplays` | libethereum/Block.cpp:751-777 | a header is taken if and only if the block is committed and it differs in the seal alone; the sealed block is accepted by whoever replays it and takes no further transaction or commitment |
| `Sealing.ReplayAccepts` | libethereum/Block.cpp:510-634 | replaying a committed block on the same parent passes the receipt, bloom, state-root and gas checks and arrives at the committed state |
| `Sealing.CommittedReplays` | libethereum/Block.cpp:510-777 | whatever the seal, a block committed after any run is accepted on replay, with the committed transactions, receipts and rewarded state |
| `SealingForm.FoldExact` | libethereum/Block.cpp:636-655 | the meaning of a block: the transactions run one after the other from state to state, each with the gas the receipt before it reports |
| `SealingForm.RewardForm` | libethereum/Block.cpp:657-661 | the author's balance grows by the reward modulo 2^256, and nothing else changes |
| `SealingForm.CodesForm` | libethereum/Block.cpp:689-708 | what goes under the roots: the codes of the transactions and receipts, in order |
| `SealingForm.CommittedHeader` | libethereum/Block.cpp:670-740 | after every run, what a committed header says: gas of the last receipt, bloom bits of all receipts, roots of the maps from encoded index to code, root of the last state with the reward paid, parent hash, at most 32 bytes of extra data |
| `SealingForm.GasIsSum` | libethereum/Block.cpp:670-740 | its gas is the sum of what its transactions cost |
| `SealingForm.CommitForm` | libethereum/Block.cpp:670-740 | what one commitment does to each field, and that it is refused exactly for a sealed block |
| `SealingForm.ExecuteForm` | libethereum/Block.cpp:636-655 | what executing a transaction does to each field, and when it is refused with which error |
| `SealingForm.HashMembers` | libethereum/Block.cpp:646-652 | the transaction set holds exactly the hashes of the transactions |
| `SealingForm.CopyForm` | libethereum/Block.cpp:90-103 | what a copy shares with the original, and that it is uncommitted from the present state on |
| `Sealing.EnactExact` | libethereum/Block.cpp:510-634 | exactly which blocks are accepted, and the state they leave |
| `SealingForm.EnactForm` | libethereum/Block.cpp:510-634 | a block is accepted if and only if its transactions run on the parent's state, the header sums up their receipts, and its state root is the parent's or that of the last state with the reward paid |
| `SealingForm.EnactAny` | libethereum/Block.cpp:510-634 | the same from a block that already holds transactions: the receipts root is that of the new receipts alone, bloom and gas are those of all |
| `SealingForm.EnactGas` | libethereum/Block.cpp:626-631 | and then its gas is the sum of what its transactions cost |
| `SealingForm.EnactErrors` | libethereum/Block.cpp:510-560 | when the parent and when a transaction is reported |
| `SealingForm.LaterErrors` | libethereum/Block.cpp:578-631 | when the receipts root, the bloom, the state root and the gas are reported, in this order |
| `Sealing.StateRootExact` | libethereum/Block.cpp:618-624 | an accepted state root is the computed one if and only if it differs from the parent's or the transactions with the reward leave the parent's root |
| `Sealing.WrongRootAccepted` | libethereum/Block.cpp:618-624 | an accepted block with a wrong state root |
| `Sealing.CopyRewardsAgain` | libethereum/Block.cpp:90-103 | committing a copy of a committed block gives the same state if and only if the reward is nothing |
| `Sealing.RewardsCounted` | libethereum/Block.cpp:90-103 | after every life with copies in between: the state is the transactions and rewards folded in their order, and it holds one reward for each copy taken while committed and one more if committed now |
| `BlockState.Pending.Execute` | libethereum/Block.cpp:636-655 | the new fields; a refused transaction leaves the block uncommitted |
| `BlockState.Pending.CommitToSeal` | libethereum/Block.cpp:670-740 | the new fields, both root maps filled by insertion |
| `BlockState.Pending.FillMaps` | libethereum/Block.cpp:686-706 | insertion under encoded indices gives the maps whose roots replay recomputes |
| `BlockState.Pending.Enact` | libethereum/Block.cpp:510-634 | the verdict, and the new fields if accepted |
| `BlockState.Pending.LogBloom` | libethereum/Block.cpp:792-798 | the union of the receipts' blooms |
| `Ethash.FullIsLight` | libethash/internal.c:156-310 | the stored dataset and recomputed items give the same mix for every header and nonce |
| `Ethash.InBoundsExact` | libethash/internal.c:220-231 | every index lies inside the computed dataset if and only if the node count modulo 2^33 is positive and below 2^32 |
| `Words.XorBit` | libethash/fnv.h:32-35 | the exclusive or of two numbers has exactly the bits that one has and the other has not |
| `Ethash.FnvForm` | libethash/fnv.h:29-35 | the mixing step: multiplied by 16777619 modulo 2^32, then exclusive or with the second word |
| `Ethash.ItemForm` | libethash/internal.c:93-154 | a dataset item is the hash of the last of its 257 states, each made from the one before by the formulas with their literal numbers |
| `Ethash.ItemStatesExist` | libethash/internal.c:93-154 | every item has such states |
| `Ethash.MixForm` | libethash/internal.c:185-294 | the mix hash folds, four words at a time, the last of the 65 states of the mix, likewise |
| `Ethash.MixStatesExist` | libethash/internal.c:205-254 | every mix has such states |
| `Ethash.SizeForm` | libethash/internal.c:168-219 | nodes of 64 bytes and pages of 128 are counted in 32 bits |
| `Ethash.CalculateDagItem` | libethash/internal.c:93-154 | the in-place computation is the functional item |
| `Ethash.ComputeFullData` | libethash/internal.c:156-183 | every slot holds its item; sizes that are no whole pages are refused |
| `Ethash.Compress` | libethash/internal.c:276-283 | compressing in place equals compressing a copy |
| `Ethash.Hash` | libethash/internal.c:185-294 | mix hash and result are those of the functional form, from either source |
| `Ethash.QuickHash` | libethash/internal.c:296-310 | on a returned mix hash it gives the returned result |

## Left out

- Block queue: `clear()`, `retryAllUnknown()`, `tick()` and the queue of future blocks, total difficulty and byte sizes, thread start and stop. A drained block is taken to end in the chain or in the bad list of `doneDrain`; the chain is taken to report every block it holds.
- QueueRuns.RunsAreSafe: for the code's own removal, only runs whose removals are clean, because others do break it (`StepExact`); `AllRunsSettle` says what those keep.
- QueueRuns.StepInv: for the code's own removal, only events whose removals are clean; `StepSettled` is about all.
- QueueRuns.ImportInv: a bad chain only with clean removals, for the same reason.
- QueueRuns.DoneDrainInv: only with clean removals, for the same reason.
- QueueAllRuns.TakeMakesNoDifference: only for clean removals, because others can make one (`TakeCanMakeADifference`).
- BlockQueue.Queue.Import: a block from the future is answered but not stored, and total difficulty is not tracked, because the queue of future blocks is not modelled.
- Chain: LevelDB I/O and write failures, opening, rebuilding and rewinding, transaction addresses, receipts, children lists, total difficulty, state and VM. The irreversible number is a function of the producer's log, and reversions of the log always return except in `ForkCommitted`. Readers of the number cache are atomic in `ForkSwitch.ChainDb.Insert`; the other case is `StaleReadExact`.
- ForkIrreversible.IrreversibleExact: one direction needs a producer that always accepts some block not seen before; without it a lowered number can be harmless.
- ForkCommitted.NeverStuckExact: likewise; blocks that the producer refuses are taken to commit nothing.
- Bloom index: in-memory entries only; reloading chunks from the database is not modelled.
- ParallelVerify: exceptions not derived from the base class, and memory ordering weaker than one step at a time.
- RLP: the non-strict modes, conversions other than to unbounded integers, and `operator[]` on malformed lists.
- TrieRoot.RootCommits: assumes that the hash separates the nodes at hand and that no node is longer than the RLP size limit; no hash of 32 bytes is injective on all strings.
- RlpStream.Writer.AppendInt: integers of 2^32 bytes or more, for which the source writes outside its buffer.
- TrieHash: keys of more than 2^31 - 1 nibbles, where casts to `int` turn negative. OrderedTrie: lists of more than 2^32 - 1 elements, where the index counter would wrap.
- The database-backed trie, insertion and removal in it, and `uniqueInUse`.
- RangeMask: `extendAll`, `clear` and `reset`.
- Sealing: reverted executions, transaction selection from the pool, `populateFromChain`, database rollback after a failed `enact`. Header hashes without seal are taken to be equal only for headers equal without seal.
- BlockState.Pending.Enact: after an error only the report is promised, because the source leaves the fields half updated.
- Ethash: generating the cache, seed hashes, size tables, progress callbacks, the SSE and MIC variants, big-endian hosts.
- Ethash.Hash: asks that two nodes a page fit a 32-bit index, which holds for every size in the tables.
- Everything else in the repository (networking, VM, key stores, RPC, tools) is outside the model.
