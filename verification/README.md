# The node's stateful core, modelled and proved in Dafny

This project models the parts of the CryptoYen node whose correctness is a property of whole runs,
of a refinement or of a round trip, and proves those properties. `dafny verify dfyconfig.toml`
checks everything.

- **Address manager** (`AddrMan*`): five redundant structures and two counters under nested
  updates; the invariant of `Check_` over every run, the check itself, and the lossy file format.
- **Coins** (`Coins*`, `VarInt`, `Bits`): the stack of write-back caches refines a stack of plain
  maps; spending and undoing; the bitmask format of stored coins.
- **Script-check queue** (`CheckQueue*`): the master/worker protocol, one step per critical section
  and per executed check, with safety, absence of lost wake-ups and termination of `Wait`.
- **Partial Merkle trees** (`Merkle*`): encoder and decoder over the ragged tree of BIP 37.
- **Block assembly** (`Block*`): priority heap, orphans with dependency sets, limits and fees.
- **Masternode payments** (`Payment*`, `MasternodePayments`, `VoteGate`): vote bookkeeping in two
  maps, the gate in front of it, the check of a block and the builder of a block.
- **Stake modifier** (`Stake*`): the 64 rounds of block selection and the modifiers along a chain.
- **Chain index** (`Chain*`): `SetTip`, `FindFork`, `GetLocator` and the skip list.
- **Base58** (`Base58*`, `Positional`) and **amount compression** (`Compressor*`).

`Basics`, `SetFacts` and `Nonlinear` hold what the parts share. State that the node updates in place is a class
whose methods are proved equal to functions on values (`Abs() == Spec(old(Abs()))`); the laws are
proved about those functions.

Conventions. Hashes are function parameters; where a law needs one to be collision-free, that is
an explicit hypothesis. Clocks, random draws and the results of script checks are parameters. The
order in which a `std::map` is walked is arbitrary in the model, except where it shows (the address
manager's file, walked in id order). The amount of a payment and the block value follow
src/main.cpp:1610-1656.

Where the code and its comments differ, the model follows the code: the bound of 2N - 1 flag bits
in src/merkleblock.h:48 fails, and `DocumentedBitBound` says exactly when it holds; so does the
"hard guarantee" of src/merkleblock.h:35 on the encoded size (`SizeGuarantee`, `GuaranteeFails`). Where the code
falls short of what it is for, the exact condition is proved: a tried entry marked good at time 0
fails `Check_` (`GoodTimes`, `ZeroTimeRun`); `Check_` does not notice addresses that lead nowhere
(`ConsistentIsChecked`); block assembly keeps a pointer to an orphan it has removed when an input
that waits stands before a missing one (`LeavesNothing`, `ChildIsPassedOver`), and reads it when the
transaction waited for goes in (`CreateNewBlock`, `StrayIsRead`); `Clear` works for empty managers only (`ClearedConsistent`); undoing the
last spend of a coinstake forgets that it was one (`SpendUndone`, `CoinstakeIsLost`); amounts can
wrap around in the 64-bit compressor (`CompressorBound.RoundTrip64`); a block built after the money
supply is exhausted can fail the builder's own check (`BuiltBlockPasses`, `ExhaustedSupply`); and
`CanVote` lets through ever lower heights only (`LetThroughWhenLower`).

## Model

| member | source | states |
|---|---|---|
| AddrManRuns.RunKeeps | src/addrman.cpp:93-317 | every state of every run of Add_, Good_, Attempt_, Connected_ and GetAddr_ from a fresh manager satisfies the full invariant behind Check_; its clock part holds as long as Good_ gets positive and Attempt_ non-negative times |
| AddrManRuns.StepKeeps | src/addrman.cpp:202-336 | one operation keeps the invariant, and the clock part when the time passed in is sane |
| AddrManOps.GoodKeeps | src/addrman.cpp:202-249 | Good_ keeps the structural invariant for every service and time, and a known address ends up in the tried table |
| AddrManOps.AddKeeps | src/addrman.cpp:251-317 | Add_ keeps the structural invariant for every address, source, penalty, clock readings and random draw |
| AddrManOps.AttemptKeeps | src/addrman.cpp:319-336 | Attempt_ keeps the invariant |
| AddrManOps.ConnectedKeeps | src/addrman.cpp:476-494 | Connected_ keeps the invariant |
| AddrManOps.ReorderedKeeps | src/addrman.cpp:455-474 | any reordering of vRandom as GetAddr_ does it keeps the invariant |
| AddrManOps.MakeTriedKeeps | src/addrman.cpp:154-200 | moving an entry to the tried table, evicting the occupant of its slot into the new table, keeps the invariant |
| AddrManOps.ClearNewKeeps | src/addrman.cpp:139-152 | emptying a new slot, deleting the entry on its last reference, keeps the invariant, also while an entry is in neither table |
| AddrManOps.UntriedIsHeld | src/addrman.cpp:240-243 | some bucket holds every untried entry, so the "no bucket found" exit of Good_ is never taken |
| AddrManOps.OccupantIsReferenced | src/addrman.cpp:143-146 | the entry in an occupied new slot has a positive reference count, so the assert of ClearNew holds |
| AddrManRuns.GoodTimes | src/addrman.cpp:202-249 | Good_ keeps the times acceptable to Check_ if and only if the service is unknown or the time is positive |
| AddrManRuns.AttemptTimes | src/addrman.cpp:319-336 | Attempt_ does if and only if the service is unknown or the time is not negative |
| AddrManRuns.ZeroTimeBreaks | src/addrman.cpp:202-249 | one added address marked good at time 0 is the only entry, -1 is the verdict on it, and the check does not accept the manager |
| AddrManRuns.GroupIsBounded | src/addrman.cpp:17-22 | addresses of one group hold at most 8 * 64 tried slots |
| AddrManRuns.SelectionExists | src/addrman.cpp:338-375 | whichever table has a positive counter has an occupied slot, and the counters add up to the size of vRandom |
| AddrManRoundTrip.SaveLoadRoundTrip | src/addrman.h:281-426 | saving any consistent manager and loading the file into a fresh one reads the whole file, loses nothing and gives the same entries, addresses, tables, counters and key up to a renumbering of ids; only nLastTry and the random order may differ |
| AddrManRoundTrip.ListSizes | src/addrman.h:296-313 | the entries with references number nNew and the tried ones nTried, which both asserts of Serialize rely on |
| AddrManFile.Serialize | src/addrman.h:281-328 | the writing loops, asserts included, produce exactly the file the round trip is about |
| AddrManFile.Unserialize | src/addrman.h:331-426 | the manager is cleared, then the reading loops fill it with exactly what the format says, or fail exactly when it does, for any stream |
| AddrManOps.ClearedConsistent | src/addrman.h:433-451 | Clear leaves a consistent manager consistent if and only if it holds no entries, since it resets neither entries nor addresses |
| AddrMan.Manager.Clear | src/addrman.h:433-451 | both tables emptied and everything reset but entries and addresses |
| AddrManFile.Copy | src/addrman.h:281-426 | writing a manager and reading the stream into another gives a valid manager that is the same up to ids |
| AddrManFile.WriteNewEntries | src/addrman.h:294-304 | entries are numbered in id order and `nIds != nNew` holds at every one written |
| AddrManFile.WriteTriedEntries | src/addrman.h:305-313 | `nIds != nTried` holds at every tried entry written |
| AddrManFile.Prune | src/addrman.h:410-420 | exactly the entries in neither table are deleted |
| AddrManCheck.Check | src/addrman.cpp:378-452 | Check_ returns 0 if and only if the manager is as `Checked` says and its key is not null; it changes nothing but looked-up addresses, and once the sizes agree the code it returns is that of a faulty entry if there is one |
| AddrManCheck.ZeroTimeRun | src/addrman.cpp:378-452 | a new manager, one address added and marked good at time 0: Check_ returns -1 |
| AddrManChecked.ConsistentIsChecked | src/addrman.cpp:378-452 | the invariant with its clock part is exactly what Check_ accepts together with what it does not look at: addresses leading nowhere, and the bounds of ids |
| AddrManChecked.StaleAddressPasses | src/addrman.cpp:404-405 | a manager whose only fault is an address leading to no entry is accepted by Check_ |
| AddrManChecked.OrderIsFull | src/addrman.cpp:384-407 | as many positions as entries, each entry at its own, make vRandom and the positions mutually inverse |
| AddrManSweep.TriedSweepMeans | src/addrman.cpp:419-447 | nothing wrong in any tried slot and no id left over is the tried part of the invariant |
| AddrManSweep.NewSweepMeans | src/addrman.cpp:435-449 | nothing wrong in any new slot and no reference left over is the new part of the invariant, reference counts included |
| AddrManCheck.CheckEntry | src/addrman.cpp:389-413 | one pass through the loop: the verdict, and 0 entered for a missing address that was looked up |
| AddrManCheck.CheckEntries | src/addrman.cpp:386-414 | the loop over entries returns 0 if and only if every entry passes, otherwise the code of one that does not; a missing address goes unnoticed for entry 0 alone; on success it yields the tried ids and the reference counts |
| AddrManCheck.CheckTriedTable | src/addrman.cpp:421-433 | the sweep finds no fault if and only if every occupied slot holds a tried entry whose slot it is, and also leaves no id over if and only if every tried entry is in its slot |
| AddrManCheck.CheckNewTable | src/addrman.cpp:435-446 | the sweep finds no fault and leaves nothing over if and only if every occupied slot holds an untried entry at its position and every untried entry sits in as many slots as it counts references |
| AddrMan.Manager.Good | src/addrman.cpp:202-249 | Good_ in place: the new contents are those of the state function, whatever bucket the search starts at |
| AddrMan.Manager.Add | src/addrman.cpp:251-317 | Add_ in place, with the result telling whether the address was new |
| AddrMan.Manager.Attempt | src/addrman.cpp:319-336 | Attempt_ in place |
| AddrMan.Manager.Connected | src/addrman.cpp:476-494 | Connected_ in place |
| AddrMan.Manager.MakeTriedEntry | src/addrman.cpp:154-200 | MakeTried in place: loop over the new buckets, eviction, tried slot, with its asserts holding |
| AddrMan.Manager.ClearNewSlot | src/addrman.cpp:139-152 | ClearNew in place, its assert holding |
| AddrMan.Manager.DeleteEntry | src/addrman.cpp:125-137 | Delete in place through SwapRandom, its two asserts required of every caller |
| AddrMan.Manager.SwapRandom | src/addrman.cpp:105-123 | SwapRandom in place |
| AddrMan.Manager.EvictEntry | src/addrman.cpp:174-194 | the occupant of a tried slot goes back to a new slot, emptied as the assert says |
| AddrMan.Manager.FindBucket | src/addrman.cpp:228-238 | the search from a random bucket finds one if and only if some bucket holds the entry |
| AddrMan.Manager.LeaveNewBuckets | src/addrman.cpp:156-164 | the loop over all new buckets takes the entry out of every one that holds it |
| AddrMan.Manager.PassesDraw | src/addrman.cpp:282-287 | the factor doubled once per reference is the power of two drawn from |
| AddrMan.Manager.GetAddr | src/addrman.cpp:455-474 | returns at most the wanted share of distinct known addresses; each was found not terrible at the reading of the clock for its position, each one passed over was found terrible at its own |
| AddrManEffects.AddUnknown | src/addrman.cpp:288-316 | an unknown routable address is stored, in the one slot of address and source and with that one reference, if and only if the slot is free or held by a hopeless entry or one with further references; that entry loses the reference and is gone exactly when it was its last; otherwise nothing but the next id changes |
| AddrManEffects.AddKnown | src/addrman.cpp:259-316 | announcing a known address sets its time, when fresher by more than an hour or a day, and its services, and nothing else of the entry; exactly when a reference is added, in which slot, and what the entry displaced there loses |
| AddrManEffects.TerribleIsHopeless | src/addrman.cpp:38-56 | the tests of IsTerrible as one condition on the times and attempts |
| AddrManPromotion.GoodEffect | src/addrman.cpp:202-249 | marking a known service good sets its times and attempts; an untried one moves to its tried slot and leaves every new slot, whoever is there goes back to the new slot of its own address and source, whoever is there loses that reference, and nothing else changes |
| AddrManPromotion.MakeTriedEffect | src/addrman.cpp:154-200 | the same for MakeTried |
| AddrManEffects.ConnectedEffect | src/addrman.cpp:476-494 | the time of a known service moves forward to at most 20 minutes before the clock, and nothing else changes |
| AddrManEffects.AttemptsEffect | src/addrman.cpp:319-336 | attempts are counted, the last one is remembered, and nothing else changes |
| AddrManEffects.ThreeAttemptsSpoil | src/addrman.cpp:38-56 | an entry that never answered is terrible a minute after the third attempt |
| AddrManEffects.SourceGroupIsBounded | src/addrman.cpp:24-30 | announcements from one group of sources reach at most 64 new buckets |
| AddrManOps.WantedMeans | src/addrman.cpp:457-459 | the most addresses returned are the most that are at most 2500 and at most 23 percent |
| AddrManOldFile.OldFileLoads | src/addrman.h:331-426 | a saved file with an unknown version loads completely into a consistent manager: all tried entries are there, and of the untried ones exactly those that come first for the slot of their own address and source, each with that one reference |
| AddrManOldFile.PrunedExactly | src/addrman.h:410-420 | pruning deletes exactly the entries in neither table and changes no other |
| AddrManOldFile.UnusedBuckets | src/addrman.h:391-408 | unusable bucket data is read over without effect |
| CoinsRuns.RunRefines | src/coins.cpp:88-209 | in every run of pushes, pops, reads at any depth, changes and flushes over a plain store, every layer of the stack shows exactly what a stack of plain maps holds, where reads do nothing and a flush copies the top map down |
| CoinsRuns.RunCoherent | src/coins.cpp:88-209 | in every run the flags tell the truth: FRESH means nothing unspent below, non-DIRTY agrees with the base, non-FRESH over a cache is present in it |
| CoinsRuns.RunReads | src/coins.cpp:106-114 | reading the top of the stack after any run returns what the reference holds |
| CoinsRuns.ApplyRefines | src/coins.cpp:88-209 | each single operation on a coherent stack refines its reference operation |
| CoinsUndo.SpendUndone | src/main.cpp:1983-2000 | spending an output and undoing it, with the coins possibly dropped in between, gives everything back and reports no inconsistency if and only if it was not the last output or the height is not 0 and there was no coinstake flag |
| CoinsUndo.DisconnectUndoesConnect | src/main.cpp:1973-2001 | undoing the spends of all inputs of a transaction in reverse order gives the same coins back without an inconsistency if and only if every transaction that lost all its outputs has a height other than 0 and no coinstake flag |
| CoinsUndo.RestoreClose | src/main.cpp:1983-2000 | what was the last output comes back without the coinstake flag, and at height 0 not without a report; everything else comes back |
| CoinsUndo.CoinstakeIsLost | src/main.cpp:1988-1991 | the only output of a coinstake at height 100, spent and restored, belongs to no coinstake any more |
| CoinsUndo.SpendInputs | src/main.cpp:1800-1809 | the loop of UpdateCoins, its assert holding |
| CoinsUndo.RestoreInputs | src/main.cpp:1979-2001 | the loop over the inputs, last one first |
| CoinsRuns.SpendIsBlind | src/coins.cpp:38-54 | spending an output treats absent and fully spent coins alike, as the refinement asks of a change |
| CoinsRuns.WriteIsBlind | src/main.cpp:1812-1813 | writing all outputs treats absent and fully spent coins alike, as the refinement asks of a change |
| CoinsView.FlushMovesView | src/coins.cpp:167-209 | after a flush the parent shows for every transaction what the child showed before it |
| CoinsView.FlushCoherent | src/coins.cpp:167-196 | a flush leaves the parent coherent with its own base |
| CoinsView.FlushAssertHolds | src/coins.cpp:176-180 | the assert of BatchWrite never fails on a coherent stack |
| CoinsView.FetchKeepsLookup | src/coins.cpp:88-104 | caching on a read changes no answer at any layer |
| CoinsView.FetchCoherent | src/coins.cpp:88-104 | caching on a read keeps all flags truthful |
| CoinsView.ModifyShows | src/coins.cpp:116-133 | a modification shows the cleaned-up result for its transaction and nothing new elsewhere |
| CoinsView.ModifyCoherent | src/coins.cpp:271-279 | the modifier, including the removal of fresh pruned entries, keeps all flags truthful |
| CoinsView.FetchCaches | src/coins.cpp:88-104 | after a read the layer holds the coins if they were found below, FRESH exactly when fully spent, and nothing else comes or goes |
| CoinsView.ModifyKeepsEntry | src/coins.cpp:271-279 | a change leaves a dirty entry, or none, and then the coins are fully spent and nothing shows below |
| CoinsView.StoreHoldsNoPruned | src/txdb.cpp:20-26 | fully spent coins are erased from the store and never written to it |
| Coins.SpendProps | src/coins.cpp:38-54 | Spend removes exactly that output and fails exactly when it is not there; the undo data are the output and, exactly when no other is available, height, flags and version, else zeros |
| CoinsCache.CoinsViewCache.GetCoins | src/coins.cpp:88-114 | answers from the cache or the base and caches what it found: the stack becomes that of the state function |
| CoinsCache.CoinsViewCache.ModifyCoins | src/coins.cpp:116-133 | entry set up, changed, cleaned up, kept or erased: the stack becomes that of the state function |
| CoinsCache.CoinsViewCache.BatchWriteFrom | src/coins.cpp:167-196 | the loop over the child map, in any order, merges entry by entry: the stack becomes that of the state function |
| CoinsCache.CoinsViewCache.FlushDown | src/coins.cpp:204-209 | the child is emptied into its parent: the stack becomes that of the state function |
| CoinsCodec.CoinsRoundTrip | src/coins.h:203-266 | reading back written coins that are not fully spent gives them with trailing spent outputs removed and consumes exactly the bytes written, for any self-delimiting output codec, if and only if version and height are not negative |
| CoinsCodec.SomethingToWrite | src/coins.h:209-209 | the assert of Serialize holds if and only if the coins are not fully spent |
| CoinsCodec.MaskCovers | src/coins.h:216-222 | the mask reaches every unspent output beyond the first two |
| CoinsCodec.ReadMaskBack | src/coins.h:247-256 | counting non-zero bytes makes the reader stop exactly at the last mask byte |
| CoinsCodec.AvailIsUnspent | src/coins.h:242-256 | the bits read say of every output whether it is unspent, and none lies beyond |
| CoinsCodec.CalcMaskSize | src/coins.cpp:19-36 | the loops find the position of the last non-zero mask byte and the number of non-zero ones |
| CoinsCodec.Serialize | src/coins.h:203-230 | the writing loops produce the format |
| CoinsCodec.Unserialize | src/coins.h:233-266 | the reading loops parse the format or fail where it fails |
| VarInt.OneEncoding | src/serialize.h:330-347 | every number has exactly one encoding: reading a number off a byte sequence means that the sequence begins with what is written for it |
| VarInt.SmallSizes | src/serialize.h:340-340 | up to 127 takes one byte, up to 16511 two, up to 2113663 three |
| VarInt.VarIntRoundTrip | src/serialize.h:375-407 | a written number is read back with exactly its bytes consumed if and only if it is not negative |
| CheckQueueRuns.RunKeeps | src/checkqueue.h:69-158 | the invariant of the protocol holds after every interleaving of any number of workers and one master |
| CheckQueueRuns.StepKeeps | src/checkqueue.h:69-158 | every critical section, executed check, notification and spurious wake-up keeps it |
| CheckQueueRuns.CountersMean | src/checkqueue.h:78-120 | in every run nTotal - nIdle is the number of threads holding a non-empty batch and nTodo counts queued and in-batch checks |
| CheckQueueRuns.WaitVerdict | src/checkqueue.h:92-101 | Wait returns true exactly when no check returned false, and then each check added since the last return ran as often as it was added; false comes with a check that returned false; the queue is idle afterwards |
| CheckQueueRuns.ControlAssertHolds | src/checkqueue.h:183-190 | the assert in the constructor of CCheckQueueControl holds in every run when nothing was added since the last return |
| CheckQueueRuns.NeverStuck | src/checkqueue.h:78-120 | while the master is inside Wait, some thread can take a step that needs neither a spurious wake-up nor the master starting something |
| CheckQueueRuns.WaitEnds | src/checkqueue.h:69-127 | the steps that make progress are bounded until the master starts something new, and using up the bound means it has left Wait |
| CheckQueueRuns.StepMeasure | src/checkqueue.h:69-127 | no step raises the measure and every step of progress lowers it |
| CheckQueue.BatchFits | src/checkqueue.h:110-110 | a batch has at least one check, no more than are queued and no more than nBatchSize |
| CheckQueue.BatchShare | src/checkqueue.h:104-110 | a batch of more than one check is within the share of each thread, and one below nBatchSize could not be larger |
| CheckQueue.Queue.EnterLoop | src/checkqueue.h:86-119 | first critical section of a thread |
| CheckQueue.Queue.FinishBatch | src/checkqueue.h:80-119 | handing in a batch, waking the master, taking the next |
| CheckQueue.Queue.WakeUp | src/checkqueue.h:103-119 | resuming after a wait |
| CheckQueue.Queue.Add | src/checkqueue.h:146-158 | checks moved over one by one, and which notification follows |
| CheckQueue.Queue.TakeBack | src/checkqueue.h:111-117 | the batch is the end of the queue, last check first |
| MerkleBlock.BuiltExtracts | src/merkleblock.cpp:106-155 | for every non-empty list within the limit, every mask and any padding of fewer than 8 bits, extraction from the built tree returns the full root and exactly the matched ids in order |
| MerkleBlock.PackedExtracts | src/merkleblock.h:89-107 | the same through the byte-packed form |
| MerkleBlock.ExtractedIsAuthentic | src/merkleblock.cpp:123-155 | with an injective hash, whatever bits and hashes are sent: if extraction gives the true root, every extracted value is a transaction of the block, at increasing positions |
| MerkleBlock.PackRoundTrip | src/merkleblock.h:96-105 | unpacking packed bits gives them back followed by zero padding to a whole byte |
| MerkleTree.BuildExtract | src/merkleblock.cpp:56-104 | extraction inverts building at every node and leaves what follows untouched |
| MerkleTree.WidthIsShift | src/merkleblock.h:67-70 | the width by repeated halving is the shift expression of CalcTreeWidth |
| MerkleProofs.ExtractSound | src/merkleblock.cpp:75-104 | soundness of the traversal at every node |
| MerkleProofs.MatchesAreSelected | src/merkleblock.cpp:56-73 | what is extracted below a node is the selection of its position range by the mask |
| MerkleProofs.AnyMatchIsScan | src/merkleblock.cpp:58-62 | the flag of a node is the result of the scan over its positions |
| MerkleProofs.BuildSizes | src/merkleblock.h:38-48 | at most one hash per transaction, at most 1 + matches * height hashes, at least one bit per hash |
| MerkleProofs.DocumentedBitBound | src/merkleblock.h:48-48 | the documented bound of 2N - 1 bits holds if and only if no single-child node on the right edge has a match below it; 2N - 1 + height always holds |
| MerkleSize.SizeGuarantee | src/merkleblock.h:32-48 | for every 32-bit number of transactions the size is at most 10 + ceil(32.25 N) if and only if N is below 2^16 and the flag bytes find room: always for N below 253, and from 253 flag bytes on only when there are exactly ceil(N / 4) of them |
| MerkleSize.BlockSizeGuarantee | src/merkleblock.h:32-48 | for a block of acceptable size the guarantee holds if and only if there are fewer than 253 flag bytes or exactly ceil(N / 4) |
| MerkleSize.GuaranteeFails | src/merkleblock.h:35-35 | 1025 transactions, all matched, take 33068 bytes where 33067 are guaranteed |
| MerkleProofs.BitBoundFails | src/merkleblock.h:48-48 | three transactions with only the last matched need four bits for two hashes |
| MerkleBlock.PartialMerkleTree.TraverseAndBuild | src/merkleblock.cpp:56-73 | appends exactly the bits and hashes of the node |
| MerkleBlock.PartialMerkleTree.ScanMatches | src/merkleblock.cpp:58-62 | the loop over positions computes the flag |
| MerkleBlock.PartialMerkleTree.TraverseAndExtract | src/merkleblock.cpp:75-104 | consumes bits and hashes and reports the hash and matches of the node, or marks the tree bad |
| MerkleBlock.PartialMerkleTree.ExtractMatches | src/merkleblock.cpp:123-155 | all checks on counts and leftovers: the root and matches, or zero, which a tree already bad always gives |
| MerkleBlock.PartialMerkleTree.constructor | src/merkleblock.cpp:106-119 | height loop and traversal from the root |
| MerkleBlock.PartialMerkleTree.PackBits | src/merkleblock.h:101-105 | the packing loop produces the packed bytes |
| MerkleBlock.PartialMerkleTree.UnpackBits | src/merkleblock.h:95-100 | the unpacking loop restores the bits |
| MerkleParse.AcceptedExactly | src/merkleblock.cpp:123-155 | ExtractMatches yields a root and matches if and only if there is a sensible number of transactions and the hashes and flag bytes are exactly those of a tree of their shape, nothing left over; root and matches are that tree's |
| MerkleParse.FlatExtracts | src/merkleblock.cpp:75-104 | extraction reads any flattened tree of the right shape |
| MerkleParse.ExtractedIsFlat | src/merkleblock.cpp:75-104 | whatever is extracted was such a tree |
| MerkleLevels.RootIsLevelwise | src/primitives/block.cpp:58-84 | the root of the recursion is the root of the level-by-level computation of a block |
| MerkleLevels.BuildMerkleTree | src/primitives/block.cpp:58-84 | the loops over levels and pairs compute it |
| BlockAssembler.CreateNewBlock | src/miner.cpp:203-377 | for every pool, inputs connect in order, no transaction occurs twice, pool parents stand first, sizes and signature operations stay under the limits and the fees are the sum; unless a removed orphan is read, which happens exactly when a transaction goes in under which a passed-over one is still registered, a ready transaction is missing only if one of the reasons held, and without limits in the way every final transaction with its ancestors is in; with no room for priorities the order is that of fee rates |
| BlockTrace.ProcessOutcome | src/miner.cpp:303-376 | a transaction taken off is put in if and only if none of the reasons holds: size, signature operations, free past the minimum size in fee order, missing inputs, those of script hashes, failed check; and exactly when fee rates come first |
| BlockTrace.TracedTurn | src/miner.cpp:294-377 | every turn looks at a ready transaction not looked at before and none better, with the order and the outcome the reasons ask for |
| BlockChoice.MissingForAReason | src/miner.cpp:294-346 | a final transaction that connects and whose pool parents are in the block is missing only for one of the reasons |
| BlockChoice.EverythingGoesIn | src/miner.cpp:294-377 | when all final transactions together stay below both limits, none is free and every check passes, everything goes in that connects and whose pool ancestors do |
| BlockChoice.OrderedByFee | src/miner.cpp:67-86 | with no room for priorities, of two transactions ready at the same time the one with the greater fee rate stands first |
| BlockAssembler.Assembler.Turn | src/miner.cpp:294-377 | nothing on the heap has a greater fee rate or priority than the one taken, and it is put in exactly when there is no reason not to |
| BlockMoney.FeesAreAllThatIsLost | src/miner.cpp:336-355 | a connected block of new transactions takes exactly its fees from the value of all unspent outputs |
| BlockAssembly.TurnKeeps | src/miner.cpp:294-377 | every turn of the loop, whichever transaction the heap gives, keeps the invariant of heap, orphans, dependers, view and totals, and takes off a transaction never taken off before |
| BlockAssembly.ReleaseHeap | src/miner.cpp:365-376 | releasing dependers, repeated entries included, puts exactly the orphans freed onto the heap, each once |
| BlockAssembly.InputsAvailable | src/miner.cpp:331-355 | every input of a transaction in the block is in the chain or an output of an earlier one |
| BlockAssembly.ParentsFirst | src/miner.cpp:222-249 | pool transactions a transaction depends on stand before it |
| BlockAssembly.NoDoubleSpend | src/miner.cpp:331-349 | no output is spent by two transactions of the block |
| BlockAssembly.EveryoneHeard | src/miner.cpp:294-377 | at the end exactly the final transactions without missing inputs whose pool parents are all in the block have been looked at |
| BlockAssembler.Assembler.constructor | src/miner.cpp:203-289 | for every pool, ready transactions and orphans are sorted out with the invariant established |
| BlockAssembler.Assembler.RegisterInputs | src/miner.cpp:222-251 | an input missing from chain and pool is noticed, and then nothing is left registered if and only if every input before the first missing one is in the chain; otherwise the dependencies are collected and registered once per input |
| BlockCollect.LeavesNothing | src/miner.cpp:222-251 | a transaction that is passed over leaves no registration behind if and only if every input before its first missing one is in the chain |
| BlockAssembly.StrayIsFollowed | src/miner.cpp:365-376 | among the dependers of a transaction stands an orphan that was removed if and only if one that was passed over is registered there |
| BlockStray.ChildIsPassedOver | src/miner.cpp:222-251 | a transaction whose first input is in the pool and whose second is missing is passed over and stays registered under the first |
| BlockStray.StrayIsRead | src/miner.cpp:365-376 | in the pool of that transaction and its parent, putting the parent in reads the removed orphan |
| BlockAssembler.Assembler.Select | src/miner.cpp:294-377 | the loop ends with the invariant kept and the heap empty, or where a removed orphan is read |
| BlockAssembler.Assembler.Consider | src/miner.cpp:303-376 | limits, free transactions, switch of order, inputs and checks, in that order |
| BlockAssembler.Assembler.ReleaseDependers | src/miner.cpp:365-376 | the loop over dependers computes the release |
| BlockAssembler.Assembler.Front | src/miner.cpp:67-86 | no transaction on the heap has a greater fee rate, or with equal ones a greater priority, than the one taken; or the other way round |
| PaymentRecords.RecordedExactly | src/masternode-payments.cpp:466-487 | with an injective vote hash, in every run: a masternode is on record for a script at a height if and only if it voted so on a known block and since then the records were not cleared and the height was never stale at a cleaning |
| PaymentRecords.AddRecords | src/masternode-payments.cpp:475-484 | an accepted vote is recorded: the voters of its script and height gain exactly the masternode, the tally gains one, and a script listed for the first time has the level voted for |
| PaymentRecords.AddSparesOthers | src/masternode-payments.cpp:475-484 | no vote changes voters, tally or level of another script or height |
| PaymentRecords.RefusedChangesNothing | src/masternode-payments.cpp:469-480 | a vote on an unknown block, or one already on record, changes nothing |
| PaymentRecords.AcceptedStays | src/masternode-payments.cpp:466-487 | an accepted vote stays on record until a clear or a cleaning at which its height is stale, for any hash |
| PaymentVotes.RunTallies | src/masternode-payments.cpp:466-487 | after every run of additions, cleanups and clears the tally of every script at every height is the number of distinct masternodes recorded as voting for it there, and a height has an entry exactly when it has a recorded vote |
| PaymentVotes.RunListsOnce | src/masternode-payments.h:108-120 | no script is listed twice at a height and every listed one has at least one vote |
| PaymentVotes.RefusedOnlyIfRecorded | src/masternode-payments.cpp:475-480 | with an injective vote hash a vote is refused if and only if that masternode already has a recorded vote for that script and height |
| PaymentVotes.CleanIsByHeight | src/masternode-payments.cpp:613-640 | cleaning drops exactly the heights more than the limit below the tip, votes and entries alike |
| PaymentVotes.AddKeeps | src/masternode-payments.cpp:466-487 | adding a vote keeps both maps in agreement |
| MasternodePayments.Payments.AddWinningMasternode | src/masternode-payments.cpp:466-487 | in place: accepted exactly when the block is known and the hash new; then the masternode is among the voters and the tally is one higher |
| MasternodePayments.Payments.CleanPaymentList | src/masternode-payments.cpp:613-640 | erasing while iterating, in any order, gives the cleaned state |
| MasternodePayments.AddToPayments | src/masternode-payments.h:108-120 | the first entry with the script is raised, or a new one appended |
| PaymentRules.IsTransactionValid | src/masternode-payments.cpp:489-563 | true if and only if every level with a payee of at least 6 votes has such a payee paid what the level is due |
| PaymentRules.GetPayee | src/masternode-payments.h:122-134 | the first of the payees of the level with the most votes, or none exactly when the level has none |
| PaymentRules.Best | src/masternode-payments.h:122-134 | no payee of the level has more votes, and earlier ones have fewer |
| PaymentRules.FillBlockPayee | src/masternode-payments.cpp:238-286 | the payments appended level by level and their total |
| PaymentRules.BuiltBlockPasses | src/masternode-payments.cpp:489-563 | a built block passes the check for its height if and only if every level with a payee of six votes is due a non-zero payment or has such a payee paid anyway, by another output or as the payee of another level |
| PaymentRules.NothingElsePays | src/masternode-payments.cpp:489-563 | where nothing else pays the recorded payees, that means every such level is due a non-zero payment |
| PaymentRules.ExhaustedSupply | src/masternode-payments.cpp:267-268 | once the supply is exhausted the block passes if and only if every such level has such a payee among the other outputs |
| PaymentRules.RunBuildsPassing | src/masternode-payments.cpp:238-286 | after any run of votes with real levels, the block built on a tip with a block value of at least 15 units passes the check for its height |
| PaymentRules.ExhaustedSupplyFails | src/masternode-payments.cpp:267-268 | in particular it fails where nothing else pays the recorded payees, since a zero payment is omitted yet demanded |
| PaymentRules.BuilderPaysEnough | src/main.cpp:1610-1656 | the amount for the tip's height is never less than that for the next height |
| PaymentRules.PaymentsFit | src/main.cpp:1633-1656 | all levels together get at most 97% of the block value |
| PaymentRules.SplitReward | src/miner.cpp:382-408 | none above height 200; the outputs total block value plus fees, the miner keeps at least 3% and every fee, and the masternodes are paid from the second block on |
| PaymentRules.TakeOut | src/miner.cpp:396-408 | the payments are added behind and taken out of the last output |
| PaymentShares.PaymentsByLevel | src/masternode-payments.cpp:238-286 | the payments are those of levels 1 to 4 in order, with 7, 20, 30 and 40 percent of the block value, each to the payee with the most votes or, without votes, to the masternode next in line, and none where the amount is zero |
| PaymentShares.SupplyIsCapped | src/main.cpp:1610-1631 | the subsidy is paid in full while it fits under the maximum supply, then only what is left |
| VoteGate.LetThroughWhenLower | src/masternode-payments.cpp:445-464 | a vote is let through if and only if every earlier one under the same key, let through or not, was for a greater height |
| VoteGate.RemembersLowest | src/masternode-payments.cpp:445-464 | what is remembered for a key is the lowest height ever asked for |
| VoteGate.Gate.CanVote | src/masternode-payments.cpp:445-464 | the five lines in place |
| VoteGate.KeysShared | src/masternode-payments.cpp:449-449 | outputs of one transaction share a key exactly when index and level have the same sum |
| StakeFavour.PickIsFavoured | src/kernel.cpp:77-131 | in terms of the hashes: with an eligible block up to the stop time the pick is the one as good as every other and better than every earlier one, where a proof-of-work hash weighs 2^32 times as much, the low 32 bits of a proof-of-stake hash do not matter, and before the upgrade all proof-of-stake blocks are alike |
| StakeFavour.WorkNeedsSmallHash | src/kernel.cpp:114-118 | while a proof-of-stake block is eligible up to the stop time, a proof-of-work block is picked only with a hash below 2^224 |
| StakeFavour.AmongAlike | src/kernel.cpp:103-128 | among proof-of-work blocks the least hash wins; among proof-of-stake blocks the earliest before the upgrade, the least hash divided by 2^32 from then on |
| StakeFavour.SectionsGrow | src/kernel.cpp:57-62 | the sections grow from a third of the interval to all of it |
| StakeFavour.StartIsBeforeMinute | src/kernel.cpp:180-187 | the candidates reach back from the last full minute by the length of all sections |
| StakeRounds.RoundsSucceed | src/kernel.cpp:197-215 | with distinct indexed candidates each of the first min(64, n) rounds succeeds, picks what its rule asks for, and no block twice |
| StakeModifier.ScanPicks | src/kernel.cpp:89-131 | the scan ends at the least-ranked unselected candidate within the stop time, the first of equals |
| StakeModifier.ScanStarts | src/kernel.cpp:89-131 | if any candidate is unselected the scan finds one: the pick within the stop time, or the earliest if there is none |
| StakeRounds.FirstBlockGenerates | src/kernel.cpp:158-163 | the block on top of the genesis block is given the fixed modifier |
| StakeRounds.NeverFails | src/kernel.cpp:150-241 | on a chain built this way the next modifier can always be computed |
| StakeRounds.GeneratesWhenAdvanced | src/kernel.cpp:164-176 | a block past the first two generates a modifier if and only if the interval index of its parent is beyond that of the last generating block; otherwise it carries that block's modifier |
| StakeRounds.GeneratedBits | src/kernel.cpp:203-206 | bit k of a generated modifier is the entropy bit of the block picked in round k |
| StakeRounds.Candidates | src/kernel.cpp:184-187 | the longest run of blocks back from the tip with times not before the start |
| StakeRounds.SortedProps | src/kernel.cpp:190-191 | sorting by time and hash permutes the candidates into order |
| StakeKernel.GetLastStakeModifier | src/kernel.cpp:43-54 | the walk back ends at the nearest generating block or fails at the genesis block |
| StakeKernel.GetStakeModifierSelectionInterval | src/kernel.cpp:65-72 | the sum of the 64 sections |
| StakeKernel.SelectBlockFromCandidates | src/kernel.cpp:77-135 | the loop with its early exits computes the scan |
| StakeKernel.RunRounds | src/kernel.cpp:194-215 | the loop over rounds sets bit after bit of the modifier |
| StakeKernel.ComputeNextStakeModifier | src/kernel.cpp:150-241 | the whole computation, every exit included |
| ChainLocator.LocatorExactly | src/chain.cpp:29-55 | entry k of a locator is the ancestor k below for k up to 10 and 9 + 2^(k - 10) below from there on, or the genesis block, which is the last entry, where that is not above it |
| Chain.CChain.SetTip | src/chain.cpp:16-27 | despite stopping at the first agreeing entry, the chain becomes exactly the ancestors of the new tip |
| Chain.CChain.FindFork | src/chain.cpp:57-64 | the highest block common to the chain and the ancestry, with agreement everywhere below, or none if nothing is common |
| Chain.CChain.GetLocator | src/chain.cpp:29-55 | the locator of the block or of the tip, empty for an empty chain |
| Chain.LocatorProps | src/chain.cpp:29-55 | ancestors at strictly decreasing heights from the block to the genesis block, at most 12 + ceil(log2(h + 1)) of them |
| ChainIndex.BlockIndex.GetAncestor | src/main.cpp:3538-3559 | following skip pointers by the cost rule reaches the ancestor at the height, or null out of range |
| ChainIndex.BlockIndex.constructor | src/main.cpp:3566-3570 | building the skip pointer of a new block keeps the index linked |
| Base58.DecodeEncode | src/base58.cpp:25-119 | decoding the encoding of any byte string gives it back |
| Base58.EncodeDecode | src/base58.cpp:25-119 | a string decodes if and only if it is over the alphabet apart from surrounding white space, and encoding the result gives it back without that space |
| Base58.PlainStringRoundTrips | src/base58.cpp:25-119 | every string over the alphabet is the encoding of what it decodes to |
| Base58.CheckRoundTrip | src/base58.cpp:131-155 | Base58Check decoding inverts encoding for any hash |
| Base58.CheckAccepts | src/base58.cpp:140-155 | a string passes with result b if and only if, without surrounding space, it is the encoding of b with its checksum |
| Base58Buffers.EncodeFits | src/base58.cpp:95-95 | n * 138 / 100 + 1 base-58 digits hold every number of n bytes |
| Base58Buffers.DecodeFits | src/base58.cpp:37-37 | n * 733 / 1000 + 1 bytes hold every number of n base-58 digits |
| Positional.MulAddValue | src/base58.cpp:46-50 | one in-place pass loses nothing: the carry stands in front of the new digits |
| Positional.StripIsDigits | src/base58.cpp:59-61 | stripping leading zeroes of any representation leaves the digits of its value |
| Base58Convert.MulAddInPlace | src/base58.cpp:46-50 | the loop over the buffer computes the pass, with the carry below the multiplier |
| Base58Convert.Convert | src/base58.cpp:96-107 | the buffer ends with the value of the input and `carry == 0` holds after every byte |
| Base58Convert.TakeDigits | src/base58.cpp:38-53 | the decoding loop, `carry == 0` holding after every character, stops at the first character outside the alphabet |
| Base58Convert.Encode | src/base58.cpp:86-119 | the whole encoder |
| Base58Convert.Decode | src/base58.cpp:25-69 | the whole decoder, white space, NUL and every failure included |
| Base58Convert.EncodeCheck | src/base58.cpp:131-138 | the checksummed encoder |
| Base58Convert.DecodeCheck | src/base58.cpp:140-155 | the checksummed decoder with its failures |
| Compressor.DecompressCompress | src/compressor.cpp:140-183 | decompressing a compressed amount gives it back, for every natural number |
| Compressor.CompressDecompress | src/compressor.cpp:140-183 | and the other way round, so both are bijections |
| Compressor.CompressBound | src/compressor.cpp:140-157 | the compressed amount is at most nine times the amount |
| CompressorBound.RoundTrip64 | src/compressor.cpp:140-183 | a 64-bit amount survives the 64-bit code if and only if its last digit is zero or 9n + n % 10 - 9 is below 2^64 |
| CompressorBound.TensAreSmall | src/compressor.cpp:140-157 | the compressed form of a 64-bit amount ending in zero never wraps |
| CompressorBound.Shifted | src/compressor.cpp:159-183 | decompressing what is left of a wrapped form gives the amount shifted by one of two constants and scaled by a power of ten |
| CompressorBound.NotFixed | src/compressor.cpp:159-183 | the one residue that shift and scaling could give back is no amount that wraps that often |
| Compressor.BeyondTheBound | src/compressor.cpp:140-157 | a witness two units past (2^64 - 1) / 9: another amount comes back |
| Compressor.CompressAmount | src/compressor.cpp:140-157 | the loop with every operation wrapped to 64 bits |
| Compressor.DecompressAmount | src/compressor.cpp:159-183 | the loop with every product wrapped to 64 bits |

## Left out

- Integer widths other than in the amount compressor: ids, counters, heights, sizes and amounts are unbounded.
- AddrManCheck.Check: which faulty entry is reported when there are several, which depends on the order of ids.
- AddrManRuns.SelectionExists: says only that a slot can be found; the loop of Select_ ends with probability one, which is not modelled, and neither is GetChance.
- AddrManFile.Unserialize: asks for a manager that holds no entries; Clear leaves old entries in place (`ClearedConsistent`), and reading over them is not modelled. The bytes of an entry are one token; the bucket count is the only field whose bit flip is modelled.
- AddrMan.Manager.Add: the service bits are combined by a function parameter in place of bitwise or.
- AddrManOldFile.OldFileLoads: the version is any but 1, with the present number of buckets; files of another number of buckets are read by the same code, but their bucket data has another length.
- CoinsRuns.RunRefines: asks of a change that it treats all fully spent coins alike, which spending and writing do; a parent is changed only through its child, as the caches are used; best-block hashes are not propagated.
- CoinsCodec.CoinsRoundTrip: the compressed form of an output is any self-delimiting codec; GetSerializeSize is not modelled, since it computes the code with a different factor than Serialize.
- CoinsUndo.DisconnectUndoesConnect: the inputs of one transaction; the outputs the transaction itself adds, which are removed first, and the undo file are left out.
- CheckQueueRuns.WaitEnds: bounds the steps of progress; that a scheduler eventually takes them is not modelled. The flag fQuit is never set in the source and interruption of a wait is left out.
- MerkleBlock.ExtractedIsAuthentic: the size limit on transactions is part of the extraction; the bloom filter that chooses the matches is not modelled.
- BlockAssembler.CreateNewBlock: says nothing about what happens after the source reads an orphan it has removed; it says exactly when it does. Priorities and fee rates are given per transaction; the library heap is a search for the best. Coinstake creation is left out.
- BlockAssembly.NoDoubleSpend: asks that no pool transaction is already in the chain.
- PaymentRules.FillBlockPayee: the masternode next in line where no vote was recorded is a parameter.
- StakeRounds.NeverFails: asks that the blocks of the chain have distinct hashes and are in the index; a failed lookup is modelled, not excluded.
- PaymentRules.SplitReward: the proof-of-stake path, which takes the payments from the coinstake.
- Chain.CChain.GetLocator: the step is unbounded, where the source uses an int.
- VoteGate.Gate.CanVote: the hash in the key is any number.
- Signatures, key handling, script compression by public keys, BIP 38 and the hash functions themselves.
- Networking, RPC, wallet, GUI, databases, logging and command-line tools.
- Smaller containers (limitedmap, mruset), bloom filters, fee estimation, alerts and masternode synchronisation, which would only add easier members.
