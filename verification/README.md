# A verified model of the chain core

The system is a delegated-proof-of-stake node of the Graphene family. Elected witnesses produce
blocks in time slots; the node caches competing branches in a fork database, follows the highest
one, keeps blocks in a pair of files, and tells other nodes about its chain with short synopses. On
top of that it keeps the books of a core asset and several indexes that must agree with the objects
they are derived from.

The project models these parts in Dafny and proves what they are for:

| file | modules | models |
|---|---|---|
| Blocks.dfy | Wrappers, Blocks | block ids as terms that commit to their parents |
| Arithmetic.dfy | Arithmetic | division, powers of two, minimum and maximum |
| ForkDatabase.dfy | ForkTree | the cache of branches, and the search for where two branches part |
| ChainDatabase.dfy, ReorgProperties.dfy | Reorg, ReorgProperties | pushing blocks, switching to a higher branch, rolling back, and how far back the undo history reaches |
| PushEffects.dfy | PushEffects | what each kind of push leaves, block by block and id by id |
| ReorgExamples.dfy | ReorgExamples | forks at which a failed switch loses the old chain |
| FileTable.dfy | FileTable | what pushes leave in the block files |
| UndoDatabase.dfy | UndoLog | undo records: revert, merge, sessions |
| BlockStore.dfy | BlockFile | the index file and the block file, their repair, and the replay loop |
| Sync.dfy | Sync | the synopsis of a chain and the reply to it |
| Schedule.dfy, XorShift.dfy | Slots, Schedule, XorShift | slot arithmetic over runs, the witness shuffle and its generator |
| OrderStatistics.dfy, Irreversibility.dfy, MedianFeeds.dfy | the same, and OrderStatistics | selection, the last irreversible block, median price feeds |
| Quorum.dfy | Quorum | voting weights and thresholds |
| Payroll.dfy, Ledger.dfy | Payroll, Totals, Ledger | fees, cashback, budgets, payroll, and conservation of the core asset |
| MemberIndex.dfy | Membership | the reverse index of authorities |
| Gateways.dfy | GatewayRelation | the relation between gateways and assets |
| AmountText.dfy | AmountText | amounts printed and read back |

State that the program changes in place is held in classes whose methods have the program's loops
and branches; each method is proved against a function of the old state, or against the property it
is for. Exceptions are `None`, `false` or a named result. Applying a block to a state is a partial
function `exec` that the reorganisation results are generic in.

## Where the code does not do what it seems meant to

Each of these is stated here as an exact condition, and most have a lemma with a failing input.

- A failed fork switch does not always restore the old chain; it can throw half way and leave a part of
  either branch. Two things run out. The undo history is cut to the number of blocks that are not
  irreversible yet, and the blocks being tried make others irreversible; the sessions that proposals
  open inside a block take up room as well. And the fork database's own head steps back on every pop, so
  that it needs linked nodes below it. The exact condition, in lengths, windows and sessions, is
  `ReorgProperties.SwitchEnds`, and `NeverStuckIff` says when no block can bring it about. An ordinary
  fork need not be safe either (`OrdinaryForkIsSafeIff`). `FinalisedBranchStrands` gives the cause.
  Failing inputs, each reached by pushes from genesis and with the windows that the code sets, are
  `ReorgExamples.FinalisedForkStrands` for branches of ten blocks and more, `ProposalStrands` for nine,
  and `FailedSwitchAtGenesisIsNotAtomic`.
- A rollback stores the blocks it restores under the id of the block that was pushed, so that the block
  files go on naming the failed branch's blocks. Whether the files still agree with the chain is
  `FileTable.FiledAfterRollbackIff`, and whether any block can bring that about `FilesSafeIff`;
  `ReorgExamples.RollbackSpoilsFiles` is a failing input.
- A block that fails on top of the chain is no longer cached, but it stays the fork database's head. Until a
  higher block comes, a linked block of another branch is not parked but applied on the tip, where it fails and
  is forgotten (`PushEffects.FailedHeadForgetsSideBlocks`). A switch and a rollback leave that head behind as
  well, below the tip (`SwitchLeaves`, `RollbackLeaves`).
- When the supply caps leave no new supply, `budget_miners` and `pay_workers` pay out fees or
  platform money without debiting them (`Ledger.ConservesExactly`, `CapDuplicatesFees`,
  `CapDuplicatesPlatformMoney`).
- A fee field of 1 credits the scheduled fee but debits 1 (`Ledger.PayFee`, `ConservesExactly`,
  `FeeOfOneIsMinted`).
- Negative amounts with decimals are not read back from their text (`AmountText.RoundTripExactly`,
  `NegativeDecimalsAreLost`).
- A sign behind the first digit of an amount is let through and read twice, so that "5-3" is read as three, and
  the check against the largest supply is passed by (`AmountText.SignBehindDigit`).
- A synopsis of the whole chain runs out of range when the undo history is longer than the chain,
  which takes no more than one block and a session of pending transactions
  (`Sync.GetBlockchainSynopsis`, `PendingSessionBreaksSynopsis`).
- `account_member_index` keeps the members before a modification in one place for all accounts, so a
  modification inside another one overwrites them. The index is right afterwards exactly if the members
  recorded last are good enough for the outer change (`Membership.AccountIndex.ModifyAround`,
  `SwapAgreesIff`). They are whenever the outer account's members stay as they were, as when an
  account's upgrade pays out its fees; an outer change that gives its account a key of the inner one
  would be missed (`NestedGainIsMissed`).
- `asset_update_gateway_evaluator` tells only the lender options about a new whitelist, while the
  gateway operations tell all options (`GatewayRelation.OtherOptionsLagBehind`).
- The comment on `current_aslot` says that it equals all slots since genesis; the code leaves out
  the slots that maintenance skips (`Slots.SlotAccounting`).

## Model

| member | source | states |
|---|---|---|
| ForkTree.ForkDatabase.StartBlock | libraries/chain/fork_database.cpp:47-52 | the block becomes the head, without a link to a parent; a block already cached keeps its node |
| ForkTree.ForkDatabase.PushBlock | libraries/chain/fork_database.cpp:58-111 | a block is refused exactly if it is too old for the window or its predecessor is not cached; the head moves only to a higher block, which then prunes below its window |
| ForkTree.ForkDatabase.PopBlock | libraries/chain/fork_database.cpp:39-45 | the head steps to its parent if that is still cached, or held by a branch, and otherwise nothing changes |
| ForkTree.ForkDatabase.SetMaxSize | libraries/chain/fork_database.cpp:128-157 | exactly the nodes that the window under the head does not reach are dropped |
| ForkTree.ForkDatabase.PruneBelow | libraries/chain/fork_database.cpp:133-144 | the pruning loop drops exactly the nodes numbered below the floor |
| ForkTree.ForkDatabase.Remove | libraries/chain/fork_database.cpp:247-250 | exactly the node with this id is dropped |
| ForkTree.ForkDatabase.FetchBranchFrom | libraries/chain/fork_database.cpp:198-240 | terminates and returns the two branches of the specification, or throws exactly when that has none |
| ForkTree.ClimbStopsAtHighestMeeting | libraries/chain/fork_database.cpp:198-240 | the climb ends exactly at the first pair of ancestors, level with each other, that share their parent, and fails exactly when the cache holds none |
| ForkTree.BranchShape | libraries/chain/fork_database.cpp:198-240 | both lists are linked by parents, start at the two blocks asked for, and end in blocks with the same `previous` |
| ForkTree.BranchesPartAtHighestCommonAncestor | libraries/chain/fork_database.cpp:198-240 | if neither block is an ancestor of the other the lists share no block, and the `previous` they end in is the highest common ancestor |
| ForkTree.SharedBlockIsWholeBranch | libraries/chain/fork_database.cpp:222-238 | if the lists share a block, one of them is that single block |
| ForkTree.LongerBranchIsNotBelow | libraries/chain/fork_database.cpp:198-240 | the blocks of a strictly longer branch are no ancestors of the other tip, except possibly the shared last one |
| Reorg.ChainDatabase.OpenSession | libraries/db/undo_database.cpp:33-46 | a session that starts inside others drops the oldest states, as many as these and the open records outgrow the window by |
| Reorg.ChainDatabase.PushTransaction | libraries/chain/db_block.cpp:235-260 | the sessions of a pending transaction, of which two and more are nested, leave fewer undo states than the window |
| Reorg.ChainDatabase.Pass | libraries/chain/db_update.cpp:108-109 | the sessions of proposals before and after the window is set each drop what does not fit |
| Reorg.ChainDatabase.Resize | libraries/chain/db_update.cpp:108-109 | both windows are set, and the fork index loses what lies below its own |
| Reorg.ChainDatabase.ApplyBlock | libraries/chain/db_block.cpp:541-616 | the block is appended with its state exactly if it builds on the tip and executes; its session and those inside it drop the oldest undo states beyond the window, and a block that gets that far sets both windows |
| Reorg.ChainDatabase.PopBlock | libraries/chain/db_block.cpp:463-475 | one pop takes the tip and one undo state off and steps the fork database back, or throws when the head block is not found or either of these is exhausted |
| Reorg.ChainDatabase.PopUntil | libraries/chain/db_block.cpp:153-155 | the pop loop reaches the block k below exactly if k pops are possible; otherwise it stops after as many as are |
| Reorg.ChainDatabase.ApplyBranch | libraries/chain/db_block.cpp:157-167 | the new branch is applied oldest first up to its first failing block |
| Reorg.ChainDatabase.ApplyAndStore | libraries/chain/db_block.cpp:162-166 | a block is stored, under the given id, exactly if it was applied |
| Reorg.ChainDatabase.PopTried | libraries/chain/db_block.cpp:178-182 | what was tried is popped down to the meeting block exactly if undo states and linked nodes suffice |
| Reorg.ChainDatabase.RestoreOne | libraries/chain/db_block.cpp:185-191 | a block of the old branch applies again with the state it had |
| Reorg.ChainDatabase.RollBack | libraries/chain/db_block.cpp:169-192 | drops the failing block and those above it, pops what was applied, and restores the old branch unless the undo states or the linked nodes run out |
| Reorg.ChainDatabase.PopAndRestore | libraries/chain/db_block.cpp:180-191 | the old chain is back, or the pops stopped at the exact block where the undo states or the linked nodes end |
| Reorg.ChainDatabase.Restore | libraries/chain/db_block.cpp:184-191 | applying the old branch again gives the old links, states included; it sets the windows again, and files the blocks under the pushed block's id |
| Reorg.ChainDatabase.Forget | libraries/chain/db_block.cpp:172-177 | exactly the failing block and those above it leave the fork index |
| Reorg.ChainDatabase.TryBranch | libraries/chain/db_block.cpp:157-195 | the new branch replaces the old one, or the old one is restored, or the pops run out, each exactly when the specification says, with the undo history, the fork index and the files it leaves |
| Reorg.ChainDatabase.SwitchFork | libraries/chain/db_block.cpp:145-199 | the effect of a switch, in all its outcomes, on chain, undo history, fork database and files |
| Reorg.ChainDatabase.FollowHead | libraries/chain/db_block.cpp:142-200 | the fork database's head is followed exactly if it is higher and a branch to it can be found |
| Reorg.ChainDatabase.PushOnTop | libraries/chain/db_block.cpp:201-213 | on top of the chain the block becomes the tip and is stored, exactly if it builds on the tip and executes, or else the chain stays and its id is not in the fork index |
| Reorg.ChainDatabase.PushBlock | libraries/chain/db_block.cpp:132-213 | the result, chain, undo history and window, fork index, head and size, and the file table after a push; a failed block is not in the index, and only a switch or a block on top changes the chain |
| PushEffects.ForkPush | libraries/chain/fork_database.cpp:58-105 | which block is taken in, which block is the head then, and id by id what is cached |
| PushEffects.WindowKeeps | libraries/chain/fork_database.cpp:128-157 | pruning under a head keeps exactly the ids that the window reaches down to |
| PushEffects.TakenInIsLinked | libraries/chain/fork_database.cpp:83-103 | a new block is taken in exactly if it is recent enough and its link locks, and then it continues the line of its predecessor's node |
| PushEffects.HeadStaysHighest | libraries/chain/fork_database.cpp:91-105 | the head stays the highest cached block, and of several the one that came first |
| PushEffects.LinkDiesWithItsNode | libraries/chain/fork_database.cpp:39-45 | a link locks only while the very node it was made for is cached, even if an equal block comes in again |
| PushEffects.TrimFits | libraries/db/undo_database.cpp:33-46 | a session keeps the newest undo states, as many as the window holds beside the open records |
| PushEffects.RefusedPush | libraries/chain/fork_database.cpp:76-88 | exactly the blocks that are too old or not linked are refused, and they change nothing |
| PushEffects.ParkedPush | libraries/chain/db_block.cpp:142-200 | off the chain a block is parked exactly if its branch is not higher than the tip; parking, or finding no branch, changes the fork database alone |
| PushEffects.NoBranchIff | libraries/chain/db_block.cpp:145-151 | a higher branch is not found exactly if the cached lines of the new head and of the tip hold no siblings |
| PushEffects.PushExtends | libraries/chain/db_block.cpp:201-206 | a block that executes on the tip is the new tip; its window says which ids stay cached, and its sessions how many undo states do |
| PushEffects.FailedPushForgets | libraries/chain/db_block.cpp:206-210 | a block that fails on top of the chain leaves the chain as it was and is no longer cached; every other id is cached exactly if it was and the floors leave it |
| PushEffects.FailedPushUndo | libraries/chain/db_block.cpp:201-210 | what a failing block costs in undo states, and which windows it leaves, by how far it got |
| PushEffects.ChildOfFailedIsRefused | libraries/chain/fork_database.cpp:83-88 | a child of a block that failed on top of the chain does not link |
| PushEffects.FailedHeadForgetsSideBlocks | libraries/chain/db_block.cpp:138-210 | the failed block stays the head, so that a linked block of another branch that is not higher is applied on the tip, fails, and is forgotten |
| PushEffects.SwitchLeaves | libraries/chain/db_block.cpp:153-167 | after a switch the fork database's head is below the new tip by the length of the old branch, and the windows of the new blocks say which ids are cached |
| PushEffects.RollbackLeaves | libraries/chain/db_block.cpp:169-193 | after a rollback its head is below the old tip by the number of tried blocks; id by id what is cached |
| Reorg.ChainDatabase.GetBlockIdsOnFork | libraries/chain/db_block.cpp:93-109 | the ids of the fork's branch followed by the meeting block |
| Reorg.ChainIsReplay | libraries/chain/db_block.cpp:541-616 | a chain is what replaying its own blocks from its base gives, from any point of it on |
| Reorg.ExtendContinues | libraries/chain/db_block.cpp:157-167 | applied blocks continue the chain, and the first block left out is one that does not build on it or fails |
| Reorg.TipNumber | libraries/chain/db_block.cpp:463-475 | the tip's number is the base's number plus the chain's length |
| ReorgProperties.PushKeepsReplay | libraries/chain/db_block.cpp:132-213 | after every push the chain is the replay of its own blocks |
| ReorgProperties.SwitchedChain | libraries/chain/db_block.cpp:145-199 | after a switch the chain is the old one up to the meeting block and then the new branch oldest first, with a strictly higher tip that is the fork head |
| ReorgProperties.UndoableIff | libraries/db/undo_database.cpp:33-46 | blocks just applied can all be undone exactly if the window each left covers the blocks up to it and the sessions of the next, and its own late sessions fit under its own window |
| ReorgProperties.HeldLine | libraries/chain/fork_database.cpp:128-157 | how far the old branch stays linked while its nodes are held and the new branch's windows prune the index |
| ReorgProperties.FailureUndoableIff | libraries/db/undo_database.cpp:33-46 | when a block fails on top of others, these can all be undone exactly if the sessions of every block, the failing one included, left room for those below it |
| Reorg.BranchFindable | libraries/chain/db_block.cpp:66-72 | the pops of the old branch find its blocks in the fork index |
| Reorg.TriedFindable | libraries/chain/db_block.cpp:66-72 | the pops of the new branch find its blocks in the files, where they were stored when they were applied |
| ReorgProperties.SwitchEnds | libraries/chain/db_block.cpp:145-199 | a switch ends as switched, rolled back or stranded exactly by the undo history, the linked nodes, and the windows and sessions of the blocks that were tried and of the one that failed |
| ReorgProperties.NeverStuckIff | libraries/chain/db_block.cpp:145-199 | for given windows and depths of sessions, no behaviour of the blocks can make a switch throw half way exactly if every point of failure can be returned from, by lengths and these alone |
| ReorgProperties.FailedSwitchIsAtomicIff | libraries/chain/db_block.cpp:169-193 | a failed switch leaves chain and states as before exactly if it ends in a rollback, or not one pop can go through, or the old branch is one block that the new one starts with and the way back has undo states and nodes for all but that |
| ReorgProperties.RollbackForgetsTheFailingBlock | libraries/chain/db_block.cpp:172-178 | after a rollback the failing block and those above it on its branch are gone from the fork index, and those below it are there down to the lowest floor that any of the windows set |
| ReorgProperties.OrdinaryForkIsSafeIff | libraries/chain/db_block.cpp:145-199 | a new block that is the first to outgrow the chain, with the meeting block cached and the old branch undoable, can never strand, whatever the blocks do, exactly if each block's window reaches back to the meeting block and has room for the sessions of the next |
| ReorgProperties.UndoableUnlessIrreversible | libraries/chain/db_update.cpp:108-109 | with the windows that the code sets, a tried branch can be undone exactly if at no block more than its first block had become irreversible, counting the sessions of proposals as well |
| ReorgProperties.FinalisedBranchStrands | libraries/chain/db_block.cpp:145-199 | a branch that makes a block above its first irreversible, or its first before a block with a session, and then fails cannot be taken back |
| ReorgProperties.PushNeverLowersHead | libraries/chain/db_block.cpp:132-213 | a push that does not strand leaves the chain as it is or raises its tip |
| ReorgProperties.HeadNeverDrops | libraries/chain/db_block.cpp:132-213 | the same over every run of pushes, whatever undo states pending transactions drop in between, each chain on the way being the replay of its blocks |
| ReorgExamples.FailedSwitchAtGenesisIsNotAtomic | libraries/chain/db_block.cpp:169-193 | one block at genesis and a two-block rival that fails, with the windows that the code sets: the old chain is lost |
| ReorgExamples.EightOfEleven | libraries/chain/db_update.cpp:135-168 | when eight of eleven witnesses take turns, each block makes the one seven below it irreversible, as the examples have it |
| ReorgExamples.ThreeOfElevenDecideNothing | libraries/chain/db_update.cpp:135-168 | as long as only the three others have signed, nothing is irreversible |
| ReorgExamples.AllButFinalises | libraries/chain/db_update.cpp:108-109 | the examples set every window from the last irreversible number of the state, as the code does |
| ReorgExamples.LongForkIsReached | libraries/chain/db_block.cpp:132-213 | the forked node comes about by a run of pushes from genesis |
| ReorgExamples.GenesisForkIsReached | libraries/chain/db_block.cpp:132-213 | so does the node of the fork at genesis |
| ReorgExamples.LongForkEnds | libraries/chain/db_block.cpp:145-199 | whether a fork of h blocks a side is rolled back or strands when its last block fails, by h and the sessions of that block |
| ReorgExamples.FinalisedForkStrands | libraries/chain/db_block.cpp:169-193 | an ordinary fork of ten blocks a side or more, reached by pushes, whose new branch has made its own second block irreversible when its last block fails: the way back throws |
| ReorgExamples.ProposalStrands | libraries/chain/db_block.cpp:280-300 | at nine blocks a side, a session in the failing block decides between rollback and stranding |
| ReorgExamples.RollbackSpoilsFiles | libraries/chain/db_block.cpp:184-191 | a shorter fork is rolled back, and the files, which agreed with the chain before, do so no more |
| ReorgProperties.ForkIdsAreConsecutive | libraries/chain/db_block.cpp:93-109 | the ids are ancestors of the reference and run down by one from it to the meeting block, which is on the main chain, so the length the synopsis asserts is right |
| FileTable.SlotAfterBack | libraries/chain/db_block.cpp:166-189 | block by block: the file slot of an old block after a rollback names that block exactly if no tried block took it, and the pushed block's slot is not its own |
| FileTable.FiledUnlessRolledBack | libraries/chain/db_block.cpp:132-213 | the block files keep agreeing with the chain through every push that does not roll back, even one that throws half way |
| FileTable.FiledAfterRollbackIff | libraries/chain/db_block.cpp:184-191 | after a rollback the files agree with the restored chain exactly if no block of the new branch took an old block's slot, which takes that none was applied or that it starts with the old tip, and the pushed block's own slot is not on the chain |
| FileTable.FilesSafeIff | libraries/chain/db_block.cpp:132-213 | for given windows and depths of sessions, no behaviour of the blocks can make the files disagree with the chain exactly if no failure that may be rolled back does harm, by lengths, windows and numbers alone |
| FileTable.RollbackFilesTooMuch | libraries/chain/db_block.cpp:189 | a rollback of a push above the chain leaves an entry above the head |
| FileTable.FilesAreTheChain | libraries/chain/db_block.cpp:132-213 | over every run without a failed switch the files hold exactly the chain, whatever pending transactions do in between |
| FileTable.ExactIsConsistent | libraries/chain/db_block.cpp:61-64 | files that hold exactly a chain from genesis meet what the sync handshake relies on |
| UndoLog.RevertRestores | libraries/db/undo_database.cpp:95-123 | reverting a record gives back the store it was opened on |
| UndoLog.MergeRecords | libraries/db/undo_database.cpp:125-243 | the merge loops compute the merged record |
| UndoLog.MergeComposes | libraries/db/undo_database.cpp:125-243 | a merged record undoes both: it tracks from the older store to the newest |
| UndoLog.ObjectDatabase.Create | libraries/db/undo_database.cpp:47-58 | a new object under the next id, with the stack of records still tracking every older store |
| UndoLog.ObjectDatabase.Modify | libraries/db/undo_database.cpp:60-71 | the object has its new value, and the records still track |
| UndoLog.ObjectDatabase.Remove | libraries/db/undo_database.cpp:73-93 | the object is gone, and the records still track |
| UndoLog.ObjectDatabase.StartSession | libraries/db/undo_database.cpp:33-46 | a record is opened on the present store, and the oldest are dropped beyond the limit |
| UndoLog.ObjectDatabase.PlayBack | libraries/db/undo_database.cpp:95-123 | the store becomes the record's reversion |
| UndoLog.ObjectDatabase.Undo | libraries/db/undo_database.cpp:95-123 | the store is what it was when the session began; without an active session it throws |
| UndoLog.ObjectDatabase.PopCommit | libraries/db/undo_database.cpp:251-287 | the store is what it was before the last committed session |
| UndoLog.ObjectDatabase.Commit | libraries/db/undo_database.cpp:245-249 | the session ends, its record stays |
| UndoLog.ObjectDatabase.Merge | libraries/db/undo_database.cpp:125-243 | the last two sessions become one that undoes to the older store; it throws exactly without an active session or a second record |
| UndoLog.ObjectDatabase.ApplyInSession | libraries/chain/db_block.cpp:201-210 | it succeeds exactly if no change throws, and then the store is the fold of all changes; otherwise the store is as before |
| BlockFile.EntryRoundTrip | libraries/chain/block_database.cpp:93-135 | an index entry is read back as it was packed |
| BlockFile.EntryLayout | libraries/chain/block_database.cpp:36-43 | byte by byte: eight bytes of position and four of size, low byte first, and then the id |
| BlockFile.NumberRoundTrip | libraries/chain/protocol/block.cpp:36-39 | an id has a number exactly if its first four bytes are that number, high byte first |
| BlockFile.WriteSlot | libraries/chain/block_database.cpp:93-135 | writing one slot changes no other, and a gap before it reads as empty entries |
| BlockFile.HoldsFetch | libraries/chain/block_database.cpp:230-261 | when the files hold a map of blocks, fetching by number is looking the number up |
| BlockFile.StoreHolds | libraries/chain/block_database.cpp:93-135 | storing a block keeps the files holding a map, updated at its number |
| BlockFile.RemoveHolds | libraries/chain/block_database.cpp:137-157 | removing a block keeps the files holding a map, without its number |
| BlockFile.Scan | libraries/chain/block_database.cpp:263-314 | on any file: the last valid entry is found, every later one is invalid, and only what follows it is cut |
| BlockFile.BlockStore.Store | libraries/chain/block_database.cpp:93-135 | the contents are updated at the block's number |
| BlockFile.BlockStore.Remove | libraries/chain/block_database.cpp:137-157 | the contents lose this id, and no other; it throws exactly if the number lies past the end of the index, so a slot that is skipped or cleared is passed over |
| BlockFile.BlockStore.Contains | libraries/chain/block_database.cpp:159-175 | true exactly for a stored block with this id |
| BlockFile.BlockStore.FetchByNumber | libraries/chain/block_database.cpp:230-261 | the block under a number, or none |
| BlockFile.BlockStore.FetchOptional | libraries/chain/block_database.cpp:196-228 | the block with an id, or none |
| BlockFile.BlockStore.LastId | libraries/chain/block_database.cpp:263-331 | the id of the highest stored block, the contents unchanged |
| BlockFile.BlockStore.TrimAbove | libraries/chain/db_management.cpp:170-184 | the loop terminates; no block above the gap remains and every block below is unchanged |
| BlockFile.BlockStore.Replay | libraries/chain/db_management.cpp:159-197 | the blocks up to the first gap are replayed in order, and after a gap only a prefix remains |
| Sync.PointsHalve | libraries/app/application.cpp:908 | every step halves, rounding down, what is left up to the true high block |
| Sync.PointsIncrease | libraries/app/application.cpp:899-909 | the numbers of a synopsis strictly increase |
| Sync.PointsAreFew | libraries/app/application.cpp:899-909 | there are at most floor(log2(true high - low + 1)) + 1 of them |
| Sync.PointsEndAtHigh | libraries/app/application.cpp:899-909 | with nothing after the reference the last is the high block itself |
| Sync.Summarise | libraries/app/application.cpp:888-909 | the loop ends, its list is the list of points, and the index is out of range exactly when low starts above high |
| Sync.FindRange | libraries/app/application.cpp:797-886 | which blocks the synopsis is about, or which exception is thrown, by the head, the undo history and where the fork leaves |
| Sync.GetBlockchainSynopsis | libraries/app/application.cpp:795-915 | for each kind of reference point the ids, by number, of the main chain's blocks from the last that cannot be undone and then of the fork's; and each way it throws |
| Sync.SynopsisOf | libraries/app/application.cpp:797-909 | for a reference block on the main chain the ids start at the lower of it and the last block that cannot be undone; for one on a fork they go up the main chain to the meeting block, and then up the fork |
| Sync.SynopsisEnds | libraries/app/application.cpp:888-909 | the first id is that of the low end, and the last is the reference block, or the head, when nothing follows |
| Sync.SynopsisNumbers | libraries/app/application.cpp:899-909 | every id carries the number of its point, on the main chain and on a fork |
| Sync.GetBlockIds | libraries/app/application.cpp:657-707 | the reply holds consecutive ids from the last known one on, as many as the limit and the head allow, with the right remaining count |
| Sync.CollectIds | libraries/app/application.cpp:695-704 | entry by entry the ids of the main chain from a number on, and how many follow |
| Sync.SearchStops | libraries/app/application.cpp:682-693 | the search passes exactly the ids that are unknown or on a fork, and stops at the last other one; nothing filed under its number makes it throw |
| Sync.SearchFindsHighestShared | libraries/app/application.cpp:682-693 | the backward search finds the highest entry that both chains share, and throws exactly if the responder knows an entry above its own head |
| Sync.SynopsisAnswered | libraries/app/application.cpp:682-693 | ids at any increasing points of one chain, searched by the other, lead to the highest shared point |
| Sync.Handshake | libraries/app/application.cpp:657-707 | when two chains share exactly blocks 1 to f, the reply starts at the highest synopsis block at or below f, or there is none and the peer is unreachable, exactly unless the responder knows an id above its head; at most as many blocks are sent twice as the asker has above f |
| Sync.PendingSessionBreaksSynopsis | libraries/chain/db_getter.cpp:99-102 | head 1 and two undo states: the low end wraps around and the synopsis is out of range |
| Slots.SlotAtInvertsSlotTime | libraries/chain/db_witness_schedule.cpp:42-78 | the slot at a slot's time is that slot |
| Slots.SlotAtBrackets | libraries/chain/db_witness_schedule.cpp:72-78 | the slot of a time is the last one that has begun |
| Slots.OwnTimeIsBeforeFirstSlot | libraries/chain/db_witness_schedule.cpp:72-78 | the head block's own time is in slot zero |
| Slots.SlotCountsIntervals | libraries/chain/db_update.cpp:49-96 | a block advances the slot count by the aligned intervals since its parent, less the skipped ones |
| Slots.FirstSlotCountsIntervals | libraries/chain/db_witness_schedule.cpp:42-57 | the first block counts from genesis, one less if it falls early in its interval |
| Slots.SlotAccounting | libraries/chain/db_update.cpp:49-96 | over every run, the slot count is the aligned intervals since genesis less the slots skipped on maintenance blocks |
| Slots.AlignedSlotAccounting | libraries/chain/db_update.cpp:49-96 | the same with no correction when genesis is aligned |
| Slots.SlotsNeverRepeat | libraries/chain/db_update.cpp:88-96 | absolute slots strictly increase along a run |
| Schedule.WitnessSchedule.Update | libraries/chain/db_witness_schedule.cpp:86-119 | at a multiple of the witness count the active witnesses are shuffled by one swap per position, with what the generator draws; otherwise nothing changes |
| Schedule.ShuffleSettles | libraries/chain/db_witness_schedule.cpp:102-117 | a position gets the witness at its target and keeps it, and nobody is lost |
| Schedule.EveryOrderIsReached | libraries/chain/db_witness_schedule.cpp:102-117 | every order of the witnesses comes about by some targets |
| Schedule.TargetsAreUnique | libraries/chain/db_witness_schedule.cpp:102-117 | and by only one sequence of them, so that fair draws make a fair schedule |
| Schedule.DrawsDiffer | libraries/chain/db_witness_schedule.cpp:101-113 | no two positions of a round draw the same number, nor does a position at different times |
| XorShift.StepIsInjective | libraries/chain/db_witness_schedule.cpp:106-110 | the generator loses nothing: different seeds give different draws |
| XorShift.MixRightBit | libraries/chain/db_witness_schedule.cpp:107-109 | bit by bit, what a word becomes when it is mixed with itself shifted right |
| XorShift.MixLeftBit | libraries/chain/db_witness_schedule.cpp:108 | the same for a shift to the left, with what leaves 64 bits lost |
| Schedule.WitnessSchedule.ScheduleMovesOn | libraries/chain/db_witness_schedule.cpp:34-40 | the witness of a later slot is that of an earlier one once the slots between have passed |
| Schedule.MultisetKeepsDistinct | libraries/chain/db_witness_schedule.cpp:98-117 | a shuffle of distinct witnesses names each of them once |
| Schedule.WitnessSchedule.EveryWindowIsFair | libraries/chain/db_witness_schedule.cpp:34-40 | in every window of n consecutive slots each of the n scheduled witnesses has exactly one |
| OrderStatistics.NthElement | libraries/chain/db_update.cpp:153-157 | selection permutes the array and puts an element of the asked rank in its place, with the lesser before and the greater behind |
| OrderStatistics.NthIsUnique | libraries/chain/asset_object.cpp:78-90 | which value has a rank does not depend on the order of the elements |
| OrderStatistics.MajorityBindsMedian | libraries/chain/asset_object.cpp:78-90 | if more than half of the values lie in an interval, so does the element at half the size |
| Irreversibility.NthIsCandidate | libraries/chain/db_update.cpp:151-159 | the selected number is the largest that at least n - floor((100% - threshold) n / 100%) witnesses have confirmed at or beyond |
| Irreversibility.SevenTenthsConfirm | libraries/chain/db_update.cpp:151 | those that have to confirm are the fewest that make seven tenths of all |
| Irreversibility.Confirmations.UpdateLastIrreversible | libraries/chain/db_update.cpp:135-168 | the last irreversible number becomes the greater of itself and the candidate |
| Irreversibility.Confirmations.ApplyBlock | libraries/chain/db_update.cpp:112-168 | a block never lowers the irreversible number nor puts it above the head, and every candidate is at or below it |
| Irreversibility.Confirmations.Run | libraries/chain/db_update.cpp:112-168 | over every run of blocks and elections the irreversible number never falls, never passes the head, and only moves to a number that enough of the then active witnesses have confirmed |
| MedianFeeds.PriceLessTransitive | libraries/chain/asset_object.cpp:81-86 | comparing prices by cross products is transitive, strictly and weakly, as selection needs it |
| MedianFeeds.PriceOrderIsRatioOrder | libraries/chain/protocol/asset.cpp:32-54 | prices compare as their ratios of base to quote do, and are the same exactly if these are |
| MedianFeeds.PricesAreOrdered | libraries/chain/protocol/asset.cpp:32-54 | of two prices exactly one is less, or they are the same; with equal quotes the bases decide |
| MedianFeeds.LiveInOrder | libraries/chain/asset_object.cpp:48-57 | exactly the published feeds that are younger than their lifetime are collected, in their order |
| MedianFeeds.OldestIsLeast | libraries/chain/asset_object.cpp:48-57 | the publication time is the least of those of the collected feeds and now |
| MedianFeeds.SelectMiddle | libraries/chain/asset_object.cpp:80-90 | one field's selection gives that field's middle element although earlier fields reordered the vector |
| MedianFeeds.AssetFeeds.Collect | libraries/chain/asset_object.cpp:48-57 | exactly the unexpired feeds are collected, with the oldest publication time |
| MedianFeeds.AssetFeeds.UpdateMedianFeeds | libraries/chain/asset_object.cpp:46-97 | too few feeds give the null feed, and otherwise every field has rank size/2 among the live feeds, prices in the order of their ratios |
| MedianFeeds.MajorityBindsEveryField | libraries/chain/asset_object.cpp:78-90 | if more than half of the live feeds lie between two bounds in a field, so does the median; prices lie as their real ratios do |
| Quorum.Tally | libraries/chain/db_maint.cpp:402-406 | the first votes of each account, and the total of all |
| Quorum.FirstEntryCounts | libraries/chain/db_maint.cpp:402-406 | an account that is listed again keeps the votes of its first entry |
| Quorum.TotalAdds | libraries/chain/db_maint.cpp:402-406 | the total adds up all entries, repeated accounts included |
| Quorum.Weigh | libraries/chain/db_maint.cpp:411-420 | the scaled weights, and half their sum plus one |
| Quorum.ScaledFits | libraries/chain/db_maint.cpp:408-415 | every weight of at most the total lies in 1 to 65535 |
| Quorum.ShiftDivides | libraries/chain/db_maint.cpp:414 | shifting divides by a power of two and rounds down |
| Quorum.SixteenBitsStay | libraries/chain/db_maint.cpp:408-410 | a total of up to sixteen bits loses none, and of a larger one exactly the top sixteen stay |
| Quorum.WeightIsProportional | libraries/chain/db_maint.cpp:411-415 | weights are the votes over one common power of two, rounded down, except that nobody's is zero |
| Quorum.WeightsKeepOrder | libraries/chain/db_maint.cpp:411-417 | more votes never weigh less |
| Quorum.UpdateAuthority | libraries/chain/db_maint.cpp:393-421 | the elected authority, with all weights in 1 to 65535; the committee and the budget twins compute the same |
| Quorum.QuorumsIntersect | libraries/chain/db_maint.cpp:419-420 | two sets of approvers that each reach the threshold share a member |
| Quorum.ThresholdIsReachable | libraries/chain/db_maint.cpp:411-420 | all members together reach the threshold |
| Quorum.VoteCounter.Add | libraries/chain/include/graphene/chain/vote_count.hpp:37-53 | weights scaled by the first vote, kept in 1 to 65535 and in the order of votes |
| Quorum.VoteCounter.Finish | libraries/chain/include/graphene/chain/vote_count.hpp:55-64 | the threshold is a majority of the weights; without votes the authority stays |
| Payroll.RankedIsOrdered | libraries/chain/db_maint.cpp:316-323 | ranking loses and doubles nobody and leaves nobody before one that goes first |
| Payroll.BudgetRoundsDown | libraries/chain/include/graphene/chain/worker_object.hpp:156-167 | a worker asks for its daily pay scaled to the time since the last budget, rounded down |
| Payroll.ActiveExactly | libraries/chain/db_maint.cpp:246-255 | the payroll has every active worker as often as it is listed, and no other |
| Payroll.MoreStakeGoesFirst | libraries/chain/db_maint.cpp:316-341 | a worker with more stake, or with the same and a lower id, gets all it asks for before another gets anything |
| Payroll.PayoutsInOrder | libraries/chain/db_maint.cpp:316-341 | so the whole payroll is paid in the order of stakes and ids |
| Payroll.PayoutsAddUp | libraries/chain/db_maint.cpp:325-341 | the pays add up to the budget, as far as it is asked for |
| Payroll.RequestedPermutation | libraries/chain/db_maint.cpp:247-256 | what a payroll asks for does not depend on its order |
| Payroll.PayrollSpendsItsBudget | libraries/chain/db_maint.cpp:325-341 | the first n in rank are paid all they ask for, as far as the budget goes |
| Payroll.HigherRankIsPaidFirst | libraries/chain/db_maint.cpp:325-341 | nobody is paid while someone ranked higher goes short |
| Ledger.CutFeeBounds | libraries/chain/account_object.cpp:38-50 | two cuts of sound percentages never exceed the fee |
| Ledger.CutFeeRoundsDown | libraries/chain/account_object.cpp:38-50 | a cut is the exact share in ten-thousandths, rounded down |
| Ledger.SharesByRole | libraries/chain/account_object.cpp:92-131 | who gets which share of a fee, by role; with the network's cut these are the whole fee, and the chain's own accounts get none |
| Ledger.AcceptedFeesCover | libraries/chain/evaluator.cpp:116-174 | an accepted fee credits the scheduled fee at least, and any field of that much, other than 1, is accepted and credited as it is |
| Ledger.Ledger.constructor | libraries/chain/db_init.cpp:601-607 | the books at genesis are in order, and what is held nowhere is exactly what waits to be claimed |
| Ledger.Ledger.AdjustBalance | libraries/chain/db_balance.cpp:66-106 | the balance and the total change by the amount, or the balance is insufficient and nothing changes |
| Ledger.Ledger.DepositLazyVesting | libraries/chain/db_balance.cpp:108-157 | the amount goes into the old balance exactly if that fits, and else into a new one; the owner has it more, nobody else has anything more or less |
| Ledger.Ledger.DepositCashback | libraries/chain/db_balance.cpp:159-195 | the account has the amount more in vesting, and nobody else; for the chain's own accounts the supply shrinks instead |
| Ledger.Ledger.DepositWitnessPay | libraries/chain/db_balance.cpp:197-219 | the witness's account, and nobody else, has the pay more in vesting |
| Ledger.Ledger.PayForBlock | libraries/chain/db_update.cpp:112-126 | the pay moves from the witness budget to vesting |
| Ledger.Ledger.PayFee | libraries/chain/evaluator.cpp:116-174 | which fees are accepted, which books they move between, and by how much what is credited exceeds what is debited |
| Ledger.Ledger.Charge | libraries/chain/evaluator.cpp:116-174 | the fee field leaves the payer's balance and the credit is pending, or the balance is too low and nothing changes |
| Ledger.Ledger.CreditFee | libraries/chain/account_object.cpp:165-171 | above the threshold a fee is pending, else it is pending as vested |
| Ledger.Ledger.PayOutFees | libraries/chain/account_object.cpp:92-131 | every owner gets the shares of its roles, the network its cut, and all of them add up to the fee |
| Ledger.Ledger.PayOutBoth | libraries/chain/account_object.cpp:133-134 | the shares of both kinds of pending fees add up for every owner |
| Ledger.Ledger.ClearPending | libraries/chain/account_object.cpp:136-140 | both pending amounts are zero, all others as before |
| Ledger.Ledger.ProcessFees | libraries/chain/account_object.cpp:88-141 | both kinds of pending fees are cleared and spread over the owners, and nothing is lost to rounding |
| Ledger.Ledger.BudgetMiners | libraries/chain/db_maint.cpp:154-235 | the new supply, the budget, which falls short only at a cap, and what is credited without a debit |
| Ledger.NewSupplyMeetsNeed | libraries/chain/db_maint.cpp:203-214 | new supply is made only for what the store lacks, and less than that only if a cap leaves no more room |
| Ledger.BudgetTime | libraries/chain/db_maint.cpp:182-200 | there is a new budget exactly after an earlier one, and no new supply as long as fees and the unused budget suffice |
| Ledger.FullPayReachesMaintenance | libraries/chain/db_maint.cpp:163-189 | the budget is the pay for just as many blocks as reach the next maintenance |
| Ledger.PayrollIsCapped | libraries/chain/db_maint.cpp:257-261 | the payroll is what is asked for, or the daily limit scaled to the time since the last one, if that is less |
| Ledger.Ledger.FundWorkers | libraries/chain/db_maint.cpp:258-307 | what the platform account pays and what is new supply, which falls short only at a cap, and what is paid without a debit |
| Ledger.Ledger.PayWorker | libraries/chain/worker_evaluator.cpp:112-143 | the pay of each kind of worker goes to its one place, and nothing else changes |
| Ledger.Ledger.PayByRank | libraries/chain/db_maint.cpp:325-341 | every holding grows by exactly its workers' shares, and the whole budget is handed out |
| Ledger.Ledger.PayWorkers | libraries/chain/db_maint.cpp:237-343 | exactly the active workers are paid, and nobody gets anything while one with more stake, or with the same and a lower id, goes short; the pays add up to the budget and reach their places; and what is paid without a debit |
| Ledger.Ledger.HandOut | libraries/chain/db_maint.cpp:312-341 | the second half: the active workers share the budget in the order of stakes and ids |
| Ledger.Ledger.ProcessBudget | libraries/chain/db_maint.cpp:629-650 | both supplies and both drifts, and the payroll in the order of stakes and ids |
| Ledger.Ledger.GatewayIssue | libraries/chain/account_member_evaluator.cpp:108-191 | issue and revoke succeed exactly within the caps and holdings, and move all four amounts alike |
| Ledger.Ledger.Reserve | libraries/chain/asset_evaluator.cpp:249-280 | what is reserved leaves both a balance and the supply |
| Ledger.Ledger.MoveFees | libraries/chain/asset_evaluator.cpp:787-840 | fees move between the store and a balance |
| Ledger.Ledger.Perform | libraries/chain/db_maint.cpp:154-343 | every operation keeps the caps and the books in order, and adds exactly its drift to the holdings |
| Ledger.Ledger.Run | libraries/chain/db_maint.cpp:154-343 | over every run, supply not held anywhere moves by exactly the drifts, and not at all if each operation's guard holds |
| Ledger.ConservesExactly | libraries/chain/db_maint.cpp:154-343 | an operation conserves the core asset exactly under a guard on fees, stores, needs and caps |
| Ledger.DriftOnlyAdds | libraries/chain/db_maint.cpp:154-343 | a drift never takes anything away |
| Ledger.CapDuplicatesFees | libraries/chain/db_maint.cpp:201-233 | at the miners' cap stored fees are credited and kept, with amounts of a running chain |
| Ledger.CapDuplicatesPlatformMoney | libraries/chain/db_maint.cpp:276-304 | at the budget cap a worker is paid what the platform account holds, and the account keeps it |
| Ledger.FeeOfOneIsMinted | libraries/chain/evaluator.cpp:116-174 | a fee field of 1 debits 1 and credits the scheduled fee |
| Totals.TotalUpdate | libraries/chain/db_balance.cpp:66-106 | changing one entry changes a total by the difference |
| Membership.Enter | libraries/chain/account_object.cpp:208-218 | the account is listed under exactly the keys in addition |
| Membership.Leave | libraries/chain/account_object.cpp:226-236 | the account is listed under none of the keys, all else unchanged |
| Membership.AgreesIsRescan | libraries/chain/account_object.cpp:173-201 | an index agrees with the accounts exactly if each set is what a rescan finds |
| Membership.MembersAreNamed | libraries/chain/account_object.cpp:173-201 | members are the accounts, keys and addresses that either authority names, the memo key as a key and, converted, as an address |
| Membership.AgreesByFields | libraries/chain/account_object.cpp:173-201 | agreeing with a rescan is listing under each key exactly the accounts whose fields name it |
| Membership.LookupFindsWhoNames | libraries/chain/account_object.cpp:173-201 | what one look into each map finds, in the fields of the accounts |
| Membership.SwapAgreesIff | libraries/chain/account_object.cpp:250-315 | updating by set differences keeps agreement exactly if the recorded members lie where the real ones do |
| Membership.ModifyAgreesIff | libraries/chain/account_object.cpp:250-315 | the same for the three maps together |
| Membership.AccountIndex.ObjectInserted | libraries/chain/account_object.cpp:203-219 | the account is listed under exactly what its owner and active authorities and its memo key name in addition |
| Membership.AccountIndex.ObjectRemoved | libraries/chain/account_object.cpp:221-237 | it is no longer listed under any of that |
| Membership.AccountIndex.AboutToModify | libraries/chain/account_object.cpp:239-248 | what is recorded is exactly what the account's fields name before the change |
| Membership.AccountIndex.ObjectModified | libraries/chain/account_object.cpp:250-315 | each map loses and gains the differences |
| Membership.AccountIndex.FinishModify | libraries/db/include/graphene/db/index.hpp:302-304 | whatever was recorded: the maps agree afterwards exactly if the records were good enough |
| Membership.AccountIndex.Perform | libraries/db/include/graphene/db/index.hpp:271-306 | after creating, removing and modifying, an account is listed under a key exactly if its fields name the key |
| Membership.AccountIndex.Run | libraries/chain/account_object.cpp:173-315 | the same over every run, in all three maps |
| Membership.AccountIndex.ModifyAround | libraries/chain/account_evaluator.cpp:798-802 | modifications inside a modification: the maps agree afterwards exactly if the members recorded last are good enough, and always if all of them leave the members alone |
| Membership.UnchangedMembersNeedNoRecord | libraries/chain/account_object.cpp:250-315 | whatever was recorded, an account whose members stay as they were stays listed as it was |
| Membership.NestedGainIsMissed | libraries/chain/account_object.cpp:239-315 | in general: an outer change that gains a key which the account seen last has is not good enough |
| Membership.NestedModifyLosesMember | libraries/chain/account_object.cpp:239-315 | two accounts on which such a change would leave the first unlisted |
| GatewayRelation.RetargetKeepsTwoWay | libraries/chain/gateway_evaluator.cpp:35-57 | giving a gateway other assets keeps both sides of the relation the same |
| GatewayRelation.RelistKeepsTwoWay | libraries/chain/asset_evaluator.cpp:494-521 | giving an asset other gateways does too |
| GatewayRelation.CopyRestoresMirrors | libraries/chain/gateway_evaluator.cpp:58-69 | copying the whitelists of changed assets makes every lender option mirror its asset again |
| GatewayRelation.GatewayChangeReachesOptions | libraries/chain/gateway_evaluator.cpp:58-69 | a gateway's new assets reach every option on one of them, whatever kind it is, and no other |
| GatewayRelation.ListingLists | libraries/chain/gateway_evaluator.cpp:35-57 | which accounts an asset lists after the loops over whitelists |
| GatewayRelation.AllowingAllows | libraries/chain/asset_evaluator.cpp:494-521 | which assets a gateway allows after the loops over gateways |
| GatewayRelation.GatewayRegistry.constructor | libraries/chain/db_init.cpp:812-833 | before there is a gateway the relation is empty on both sides, and in order |
| GatewayRelation.GatewayRegistry.DoAllowedAsset | libraries/chain/gateway_evaluator.cpp:35-70 | the whitelists, the gateway and the options after the loops, the relation intact |
| GatewayRelation.GatewayRegistry.Create | libraries/chain/gateway_evaluator.cpp:71-126 | accepted exactly for an eligible account without a gateway and existing assets; what it adds |
| GatewayRelation.GatewayRegistry.Update | libraries/chain/gateway_evaluator.cpp:128-154 | accepted exactly for the gateway's own account and existing assets; what it changes |
| GatewayRelation.GatewayRegistry.UpdateWhitelist | libraries/chain/asset_evaluator.cpp:474-534 | accepted exactly from the issuer, or from the committee if that is the null account, and for gateway members; what it changes |
| GatewayRelation.GatewayRegistry.Run | libraries/chain/gateway_evaluator.cpp:35-154 | over every run an asset lists an account exactly if that account's gateway allows the asset, and lender options mirror |
| GatewayRelation.OtherOptionsLagBehind | libraries/chain/asset_evaluator.cpp:522-531 | after an asset update an option has the new whitelist exactly if it is a lender option or had it already |
| AmountText.ScanText | libraries/chain/asset_object.cpp:157-178 | a text passes exactly if it is clean, and the flags are those of ScanPassesClean |
| AmountText.ScanPassesClean | libraries/chain/asset_object.cpp:157-178 | digits with at most one sign and one point, in any place, and nothing else; the flags say which were seen |
| AmountText.UncleanIsRejected | libraries/chain/asset_object.cpp:157-178 | any other text is not read |
| AmountText.ReadFraction | libraries/chain/asset_object.cpp:188-202 | the digits behind the point, padded to all places |
| AmountText.AmountFromString | libraries/chain/asset_object.cpp:155-209 | the amount of any text at any precision, or an exception |
| AmountText.AmountToString | libraries/chain/asset_object.cpp:211-223 | the text of any amount |
| AmountText.WholeText | libraries/chain/asset_object.cpp:183-186 | digits without a point mean their value times the scale, up to the largest supply |
| AmountText.PointText | libraries/chain/asset_object.cpp:183-207 | digits with a point mean whole units plus decimals counted from the left |
| AmountText.SignBehindDigit | libraries/chain/asset_object.cpp:155-209 | a sign behind the first digit is let through: the text is read as the digits behind it, without the check against the largest supply |
| AmountText.PrintedAs | libraries/chain/asset_object.cpp:211-223 | the text of an amount that is not negative: whole units without leading zeros, and all decimal places unless there are none |
| AmountText.RoundTripExactly | libraries/chain/asset_object.cpp:155-223 | at every precision an amount is read back exactly if it is between zero and the largest supply, or negative with no decimals |
| AmountText.NegativeDecimalsAreLost | libraries/chain/asset_object.cpp:211-223 | minus one and a half is printed as "-1." and read as minus one |

## Left out

- Block ids are terms that commit to the whole block: hash collisions and block numbers beyond 32 bits are not modelled.
- Pending and popped transactions, skip flags, checkpoints, Merkle roots and signatures.
- Reorg.ChainDatabase.OpenSession: does not model sessions nested deeper than the window, which would drop the block's own record, nor windows that wrap around 32 bits.
- The unlinked-block cache of the fork database: its insert follows a throw, and nothing calls what would read it.
- UndoLog.ObjectDatabase.StartSession: does not model enabling and disabling, nor the forced enabling of a session.
- BlockFile.BlockStore.Store: requires an index file of whole entries; a trailing partial entry is covered by Scan alone.
- Sticky error states of file streams, 64-bit file positions that wrap around, and `fetch_block_id`, which ignores the entry's size.
- Sync.Handshake: leaves out 32-bit wrap-around of the high block plus the blocks after it; it relies on files that hold exactly the chain, see FileTable.FilesAreTheChain.
- Slots.SlotAccounting: does not model 32-bit times that wrap around, nor the loop that charges missed slots to witnesses.
- MedianFeeds.AssetFeeds.UpdateMedianFeeds: does not model `feed_cer_updated`, null prices or prices of different pairs, nor what `set_pric` derives afterwards.
- Library selection and sorting: NthElement and Ranked are implementations that satisfy what the C++ standard promises; nothing else about them is used.
- Quorum.UpdateAuthority: does not model the election itself, 32-bit sums of weights, nor a total of zero votes, for which `find_msb` is undefined.
- Quorum.VoteCounter.Add: requires votes that do not rise and accounts that do not repeat, which the code only asserts.
- Ledger.Ledger.PayFee: a fee paid from coupons is only told apart; coupon accounting, `rollback_fee`, lock fees and fee pools are left out.
- Ledger.Ledger.DepositLazyVesting: vesting deposits add the amount; coin-days and vested deposits are left out.
- Ledger.Ledger.GatewayIssue: covers the core asset; who may issue, and the other assets, are left out.
- Ledger.Ledger.Run: the worker list of each maintenance is given, voting and expiry being left out, and amounts are unbounded where the code has 64 bits.
- GatewayRelation.GatewayRegistry.Create: lifetime membership, locked balances and the lock fee are one flag.
- AmountText.AmountToString: requires a precision of at most 18, beyond which the scale overflows.
- Networking, RPC, plugins, the wallet, market, lending and fundraising: I/O, or business rules outside the core.
