# Verified model of the Nu node

Nu is a C++ node descended from Peercoin and Bitcoin 0.8. This project models the parts of it that keep
consensus state and shows, with Dafny's verifier, what they keep. `dafny verify dfyconfig.toml` checks all
of it.

Code of the source that changes state is written as methods over classes with the same fields, each proved
against a function or relation on plain values; the theorems are about those.

| files | what they model |
|---|---|
| `Ledger`, `Blocks`, `Versions`, `CoinsView`, `Connecting` | unspent-output records, undo data, what the disk keeps of both, layered coin views, `ConnectBlock` and `DisconnectBlock` |
| `Validity` | the rules a block has to meet to connect, one by one |
| `BlockTree`, `History`, `ChainState`, `MoneySupply` | replaying a chain from genesis and what it leaves unspent, `SetBestChain`, `pnext`, `FindBlockByHeight`, the money supply |
| `CheckQueue` | the script check queue: one master, any number of workers, one mutex, two condition variables |
| `AddrTables`, `AddrEvict`, `AddrMan`, `AddrCalls`, `AddrCheck`, `AddrFile`, `AddrRebuild` | the address manager, what its calls do to the entries, its self-check and its file |
| `MerkleTree`, `PartialMerkle` | Merkle trees, branches and partial Merkle trees (the format of BIP 37, section "Partial Merkle branch format") |
| `Mempool`, `BlockAssembly`, `BlockTemplate` | the index of the memory pool, filling a new block from it, and whether that block connects |
| `StakeModifier` | selecting the blocks whose bits make the next stake modifier |
| `CoinsCodec`, `CodecFormat`, `Storage` | coins and undo data as they are written, in numbers, and that what a chain leaves in the database is read back |
| `Base58`, `Locator`, `Compact`, `Retarget` | base 58, block locators, compact targets, the next target |
| `Failures`, `AddrFailures` | inputs at which a promise fails that holds only under a condition |
| `Basics` | facts about numbers and finite sets that several of these use |

## Main results

- **Reorganisation is replay.** After any sequence of `SetBestChain` calls the coins are what connecting the
  blocks from genesis in order gives, but for transaction versions below 0 (`ChainState.Node.SetBestChain`, kept by
  `Node.Valid`); after a flush exactly the versions that the disk keeps are left. A call succeeds if and only if that
  replay does; when it fails nothing the node answers has changed. The fork is the lowest common ancestor, and
  disconnecting down to it cannot fail.
- **Those coins are what the chain created and has not spent**, each recorded with the block and transaction it comes
  from (`History.CoinsAreUnspentOutputs`), **and a block connects exactly under the rules**: depth, age, amounts, fees,
  unparking, signatures and limits, transaction by transaction (`Validity.ConnectsIff`).
- **Disconnecting undoes connecting**, with the undo data as the disk keeps it: but for negative versions exactly
  when no transaction of the block replaced a record that still had unspent outputs, and to the letter exactly when
  besides no record of a negative version was spent to its end (`Versions.DisconnectRestoresIff`). BIP 30 as the code
  tests it is enough.
- **The check queue is safe under every interleaving**: `Wait` answers true if and only if every check of its
  round passes, nobody sleeps through the end of the work, queued checks are never left to the master while a worker
  sleeps, and a round ends within a bounded number of moves.
- **Every run of the address manager passes its own self-check**, which reports an error exactly when the tables are
  not as it looks for them (`AddrCheck.Check_`), and saving and loading gives the same manager up to new ids.
- **A partial Merkle tree proves what it says**, whoever made it, and what the node builds is always accepted.
- **The money supply is the sum of the unspent outputs**, for chains whose transactions keep to one unit.
- **The memory pool never holds a double spend.** The block filled from it is a function of the order in which the
  queue hands out transactions, and that order is complete: whatever is left out was refused or still waits
  (`BlockAssembly.FillBlock`). Behind coinbase, coinstake and grants it passes the test that `CreateNewBlock` makes
  before proof of work and signature exactly when its head passes the checks on transactions, the uninterpreted checks
  on size and times hold, nothing is repeated, and no transaction chosen spends what the coinstake spends
  (`BlockTemplate.CreateNewBlock`); sealed, it then connects (`BlockTemplate.SealedConnectsIff`).
- **The next target** stays, grows and is limited as it should be, over linked chains (`Retarget`).
- **Round trips**: coins and undo data on disk, for all that a chain leaves there (`Storage`), amounts,
  base 58, compact targets, the address file.

## Where a promise holds only in part

- Negative transaction versions: no check excludes them, and neither coins nor undo data keep them on disk
  (src/main.h:1238-1239, src/main.h:956-957). `DisconnectRestoresIff` and `AllStored` say when that changes a set, `StoredIff`
  that it does so exactly if some version is negative; `Failures.VersionIsLost` has a block with version -1 whose
  disconnecting leaves 127.
- Undoing a block: the two blocks let off BIP 30 by height and hash (src/main.cpp:1912-1914) could replace an
  unspent record. `DisconnectRestoresIff` gives the exact condition and `Failures.LetOffBlockLoses` a block at height
  91842 that fails it. `Node.AddToBlockIndex` admits such a block exactly if it does not.
- Money supply: `ConnectBlock` does not test that inputs are of the transaction's unit. `BookedIsMoved` shows
  the booked supply is right if and only if inputs of other units carry no value; `Failures.MixedUnitsMisbooked`
  has a block that connects and books nothing while a unit is lost.
- Check queue: outside `Loop` with nothing left to do, `fAllOk` need not hold before the master has called
  `Wait`; `FailureIsKeptForWait` gives a run. `EveryRunIsSafe` says when the next control's asserts pass.
- Evicting from a tried bucket: `SelectTried` (src/addrman.cpp:136-143) returns the position at which it met the
  oldest entry it inspected, before swapping it away. That entry is still there exactly when the number drawn in that
  step was 0 (`AddrEvict.EvictsOldestIff`); `AddrEvict.EvictsYounger` has numbers with which another one is evicted.
- The self-check takes a missing address for id 0 (`AddrFailures.MissingAddressPasses`); `ConsistentIff` says what else it
  does not look at.
- Times of known addresses: `Attempt_` keeps the tables consistent exactly for times that are not negative
  (`AttemptKeepsIff`), `Good_` exactly for positive ones (`GoodKeepsIff`): with time 0 a tried entry was never reached.
- The address file: with another number of buckets than 256 the new buckets are rebuilt without a look at their
  size (src/addrman.h:334-338). The result is consistent exactly if none gets more than 64 entries
  (`AddrRebuild.RebuiltIff`); `AddrFailures.RebuiltTooFull` has a consistent manager and its file for which one gets 65.
- Filling a block: a pool transaction with a missing input behind one it has to wait for is left out, but its freed
  entry stays in `mapDependers` (src/main.cpp:5452), and is used when that parent is placed. If the pool has no such
  transaction this never happens (`FillBlock`), and all that is listed is live exactly then (`AllLiveIff`);
  `Failures.EveryRunMeetsFreed` has a pool on which it happens in whatever order the transactions are handed out.
- Creating a block: the view the pool transactions are chosen on does not know the coinstake, so one of them may spend
  the same output, and the block does not connect (`Failures.TemplateFails`).
- Partial Merkle trees: the number 0 stands for failure, so a block whose Merkle root is 0 cannot be told from
  one (`ZeroRootProvesNothing`). The comment "2*N-1 bits" (src/main.h:1462) does not hold when a node has only a
  left child, and no such bound is claimed. Without the true number of transactions a right root proves exactly those
  matches that are not themselves the hash of a pair (`GenuineIff`, `InnerNodeIsFound`).
- Locators: `GetDistanceBack` is too large exactly when only the forced genesis entry is found (`Locate`).
- Compact targets: an exponent over 255 loses its high bits; `SmallLoss` holds exactly below that.
- The pairs in src/test/compress_tests.cpp:41-44 hold for a coin of 100,000,000 and a cent of 1,000,000
  (`CodecFormat.KnownAmounts`), not for the 10,000 and 100 of src/util.h:42-43.
- The comment on `nTargetSpacingWorkMax` says two hours (src/main.cpp:1301); 12 times the spacing of 60 seconds is
  12 minutes, which is what the model has.

## Model

| member | source | states |
|---|---|---|
| `Ledger.UnspendInvertsSpend` | src/main.h:1309-1326 | spending one output and restoring it from its undo record gives the set back, with the metadata of a record whose last output it was, and is reported clean |
| `Ledger.SpendOneMeaning` | src/main.h:1309-1326 | spending one output removes that output and leaves every other one with its record |
| `Ledger.SpendAllMeaning` | src/main.cpp:1546-1553 | after spending a list of inputs exactly those outputs are gone |
| `Ledger.UnspendAllInvertsSpendAll` | src/main.cpp:1798-1831 | restoring the inputs last to first inverts spending them first to last, also for several outputs of one parent |
| `Ledger.UndoInvertsUpdate` | src/main.cpp:1543-1557 | undoing a transaction restores the set exactly when it did not replace a record that still had unspent outputs |
| `Ledger.UpdateCoinsMeaning` | src/main.cpp:1543-1557 | after a transaction its inputs are gone, its outputs are there under a record with the height, both flags, time, unit and version that the transaction has, and all other outputs are as they were |
| `Ledger.UnspendOneMeaning` | src/main.cpp:1798-1831 | an input is put back without complaint exactly if its undo data makes a record where there is none, or finds one without that output; then that output alone is back |
| `Ledger.UndoTxMeaning` | src/main.cpp:1776-1795 | a transaction is taken out without complaint exactly if its record holds all its outputs and says of it, field by field, what it does, any negative version being right |
| `Ledger.HaveInputsSuffices` | src/main.cpp:1559-1578 | for distinct inputs, testing each on its own is the same as being able to spend them all |
| `Blocks.CheckBlockIsProper` | src/main.cpp:2671-2780 | a checked block has distinct transactions, a coinbase in front only, and no null outputs |
| `Blocks.ConnectTxsKeeps` | src/main.cpp:1944-1998 | connecting keeps the set free of pruned and untrimmed records and writes one undo record per transaction but the first |
| `Blocks.NoOverwriteReplacesNothing` | src/main.cpp:1912-1921 | the BIP 30 test before the first transaction is enough for the whole block, outputs created and spent inside it included |
| `Blocks.ReplacementIsLost` | src/main.cpp:1774-1832 | if some transaction did replace unspent outputs, disconnecting does not bring the earlier set back |
| `Blocks.DisconnectInvertsConnectIff` | src/main.cpp:1755-1847 | with the undo data still in memory, disconnecting a connected block restores the earlier set if and only if nothing was replaced, and is then clean |
| `Blocks.DisconnectInvertsConnect` | src/main.cpp:1755-1847 | with the undo data still in memory, for every block that connects under BIP 30 disconnecting restores the earlier set and reports no inconsistency |
| `Versions.ConnectBlockFades` | src/main.cpp:1881-2074 | a block connects to a set that has been through the disk exactly when it connects to the original, gives the same set but for negative versions, and stores the same undo data |
| `Versions.DisconnectRestoresIff` | src/main.cpp:1755-1847 | with the undo data that the disk keeps the earlier set comes back, but for negative versions, if and only if nothing was replaced, and to the letter if and only if besides every record either keeps an unspent output throughout or has no negative version |
| `Versions.DisconnectRestores` | src/main.cpp:1755-1847 | so under BIP 30 it comes back but for negative versions, and to the letter if there are none |
| `Versions.ReplacementIsLostOnDisk` | src/main.cpp:1774-1832 | a replaced record does not come back, whatever has been through the disk |
| `Versions.AllStored` | src/main.h:1230-1306 | a set whose every record has been through the disk has exactly the stored versions, and is the original if and only if that had no negative ones |
| `Versions.StoredIff` | src/main.h:1230-1306 | storing changes nothing if and only if no version is negative |
| `Failures.VersionIsLost` | src/main.h:950-972 | a block that spends an output of a transaction of version -1 connects, and disconnecting it leaves version 127 |
| `Failures.LetOffBlockLoses` | src/main.cpp:1912-1914 | a block of a height and hash let off BIP 30 that connects, and whose disconnecting does not bring back what it replaced |
| `Validity.Kinds` | src/main.h:695-713 | which transactions are coinbases, coinstakes and grants, by their unit, first input and outputs |
| `Validity.TransactionIff` | src/main.cpp:707-790 | a transaction passes the checks by itself exactly if its unit is known, it has inputs and outputs, every output has a permitted value, the total is at most 20,000,000,000,000, it is at most a million bytes long, a coinstake a thousand, no input is repeated or null, scripts that mint have the permitted length, and what is parked is currency and says how |
| `Validity.BlockIff` | src/main.cpp:2671-2780 | a block passes them exactly if the first transaction alone is a coinbase, only the second may be a coinstake, and then the coinbase is empty, every transaction passes and is no later than the block, no id is repeated, and the uninterpreted tests hold |
| `Validity.UnparkIff` | src/main.cpp:1632-1694 | an unpark passes exactly if the parking time is over, it pays the amount and its premium, and to the key that parked, in the same unit |
| `Validity.SpendIff` | src/main.cpp:1592-1750 | a spending transaction passes exactly if every input is there, deep enough, not younger than it and of a proper value, the total is in range, the fee is paid or the reward not exceeded, an unpark passes, and every other script verifies |
| `Validity.ConnectsIff` | src/main.cpp:1881-1998 | a block connects exactly if it passes the checks by itself and BIP 30, holds at most 20000 signature operations, and each spending transaction meets those rules on the coins that are there when its turn comes, scripts from the last checkpoint on |
| `History.CoinsAreUnspentOutputs` | src/main.cpp:1543-1557 | the coins of a replayed chain are exactly the outputs that its transactions created and none after them spent or replaced, each recorded with the height, the place, the kind, the time, the unit and the version of the transaction that created it |
| `History.EventsOfChain` | src/main.cpp:1944-1998 | those transactions are the ones of the blocks above genesis, in their order |
| `CoinsView.Cleanup` | src/main.h:1140-1145 | drops exactly the null outputs at the end |
| `CoinsView.Spend` | src/main.h:1309-1326 | refuses an unavailable output; otherwise nulls it, trims, and puts the metadata into the undo record only for the last output |
| `CoinsView.CanonIsCanonical` | src/main.cpp:1795-1796 | a view read with pruned and absent records identified is canonical |
| `CoinsView.CoinsViewDB.BatchWrite` | src/txdb.cpp:12-66 | writes the records in the form reading gives them back, and erases the pruned ones |
| `CoinsView.CoinsViewCache.GetCoins` | src/main.cpp:262-291 | finds what the layers find; filling the cache is not noticed by any lookup |
| `CoinsView.CoinsViewCache.HaveCoins` | src/main.cpp:297-299 | answers whether any layer has a record, changing no answer |
| `CoinsView.CoinsViewCache.SetCoins` | src/main.cpp:292-295 | changes one record in this layer and nothing below |
| `CoinsView.CoinsViewCache.GetBestBlock` | src/main.cpp:301-305 | the best block of the nearest layer that knows one |
| `CoinsView.CoinsViewCache.SetBestBlock` | src/main.cpp:307-310 | moves this layer only |
| `CoinsView.CoinsViewCache.BatchWrite` | src/main.cpp:312-317 | the records given override those this layer finds, and the block given becomes its best one, null or not |
| `CoinsView.CoinsViewCache.Flush` | src/main.cpp:319-324 | hands everything down: lookups through this view mean what they meant but for negative versions, which a database does not keep, and exactly so into another cache; the layer below now finds the same |
| `Connecting.UpdateCoins` | src/main.cpp:1543-1557 | on a view, does what `Ledger.UpdateCoins` does to the set the view means, and collects its undo data |
| `Connecting.HaveInputs` | src/main.cpp:1559-1578 | true exactly when every input is unspent; no lookup changes |
| `Connecting.GetValueIn` | src/main.cpp:1516-1526 | the sum of the outputs spent |
| `Connecting.GetP2SHSigOpCount` | src/main.cpp:1528-1541 | the sum over all inputs of their signature operations |
| `Connecting.CheckEachInput` | src/main.cpp:1610-1630 | true exactly when every input is mature, not younger than the transaction and in the money range, as are all partial sums |
| `Connecting.CheckInputs` | src/main.cpp:1592-1750 | true exactly when the value rules and the signatures of `Blocks.CheckInputs` hold |
| `Connecting.CheckBIP30` | src/main.cpp:1915-1921 | true exactly when no transaction id has unspent outputs |
| `Connecting.ConnectTx` | src/main.cpp:1944-1998 | one turn of the loop is one step of `Blocks.ConnectTx`, refused in the same cases |
| `Connecting.UpdateSupply` | src/main.cpp:2017-2019 | every unit's supply is the parent's plus outputs less inputs |
| `Connecting.ConnectBlock` | src/main.cpp:1881-2074 | succeeds exactly when `Blocks.ConnectBlock` does, leaves its coins, undo data and supply, skips genesis, and on failure changes nothing below this view |
| `Connecting.RestoreInput` | src/main.cpp:1804-1829 | puts one output back into the record found or the one its undo data carries, and reports each inconsistency |
| `Connecting.DisconnectTx` | src/main.cpp:1776-1832 | does what `Ledger.UndoTx` does and is clean in the same cases |
| `Connecting.DisconnectBlock` | src/main.cpp:1755-1847 | succeeds exactly when the undo data fits and nothing is inconsistent, and leaves the view at the parent with the coins of `Blocks.DisconnectBlock` |
| `BlockTree.ReplayIsCanonical` | src/main.cpp:1881-2074 | what replaying a chain gives is canonical |
| `BlockTree.ReplayOfAncestor` | src/main.cpp:2177-2197 | a chain that replays does so up to each of its blocks |
| `BlockTree.BIP30IsReversible` | src/main.cpp:1912-1921 | a block under BIP 30 replaces nothing when connected after its ancestors |
| `BlockTree.StepUndone` | src/main.cpp:1755-1847 | the stored undo data of a replayed block takes any set that differs from the replay in negative versions only to such a set for its parent |
| `BlockTree.NextStep` | src/main.cpp:2226-2246 | moving the tip by one block changes one link |
| `BlockTree.NextLinks` | src/main.h:2133-2136 | the links that a tip stands for join exactly the neighbours on its chain |
| `ChainState.FindFork` | src/main.cpp:2126-2139 | finds a block on both chains above which they have none in common |
| `ChainState.ForkIsLowest` | src/main.cpp:2126-2139 | no common block is higher than the fork |
| `ChainState.DisconnectBranch` | src/main.cpp:2157-2168 | disconnecting the branch the node is on never fails and leaves the replay up to the fork, but for negative versions |
| `ChainState.ConnectBranch` | src/main.cpp:2177-2197 | connecting succeeds exactly when the new chain replays, and leaves that replay but for negative versions; the layer below is untouched |
| `ChainState.Unlink` | src/main.cpp:2226-2235 | afterwards `pnext` joins exactly the chain to the fork |
| `ChainState.Link` | src/main.cpp:2237-2246 | afterwards `pnext` joins exactly the chain to the new tip |
| `ChainState.Advance` | src/main.cpp:2120-2246 | coins, undo data, supplies and links move together, or on failure not at all |
| `ChainState.Node.SetBestChain` | src/main.cpp:2120-2273 | succeeds exactly when replaying the new chain from genesis does and leaves that replay but for negative versions, and after a flush with exactly the stored ones; a failed call changes no answer |
| `ChainState.Node.AddToBlockIndex` | src/main.cpp:2425-2445 | a block joins the index and everything said about the node still holds; one let off BIP 30 joins if it replaces nothing |
| `ChainState.Node.InMainChainIsOnChain` | src/main.h:2133-2136 | `IsInMainChain` is true exactly of the ancestors of the best block and of itself, and `pnext` joins exactly the neighbours on that chain |
| `ChainState.Node.FindBlockByHeight` | src/main.cpp:1253-1269 | from whatever cached block it starts it returns the one block of the best chain at that height |
| `MoneySupply.BookedIsMoved` | src/main.cpp:1944-1998 | what `ConnectBlock` books for a transaction is what it does to the totals of all units if and only if inputs of other units carry no value |
| `MoneySupply.SupplyIsTotal` | src/main.cpp:2014-2019 | at every block of a chain whose transactions keep to one unit the supply of each unit is the sum of its unspent outputs |
| `Failures.MixedUnitsMisbooked` | src/main.cpp:1944-1998 | a block that connects, books no change of one unit, and destroys some of it |
| `MoneySupply.StakeBlockBound` | src/main.cpp:1693-1715 | a proof-of-stake block raises the supply of shares by at most the reward and its share grants, as long as the minimum fee is within the money range |
| `MoneySupply.UnparkKeepsUnit` | src/main.cpp:1632-1694 | an unpark that passes is of the unit of the parked output, since addresses of different units differ in their version |
| `CheckQueue.StepKeeps` | src/checkqueue.h:61-147 | every critical section of every thread keeps the invariant |
| `CheckQueue.InitialInv` | src/checkqueue.h:122-123 | the invariant holds of a new queue |
| `CheckQueue.RunKeeps` | src/checkqueue.h:61-147 | it holds after every run |
| `CheckQueue.NothingHeld` | src/checkqueue.h:71-91 | with nothing left to do no thread holds a check, all are accounted for, and `nTotal` equals `nIdle` |
| `CheckQueue.AllSeen` | src/checkqueue.h:110-116 | with nothing left to do `fAllOk` says whether every check of the round passes, skipped ones included |
| `CheckQueue.EveryRunIsSafe` | src/checkqueue.h:61-171 | in every interleaving: `nTodo` is queued plus held, every answer of `Wait` is whether all checks of its round pass, a sleeping master has a worker with a batch, some thread can move, and when the control's asserts pass |
| `CheckQueue.FailureIsKeptForWait` | src/checkqueue.h:164-171 | a run after which the queue is idle and `fAllOk` is false because `Wait` has not been called |
| `CheckQueue.WorkShrinks` | src/checkqueue.h:61-118 | every move but adding checks or an unprompted waking uses up work |
| `CheckQueue.RoundEndsWithin` | src/checkqueue.h:61-118 | until more checks are added only a bounded number of moves is possible |
| `CheckQueue.BatchIs` | src/checkqueue.h:96-101 | a batch is the largest that the queue has for each of the threads, idle ones counted twice, and one more, within 1 and the maximum |
| `CheckQueue.PushWakes` | src/checkqueue.h:136-147 | several checks wake every worker, one check wakes one of those asleep |
| `CheckQueue.EveryRunShares` | src/checkqueue.h:61-147 | in every interleaving: while checks are queued and a worker sleeps, some other worker is awake |
| `AddrTables.UnrefKeeps` | src/addrman.cpp:150-202 | dropping a reference, and the entry with its last one, keeps all tables consistent |
| `AddrTables.CreatedKeeps` | src/addrman.cpp:94-104 | a new entry keeps them so, but for the reference it is owed |
| `AddrTables.PromotedKeeps` | src/addrman.cpp:204-229 | moving an entry to a tried bucket with room keeps the tables consistent, whatever its times |
| `AddrTables.ExchangedKeeps` | src/addrman.cpp:231-260 | exchanging it with one of a full tried bucket does so too, whichever is evicted |
| `AddrTables.FallbackHasRoom` | src/addrman.cpp:245-253 | the bucket the entry came from has room for the evicted one |
| `AddrMan.AddKeeps` | src/addrman.cpp:313-369 | every outcome of `Add_` is consistent |
| `AddrMan.GoodKeepsIff` | src/addrman.cpp:262-311 | every outcome of `Good_` keeps everything but the times, and is consistent exactly if the time is positive or the address unknown |
| `AddrMan.AttemptKeepsIff` | src/addrman.cpp:371-388 | `Attempt_` keeps everything consistent exactly if the time is not negative or the address unknown, `Connected_` at any time |
| `AddrMan.CallKeeps` | src/addrman.cpp:262-528 | one call, whatever is drawn, keeps everything consistent |
| `AddrMan.EveryRunIsConsistent` | src/addrman.cpp:94-528 | every state of every run from an empty manager is consistent |
| `AddrMan.AddrMan.Find` | src/addrman.cpp:81-92 | the id under which an address is known, if any |
| `AddrMan.AddrMan.Create` | src/addrman.cpp:94-104 | a new entry under the next id, last in the random order |
| `AddrMan.AddrMan.SwapRandom` | src/addrman.cpp:106-124 | exchanges two places of the random order and the positions that point at them |
| `AddrMan.AddrMan.SelectTried` | src/addrman.cpp:126-148 | the bucket is shuffled by the numbers drawn, and the position returned is where the least recently successful of the entries inspected stood when it was met |
| `AddrEvict.OldestIsOldest` | src/addrman.cpp:136-143 | the entry so met is no younger than any other one inspected, and older than those before it |
| `AddrEvict.EvictsOldestIff` | src/addrman.cpp:136-147 | it stands at the position returned if and only if the number drawn in its step was 0 |
| `AddrEvict.EvictsYounger` | src/addrman.cpp:136-147 | a draw with which the oldest entry is inspected and another one given up |
| `AddrMan.AddrMan.ShrinkNew` | src/addrman.cpp:150-202 | drops the first entry that is given up and was not tried in the last minute, and then returns 0, exactly if there is one; else the oldest of those at the four ranks drawn |
| `AddrMan.VictimIs` | src/addrman.cpp:40-58 | which entry goes, by times and attempts: one tried in the last minute, or heard of within 30 days and reached within 7, never while another is over 30 days old, failed three times without a success or ten times in a week |
| `AddrMan.DueSpares` | src/addrman.cpp:355-366 | an address added to a full bucket takes the place of no such entry while there is another to drop |
| `AddrCalls.AttemptedIs` | src/addrman.cpp:371-388 | `Attempt_` sets the last try and counts one more attempt at the entry of that address and port, and touches no other |
| `AddrCalls.ConnectedIs` | src/addrman.cpp:510-528 | `Connected_` moves the time of that entry exactly if it is more than 1200 seconds behind |
| `AddrCalls.GoodIs` | src/addrman.cpp:262-311 | `Good_` makes that entry tried, with all three times new and no attempts; no other changes but for one that goes back to the new buckets, and that only from a full bucket |
| `AddrCalls.EvictedGoesTo` | src/addrman.cpp:231-260 | that one goes to the new bucket of its own source, or if that is full to the one the address came from |
| `AddrCalls.RefreshedIs` | src/addrman.cpp:324-331 | an address heard of again gets the services added, and the time exactly if it is ahead by an hour, or a day for old news, and the penalty |
| `AddrCalls.NewsIff` | src/addrman.cpp:333-343 | it is worth another bucket exactly if the news is newer, the entry not tried, and in fewer than four buckets |
| `AddrCalls.DueIs` | src/addrman.cpp:358-367 | a reference put into a bucket leaves every other bucket and entry alone, but for at most one entry of a full bucket |
| `AddrCalls.AddedIs` | src/addrman.cpp:313-369 | an address not known before gets an entry with its source and its time less the penalty, never tried, in the bucket that address and source choose |
| `AddrMan.AddrMan.MakeTried` | src/addrman.cpp:204-260 | the entry moves from the new buckets to its tried bucket; if that is full the entry that the numbers drawn select goes back to a new bucket |
| `AddrMan.AddrMan.Good_` | src/addrman.cpp:262-311 | the entry is marked and, if known in new buckets, becomes tried; consistent exactly if the time is positive or the address unknown |
| `AddrMan.AddrMan.Attempt_` | src/addrman.cpp:371-388 | counts an attempt of the entry at this address and port, and of no other; consistent exactly if the time is not negative or nothing was counted |
| `AddrMan.AddrMan.Connected_` | src/addrman.cpp:510-528 | updates the time of the entry when it is more than twenty minutes old |
| `AddrMan.AddrMan.GetAddr_` | src/addrman.cpp:494-508 | returns that many known addresses, none twice, and only reorders the random order |
| `AddrMan.AddrMan.Add_` | src/addrman.cpp:313-369 | true exactly for a routable address not known before; ignores the rest, or refreshes the entry and may refer to it once more |
| `AddrCheck.CheckEntry` | src/addrman.cpp:446-460 | an error exactly when something is wrong with the entry |
| `AddrCheck.CheckTried` | src/addrman.cpp:466-487 | no error exactly when the tried buckets together hold each tried id once |
| `AddrCheck.CheckNew` | src/addrman.cpp:476-488 | no error exactly when each id is in as many new buckets as its count says |
| `AddrCheck.Check_` | src/addrman.cpp:435-491 | no error exactly when the tables satisfy `Checked`; looking addresses up changes no answer |
| `AddrCheck.ConsistentIsChecked` | src/addrman.cpp:435-491 | consistent tables pass the check |
| `AddrCheck.ConsistentIff` | src/addrman.cpp:435-491 | tables are consistent exactly if they pass the check and what it does not look at holds: sizes of buckets, buckets of tried entries, range of ids, and stale or missing addresses |
| `AddrFailures.MissingAddressPasses` | src/addrman.cpp:457 | tables that pass although the address of their one entry, of id 0, cannot be looked up |
| `AddrCheck.EveryRunChecks` | src/addrman.cpp:435-491 | whatever calls are made the check finds nothing |
| `AddrFile.Write` | src/addrman.h:280-318 | writes every new entry once, every tried entry once, and the new buckets by the indices given |
| `AddrFile.Read` | src/addrman.h:318-376 | clears the manager and fills it with what the file says |
| `AddrFile.RoundTrip` | src/addrman.h:280-376 | reading a saved consistent manager gives a consistent one with the same entries in the same buckets; only `nLastTry`, the ids and the random order differ |
| `AddrFile.SaveAndLoad` | src/addrman.h:280-376 | the same of the two procedures run one after the other |
| `AddrRebuild.ElsewhereLoads` | src/addrman.h:318-376 | a file of another number of buckets gives all entries, and each new one the bucket of its own source |
| `AddrRebuild.RebuiltIff` | src/addrman.h:318-376 | what is then read is consistent if and only if no rebuilt bucket holds more than 64 entries |
| `AddrFailures.RebuiltTooFull` | src/addrman.h:318-376 | a consistent manager of 65 new entries and a file of it with two buckets, from which an inconsistent one is read |
| `MerkleTree.HalfWidth` | src/main.h:1480-1483 | the width of a level is half that below, rounded up |
| `MerkleTree.WidthMeans` | src/main.h:1480-1483 | a position is in a level exactly when its first leaf is a transaction |
| `MerkleTree.LevelUp` | src/main.cpp:3267-3282 | each hash of a level is the pair of two of the level below, the last doubled if it is alone |
| `MerkleTree.BranchLeadsToRoot` | src/main.h:1707-1720 | a hash and a branch of the right length fold to the root exactly if they are the node's own |
| `MerkleTree.TxBlock.BuildMerkleTree` | src/main.h:1666-1682 | the level-order loop makes the levels of the recursive definition and returns its root |
| `MerkleTree.TxBlock.GetMerkleBranch` | src/main.h:1691-1705 | the siblings from a transaction to the root |
| `MerkleTree.CheckMerkleBranch` | src/main.h:1707-1720 | folds the branch; index -1 gives 0 |
| `MerkleTree.ProveTransaction` | src/main.h:1691-1720 | the branch a block gives for an index leads to its root for that transaction and no other |
| `PartialMerkle.BuiltSize` | src/main.cpp:3284-3300 | at least a bit for every hash, at most a hash for every leaf |
| `PartialMerkle.BuiltBound` | src/main.h:1451-1455 | at most 1 + matched * height hashes |
| `PartialMerkle.WalkIsSound` | src/main.cpp:3302-3330 | for any bits and hashes, a walk arriving at a node's true hash found only transactions below it, in order |
| `PartialMerkle.WalkIsComplete` | src/main.cpp:3302-3330 | walking what was built consumes all of it and finds the matched transactions and the node's hash |
| `PartialMerkle.ExtractIsSound` | src/main.cpp:3348-3379 | for any bits and hashes, if the block's root comes out (and is not 0), the matches are transactions of the block in block order |
| `PartialMerkle.SurplusIsRefused` | src/main.cpp:3367-3379 | a tree that is accepted has exactly its hashes and its bytes of bits: with a hash or a byte more the root is 0 |
| `PartialMerkle.ImplausibleIsRefused` | src/main.cpp:3351-3362 | nothing comes of no transactions, of more than 16666, or of more hashes than transactions or bits |
| `PartialMerkle.ZeroRootProvesNothing` | src/main.cpp:3348-3379 | the exception: a root of 0 |
| `PartialMerkle.GenuineIff` | src/main.cpp:3348-3379 | for any number of transactions claimed: if the root is that of a block, and not 0, a match is a transaction of it if and only if it is not the hash of a pair |
| `PartialMerkle.InnerNodeIsFound` | src/main.cpp:3348-3379 | a proof with a wrong number of transactions whose match is a pair |
| `PartialMerkle.BuiltIsExtracted` | src/main.cpp:3332-3379 | what was built passes every size and consumption test and gives root and matches |
| `PartialMerkle.PartialMerkleTree.constructor` | src/main.cpp:3332-3344 | builds the tree of the whole block |
| `PartialMerkle.PartialMerkleTree.TraverseAndBuild` | src/main.cpp:3284-3300 | appends exactly the bits and hashes of the node |
| `PartialMerkle.PartialMerkleTree.TraverseAndExtract` | src/main.cpp:3302-3330 | the walk from the given positions, marking the tree bad where bits or hashes run out |
| `PartialMerkle.PartialMerkleTree.ExtractMatches` | src/main.cpp:3348-3379 | a root other than 0 that is a block's root comes with transactions of that block only, in block order |
| `PartialMerkle.PartialMerkleTree.ToBytes` | src/main.h:1509-1514 | eight bits to a byte; unpacking gives the bits back |
| `PartialMerkle.PartialMerkleTree.FromBytes` | src/main.h:1502-1508 | unpacks the bits and clears the bad mark |
| `PartialMerkle.Transmit` | src/main.h:1497-1515 | building, packing, unpacking and extracting gives the root and the matched transactions, within the bound on hashes |
| `Mempool.NoDoubleSpend` | src/main.cpp:1040-1052 | no two inputs of pool transactions spend one outpoint |
| `Mempool.EraseKeeps` | src/main.cpp:1069-1071 | taking a transaction and its inputs out keeps the index exact |
| `Mempool.TxMemPool.AddUnchecked` | src/main.cpp:1040-1052 | keeps the index exact |
| `Mempool.TxMemPool.Accept` | src/main.cpp:905-990 | admits exactly what passes, is not known and conflicts with nothing in the pool |
| `Mempool.TxMemPool.Remove` | src/main.cpp:1054-1076 | recursively takes out the transaction and what depends on it, nothing else, and terminates |
| `Mempool.TxMemPool.RemoveConflicts` | src/main.cpp:1078-1091 | takes out what conflicts and what depends on that, nothing else |
| `Mempool.SweptClean` | src/main.cpp:1078-1091 | afterwards nothing conflicts |
| `Mempool.TxMemPool.DeleteConnected` | src/main.cpp:2256-2260 | afterwards no pool transaction is a connected one or spends an outpoint a connected one spends, and nothing left depends on what was dragged out |
| `BlockAssembly.Collect` | src/main.cpp:5423-5495 | every eligible transaction without a missing input is queued or waits for exactly its parents outside the view; each is listed under those; one with a missing input stays listed under the parents before it, its entry freed |
| `BlockAssembly.AllLiveIff` | src/main.cpp:5437-5470 | everything listed points at a waiting transaction if and only if no transaction has a missing input behind one it waits for |
| `Failures.EveryRunMeetsFreed` | src/main.cpp:5423-5593 | a pool with such a transaction: in every order its parent is placed, and the freed entry is met |
| `BlockAssembly.StrikeOff` | src/main.cpp:5580-5591 | a dependent is queued when its last parent is struck off, and only then: a second entry for the same parent does nothing |
| `BlockAssembly.Release` | src/main.cpp:5577-5592 | exactly those that waited for nothing else are queued, none of them twice |
| `BlockAssembly.Place` | src/main.cpp:5516-5569 | appended exactly if acceptable by the rules of `CheckInputs` and within the limits on size and signature operations |
| `BlockAssembly.FillBlock` | src/main.cpp:5416-5593 | the block is what trying the transactions in the order handed out gives; that order holds candidates only, none twice, each only once all it waits for is in the block, and, unless a freed entry is met, misses none of which that is true; every transaction is timely, meets the rules on spending behind those before it, and stays below the limits; a freed entry is met exactly if a placed transaction has one listed under it, and never if no pool transaction has a missing input behind one it waits for |
| `BlockAssembly.PlacedIff` | src/main.cpp:5505-5569 | a transaction handed out is in the block exactly if it is not too late, meets the rules on spending, signatures and fee included, and stays below the limits, behind those that were in it when its turn came |
| `BlockAssembly.UnspentComesFrom` | src/main.cpp:5540-5560 | an output unspent after a prefix comes from the chain or from a transaction placed |
| `BlockAssembly.ParentsComeFirst` | src/main.cpp:5540-5593 | every input of a placed transaction is from the chain or from one placed before it |
| `BlockTemplate.FollowsHead` | src/main.cpp:5516-5569 | a transaction acceptable without coinbase, coinstake and grants is acceptable behind them, unless they spent one of its inputs |
| `BlockTemplate.BehindHead` | src/main.cpp:5416-5641 | the chosen transactions connect behind a head that spends none of their inputs |
| `BlockTemplate.TemplateConnectsIff` | src/main.cpp:5635-5641 | the new block passes the test, which leaves out proof of work, Merkle root and signature, if and only if it passes the other checks on a block by itself, repeats no transaction, and no chosen transaction spends an output that the head spends |
| `BlockTemplate.SealedConnectsIff` | src/main.cpp:1881-1921 | with its seal it connects if and only if it passes the test and the seal is right; behind a head that spends nothing, if and only if it passes `CheckBlock` and repeats no transaction |
| `BlockTemplate.ContentsIff` | src/main.cpp:2671-2780 | of the checks on the transactions of a block only those on its head can fail, and the one for repetition |
| `BlockTemplate.GetMaxTransactionTime` | src/main.h:1646-1652 | the latest time of a transaction |
| `BlockTemplate.HeaderTimeIs` | src/main.cpp:5621-5631 | the time of the header is the earliest one after the median, not before any transaction, nor two hours before the parent, nor for proof of work before the clock |
| `BlockTemplate.StakeBlockTime` | src/main.cpp:5621-5631 | behind a coinstake the block gets the time of the coinstake, no transaction chosen being later, if median and parent leave that |
| `BlockTemplate.CreateNewBlock` | src/main.cpp:5416-5641 | distinct pool transactions behind the head, a header time no earlier than the four bounds and equal to one of them, and a test against the coins that is passed if and only if the head passes the checks on its transactions, the uninterpreted ones hold, nothing is repeated, and no chosen transaction spends what the head spends |
| `Failures.TemplateFails` | src/main.cpp:5635-5641 | a pool transaction that spends what the coinstake spends is chosen, and the block fails the test |
| `StakeModifier.SectionsGrow` | src/kernel.cpp:61-65 | sections never get shorter and the last is the modifier interval |
| `StakeModifier.SectionIs` | src/kernel.cpp:61-65 | section n is the interval times 63 / (189 - 2n), rounded down, the first a third of the last |
| `StakeModifier.SectionsBounded` | src/kernel.cpp:68-74 | n of them take at most n modifier intervals |
| `StakeModifier.SelectionInterval` | src/kernel.cpp:68-74 | the sum of the 64 sections, at most 64 modifier intervals |
| `StakeModifier.SelectBlockFromCandidates` | src/kernel.cpp:79-123 | selects the first minimal selection hash among the unselected in time, else the earliest unselected; fails exactly when all are selected |
| `StakeModifier.ChosenBeats` | src/kernel.cpp:94-123 | the block selected against any other in time, by their hashes: of proof of stake counts the part above 2^32, a proof-of-work hash has to be below that part, and of equals the earlier goes first |
| `StakeModifier.StakeBeatsWork` | src/kernel.cpp:104-109 | with hashes of 256 bits proof of work is selected before a proof-of-stake block in time only with a hash below 2^224 |
| `StakeModifier.ChosenIsEarliest` | src/kernel.cpp:90-93 | with none in time the earliest block left is selected, of equal times the one with the smaller hash |
| `StakeModifier.ModifierBits` | src/kernel.cpp:212-214 | bit k of the modifier is the entropy bit of block k, and there are no others |
| `StakeModifier.EpochIs` | src/kernel.cpp:189-190 | the selection ends at the last multiple of the interval not after the parent |
| `StakeModifier.SelectionIs` | src/kernel.cpp:190-219 | 64 blocks are picked, or all there are, each once and from the selection interval, and in every round one in time if there was one, proof of stake first, else the earliest left |
| `StakeModifier.PickedDistinct` | src/kernel.cpp:201-219 | no block is picked twice |
| `StakeModifier.SomeOpen` | src/kernel.cpp:205-211 | in every round some candidate is left |
| `StakeModifier.SelectBlocks` | src/kernel.cpp:201-219 | as many rounds as candidates, at most 64, none fails; bit k is the entropy bit of block k |
| `StakeModifier.GetLastStakeModifier` | src/kernel.cpp:47-58 | the modifier of the nearest block that generated one, and an error exactly when none did |
| `StakeModifier.SortByTimestamp` | src/kernel.cpp:198-199 | a sorted permutation, ties by hash |
| `StakeModifier.RecentBlocks` | src/kernel.cpp:190-196 | the blocks of the chain from the selection start on, each once |
| `StakeModifier.ComputeNextStakeModifier` | src/kernel.cpp:138-219 | an error exactly when no block generated a modifier; a new one exactly when an interval has passed, made of the selected blocks; else the old one |
| `CoinsCodec.DecompressCompress` | src/main.cpp:6007-6024 | decompressing a compressed amount gives it back |
| `CoinsCodec.CompressDecompress` | src/main.cpp:6064-6088 | and the other way round, on all codes |
| `CoinsCodec.CompressAmount` | src/main.cpp:6007-6024 | the loop computes `Compressed` |
| `CoinsCodec.DecompressAmount` | src/main.cpp:6064-6088 | the loop computes `Decompressed` |
| `CodecFormat.AmountCode` | src/main.cpp:5998-6024 | the code of every amount, by its trailing zeros and what is left of it |
| `CodecFormat.KnownAmounts` | src/test/compress_tests.cpp:39-44 | the six pairs of the tests, with 1,000,000 and 100,000,000 for a cent and a coin |
| `CoinsCodec.CalcMaskSize` | src/main.h:1174-1190 | where the mask ends and how many of its bytes are not 0 |
| `CoinsCodec.CodeDecodes` | src/main.h:1230-1245 | the header code determines coinbase flag, the first two bits and the number of mask bytes |
| `CoinsCodec.Serialize` | src/main.h:1230-1264 | writes version, code, mask, outputs, height and the rest, for every record that is not pruned |
| `CoinsCodec.Unserialize` | src/main.h:1266-1306 | reads those in order and trims, or fails where the stream does not fit |
| `CoinsCodec.ReadMaskBack` | src/main.h:1278-1288 | counting non-zero bytes reads exactly the mask bytes written |
| `CoinsCodec.ReadOutsBack` | src/main.h:1289-1294 | the outputs come back at their places |
| `CoinsCodec.RoundTrip` | src/main.h:1230-1306 | reading what was written gives the record, up to spent outputs at its end and a negative version, and leaves the rest of the stream |
| `CoinsCodec.RoundTripTrimmed` | src/main.h:1230-1306 | a record as the node keeps it comes back unchanged exactly when its version is not negative |
| `CodecFormat.FirstExample` | src/main.h:1074-1086 | the first record of the description is stored as it says |
| `CodecFormat.SecondExample` | src/main.h:1089-1106 | so is the second, with both bytes of its mask |
| `CoinsCodec.SerializeUndo` | src/main.h:950-961 | writes code, time, unit, the version if there is a height, and the output |
| `CoinsCodec.UnserializeUndo` | src/main.h:963-972 | reads those in order, or fails where the stream does not fit |
| `CoinsCodec.UndoRoundTrip` | src/main.h:950-972 | reading undo data that was written gives it back with the version that the disk keeps, none without a height |
| `Storage.CoinsReadBack` | src/main.h:1230-1306 | every record of every replayed chain, whatever has been through the disk, can be written, and is read back as the record that `Ledger.StoredCoins` says |
| `Storage.UndoReadBack` | src/main.h:950-972 | so is all undo data of every block of such a chain |
| `Base58.NoLetter` | src/base58.h:30 | the index function knows exactly the 58 letters |
| `Base58.SpacesAre` | src/base58.h:88-107 | white space is six characters |
| `Base58.EncodeBase58` | src/base58.h:33-71 | writes the number in base 58 behind a letter 1 for each leading zero |
| `Base58.DecodeBase58` | src/base58.h:81-125 | the bytes of the letters between leading and trailing white space; refused exactly when there is anything else |
| `Base58.OnlyFrame` | src/base58.h:88-107 | a string of letters is read as itself and in no other way |
| `Base58.DecodeEncode` | src/base58.h:33-125 | decoding what was encoded gives the bytes, leading zeros included |
| `Base58.EncodeDecode` | src/base58.h:33-125 | encoding what was decoded gives the letters |
| `Base58.TrimGetVch` | src/base58.h:109-114 | trimming the sign byte leaves the bytes of the number |
| `Base58.GetVchIs` | src/base58.h:109-114 | the bytes of a number have its value, with the highest bit left free for the sign |
| `Locator.EntriesReach` | src/main.h:2576-2592 | how many entries it takes to get past genesis: for height h of 10 and more 11 + floor(log2(h - 9)), before the forced one |
| `Locator.BlockLocator.Set` | src/main.h:2576-2592 | entry k is the hash k back for k under 10 and 9 + 2^(k-10) back from there on, then genesis |
| `Locator.BlockLocator.GetDistanceBack` | src/main.h:2594-2613 | the distance at which the first entry on the reader's best chain was put, though it doubles on another condition |
| `Locator.BlockLocator.GetBlockIndex` | src/main.h:2615-2629 | the block of that first entry, genesis if there is none |
| `Locator.DistanceIsHeightDifference` | src/main.h:2594-2629 | the distance is the difference in height to the block found, exactly unless that is the forced genesis entry |
| `Locator.FoundNearFork` | src/main.h:2528-2531 | if the block d back is common to both chains the block found is at most d back, for d over 10 at most 2d - 11 |
| `Locator.Locate` | src/main.h:2576-2629 | a locator made by one node and read by another: a block of the reader's best chain is found, and the distance is the difference in height to it exactly unless that is a forced genesis block |
| `Compact.BigNum.SetCompact` | src/bignum.h:304-320 | reads 8 bits of exponent, a sign and 23 bits of mantissa |
| `Compact.BigNum.GetCompact` | src/bignum.h:323-345 | writes mantissa and exponent of the number, with a bit to spare for the sign |
| `Compact.SmallLoss` | src/bignum.h:304-345 | writing and reading loses less than one part in 2^15, and nothing under 2^23, exactly when the exponent fits |
| `Compact.OrderKept` | src/bignum.h:304-345 | truncation is monotone on all numbers, the form itself on those not negative |
| `Compact.TruncatedTwice` | src/bignum.h:304-345 | truncation is idempotent |
| `Compact.CanonicalIff` | src/bignum.h:304-345 | the canonical forms are exactly those that reading and writing leaves alone |
| `Compact.EncodedIsCanonical` | src/bignum.h:323-345 | what is written is canonical |
| `Compact.ReadThenWrite` | src/bignum.h:304-345 | a canonical form read and written is itself |
| `Retarget.LastIs` | src/main.cpp:1322-1327 | the nearest block of one kind, none of it between, or the first block |
| `Retarget.GetLastBlockIndex` | src/main.cpp:1322-1327 | the loop finds that block |
| `Retarget.GetNextTargetRequired` | src/main.cpp:1340-1368 | the limit, the initial target, or the target moved by the spacing of the last two blocks of the kind, as `Required` has it |
| `Retarget.SteadyTarget` | src/main.cpp:1340-1368 | proof-of-stake blocks 60 seconds apart keep a canonical target whatever lies between, proof-of-work blocks 60 seconds apart for the next block and each on top of the last, at most 720: exactly when the limit leaves it |
| `Retarget.MovedTarget` | src/main.cpp:1353-1366 | a seconds apart the target moves to the whole part of its (604740 + 2a) / 604860 for proof of stake, and likewise, for m minutes in place of one, for proof of work |
| `Retarget.AdjustsIff` | src/main.cpp:1345-1350 | the target moves exactly if there are two blocks of the kind above the first block |
| `Retarget.FirstTargets` | src/main.cpp:1329-1350 | without them the initial target of the kind is required, and for genesis the limit |
| `Retarget.SlowerIsEasier` | src/main.cpp:1340-1368 | of two chains that differ in one block time: a later last block of the kind never gives a smaller target, a later one before it never a larger, and no other time matters |
| `Retarget.WithinLimit` | src/main.cpp:1340-1368 | before protocol 0.5 no target over the limit is required after any linked chain |
| `Retarget.EveryTargetWithinLimit` | src/main.cpp:2813 | so no block of a chain of that time that carries the targets required has one over the limit |

## Left out

- Disk, files, LevelDB, lazy loading of the block index: reading always succeeds; undo data is a field of the
  block's entry, in the form reading gives it.
- Scripts, signatures and hashing: uninterpreted functions. The pair hash of Merkle trees is a free constructor,
  so no two pairs collide.
- Results of votes, park rates, fee votes and minimum fees: functions of the parent block. What a script pays to or
  parks is read by uninterpreted functions; the addresses compared for an unpark are modelled.
- `CheckBlock`: proof of work, Merkle root and signature are one uninterpreted test; block size, signature
  operations, the limits on the times of block, coinbase and coinstake, and the value of the coinbase another.
  `nMint`, fee and park totals and benchmarks are not modelled.
- `ConnectBlock` evaluates scripts in line; that `Wait` answers for the same checks run in parallel is
  `CheckQueue.EveryRunIsSafe`. The queue's `fQuit` and its destructor are not modelled.
- Putting transactions of disconnected blocks back into the pool. `DeleteConnected` holds for any pool it may
  leave.
- Mempool.TxMemPool.Remove: takes as a premise that no pool transactions depend on one another in a circle, as hashes that commit to inputs ensure.
- Mempool.TxMemPool.Accept: all tests but the two on the pool itself are one flag; replacing a transaction is switched off in the source.
- BlockAssembly.FillBlock: the order of the queue (priorities and fees, in floating point) is any order; the values and the number of confirmations that only enter a priority are not read, nor are the fields of a pruned record there. What happens once a freed entry is met is not modelled.
- BlockTemplate.TemplateConnectsIff: the head is taken as it ends up, with the value and script of its coinbase, and to connect by itself within the 100 signature operations kept back for it; how the coinstake is found is not modelled.
- The reward and fee totals that `CreateNewBlock` puts into its coinbase, and the nonce and the Merkle root of the new header.
- `AddrMan::Select_`, whose chances are floating point; draws of random numbers are arbitrary.
- AddrMan.AddrMan.Good_: times are unbounded integers and the services of an address a set of flags.
- AddrFile.Read: a file says at most 256 new buckets, since the source writes past its buckets on more; the object's key is the one in the file. Its indices are below the number of new records in `AddrRebuild.RebuiltIff`.
- PartialMerkle.ExtractIsSound: speaks of roots other than 0 and of the true number of transactions, see above.
- MoneySupply.StakeBlockBound: takes as a premise that the minimum fee per kilobyte of shares is at most `MAX_MONEY`, at which the source cuts fees off.
- Tree sizes, distances, heights and products are unbounded integers; where a width matters (exponents and forms of
  compact numbers, masks and packed bits, the 64 bits of a modifier) it is written out.
- StakeModifier.ComputeNextStakeModifier: takes distinct block hashes and a positive interval as premises; the fixed checkpoints of modifiers are not modelled.
- CoinsCodec.RoundTrip: a variable-length integer and a compressed script are one token of the stream each; amounts of outputs that are not null are not negative.
- Base58.DecodeBase58: takes a string without NUL, as a C string is. Checksums and addresses are not modelled.
- Locator.Locate: takes as a premise, like `FoundNearFork`, that two entries with one hash have parents with one hash.
- Retarget.SlowerIsEasier: for a last target of the kind that is not negative and has an exponent of at most 248, so that the moved one fits; the test for protocol 0.5 is taken not to go back to false. Block times take 32 bits.
- Network messages, RPC, wallets, data feeds, the user interface and logging.
- Sync checkpoints, which the source switches off, and smaller containers (`limitedmap`, `mruset`, key store,
  liquidity map, alerts, dividend split).
