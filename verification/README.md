# Verification of the earthspay node's store and of four state machines around it

This project models, in Dafny, how an earthspay node keeps its state: the versioned, prunable store that can be rolled back
(`LevelDBWriter`, `RW`), the caches in front of it (`Caches`), the storage form of blocks (`Block`, the codecs of the `database`
package), and, next to the store, the matcher's order reservations (`AddressActor`), its local event queue (`LocalQueueStore`)
and snapshot store (`MatcherSnapshotStore`), and the hop levels of the discovery page (`data.js`).

`dafny verify dfyconfig.toml` checks everything.

## How the store is modelled

The database is one map for each key prefix of `Keys` (`Tables`). A read-write batch reads a snapshot and commits all its writes
together (`ReadWrite`, `Batches`). All values with a height history share one tagged key, `VersionKey`.

The reference is a chain that nothing is ever pruned from: the blocks with the changes each of them made (`ChainBlocks`,
`Versions`). The store is faithful to a chain (`ChainNode.Stored`) if it holds its blocks, transactions, scores, address lists and
indexes, and of the state at least what can still be asked: everything from the safe rollback height on, and native and lease
balances from 1000 blocks before. `ChainRuns` shows this for all runs of appends and rollbacks.

Above it, `Diffs` gives the state its plain meaning: every value is the fold of the differences of the blocks. `Laws` says what such a
fold is, kind by kind: balances and order fills are 64-bit sums, lease balances saturating ones, the info of an asset a sum and a
conjunction, and everything else is what was set last. `Node` is the class with the caches; its ghost fields hold the chain and the
differences, and its methods are proved against them. `Appending` and
`RollingBack` hold the loops that fill the batches, each proved equal to a function of `Batches`.

## What a rollback restores

Rolling the last block back restores the store if and only if the block is *covered*: every key it changed is reached by a rollback
branch (`ChainState.Covered`). The same holds of rollbacks of any depth (`Survivors`). Whether a block is covered can be told from the
difference and the block that `append` is called with (`DiffCoverage.DiffCovered`).

`Append` and `RollbackTo` are proved without asking for it. In any store a rollback leaves each history without exactly the heights at
which it reaches the key (`Leftovers`). Item by item (`Exactness`), a value is the fold of the differences until a block is rolled back
that touched the item and does not have it undone; then it is the fold of the differences up to that block. Which transactions have
what undone is said by their payloads alone (`DiffCoverage.Reverts`). Appends go on from there.
They apply their difference to an item unless a script is removed under whose height a rollback left one, and validation lets that not
happen (`Node.LawfulIsReady`). Three kinds of blocks are not covered, each with a run of the store in `Runs`:

- a block that issues an asset with a script: the branch for issue transactions discards the asset's info only
  (LevelDBWriter.scala:487-488), so the script is still read afterwards;
- a block in which an address gets an asset balance without a listed transaction or a native balance change, such as a generator
  paid a fee in an asset only (BlockDiffer.scala:41-45): it is not among the changed addresses (LevelDBWriter.scala:272), and keeps
  the fee;
- for the same reason, a lease balance or a data entry changed for an address that is not recorded as changed, and a lease status
  changed without a lease transaction, as the lease patches of BlockDiffer.scala:151-164 do.

## Other results about the code

- Blocks of versions 1 and 2 store their transaction count in one signed byte. With more than 127 transactions the stored header,
  the spliced bytes and the parsed block all differ from the block; with at most 127, and always in version 3, they agree.
- A collection codec does not delimit itself: with anything behind the collection it fails.
- The caches of balances at single heights outlive pruning. Every cached value is the unpruned chain's at its height, but `slice` puts
  height 1 in the place of a missing one (LevelDBWriter.scala:46-49). If block 1 changed the balance, the store has pruned that, and
  the value is still cached, a request that falls back to height 1 gets the cached value where the store would answer 0. This is the
  only difference, for all ranges of heights; from the floor of the balances on there is none. `OutlivedRun` is a run with any rollback
  depth; the one configured is 2000 (application.conf:11).
- A lease balance cached for a height stays cached when the block is rolled back and the address was not recorded as changed, and
  answers for the block that takes the height (`StaleLeaseRun`).
- `dropUntil` with an offset the consumer has not reached makes its next read from disk skip events, if later ones are left
  (`FailureRuns.SkippedEvent`). No caller passes one: `LocalMatcherQueue` drops up to the offset its consumer starts at.
- `CancelAllOrders` and expiring orders overwrite a promise that is still waiting for the same cancellation; that client is never
  answered (`FailureRuns.LostAnswer`). No promise is answered twice.
- The duplicate check misses a transaction that is on the chain only if it is dated more than two hours after its block and has
  left the window.
- A rollback leaves the record of changed data keys, asset lists, enumeration indexes, address ids and scores of discarded heights in
  place; this changes no answer.

## Model

| member | source | states |
|---|---|---|
| `Node.LevelDBWriter.Append` | src/main/scala/com/earthspay/database/Caches.scala:210-321 | Appending a block with its difference, whatever the caches held and whatever blocks were rolled back before: each item holds what the difference makes of it if and only if the next height was ready for it, items that were the fold of the differences stay so with one more, and the fields and the lists of transactions by address follow. If the height was ready for all items, every cache equals a fresh load; a store that held the chain then holds the longer chain. |
| `Node.LevelDBWriter.RollbackTo` | src/main/scala/com/earthspay/database/Caches.scala:325-343 | An unknown block or one not above the safe rollback height is refused and changes nothing. Otherwise the chain is cut at the block, exactly the blocks above it are returned, oldest first, with their transactions in order, and the caches agree with the store. From any store each item then reads the value under the newest height left of its history. One that was the fold of the differences is the fold of the differences up to the block, and stays exact, if every discarded block that touched it has the transaction its rollback needs (an exchange with the order on either side for a fill, an issue, reissue or burn for an asset's info, and so on) or records the address, and otherwise it does not stay exact and is the fold of those it survives from. The state is that of the shorter chain if and only if the discarded differences are covered. Cached values of single heights stay unless their address is recorded as changed there. |
| `Node.LevelDBWriter.DoRollback` | src/main/scala/com/earthspay/database/LevelDBWriter.scala:413-559 | The loop over heights takes the blocks above the target off one by one, covered or not, and collects exactly these; covered blocks leave nothing wrong in the caches of values at single heights. |
| `Node.LevelDBWriter.RollbackTop` | src/main/scala/com/earthspay/database/LevelDBWriter.scala:427-552 | One turn of that loop takes off exactly the last block, covered or not, and keeps every cache of latest values coherent; the state is that of the shorter chain if and only if the difference of the block is covered. |
| `Node.LevelDBWriter.constructor` | src/main/scala/com/earthspay/database/Caches.scala:24-37 | Opening a store, also after a restart and whatever blocks were rolled back before, finds every cache empty and the height, score and last block of the chain. |
| `Node.LevelDBWriter.Evict` | src/main/scala/com/earthspay/database/Caches.scala:347-353 | Losing any entries of any cache at any time leaves the store valid: no answer about the latest state changes. |
| `Node.LevelDBWriter.Balance` | src/main/scala/com/earthspay/database/Caches.scala:140-144 | A balance, cached or loaded, is a fresh load. As long as the item is exact, as every item is in a valid store, it is what the differences of all blocks of the chain add up to: a number of 64 bits that differs from the integer sum of the changes by a multiple of 2 to the 64th, so the sum itself if that fits. |
| `Node.LevelDBWriter.LeaseBalanceFor` | src/main/scala/com/earthspay/database/Caches.scala:128-131 | A lease balance, cached or loaded, is a fresh load. As long as it is exact its two sides are 64-bit numbers, and the sums of the lease changes of all blocks unless one of these sums overflowed. |
| `Node.LevelDBWriter.PortfolioOf` | src/main/scala/com/earthspay/database/Caches.scala:133-138 | A portfolio, cached or loaded, has the native balance, the lease balance and, for every asset, listed or not, the balance that the differences of the chain add up to, each as long as it is exact; what it does not list is 0. |
| `Node.LevelDBWriter.FilledVolume` | src/main/scala/com/earthspay/database/Caches.scala:151-154 | The filled volume and fee of an order are a fresh load, and as long as they are exact the 64-bit sums of the volumes and of the fees of all its fills. |
| `Node.LevelDBWriter.AccountScript` | src/main/scala/com/earthspay/database/Caches.scala:156-161 | The script of an account is a fresh load, and the last one set on the chain as long as it is exact. |
| `Node.LevelDBWriter.HasScript` | src/main/scala/com/earthspay/database/Caches.scala:162-163 | After any appends and rollbacks an account has a script exactly if loading it finds one, although a cache miss only looks for stored bytes. |
| `Node.LevelDBWriter.AssetScriptFor` | src/main/scala/com/earthspay/database/Caches.scala:165-170 | The script of an asset is a fresh load, and the last one set on the chain as long as it is exact. |
| `Node.LevelDBWriter.HasAssetScript` | src/main/scala/com/earthspay/database/Caches.scala:171-175 | After any appends and rollbacks an asset has a script exactly if loading it finds one. |
| `Node.LevelDBWriter.HeightOf` | src/main/scala/com/earthspay/database/Caches.scala:91-98 | The shortcut for the last block answers as the stored index does. |
| `Node.LevelDBWriter.AccountData` | src/main/scala/com/earthspay/database/LevelDBWriter.scala:136-140 | A data entry is the stored one, and the last one written for the key on the chain as long as it is exact. |
| `Node.LevelDBWriter.CarryFeeNow` | src/main/scala/com/earthspay/database/LevelDBWriter.scala:124 | After any appends and rollbacks the carry fee read at the current height is the one the last block of the chain left. |
| `Node.LevelDBWriter.BuildUpdate` | src/main/scala/com/earthspay/database/Caches.scala:213-289 | The update is built of the new values of exactly the changed addresses, read through the caches, under ids that are new for exactly the new addresses. |
| `Node.LevelDBWriter.SnapshotsFor` | src/main/scala/com/earthspay/database/LevelDBWriter.scala:675-686 | For every range of heights, after any appends and rollbacks, the snapshots are what the per-height caches hold, or else the store, and everything asked for is cached then. In a valid store they equal the snapshots of the store if and only if nothing asked for has outlived it: neither slice falls back to height 1 where block 1 changed the key, the store has pruned that, and a value other than the default is cached. |
| `Node.SnapshotsBound` | src/main/scala/com/earthspay/database/LevelDBWriter.scala:675-686 | In a store that holds the chain a bound holds for the effective balance of all snapshots of an address, known or not, exactly if it holds for what the differences make of it after every block of the range. |
| `Node.PortfolioHolds` | src/main/scala/com/earthspay/database/LevelDBWriter.scala:166-170 | The assets a portfolio lists are enough: an asset without an entry has no balance. |
| `Node.ItemIsFold` | src/main/scala/com/earthspay/database/LevelDBWriter.scala:142-189 | Every latest value the store answers with, for every kind of key, is the fold of the differences of the blocks of the chain. |
| `Node.AppendKeepsFaithful` | src/main/scala/com/earthspay/database/LevelDBWriter.scala:209-411 | An append keeps that true, with one more block and one more difference. |
| `Node.AppendKeepsBased` | src/main/scala/com/earthspay/database/LevelDBWriter.scala:209-411 | Whatever the values are, an append keeps the blocks, records and indexes those of the longer chain, whose blocks changed exactly what their differences touch. |
| `Node.RollbackKeepsFaithful` | src/main/scala/com/earthspay/database/LevelDBWriter.scala:427-544 | Rolling the last block back keeps it true, with one less, if and only if the difference of the block is covered. |
| `Node.RollbackKeepsBased` | src/main/scala/com/earthspay/database/LevelDBWriter.scala:427-544 | Covered or not, the rollback keeps the blocks, records and indexes those of the shorter chain, and the scan finds the block that is returned. |
| `Node.NothingStored` | src/main/scala/com/earthspay/database/Caches.scala:26-29 | An empty database is the store of the empty chain, from which every run starts. |
| `Diffs.BalanceIsSum` | src/main/scala/com/earthspay/database/Caches.scala:239-243 | A balance is the 64-bit sum of the changes of all blocks, wrap-around included. |
| `Diffs.FoldIsValue` | src/main/scala/com/earthspay/database/LevelDBWriter.scala:57-61 | The value the unpruned chain gives an item is the fold of the differences. |
| `Laws.BalanceIn64Bits` | src/main/scala/com/earthspay/database/Caches.scala:239-243 | A balance is a number of 64 bits, differs from the integer sum of the changes by a multiple of 2 to the 64th, and is that sum if it fits. |
| `Laws.FillIsSum` | src/main/scala/com/earthspay/state/Diff.scala:35-36 | Volume and fee of an order are the 64-bit sums of the volumes and of the fees of all its fills. |
| `Laws.LeaseStep` | src/main/scala/com/earthspay/state/Diff.scala:22-23 | One block adds its changes to incoming and outgoing leases; a sum that does not fit into 64 bits becomes the least number. |
| `Laws.LeasesAreSums` | src/main/scala/com/earthspay/state/Diff.scala:22-23 | Incoming and outgoing leases are 64-bit numbers, and the sums of all changes unless one of these sums overflowed. |
| `Laws.AssetInfoIs` | src/main/scala/com/earthspay/database/LevelDBWriter.scala:316-322 | An asset's volume is the sum of all quantities issued, reissued and burnt, and it can be reissued if and only if none of them closed it; an asset that was never issued has no info. |
| `Laws.ScriptIsLast` | src/main/scala/com/earthspay/database/LevelDBWriter.scala:327-331 | The script of an account is the one the last block that has one for it set, or none if that removed it. |
| `Laws.AssetScriptIsLast` | src/main/scala/com/earthspay/database/LevelDBWriter.scala:333-336 | The same for the script of an asset. |
| `Laws.DataIsLast` | src/main/scala/com/earthspay/database/LevelDBWriter.scala:338-347 | A data entry is the one written last. |
| `Laws.LeaseStatusIsLast` | src/main/scala/com/earthspay/database/LevelDBWriter.scala:324-326 | A lease is active or cancelled as the last block that has it says. |
| `Laws.SponsorshipIsLast` | src/main/scala/com/earthspay/database/LevelDBWriter.scala:398-401 | A sponsorship is the last one that carries a fee. |
| `Laws.CarryFeeIsLast` | src/main/scala/com/earthspay/database/LevelDBWriter.scala:403-404 | The carry fee is the last block's. |
| `Laws.UntouchedSince` | src/main/scala/com/earthspay/database/LevelDBWriter.scala:57-61 | Blocks that do not touch an item leave it as it was. |
| `Coherence.AppendKeepsCoherence` | src/main/scala/com/earthspay/database/Caches.scala:311-318 | Putting the new values and dropping the portfolios keeps every cached balance, lease balance, portfolio, order fill, script and address id equal to a fresh load. |
| `Coherence.RollbackKeepsCoherence` | src/main/scala/com/earthspay/database/LevelDBWriter.scala:546-552 | What a rollback invalidates is enough for the same, whether or not the block is covered. |
| `Coherence.AppendedItem` | src/main/scala/com/earthspay/database/Caches.scala:230-309 | An append applies the difference to an item if and only if the next height is ready for it: what is written there does not expire at once and, where a script is removed, none is left there. |
| `Coherence.StoredIsReady` | src/main/scala/com/earthspay/database/LevelDBWriter.scala:200-207 | In a store that holds the chain, as after rollbacks of covered blocks, the next height is ready for every item. |
| `Coherence.ReadyWithDepth` | src/main/scala/com/earthspay/database/LevelDBWriter.scala:200-207 | With a rollback depth it is ready for an item unless the difference removes the item's script and a script is stored for it under that height. |
| `Node.LawfulIsReady` | src/main/scala/com/earthspay/state/diffs/CommonValidation.scala:154-156 | With a rollback depth it is always ready, whatever blocks were rolled back, if accounts get their scripts from SetScript transactions only and no script of an asset is removed, which validation ensures. |
| `RemovalRun.RemovedScriptStays` | src/main/scala/com/earthspay/database/LevelDBWriter.scala:487-488 | A run with a difference that validation rejects: it removes the script of an asset under whose height a rollback left one, and the script is still read. |
| `HeightCaches.AppendKeepsHeights` | src/main/scala/com/earthspay/database/LevelDBWriter.scala:663-673 | While blocks are appended and heights pruned, every value cached for a single height stays the unpruned chain's value at that height, or the default that was read at height 1 after the store had pruned it. |
| `HeightCaches.RollbackKeepsHeights` | src/main/scala/com/earthspay/database/LevelDBWriter.scala:461-462 | When the last block is rolled back, covered or not, this stays so if and only if every lease balance cached for its height is of an address recorded as changed there. |
| `HeightCaches.SliceIsLive` | src/main/scala/com/earthspay/database/LevelDBWriter.scala:46-49 | Every height a snapshot asks for may be cached; for every range the heights other than 1 still have their value in the store, and height 1 too unless the range starts below the floor. |
| `HeightCaches.CoveredDropsLeases` | src/main/scala/com/earthspay/database/LevelDBWriter.scala:461-462 | Covered blocks are such blocks. |
| `HeightCaches.EntriesAfterRollback` | src/main/scala/com/earthspay/database/LevelDBWriter.scala:461-462 | A rollback takes out of the caches of single heights exactly the entries of the addresses recorded as changed at the discarded heights. |
| `StaleLeaseRun.LeaseBalanceGoesStale` | src/main/scala/com/earthspay/database/LevelDBWriter.scala:461-462 | A run on which a lease balance stays cached: the block that cancels all leases is asked for and rolled back, and a block with another lease at its height is answered with the lease balance of the block that is gone. |
| `HeightCaches.SnapshotsThroughExact` | src/main/scala/com/earthspay/database/LevelDBWriter.scala:675-686 | Read through the caches, the snapshots of any range are the store's if and only if nothing they ask for is outlived. |
| `HeightCaches.NothingOutlived` | src/main/scala/com/earthspay/database/LevelDBWriter.scala:46-49 | From the floor of the balances on nothing ever is. |
| `HeightCaches.OutlivedIsTheChains` | src/main/scala/com/earthspay/database/LevelDBWriter.scala:663-673 | What outlives the store is the unpruned chain's value. |
| `OutlivedRun.CachedBalanceOutlives` | src/main/scala/com/earthspay/database/LevelDBWriter.scala:675-686 | A run, for every rollback depth, on which this happens: the balance at height 1 is asked for, changed at height 2 and 1000 blocks and the depth after it, and asked for again; the caches answer 1000 and the store 0. |
| `ChainRuns.RunKeepsStore` | src/main/scala/com/earthspay/database/LevelDBWriter.scala:209-559 | Every run of appends, pruning and permitted rollbacks, in any order, keeps the store a faithful image of its chain. |
| `ChainRuns.ReturningRunReadsAlike` | src/main/scala/com/earthspay/database/LevelDBWriter.scala:413-559 | Rollback undoes append over whole runs: wherever a run returns to a chain, every latest value, the stored blocks and the score read as when the chain first stood. |
| `ChainRuns.RollbackToTarget` | src/main/scala/com/earthspay/database/LevelDBWriter.scala:413-558 | A rollback to a height always gives the blocks, lists, records and indexes of the chain cut there and returns exactly the discarded blocks, oldest first; covered blocks leave the store of the shorter chain. |
| `Survivors.RollbackExactlyCovered` | src/main/scala/com/earthspay/database/LevelDBWriter.scala:413-558 | A rollback of any depth gives the store of the chain cut at the target if and only if all blocks above it are covered. |
| `Survivors.EveryKeyRolled` | src/main/scala/com/earthspay/database/RW.scala:27 | After a rollback of any depth the history of every key is as before without exactly the heights at which the key is undone, and the values under the other heights stay. |
| `Survivors.RollbackReads` | src/main/scala/com/earthspay/database/LevelDBWriter.scala:435-531 | So every key reads the unpruned chain's value at the last discarded height at which it was changed and not undone, or else at the target. |
| `Survivors.KeyKeptExactly` | src/main/scala/com/earthspay/database/LevelDBWriter.scala:435-531 | A key that was faithful to the chain stays so over a rollback of any depth if and only if no discarded block changed it without its being undone. |
| `Exactness.ItemAfterRollback` | src/main/scala/com/earthspay/database/LevelDBWriter.scala:435-531 | The same by difference: an item that was exact is the fold of the differences up to the last one that touched it and is not undone. |
| `Exactness.ExactAfterRollback` | src/main/scala/com/earthspay/database/LevelDBWriter.scala:435-531 | It stays exact over a rollback of any depth if and only if every discarded block that touched it has it undone. |
| `Exactness.AppendKeepsExact` | src/main/scala/com/earthspay/database/LevelDBWriter.scala:209-411 | An append keeps an exact item exact, whatever other items hold. |
| `Exactness.ExactIsFold` | src/main/scala/com/earthspay/database/LevelDBWriter.scala:57-61 | An exact item holds the fold of the differences of all blocks of the chain. |
| `Leftovers.RollbackLeaves` | src/main/scala/com/earthspay/database/RW.scala:27 | In any store a rollback of any depth takes off each history exactly the heights above the target at which the stored records and transactions reach its key, and deletes exactly the values there. |
| `Leftovers.RollbackReadsLeft` | src/main/scala/com/earthspay/database/LevelDBWriter.scala:57-61 | Every item then reads the value under the newest height that is left. |
| `DiffCoverage.CoveredByDiff` | src/main/scala/com/earthspay/database/LevelDBWriter.scala:435-520 | A block is covered if and only if its difference is: whoever has a lease balance, an asset balance or a data entry changed has a transaction or a changed native balance, scripts of accounts are set by such transactions, and for every asset info, lease status, order fill, asset script and sponsorship there is a transaction of a kind that takes it back. |
| `DiffCoverage.DiffCoveredItems` | src/main/scala/com/earthspay/database/LevelDBWriter.scala:435-520 | A difference is covered if and only if every item it touches is one that the rollback undoes. |
| `DiffCoverage.RevertedIsUndone` | src/main/scala/com/earthspay/database/LevelDBWriter.scala:483-519 | The branches for the transactions of a block discard exactly the asset infos of issues, reissues and burns, the statuses of leases and their cancellations, the fills of both orders of exchanges, the scripts of asset script transactions and the sponsorships of sponsor fees. |
| `DiffCoverage.UndoneAboveExactly` | src/main/scala/com/earthspay/database/LevelDBWriter.scala:435-531 | An item survives from no discarded block if and only if every discarded block that touched it undoes it. |
| `ChainRuns.LatestReads` | src/main/scala/com/earthspay/database/LevelDBWriter.scala:57-61 | A latest value is the chain's value, whatever was appended, pruned and rolled back before. |
| `ChainRuns.PastReads` | src/main/scala/com/earthspay/database/LevelDBWriter.scala:928-934 | A read at a height that is not below the floor finds the unpruned chain's value at that height. |
| `ChainRuns.SameChainSameReads` | src/main/scala/com/earthspay/database/LevelDBWriter.scala:142-189 | Two stores with the same chain answer alike. |
| `ChainNode.AppendKeepsStore` | src/main/scala/com/earthspay/database/LevelDBWriter.scala:209-411 | Appending keeps blocks, addresses, state, indexes and address lists faithful to the chain. |
| `ChainNode.RollbackRestoresStore` | src/main/scala/com/earthspay/database/LevelDBWriter.scala:413-559 | Rolling the last block back gives the store of the chain below it if and only if the block is covered: the rollback branches reach every key the block changed. |
| `ChainState.RollbackRestoresState` | src/main/scala/com/earthspay/database/LevelDBWriter.scala:435-531 | The same for the versioned state alone. |
| `ChainState.AppendKeepsState` | src/main/scala/com/earthspay/database/LevelDBWriter.scala:257-404 | Appending keeps the versioned state and the record of changed addresses, assets and data keys faithful. |
| `Versions.ReadsMatchChain` | src/main/scala/com/earthspay/database/LevelDBWriter.scala:200-207 | Pruning never changes an answer that can still be asked: from the floor of a key on, the largest history entry not above a height has its value, and it is the unpruned chain's. |
| `Versions.AppendRepresents` | src/main/scala/com/earthspay/database/LevelDBWriter.scala:200-207 | Adding a height, pruning older ones and deleting what expired keeps histories strictly descending and complete from the floor on. |
| `Versions.PrunedExactly` | src/main/scala/com/earthspay/database/LevelDBWriter.scala:200-207 | An append keeps exactly the new height, every height within the rollback depth and the last one at or before its end of a changed key's history, 1000 blocks longer for native and lease balances and nothing else, and deletes exactly the values of the heights it drops. |
| `Versions.RollbackExact` | src/main/scala/com/earthspay/database/RW.scala:27 | Deleting the values at a height and filtering it from the histories of a set of keys undoes a block if and only if the set has every key the block changed. |
| `Versions.RollbackReadExact` | src/main/scala/com/earthspay/database/RW.scala:27 | A single key reads as before the block if and only if it is in the set, was not changed, or was set to what it held. |
| `Histories.ExpiredMembers` | src/main/scala/com/earthspay/database/LevelDBWriter.scala:206 | The expired heights are exactly the ones an update drops. |
| `Histories.InForceIsLargest` | src/main/scala/com/earthspay/database/LevelDBWriter.scala:931 | The first entry not above a height is the largest such entry. |
| `Uncovered.RollbackReadsExactly` | src/main/scala/com/earthspay/database/LevelDBWriter.scala:479-520 | After the rollback of one block a key reads as before if and only if it was unchanged, is reached by a rollback branch, or was set to what it held. |
| `Uncovered.IssuedScriptSurvives` | src/main/scala/com/earthspay/database/LevelDBWriter.scala:487-488 | The rollback of an issue brings the asset's info back to what it was below, but leaves its script, which can still be read. |
| `Uncovered.UnrecordedBalanceSurvives` | src/main/scala/com/earthspay/database/LevelDBWriter.scala:272 | An asset balance of an address with neither a transaction nor a changed native balance in the block survives the rollback. |
| `Runs.IssueThenRollback` | src/main/scala/com/earthspay/database/LevelDBWriter.scala:487-488 | A run of the store: block 2 issues an asset with a script; after a rollback to block 1 its info and the issuer's balance of it are gone and the script is still read. |
| `Runs.AssetFeeThenRollback` | src/main/scala/com/earthspay/database/LevelDBWriter.scala:272 | A run on which a generator is paid in an asset only: after the rollback both the issuer and the generator hold the fee, one unit more than was issued. |
| `Runs.LeasePatchThenRollback` | src/main/scala/com/earthspay/state/patch/CancelAllLeases.scala:9-18 | A run on which a block cancels all leases without a transaction: after its rollback they still read as cancelled. |
| `ChainBlocks.RemoveUndoesAppend` | src/main/scala/com/earthspay/database/LevelDBWriter.scala:522-529 | Removing the block just appended gives back exactly the block and transaction tables before it. |
| `ChainBlocks.ScanFindsBlock` | src/main/scala/com/earthspay/database/LevelDBWriter.scala:984-1004 | The scan of the keys at a height finds the block's transactions in their original order. |
| `ChainBlocks.StoredIndex` | src/main/scala/com/earthspay/database/LevelDBWriter.scala:586-592 | The index of transaction ids holds exactly the transactions on the chain, each under its place. |
| `ChainBlocks.StoredTransactions` | src/main/scala/com/earthspay/database/LevelDBWriter.scala:375-378 | The transaction table holds exactly the transactions of the blocks on the chain. |
| `ChainBlocks.NewIsFresh` | src/main/scala/com/earthspay/database/LevelDBWriter.scala:375-378 | A block whose id and transactions are not on the chain finds all its places in the tables free. |
| `ChainAddressTxs.AppendKeepsLists` | src/main/scala/com/earthspay/database/LevelDBWriter.scala:359-369 | The list of an address has one entry for each block that touched it, numbered from 1 without gaps. |
| `ChainAddressTxs.RollbackKeepsLists` | src/main/scala/com/earthspay/database/LevelDBWriter.scala:465-474 | Rolling a block back takes exactly its entries off the lists. |
| `ChainIndexes.AppendKeepsIndexes` | src/main/scala/com/earthspay/database/LevelDBWriter.scala:260-306 | The enumeration indexes have every address and key with a history, each holder of an asset once. |
| `ChainIndexes.RollbackKeepsIndexes` | src/main/scala/com/earthspay/database/LevelDBWriter.scala:435-457 | They stay complete although a rollback never shrinks them. |
| `ReadWrite.RW.UpdateHistory` | src/main/scala/com/earthspay/database/LevelDBWriter.scala:200-207 | Puts the pruned history of a key as read from the snapshot, and returns exactly the heights it dropped. |
| `ReadWrite.RW.FilterHistory` | src/main/scala/com/earthspay/database/RW.scala:27 | Puts the snapshot's history without the height. |
| `ReadWrite.RW.DeleteExpired` | src/main/scala/com/earthspay/database/LevelDBWriter.scala:406 | The deletions of expired values are added after everything else in the batch. |
| `ReadWrite.ChangeWrites` | src/main/scala/com/earthspay/database/LevelDBWriter.scala:203-206 | One more change adds its history, its value and what it expires to the batch, and nothing else. |
| `Appending.DoAppend` | src/main/scala/com/earthspay/database/LevelDBWriter.scala:209-411 | The loops over an update commit exactly the batch the reference functions describe. |
| `Appending.PutState` | src/main/scala/com/earthspay/database/LevelDBWriter.scala:261-404 | The loop over all versioned families, with expired values deleted last. |
| `Appending.NewHoldersByAsset` | src/main/scala/com/earthspay/database/LevelDBWriter.scala:285-291 | The nested loops collect, for each asset, exactly the addresses that did not hold it before. |
| `Appending.PutIndexes` | src/main/scala/com/earthspay/database/LevelDBWriter.scala:260-306 | The index writes for native holders, asset holders and data key chunks. |
| `Appending.PutDataChunks` | src/main/scala/com/earthspay/database/LevelDBWriter.scala:338-357 | A chunk for exactly the addresses with new data keys, holding exactly the new keys. |
| `Appending.PutAddressTransactions` | src/main/scala/com/earthspay/database/LevelDBWriter.scala:359-369 | The next entry of each listed address. |
| `Appending.PutTransactions` | src/main/scala/com/earthspay/database/LevelDBWriter.scala:375-378 | Each transaction under its height and number, and its place under its id. |
| `Appending.PutAddresses` | src/main/scala/com/earthspay/database/LevelDBWriter.scala:250-254 | Both directions of the address index. |
| `RollingBack.RollbackBlock` | src/main/scala/com/earthspay/database/LevelDBWriter.scala:427-544 | The loops that undo one block commit exactly the batch the reference functions describe, and name exactly the cache entries to drop. |
| `RollingBack.RollbackAddresses` | src/main/scala/com/earthspay/database/LevelDBWriter.scala:435-475 | The loop over changed addresses: balances, leases, assets, data keys and transaction lists. |
| `RollingBack.RollbackTransactions` | src/main/scala/com/earthspay/database/LevelDBWriter.scala:477-526 | The loop over transactions: what each kind undoes, and all but genesis transactions removed. |
| `Updates.MadeUpdateRealizes` | src/main/scala/com/earthspay/database/Caches.scala:230-309 | The update by address id has the effects of the difference by address, for every item. |
| `Updates.UpdateIsReady` | src/main/scala/com/earthspay/database/Caches.scala:213-309 | It is acceptable to the store: ids are new, addresses known, listed transactions in the block. |
| `Updates.AssignIds` | src/main/scala/com/earthspay/database/Caches.scala:219-225 | New addresses get different ids right above the last one. |
| `Updates.ListTransactions` | src/main/scala/com/earthspay/database/Caches.scala:277-289 | Each address id lists exactly the transactions that touch its address. |
| `Distributions.EarthsDistributionExact` | src/main/scala/com/earthspay/database/LevelDBWriter.scala:957-966 | The native distribution at a height has exactly the addresses with a positive balance after that many blocks, and no others. |
| `Distributions.AccountDataExact` | src/main/scala/com/earthspay/database/LevelDBWriter.scala:126-134 | The data of an account lists exactly the keys whose point lookup finds a value. |
| `Distributions.ListingExact` | src/main/scala/com/earthspay/database/LevelDBWriter.scala:902-955 | The asset distribution at a height lists exactly the positive holders, each once, and no address the store does not know. |
| `Distributions.PagesComplete` | src/main/scala/com/earthspay/database/LevelDBWriter.scala:902-955 | Following the last key with pages of at least one entry collects the whole listing, also over different stores that serve the same one. |
| `Distributions.PageExact` | src/main/scala/com/earthspay/database/LevelDBWriter.scala:902-955 | A page holds the next entries up to the count, announces another exactly if entries are left, and ends with the key it names; at and below the safe rollback height nothing is served. |
| `Distributions.ListingStable` | src/main/scala/com/earthspay/database/LevelDBWriter.scala:902-955 | Any run that keeps the blocks up to the height leaves the listing as it is, as long as the safe rollback height stays below it. |
| `Snapshots.SnapshotsExact` | src/main/scala/com/earthspay/database/LevelDBWriter.scala:675-686 | The snapshots of an address, known or not, have strictly descending heights within the range's end, and bound the effective balance exactly as all heights of the range do. |
| `Snapshots.SnapshotsCover` | src/main/scala/com/earthspay/database/LevelDBWriter.scala:675-686 | Every pair of balance and lease in force at a height of the range is among the snapshots, dated by the later of their last changes. |
| `Snapshots.SnapshotsOnly` | src/main/scala/com/earthspay/database/LevelDBWriter.scala:675-686 | Every snapshot was in force at some height of the range and is dated so. |
| `Snapshots.MergeHeights` | src/main/scala/com/earthspay/database/LevelDBWriter.scala:691-718 | The accumulating merge pairs two histories as the recursion does. |
| `Snapshots.MergeCovers` | src/main/scala/com/earthspay/database/LevelDBWriter.scala:691-718 | Merging loses no pair that is in force at a height of the range. |
| `Snapshots.SliceAt` | src/main/scala/com/earthspay/database/LevelDBWriter.scala:46-49 | In a slice the same entry is in force at each height of the range as in the history. |
| `AddressPaging.PageIs` | src/main/scala/com/earthspay/database/LevelDBWriter.scala:599-642 | A page holds the first entries of the filtered history strictly below the place of the given transaction, which need not concern the address; a transaction that is not on the chain is an error whatever the address, and an unknown address has no entries. |
| `AddressPaging.PagesComplete` | src/main/scala/com/earthspay/database/LevelDBWriter.scala:599-642 | Pages chained by the last id are together the whole filtered history, each transaction once. |
| `AddressPaging.ItemsInExactly` | src/main/scala/com/earthspay/database/LevelDBWriter.scala:618-623 | The history is strictly descending in height and number, and has exactly the listed transactions with their types. |
| `AddressPaging.TakeAfterCuts` | src/main/scala/com/earthspay/database/LevelDBWriter.scala:604-610 | The two drops leave exactly what lies strictly below the place. |
| `Window.TransactionWindow.ContainsTransaction` | src/main/scala/com/earthspay/database/Caches.scala:106-113 | A transaction is reported if and only if it is on the chain and is either in memory or at most 7,200,000 milliseconds newer than the oldest timestamp kept, so that the store is asked; if transactions are dated at most that long after their block, if and only if it is on the chain. |
| `Window.TransactionWindow.Append` | src/main/scala/com/earthspay/database/Caches.scala:319-320 | Appending and forgetting keep exactly the transactions from some height on in memory, also with timestamps left over from blocks that were rolled back. |
| `Window.TransactionWindow.Rollback` | src/main/scala/com/earthspay/database/LevelDBWriter.scala:479-481 | Forgetting the transactions of a block that is rolled back keeps the window right. |
| `Window.TransactionWindow.ForgetBlocks` | src/main/scala/com/earthspay/database/Caches.scala:114-126 | The oldest timestamp is remembered before old blocks are dropped. |
| `Window.TransactionWindow.constructor` | src/main/scala/com/earthspay/database/Caches.scala:102-104 | A restart starts with an empty window that sends every question to the store. |
| `Bytes.HNumOrder` | src/main/scala/com/earthspay/database/KeyHelpers.scala:13-25 | The byte order of (height, number) keys is their numeric order. |
| `KeyScans.ScanAtHeight` | src/main/scala/com/earthspay/database/LevelDBWriter.scala:984-1004 | Keys met in byte order under the prefix of a height carry exactly the numbers stored at the height, ascending, as the scan of the model lists them. |
| `KeyScans.ScanFromOffset` | src/main/scala/com/earthspay/matcher/LocalQueueStore.scala:48-52 | Keys met in byte order from the key of an offset on are those of exactly the events the model reads, in its order. |
| `Bytes.SignedRoundTrip` | src/main/scala/com/earthspay/database/KeyHelpers.scala:10-11 | A fixed-width integer reads back if and only if it fits. |
| `BlockCodec.HeaderRoundTrip` | src/main/scala/com/earthspay/database/package.scala:249-303 | A stored header reads back as written, if and only if the version is 3 or there are at most 127 transactions. |
| `BlockCodec.SpliceExact` | src/main/scala/com/earthspay/database/LevelDBWriter.scala:776-829 | Splicing the stored parts gives the block's wire bytes, if and only if the version is 3 or there are at most 127 transactions. |
| `BlockCodec.ParseHeaderRoundTrip` | src/main/scala/com/earthspay/block/Block.scala:48-105 | Parsing the wire bytes gives the header and the transaction field back. |
| `BlockCodec.TransactionsRoundTrip` | src/main/scala/com/earthspay/block/Block.scala:209-233 | Parsing the transaction field gives the transactions back. |
| `BlockCodec.LoadedBlockParses` | src/main/scala/com/earthspay/block/Block.scala:235-248 | A block spliced from storage parses to the block that was stored, under the same condition and only then. |
| `BlockCodec.TransParseBytes` | src/main/scala/com/earthspay/block/Block.scala:209-233 | The loop reads as many transactions as the count says, or fails as the recursion does. |
| `Codecs.ColRoundTrip` | src/main/scala/com/earthspay/db/StorageCodecs.scala:31-66 | A collection decodes to itself with its full length if and only if nothing follows it. |
| `Codecs.ColEncode` | src/main/scala/com/earthspay/db/StorageCodecs.scala:32-43 | The encoding loop writes the count and the elements in order. |
| `Codecs.ColDecode` | src/main/scala/com/earthspay/db/StorageCodecs.scala:45-65 | The decoding loop, which ends because every element takes at least one byte. |
| `Codecs.TxIdsRoundTrip` | src/main/scala/com/earthspay/database/package.scala:84-110 | Ids of 32 and 64 bytes, and only those, can be written and read back. |
| `Codecs.StringsRoundTrip` | src/main/scala/com/earthspay/database/package.scala:112-131 | Strings read back if and only if none is longer than 32767 bytes. |
| `Codecs.BigIntSeqRoundTrip` | src/main/scala/com/earthspay/database/package.scala:133-147 | Every sequence of big integers that can be written reads back. |
| `Codecs.FeaturesRoundTrip` | src/main/scala/com/earthspay/database/package.scala:206-222 | The entries of a feature map read back. |
| `Codecs.HNSeqRoundTrip` | src/main/scala/com/earthspay/database/package.scala:305-333 | A height with typed transaction numbers reads back. |
| `AddressOrders.AddressActor.PlaceOrder` | src/main/scala/com/earthspay/matcher/AddressActor.scala:90-102 | An accepted order becomes active and reserves what it requires; a repeated command waits for the same answer. |
| `AddressOrders.AddressActor.CancelOrder` | src/main/scala/com/earthspay/matcher/AddressActor.scala:104-117 | A repeated cancellation waits for the same answer; no answer is lost. |
| `AddressOrders.AddressActor.CancelAllOrders` | src/main/scala/com/earthspay/matcher/AddressActor.scala:119-125 | Stores a cancellation for exactly the active orders of the pair; exactly the earlier cancellations still waiting for these orders lose their answer. |
| `AddressOrders.AddressActor.CancelExpiredOrder` | src/main/scala/com/earthspay/matcher/AddressActor.scala:127-136 | Cancels an order within 50 milliseconds of its expiration and schedules any other again; exactly one promise is made for a cancelled order, and a promise that was waiting for the same cancellation loses its answer. |
| `AddressOrders.AddressActor.BalanceUpdated` | src/main/scala/com/earthspay/matcher/AddressActor.scala:81-88 | Stores exactly the greedy cancellations over the active orders by age and makes a promise for each, none of them already waiting; every promise that was waiting still waits, and no answer is lost. |
| `AddressOrders.CancellationsPending` | src/main/scala/com/earthspay/matcher/AddressActor.scala:139-148 | Storing cancellations makes one promise for each and leaves placements, answers and all other cancellations alone. |
| `AddressOrders.CancellationWaits` | src/main/scala/com/earthspay/matcher/AddressActor.scala:139-148 | Each of the cancelled orders then waits under a promise of its own. |
| `FailureRuns.LostAnswer` | src/main/scala/com/earthspay/matcher/AddressActor.scala:119-136 | A run on which the answer of a cancellation is lost, by a command that cancels all orders or by expiry. |
| `AddressOrders.AddressActor.OrderAdded` | src/main/scala/com/earthspay/matcher/AddressActor.scala:182-186 | Open volume stays the sum of what the active orders require when an order is added again; its placement, and nothing else, is answered. |
| `AddressOrders.AddressActor.OrderExecuted` | src/main/scala/com/earthspay/matcher/AddressActor.scala:187-190 | When both sides are executed, a side of the owner that is still valid is active with the requirements of what remains of it, a used-up one is gone with its expiration, all other orders stay, and open volume stays the sum. Placements of the owner's sides are confirmed, cancellations of used-up ones refused, and nothing else is answered. |
| `AddressOrders.AddressActor.OrderCanceled` | src/main/scala/com/earthspay/matcher/AddressActor.scala:192-200 | Open volume stays the sum when an order is cancelled; exactly its placement and its cancellation are answered, each at most once. |
| `AddressOrders.RepliedBoth` | src/main/scala/com/earthspay/matcher/AddressActor.scala:150-180 | Replies given one after the other add up: a promise answered once keeps its answer, and of two answers to one cancellation the first counts. |
| `AddressOrders.AddressActor.Reserve` | src/main/scala/com/earthspay/matcher/AddressActor.scala:50-58 | Reserving adds exactly the requirements of the order. |
| `AddressOrders.AddressActor.Release` | src/main/scala/com/earthspay/matcher/AddressActor.scala:60-66 | Releasing takes off exactly the requirements of the active order. |
| `AddressOrders.OrdersToDelete` | src/main/scala/com/earthspay/matcher/AddressActor.scala:249-271 | The fold over the orders finds the greedy cancellations. |
| `Reservations.Remove` | src/main/scala/com/earthspay/matcher/AddressActor.scala:278-286 | Whether an order fits, and what is left, does not depend on the order of its requirements. |
| `Reservations.KeptFit` | src/main/scala/com/earthspay/matcher/AddressActor.scala:261-269 | The orders that are kept fit together into every changed balance. |
| `Reservations.NotKeptOverdraws` | src/main/scala/com/earthspay/matcher/AddressActor.scala:261-269 | Each other order would overdraw some changed balance on top of the earlier kept ones. |
| `Reservations.KeptOrCancelled` | src/main/scala/com/earthspay/matcher/AddressActor.scala:261-269 | Cancelled are exactly the orders that are not kept and not already being cancelled. |
| `Reservations.AllFitNoneCancelled` | src/main/scala/com/earthspay/matcher/AddressActor.scala:261-269 | If all orders fit together, nothing is cancelled. |
| `LocalQueue.LocalQueueStore.NothingLost` | src/main/scala/com/earthspay/matcher/LocalQueueStore.scala:33-53 | What the consumer has got, repeated offsets dropped, is its first offset and all following ones without gap, in every interleaving of the steps below. |
| `LocalQueue.LocalQueueStore.Allocate` | src/main/scala/com/earthspay/matcher/LocalQueueStore.scala:19 | The next offset was never used. |
| `LocalQueue.LocalQueueStore.Write` | src/main/scala/com/earthspay/matcher/LocalQueueStore.scala:23-26 | An offset is written once, also over restarts and drops. |
| `LocalQueue.LocalQueueStore.AddToMemory` | src/main/scala/com/earthspay/matcher/LocalQueueStore.scala:28 | The event goes to memory behind all earlier ones. |
| `LocalQueue.LocalQueueStore.Mark` | src/main/scala/com/earthspay/matcher/LocalQueueStore.scala:29 | The marker is set once, to the first offset in memory. |
| `LocalQueue.LocalQueueStore.Decide` | src/main/scala/com/earthspay/matcher/LocalQueueStore.scala:34 | The consumer chooses memory or disk, with a marker it may not see yet. |
| `LocalQueue.LocalQueueStore.ReadDisk` | src/main/scala/com/earthspay/database/ReadOnlyDB.scala:31-47 | Reading everything from an offset on leaves no gap. |
| `LocalQueue.LocalQueueStore.Poll` | src/main/scala/com/earthspay/matcher/LocalQueueStore.scala:40-43 | Each poll takes the oldest event in memory. |
| `LocalQueue.LocalQueueStore.FinishPolling` | src/main/scala/com/earthspay/matcher/LocalQueueStore.scala:45 | What was polled leaves no gap. |
| `LocalQueue.LocalQueueStore.GetFrom` | src/main/scala/com/earthspay/matcher/LocalQueueStore.scala:33-53 | One request, its steps in a row with the polling loop: it gets the oldest events in memory up to the maximum, or else exactly the events on disk from the offset on, in rising order. |
| `LocalQueue.LocalQueueStore.Enqueue` | src/main/scala/com/earthspay/matcher/LocalQueueStore.scala:18-31 | The steps of one enqueue in a row. |
| `LocalQueue.LocalQueueStore.DropUntil` | src/main/scala/com/earthspay/matcher/LocalQueueStore.scala:61-67 | Deletes exactly the offsets from the oldest up to the given one, and nothing the consumer has yet to see is missing from disk if and only if the offset is not above the first of these or none of these was written. |
| `LocalQueue.GapAfterDrop` | src/main/scala/com/earthspay/matcher/LocalQueueStore.scala:48-52 | Once the expected offset is gone from disk, reading on from disk skips events if and only if later ones are left. |
| `FailureRuns.SkippedEvent` | src/main/scala/com/earthspay/matcher/LocalQueueStore.scala:61-67 | A run on which an event the consumer has not seen is dropped and skipped by its next read from disk. |
| `LocalQueue.LocalQueueStore.NewestOffset` | src/main/scala/com/earthspay/matcher/LocalQueueStore.scala:55-59 | The newest offset written, unless it is still being written or was dropped. |
| `LocalQueue.LocalQueueStore.constructor` | src/main/scala/com/earthspay/matcher/LocalQueueStore.scala:14-16 | A process may start on whatever disk an earlier one left at any step. |
| `LocalQueue.BatchLeavesNoGap` | src/main/scala/com/earthspay/matcher/LocalQueueStore.scala:33-53 | A rising batch that has everything from the expected offset on leaves no gap, whatever it repeats. |
| `SnapshotStore.MatcherSnapshotStore.Save` | src/main/scala/com/earthspay/matcher/MatcherSnapshotStore.scala:105-117 | Saving puts a snapshot in front of the list, also when its id was used before; other lists stay. |
| `SnapshotStore.MatcherSnapshotStore.Load` | src/main/scala/com/earthspay/matcher/MatcherSnapshotStore.scala:49-60 | Loading finds the newest snapshot that matches. |
| `SnapshotStore.MatcherSnapshotStore.Delete` | src/main/scala/com/earthspay/matcher/MatcherSnapshotStore.scala:68-82 | Deleting by metadata removes the newest match and nothing else, and leaves no orphans. |
| `SnapshotStore.MatcherSnapshotStore.DeleteAll` | src/main/scala/com/earthspay/matcher/MatcherSnapshotStore.scala:84-96 | Deleting by criteria removes exactly the matches, and leaves no orphans. |
| `SnapshotStore.FoundIsNewest` | src/main/scala/com/earthspay/matcher/MatcherSnapshotStore.scala:127-130 | What loading finds is the newest snapshot with sequence number and timestamp within inclusive bounds, and nothing exactly if there is none. |
| `SnapshotStore.RemovedIsFirst` | src/main/scala/com/earthspay/matcher/MatcherSnapshotStore.scala:132-133 | Deleting by metadata takes out the newest snapshot with the sequence number and, unless it is 0, the timestamp, and leaves the list if there is none. |
| `SnapshotStore.RemovedIfInRange` | src/main/scala/com/earthspay/matcher/MatcherSnapshotStore.scala:127-130 | Deleting by criteria takes out exactly the snapshots within the inclusive bounds and keeps the order of the others. |
| `SnapshotStore.NewestIsLeft` | src/main/scala/com/earthspay/matcher/market/MatcherActor.scala:222-228 | What the matcher deletes once a snapshot is saved, everything up to the sequence number before, leaves the new snapshot alone. |
| `Hops.CalculatePeerHops` | discovery/src/main/web/data.js:46-63 | The levels are exactly the shortest path lengths up to the maximum. |
| `Hops.NextLevel` | discovery/src/main/web/data.js:55-59 | One loop over the levels adds exactly the next one, whichever of the keys added meanwhile it visits. |
| `Hops.HopsUpTo` | discovery/src/main/web/data.js:46-63 | From nothing, a peer has a level exactly if that is its distance. |
| `Hops.HopsByLevel` | discovery/src/main/web/data.js:28-40 | Every peer is listed once, under its level. |
| `Hops.CalculateHops` | discovery/src/main/web/data.js:65-75 | For each known peer, once, the peers within six hops by distance. |

## Left out

- The eleven loops over the families of versioned values in `doAppend` are one loop over tagged keys; they write different keys, so their order does not matter.
- Where the order of a stored sequence is never used (changed addresses, new holders of the native asset, data keys) the model keeps a set; the holders of an asset and the ids of new addresses are in some order, ascending for the holders.
- Aliases and `DisableHijackedAliases`: their rows are written and deleted without a history.
- Feature approval and activation: recorded by `doAppend` but never taken back by `doRollback`.
- The cache of asset descriptions: a change of only the script does not invalidate it.
- Rolling back genesis: targets have height 1 or more, and only block 1 has genesis transactions.
- Blocks of 32768 or more transactions: their numbers are 16-bit integers, and a block has at most 6000.
- Heights, offsets, quantities of assets and the balances in the matcher are unbounded integers; balances and order fills of the node wrap at 64 bits and lease balances saturate as in the source.
- Validation of blocks and transactions; a difference and its block are given, with the block's transactions new to the chain.
- Byte-level injectivity of keys, apart from those of transactions and queued events: tables have structured keys.
- Readers running at the same time as an append or a rollback.
- Transactions are opaque in the block codec: any format whose parser understands what its encoder writes.
- Feature votes are a sequence in the iteration order of the set, and strings are their UTF-8 bytes.
- Maps of features and of requirements are read and written in any order.
- The loops of the sequence codecs are one loop over an element codec; element decoders that take no bytes, on which the source would not end, are excluded.
- LevelDB, Guava, Akka, futures and timers: a map, arbitrary eviction, one message at a time, and answers to promises.
- The order validator, order database and limit order arithmetic: an order comes with what it requires, and the validator accepts no id that is already active.
- Failures to store an event in the queue: the client then gets an error and the promise keeps waiting.
- Several consumers of the local queue, or a consumer that skips offsets.
- The sequencing of snapshot store actions by persistence id, and serialization of snapshots.
- Peers named like properties every JavaScript object inherits.
- Node.LevelDBWriter.Append: where a difference removes a script under whose height a rollback left one, the caches are not claimed to agree with the store.
- Window.TransactionWindow.Append: asks for block timestamps that do not decrease, which block validation ensures.
