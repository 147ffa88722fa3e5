/**
 Where the rollback falls short. The rollback branch of an issue transaction discards the asset's info but not its script,
 so a block that issues an asset with a script is not covered. Neither is a block that changes only an asset balance or a
 lease of an address none of its transactions lists.
 */
module Uncovered {
  import opened Common
  import opened Types
  import opened Histories
  import opened Versions
  import opened Tables
  import opened Batches
  import opened ChainBlocks
  import opened ChainAddressTxs
  import opened ChainState
  import opened ChainIndexes
  import opened ChainNode
  import opened ChainRuns

  ghost predicate SetsScriptOf(txs: seq<Transaction>, asset: AssetId) {
    exists i :: 0 <= i < |txs| && txs[i].payload == SetAssetScript(asset)
  }

  lemma OnlySetAssetScriptUndoes(addressId: map<Address, nat>, txs: seq<Transaction>, asset: AssetId)
    ensures AssetScript(asset) in UndoneByTransactions(addressId, txs) <==> SetsScriptOf(txs, asset)
  {
    if AssetScript(asset) in UndoneByTransactions(addressId, txs) {
      var i :| 0 <= i < |txs| && AssetScript(asset) in UndoneByTransaction(addressId, txs[i]);
      assert txs[i].payload == SetAssetScript(asset);
    }
    if SetsScriptOf(txs, asset) {
      var i :| 0 <= i < |txs| && txs[i].payload == SetAssetScript(asset);
      assert AssetScript(asset) in UndoneByTransaction(addressId, txs[i]);
    }
  }

  /** After the rollback of one block a key reads as before exactly if it was not changed, is undone, or was set to what it held. */
  lemma RollbackReadsExactly(db: Tables, chain: Chain, key: VersionKey)
    requires Stored(db, chain) && chain.Height() > 1 && db.blocks.safeRollbackHeight < chain.Height()
    ensures chain.Height() in db.blocks.stored.header
    ensures var u := chain.update;
            LatestValue(RollbackTables(db, chain.Height()).state, key) == ValueAt(Deltas(chain.below), key, chain.Height() - 1)
            <==> (IsChanged(u, key) ==> IsUndone(u, db.addresses.addressId, key)
                                        || ValueAt(Deltas(chain), key, chain.Height()) == ValueAt(Deltas(chain.below), key, chain.Height() - 1))
    ensures IsChanged(chain.update, key) && !IsUndone(chain.update, db.addresses.addressId, key) ==>
              LatestValue(RollbackTables(db, chain.Height()).state, key) == ValueAt(Deltas(chain), key, chain.Height())
  {
    hide BlocksStored, AddressesStored, ListsStored, Represents, Indexed, IdsKnown, Commit, HistoryDiscards, ValueDiscards, RollbackKeys,
      IsChanged, IsUndone, RecordedBlock, ChangedKeys, Covered, RollbackBlocks, RollbackAddressTxBatch, CommitAddressTxs, Latest;
    HeightOfStore(db, chain);
    RollbackRestoresStore(db, chain);
    ScanFindsTop(db.blocks, chain);
    ChangedKeysAre(chain.update, key);
    if IsChanged(chain.update, key) {
      RollbackReaches(db, chain, key);
    }
    var deltas := Deltas(chain);
    RollbackReadExact(db.state.history, db.state.value, deltas, db.blocks.safeRollbackHeight, RollbackKeys(db, chain.Height()), key);
    SamePrefix(Deltas(chain.below), deltas, key, chain.Height() - 1);
  }

  predicate Issues(txs: seq<Transaction>, asset: AssetId) {
    exists i :: 0 <= i < |txs| && txs[i].id == asset && txs[i].payload.Issue?
  }

  /**
   A script that came with an issue survives the rollback of its block, unless the same block sets the script again. The
   asset's info does not: it reads as before the block, so nothing of the asset is left but its script.
   */
  lemma IssuedScriptSurvives(db: Tables, chain: Chain, asset: AssetId)
    requires Stored(db, chain) && chain.Height() > 1 && db.blocks.safeRollbackHeight < chain.Height()
    requires asset in chain.update.assetScripts && !SetsScriptOf(chain.Block().transactions, asset)
    ensures chain.Height() in db.blocks.stored.header
    ensures !Covered(chain.update, db.addresses.addressId)
    ensures LatestValue(RollbackTables(db, chain.Height()).state, AssetScript(asset)) == LatestValue(db.state, AssetScript(asset))
    ensures Issues(chain.Block().transactions, asset) ==>
              LatestValue(RollbackTables(db, chain.Height()).state, AssetInfoOf(asset)) ==
              ValueAt(Deltas(chain.below), AssetInfoOf(asset), chain.Height() - 1)
  {
    hide Stored, LatestValue, ValueAt, RollbackTables;
    var ids, txs := db.addresses.addressId, chain.Block().transactions;
    OnlySetAssetScriptUndoes(ids, txs, asset);
    assert IsChanged(chain.update, AssetScript(asset)) && !IsUndone(chain.update, ids, AssetScript(asset));
    RollbackReadsExactly(db, chain, AssetScript(asset));
    LatestReads(db, chain, AssetScript(asset));
    RollbackReadsExactly(db, chain, AssetInfoOf(asset));
    if Issues(txs, asset) {
      var i :| 0 <= i < |txs| && txs[i].id == asset && txs[i].payload.Issue?;
      assert AssetInfoOf(asset) in UndoneByTransaction(ids, txs[i]);
    }
  }

  /** So does an asset balance of an address with neither a transaction nor a changed native balance in the block. */
  lemma UnrecordedBalanceSurvives(db: Tables, chain: Chain, id: nat, asset: AssetId)
    requires Stored(db, chain) && chain.Height() > 1 && db.blocks.safeRollbackHeight < chain.Height()
    requires asset in AssetsOf(chain.update, id) && id !in RecordedAddresses(chain.update)
    ensures chain.Height() in db.blocks.stored.header
    ensures !Covered(chain.update, db.addresses.addressId)
    ensures LatestValue(RollbackTables(db, chain.Height()).state, AssetBalance(id, asset)) == LatestValue(db.state, AssetBalance(id, asset))
  {
    assert IsChanged(chain.update, AssetBalance(id, asset)) && !IsUndone(chain.update, db.addresses.addressId, AssetBalance(id, asset));
    RollbackReadsExactly(db, chain, AssetBalance(id, asset));
    LatestReads(db, chain, AssetBalance(id, asset));
  }
}
