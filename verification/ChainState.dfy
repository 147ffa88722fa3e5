/**
 The versioned state against the chain, and when rolling a block back restores it: exactly when the rollback branches
 reach every key the block changed.
 */
module ChainState {
  import opened Common
  import opened Types
  import opened Histories
  import opened Versions
  import opened Enumerations
  import opened Tables
  import opened Batches
  import opened ChainBlocks

  /** The changes of the blocks of the chain, oldest first. */
  ghost function Deltas(chain: Chain): (r: seq<Changes>)
    ensures |r| == chain.Height()
  {
    if chain.Start? then [] else Deltas(chain.below) + [chain.changes]
  }

  /** What the store recorded about the block at a height is enough to find the address keys it changed. */
  ghost predicate RecordedBlock(s: State, height: nat, u: Update) {
    && ChangedAddresses(s, height) == RecordedAddresses(u)
    && (forall id :: AssetsOf(u, id) <= AssetList(s, id))
    && (forall id :: DataKeysOf(u, id) <= ChangedDataKeys(s, height, id))
  }

  ghost predicate Recorded(s: State, chain: Chain) {
    chain.Grown? ==>
      && Recorded(s, chain.below)
      && RecordedBlock(s, chain.Height(), chain.update)
      && chain.changes.Keys == ChangedKeys(chain.update)
  }

  ghost predicate StateStored(s: State, safe: nat, chain: Chain) {
    Represents(s.history, s.value, Deltas(chain), safe) && Recorded(s, chain)
  }

  // ---- append ----

  lemma {:induction false} RecordedKept(s: State, after: State, chain: Chain, height: nat)
    requires Recorded(s, chain) && chain.Height() < height
    requires forall h: nat :: h < height ==> ChangedAddresses(after, h) == ChangedAddresses(s, h)
    requires forall h: nat, id :: h < height ==> ChangedDataKeys(after, h, id) == ChangedDataKeys(s, h, id)
    requires forall id :: AssetList(s, id) <= AssetList(after, id)
    ensures Recorded(after, chain)
  {
    if chain.Grown? {
      RecordedKept(s, after, chain.below, height);
    }
  }

  lemma AppendedDataKeys(s: State, u: Update, height: nat, after: State, h: nat, id: nat)
    requires after.changedDataKeys == s.changedDataKeys + ChangedDataPuts(u, height)
    ensures h != height ==> ChangedDataKeys(after, h, id) == ChangedDataKeys(s, h, id)
    ensures DataKeysOf(u, id) <= ChangedDataKeys(after, height, id)
  {
  }

  lemma AppendRecords(s: State, u: Update, height: nat, after: State)
    requires after.changedAddresses == s.changedAddresses + map[height := RecordedAddresses(u)]
    requires after.assetList == s.assetList + AssetListPuts(s, u)
    requires after.changedDataKeys == s.changedDataKeys + ChangedDataPuts(u, height)
    ensures RecordedBlock(after, height, u)
  {
    hide AssetListPuts, ChangedDataPuts, AssetList, ChangedDataKeys, AssetsOf, DataKeysOf, RecordedAddresses;
    forall id ensures AssetsOf(u, id) <= AssetList(after, id) && DataKeysOf(u, id) <= ChangedDataKeys(after, height, id) {
      AppendedAssetList(s, u, after, id);
      AppendedDataKeys(s, u, height, after, height, id);
    }
  }

  lemma AppendLeavesOlderRecords(s: State, u: Update, height: nat, after: State)
    requires after.changedAddresses == s.changedAddresses + map[height := RecordedAddresses(u)]
    requires after.assetList == s.assetList + AssetListPuts(s, u)
    requires after.changedDataKeys == s.changedDataKeys + ChangedDataPuts(u, height)
    ensures forall h: nat :: h < height ==> ChangedAddresses(after, h) == ChangedAddresses(s, h)
    ensures forall h: nat, id :: h < height ==> ChangedDataKeys(after, h, id) == ChangedDataKeys(s, h, id)
    ensures forall id :: AssetList(s, id) <= AssetList(after, id)
  {
    hide AssetListPuts, ChangedDataPuts, AssetList, ChangedDataKeys, AssetsOf, DataKeysOf, RecordedAddresses;
    forall h: nat, id | h < height ensures ChangedDataKeys(after, h, id) == ChangedDataKeys(s, h, id) {
      AppendedDataKeys(s, u, height, after, h, id);
    }
    forall id ensures AssetList(s, id) <= AssetList(after, id) {
      AppendedAssetList(s, u, after, id);
    }
  }

  lemma AppendKeepsRecords(s: State, chain: Chain, u: Update, changes: Changes, maxRollbackDepth: nat, after: State)
    requires Recorded(s, chain) && changes.Keys == ChangedKeys(u)
    requires after == CommitState(s, AppendStateBatch(s, u, chain.Height() + 1, maxRollbackDepth))
    ensures Recorded(after, Grown(chain, u, changes))
  {
    hide Commit, HistoryWrites, ValueWrites, ChangesOf, AssetListPuts, ChangedDataPuts, ChangedKeys, RecordedBlock;
    AppendRecords(s, u, chain.Height() + 1, after);
    AppendLeavesOlderRecords(s, u, chain.Height() + 1, after);
    RecordedKept(s, after, chain, chain.Height() + 1);
  }

  /** Appending a block, with its pruning, keeps the state faithful to the chain. */
  lemma AppendKeepsState(s: State, safe: nat, chain: Chain, u: Update, maxRollbackDepth: nat, newSafe: nat, after: State)
    requires StateStored(s, safe, chain) && safe <= chain.Height()
    requires newSafe >= safe && newSafe >= chain.Height() + 1 - maxRollbackDepth
    requires after == CommitState(s, AppendStateBatch(s, u, chain.Height() + 1, maxRollbackDepth))
    ensures StateStored(after, newSafe, Grown(chain, u, ChangesOf(s, u)))
  {
    hide Commit, HistoryWrites, ValueWrites, ChangesOf, Recorded, Represents, AssetListPuts, ChangedDataPuts, ChangedKeys;
    AppendKeepsRecords(s, chain, u, ChangesOf(s, u), maxRollbackDepth, after);
    AppendRepresents(s.history, s.value, Deltas(chain), safe, ChangesOf(s, u), maxRollbackDepth, newSafe);
  }

  // ---- rollback ----

  /** Whether the rollback of a block with this update discards the key at the block's height. */
  ghost predicate IsUndone(u: Update, addressId: map<Address, nat>, key: VersionKey) {
    match key
    case EarthsBalance(id) => id in RecordedAddresses(u)
    case LeaseBalanceOf(id) => id in RecordedAddresses(u)
    case AssetBalance(id, _) => id in RecordedAddresses(u)
    case Data(id, _) => id in RecordedAddresses(u)
    case CarryFee => true
    case _ => key in UndoneByTransactions(addressId, u.block.transactions)
  }

  /** Every key the update changes is reached by its rollback. This can be checked before the block is appended. */
  ghost predicate Covered(u: Update, addressId: map<Address, nat>) {
    forall key :: IsChanged(u, key) ==> IsUndone(u, addressId, key)
  }

  lemma TransactionUndoesNoAddressKeys(addressId: map<Address, nat>, tx: Transaction, key: VersionKey)
    requires key in UndoneByTransaction(addressId, tx)
    ensures !key.EarthsBalance? && !key.LeaseBalanceOf? && !key.AssetBalance? && !key.Data? && !key.CarryFee?
  {
  }

  lemma AddressKeyReached(s: State, height: nat, u: Update, key: VersionKey)
    requires RecordedBlock(s, height, u)
    requires key.EarthsBalance? || key.LeaseBalanceOf? || key.AssetBalance? || key.Data?
    requires IsChanged(u, key)
    ensures key in UndoneForAddresses(s, height, ChangedAddresses(s, height)) <==> key.addressId in RecordedAddresses(u)
  {
    hide RecordedAddresses, ChangedAddresses;
    var id := key.addressId;
    assert AssetsOf(u, id) <= AssetList(s, id) && DataKeysOf(u, id) <= ChangedDataKeys(s, height, id);
    assert key in UndoneForAddress(id, AssetList(s, id), ChangedDataKeys(s, height, id));
  }

  lemma NotAnAddressKey(s: State, height: nat, ids: set<nat>, key: VersionKey)
    requires !key.EarthsBalance? && !key.LeaseBalanceOf? && !key.AssetBalance? && !key.Data?
    ensures key !in UndoneForAddresses(s, height, ids)
  {
    hide AssetList, ChangedDataKeys;
  }

  lemma NotATransactionKey(addressId: map<Address, nat>, txs: seq<Transaction>, key: VersionKey)
    requires key.EarthsBalance? || key.LeaseBalanceOf? || key.AssetBalance? || key.Data? || key.CarryFee?
    ensures key !in UndoneByTransactions(addressId, txs)
  {
    hide UndoneByTransaction;
    if key in UndoneByTransactions(addressId, txs) {
      var i :| 0 <= i < |txs| && key in UndoneByTransaction(addressId, txs[i]);
      TransactionUndoesNoAddressKeys(addressId, txs[i], key);
    }
  }

  lemma RollbackReaches(db: Tables, chain: Chain, key: VersionKey)
    requires chain.Grown? && Recorded(db.state, chain)
    requires Bare(TransactionsAt(db.blocks.stored, chain.Height())) == chain.Block().transactions
    requires IsChanged(chain.update, key)
    ensures key in RollbackKeys(db, chain.Height()) <==> IsUndone(chain.update, db.addresses.addressId, key)
  {
    hide RecordedBlock, UndoneForAddresses, UndoneByTransactions, IsChanged, RecordedAddresses, ChangedKeys;
    if key.EarthsBalance? || key.LeaseBalanceOf? || key.AssetBalance? || key.Data? {
      AddressKeyReached(db.state, chain.Height(), chain.update, key);
      NotATransactionKey(db.addresses.addressId, chain.Block().transactions, key);
    } else {
      NotAnAddressKey(db.state, chain.Height(), ChangedAddresses(db.state, chain.Height()), key);
    }
  }

  lemma RollbackReachesAll(db: Tables, chain: Chain)
    requires chain.Grown? && Recorded(db.state, chain)
    requires Bare(TransactionsAt(db.blocks.stored, chain.Height())) == chain.Block().transactions
    ensures chain.changes.Keys <= RollbackKeys(db, chain.Height()) <==> Covered(chain.update, db.addresses.addressId)
  {
    hide RollbackKeys, IsUndone, ChangedKeys, RecordedBlock;
    forall key ensures (key in chain.changes <==> IsChanged(chain.update, key))
               ensures IsChanged(chain.update, key) ==>
                         (key in RollbackKeys(db, chain.Height()) <==> IsUndone(chain.update, db.addresses.addressId, key))
    {
      ChangedKeysAre(chain.update, key);
      if IsChanged(chain.update, key) {
        RollbackReaches(db, chain, key);
      }
    }
  }

  /**
   Rolling the last block back restores the state of the chain below it exactly when the block is covered. The tables
   that only record what blocks did stay as they are, which does no harm.
   */
  lemma RollbackRestoresState(db: Tables, chain: Chain)
    requires chain.Grown? && StateStored(db.state, db.blocks.safeRollbackHeight, chain)
    requires db.blocks.safeRollbackHeight <= chain.Height()
    requires Bare(TransactionsAt(db.blocks.stored, chain.Height())) == chain.Block().transactions
    ensures var after := CommitState(db.state, RollbackStateBatch(db.state, RollbackKeys(db, chain.Height()), chain.Height()));
            StateStored(after, db.blocks.safeRollbackHeight, chain.below) <==> Covered(chain.update, db.addresses.addressId)
  {
    hide Commit, RollbackKeys, HistoryDiscards, ValueDiscards, Represents, Covered, RecordedBlock;
    var s, keys, height := db.state, RollbackKeys(db, chain.Height()), chain.Height();
    var after := CommitState(s, RollbackStateBatch(s, keys, height));
    RollbackReachesAll(db, chain);
    RollbackExact(s.history, s.value, Deltas(chain), db.blocks.safeRollbackHeight, keys);
    assert Deltas(chain)[..height - 1] == Deltas(chain.below);
    RecordedKept(s, after, chain.below, height);
  }
}
