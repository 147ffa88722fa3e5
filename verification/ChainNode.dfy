/**
 The whole store against the chain: what every append and every permitted rollback keeps, over whole runs, and what a
 rollback restores.
 */
module ChainNode {
  import opened Common
  import opened Types
  import opened Histories
  import opened Versions
  import opened Tables
  import opened Batches
  import opened ChainBlocks
  import opened ChainAddressTxs
  import opened ChainState
  import opened ChainIndexes

  // ---- addresses ----

  /** Addresses and ids are in one-to-one correspondence, and ids do not exceed the last one given out. */
  ghost predicate AddressesStored(a: Addresses) {
    && (forall address :: address in a.addressId ==>
          a.addressId[address] <= a.lastAddressId && Lookup(a.idToAddress, a.addressId[address]) == Some(address))
    && (forall id :: id in a.idToAddress ==> Lookup(a.addressId, a.idToAddress[id]) == Some(id))
  }

  /** New ids are given to new addresses only, above the last id. */
  ghost predicate NewIds(a: Addresses, newAddresses: map<Address, nat>) {
    && Injective(newAddresses)
    && forall address :: address in newAddresses ==>
         address !in a.addressId && a.lastAddressId < newAddresses[address] <= a.lastAddressId + |newAddresses|
  }

  lemma InverseAt(newAddresses: map<Address, nat>, id: nat)
    requires Injective(newAddresses)
    ensures id in Inverse(newAddresses) ==> Lookup(newAddresses, Inverse(newAddresses)[id]) == Some(id)
    ensures forall address :: address in newAddresses && newAddresses[address] == id ==> Lookup(Inverse(newAddresses), id) == Some(address)
  {
  }

  lemma AddressAfter(a: Addresses, newAddresses: map<Address, nat>, after: Addresses, address: Address)
    requires Injective(newAddresses) && after == AppendAddresses(a, newAddresses)
    ensures Lookup(after.addressId, address) == if address in newAddresses then Some(newAddresses[address]) else Lookup(a.addressId, address)
    ensures after.lastAddressId >= a.lastAddressId
  {
    hide Inverse, Injective;
  }

  ghost predicate Given(newAddresses: map<Address, nat>, id: nat) {
    exists address :: address in newAddresses && newAddresses[address] == id
  }

  lemma IdAfter(a: Addresses, newAddresses: map<Address, nat>, after: Addresses, id: nat)
    requires Injective(newAddresses) && after == AppendAddresses(a, newAddresses)
    ensures forall address :: address in newAddresses && newAddresses[address] == id ==> Lookup(after.idToAddress, id) == Some(address)
    ensures Given(newAddresses, id) ==> id in after.idToAddress && Lookup(newAddresses, after.idToAddress[id]) == Some(id)
    ensures !Given(newAddresses, id) ==> Lookup(after.idToAddress, id) == Lookup(a.idToAddress, id)
  {
    hide Inverse, Injective;
    InverseAt(newAddresses, id);
  }

  lemma AddressKept(a: Addresses, newAddresses: map<Address, nat>, after: Addresses, address: Address)
    requires AddressesStored(a) && NewIds(a, newAddresses)
    requires after == AppendAddresses(a, newAddresses) && address in after.addressId
    ensures after.addressId[address] <= after.lastAddressId && Lookup(after.idToAddress, after.addressId[address]) == Some(address)
  {
    AddressAfter(a, newAddresses, after, address);
    IdAfter(a, newAddresses, after, after.addressId[address]);
    hide Injective;
    assert address in newAddresses ==> newAddresses[address] <= after.lastAddressId;
    hide AppendAddresses;
  }

  lemma IdKept(a: Addresses, newAddresses: map<Address, nat>, after: Addresses, id: nat)
    requires AddressesStored(a) && NewIds(a, newAddresses)
    requires after == AppendAddresses(a, newAddresses) && id in after.idToAddress
    ensures Lookup(after.addressId, after.idToAddress[id]) == Some(id)
  {
    hide AppendAddresses, Injective;
    IdAfter(a, newAddresses, after, id);
    AddressAfter(a, newAddresses, after, after.idToAddress[id]);
  }

  lemma AppendKeepsAddresses(a: Addresses, newAddresses: map<Address, nat>, after: Addresses)
    requires AddressesStored(a) && NewIds(a, newAddresses)
    requires after == AppendAddresses(a, newAddresses)
    ensures AddressesStored(after)
  {
    hide AppendAddresses, NewIds;
    forall address | address in after.addressId
      ensures after.addressId[address] <= after.lastAddressId && Lookup(after.idToAddress, after.addressId[address]) == Some(address)
    {
      AddressKept(a, newAddresses, after, address);
    }
    forall id | id in after.idToAddress ensures Lookup(after.addressId, after.idToAddress[id]) == Some(id) {
      IdKept(a, newAddresses, after, id);
    }
  }

  predicate AboutAddress(key: VersionKey) {
    key.EarthsBalance? || key.AssetBalance? || key.LeaseBalanceOf? || key.AddressScript? || key.Data?
  }

  /** Only ids of known addresses have histories or values or are indexed. */
  ghost predicate IdsKnown(a: Addresses, s: State, x: Indexes) {
    && (forall key :: AboutAddress(key) && HasHistory(s, key) ==> key.addressId in a.idToAddress)
    && (forall p :: p in s.value && AboutAddress(p.0) ==> p.0.addressId in a.idToAddress)
    && (forall id :: AssetList(s, id) != {} ==> id in a.idToAddress)
    && (forall id :: InEarthsIndex(x, id) ==> id in a.idToAddress)
  }

  /** The update speaks of known addresses only, counting the new ones. */
  ghost predicate SpeaksOfKnown(a: Addresses, u: Update) {
    && (forall key :: AboutAddress(key) && IsChanged(u, key) ==> Knows(a, u, key.addressId))
    && (forall id :: id in u.assetBalances ==> Knows(a, u, id))
  }

  ghost predicate Knows(a: Addresses, u: Update, id: nat) {
    id in a.idToAddress || exists address :: address in u.newAddresses && u.newAddresses[address] == id
  }

  lemma NewIdsKnown(a: Addresses, u: Update, after: Addresses, id: nat)
    requires Injective(u.newAddresses)
    requires after == AppendAddresses(a, u.newAddresses)
    ensures Knows(a, u, id) ==> id in after.idToAddress
  {
    InverseAt(u.newAddresses, id);
  }

  lemma EarthsIndexOnlyGrows(x: Indexes, s: State, u: Update, after: Indexes, id: nat)
    requires after == AppendIndexes(x, s, u)
    ensures InEarthsIndex(after, id) ==> InEarthsIndex(x, id) || id in u.earthsBalances
  {
    hide DataChunkPuts, AssetHolderPuts, DataChunkCountPuts, AssetSeqNrPuts;
    if InEarthsIndex(after, id) {
      var n :| 1 <= n <= after.earthsSeqNr && n in after.addressesForEarths && id in after.addressesForEarths[n];
      if n == x.earthsSeqNr + 1 && NewEarthsHolders(s, u) != {} {
        assert id in NewEarthsHolders(s, u);
      } else {
        assert 1 <= n <= x.earthsSeqNr && n in x.addressesForEarths && id in x.addressesForEarths[n];
      }
    }
  }

  lemma AppendKeepsIdsKnown(db: Tables, u: Update, height: nat, maxRollbackDepth: nat, a: Addresses, s: State, x: Indexes)
    requires IdsKnown(db.addresses, db.state, db.indexes)
    requires Injective(u.newAddresses) && SpeaksOfKnown(db.addresses, u)
    requires a == AppendAddresses(db.addresses, u.newAddresses)
    requires s.history == db.state.history + HistoryWrites(db.state.history, ChangesOf(db.state, u), height, maxRollbackDepth)
    requires s.value == Commit(db.state.value, ValueWrites(db.state.history, ChangesOf(db.state, u), height, maxRollbackDepth))
    requires s.assetList == db.state.assetList + AssetListPuts(db.state, u)
    requires x == AppendIndexes(db.indexes, db.state, u)
    ensures IdsKnown(a, s, x)
  {
    hide AppendIndexes, HistoryWrites, ValueWrites, ChangesOf, ChangedKeys, HasHistory, InEarthsIndex, AssetListPuts, AssetList, Knows, IsChanged, Commit,
      AppendAddresses, Injective;
    forall key | AboutAddress(key) && HasHistory(s, key) ensures key.addressId in a.idToAddress {
      HistoriesAfter(db.state, u, height, maxRollbackDepth, s, key);
      StaysKnown(db.addresses, u, a, key.addressId);
    }
    forall p | p in s.value && AboutAddress(p.0) ensures p.0.addressId in a.idToAddress {
      WrittenValues(db.state.history, db.state.value, ChangesOf(db.state, u), height, maxRollbackDepth, p);
      ChangedKeysAre(u, p.0);
      StaysKnown(db.addresses, u, a, p.0.addressId);
    }
    forall id | AssetList(s, id) != {} ensures id in a.idToAddress {
      AppendedAssetList(db.state, u, s, id);
      StaysKnown(db.addresses, u, a, id);
      if AssetList(db.state, id) == {} {
        assert AssetsOf(u, id) != {};
      }
    }
    forall id | InEarthsIndex(x, id) ensures id in a.idToAddress {
      EarthsIndexOnlyGrows(db.indexes, db.state, u, x, id);
      StaysKnown(db.addresses, u, a, id);
      if id in u.earthsBalances {
        EarthsChanged(u, id);
        assert AboutAddress(EarthsBalance(id)) && EarthsBalance(id).addressId == id;
      }
    }
  }

  lemma StaysKnown(a: Addresses, u: Update, after: Addresses, id: nat)
    requires Injective(u.newAddresses)
    requires after == AppendAddresses(a, u.newAddresses)
    ensures id in a.idToAddress || Knows(a, u, id) ==> id in after.idToAddress
  {
    hide Injective, Inverse;
    NewIdsKnown(a, u, after, id);
  }

  /** Values are written for changed keys only. */
  lemma WrittenValues(histories: HistoryTable, values: ValueTable, changes: Changes, height: nat, maxRollbackDepth: nat, p: (VersionKey, nat))
    ensures p in Commit(values, ValueWrites(histories, changes, height, maxRollbackDepth)) ==> p in values || p.0 in changes
  {
  }

  lemma EarthsChanged(u: Update, id: nat)
    requires id in u.earthsBalances
    ensures IsChanged(u, EarthsBalance(id))
  {
  }

  // ---- the store ----

  ghost predicate Stored(db: Tables, chain: Chain) {
    && BlocksStored(db.blocks, chain)
    && AddressesStored(db.addresses)
    && ListsStored(db.addressTxs, chain)
    && StateStored(db.state, db.blocks.safeRollbackHeight, chain)
    && Indexed(db.indexes, db.state)
    && IdsKnown(db.addresses, db.state, db.indexes)
  }

  /** All of that but the values: what a rollback keeps of a chain whatever it restores. */
  ghost predicate Anchored(db: Tables, chain: Chain) {
    && BlocksStored(db.blocks, chain)
    && AddressesStored(db.addresses)
    && ListsStored(db.addressTxs, chain)
    && Recorded(db.state, chain)
    && Indexed(db.indexes, db.state)
    && IdsKnown(db.addresses, db.state, db.indexes)
  }

  lemma StoredIsAnchored(db: Tables, chain: Chain)
    ensures Stored(db, chain) <==>
            Anchored(db, chain) && Represents(db.state.history, db.state.value, Deltas(chain), db.blocks.safeRollbackHeight)
  {
    hide BlocksStored, AddressesStored, ListsStored, Recorded, Represents, Indexed, IdsKnown;
  }

  /** What Caches.append passes to doAppend: a new block, listed transactions of it, ids for new addresses, known ids. */
  ghost predicate Acceptable(db: Tables, u: Update) {
    && Fresh(db.blocks.stored, u.block, db.blocks.height + 1)
    && Listed(u)
    && NewIds(db.addresses, u.newAddresses)
    && SpeaksOfKnown(db.addresses, u)
  }

  ghost function After(db: Tables, u: Update, maxRollbackDepth: nat): Tables
    requires Acceptable(db, u)
  {
    AppendTables(db, u, db.blocks.height + 1, maxRollbackDepth)
  }

  /** Appending keeps everything but perhaps the values, whatever these are. */
  lemma AppendKeepsAnchor(db: Tables, chain: Chain, u: Update, maxRollbackDepth: nat)
    requires Anchored(db, chain) && Acceptable(db, u)
    ensures Anchored(After(db, u, maxRollbackDepth), Grown(chain, u, ChangesOf(db.state, u)))
  {
    hide BlocksStored, AddressesStored, ListsStored, Recorded, Indexed, IdsKnown, SpeaksOfKnown, Fresh, NewIds, ChangesOf,
      AppendAddresses, CommitState, CommitAddressTxs, AppendIndexes, AppendStateBatch, AppendAddressTxBatch, AppendBlocks, DistinctIds,
      Injective, ListedInBlock, ChangedKeys;
    var after := After(db, u, maxRollbackDepth);
    var changes := ChangesOf(db.state, u);
    HeightOfStored(db.blocks, chain);
    AppendKeepsBlocks(db.blocks, chain, u, changes, maxRollbackDepth, after.blocks);
    AppendKeepsAddresses(db.addresses, u.newAddresses, after.addresses);
    AppendKeepsLists(db.addressTxs, chain, u, changes, after.addressTxs);
    AppendKeepsRecords(db.state, chain, u, changes, maxRollbackDepth, after.state);
    AppendKeepsIndexes(db.indexes, db.state, u, db.blocks.height + 1, maxRollbackDepth, after.indexes, after.state);
    StateBatchFields(db.state, u, db.blocks.height + 1, maxRollbackDepth, after.state);
    NewIdsInjective(db.addresses, u.newAddresses);
    AppendKeepsIdsKnown(db, u, db.blocks.height + 1, maxRollbackDepth, after.addresses, after.state, after.indexes);
  }

  /** Appending keeps the store faithful to the chain. */
  lemma AppendKeepsStore(db: Tables, chain: Chain, u: Update, maxRollbackDepth: nat)
    requires Stored(db, chain) && Acceptable(db, u)
    ensures Stored(After(db, u, maxRollbackDepth), Grown(chain, u, ChangesOf(db.state, u)))
  {
    hide Anchored, Stored, StateStored, SpeaksOfKnown, Fresh, NewIds, ChangesOf, AppendAddresses, CommitState, CommitAddressTxs, AppendIndexes,
      AppendStateBatch, AppendAddressTxBatch, AppendBlocks, DistinctIds, Injective, ListedInBlock, ChangedKeys, Represents;
    var after := After(db, u, maxRollbackDepth);
    StoredIsAnchored(db, chain);
    AnchorParts(db, chain);
    AnchoredHeight(db, chain);
    SafeHeightAfter(db.blocks, u.block, db.blocks.height + 1, maxRollbackDepth);
    AppendKeepsAnchor(db, chain, u, maxRollbackDepth);
    AppendKeepsState(db.state, db.blocks.safeRollbackHeight, chain, u, maxRollbackDepth, after.blocks.safeRollbackHeight, after.state);
    AnchorParts(after, Grown(chain, u, ChangesOf(db.state, u)));
  }

  lemma AnchoredHeight(db: Tables, chain: Chain)
    requires Anchored(db, chain)
    ensures db.blocks.height == chain.Height() && db.blocks.safeRollbackHeight <= chain.Height()
  {
    hide AddressesStored, ListsStored, Recorded, Indexed, IdsKnown;
    HeightOfStored(db.blocks, chain);
  }

  lemma StateBatchFields(s: State, u: Update, height: nat, maxRollbackDepth: nat, after: State)
    requires after == CommitState(s, AppendStateBatch(s, u, height, maxRollbackDepth))
    ensures after.history == s.history + HistoryWrites(s.history, ChangesOf(s, u), height, maxRollbackDepth)
    ensures after.value == Commit(s.value, ValueWrites(s.history, ChangesOf(s, u), height, maxRollbackDepth))
    ensures after.assetList == s.assetList + AssetListPuts(s, u)
  {
    hide Commit, HistoryWrites, ChangesOf, AssetListPuts, ValueWrites, ChangedDataPuts;
  }

  lemma NewIdsInjective(a: Addresses, newAddresses: map<Address, nat>)
    requires NewIds(a, newAddresses)
    ensures Injective(newAddresses)
  {
  }

  lemma RollbackKeepsIdsKnown(a: Addresses, s: State, x: Indexes, keys: set<VersionKey>, height: nat, after: State)
    requires IdsKnown(a, s, x)
    requires after == CommitState(s, RollbackStateBatch(s, keys, height))
    ensures IdsKnown(a, after, x)
  {
    hide Commit, InEarthsIndex;
    assert after.assetList == s.assetList;
    forall key | HasHistory(after, key) ensures HasHistory(s, key) {
      assert forall i :: i in Without(HistoryOf(s.history, key), height) ==> i in HistoryOf(s.history, key);
    }
    forall id ensures AssetList(after, id) == AssetList(s, id) {
    }
    forall p | p in after.value ensures p in s.value {
      CommitAt(s.value, ValueDiscards(keys, height), p);
    }
  }

  lemma SafeHeightAfter(b: Blocks, block: Block, height: nat, maxRollbackDepth: nat)
    requires height > 0 && DistinctIds(block.transactions)
    ensures var safe := AppendBlocks(b, block, height, maxRollbackDepth).safeRollbackHeight;
            safe >= b.safeRollbackHeight && safe >= height - maxRollbackDepth
  {
    hide CommitBlocks, AppendBlockBatch, DistinctIds;
  }

  lemma HeightOfStored(b: Blocks, chain: Chain)
    requires BlocksStored(b, chain)
    ensures b.height == chain.Height() && b.safeRollbackHeight <= chain.Height()
  {
  }

  lemma ScanFindsTop(b: Blocks, chain: Chain)
    requires BlocksStored(b, chain) && chain.Grown?
    ensures Bare(TransactionsAt(b.stored, chain.Height())) == chain.Block().transactions
  {
    ScanFindsBlock(chain, chain.Height(), chain.Block().transactions);
  }

  /** Recorded addresses include everybody the block's transactions touched, so the lists can always be rolled back. */
  lemma RecordedIncludeListed(s: State, chain: Chain)
    requires Recorded(s, chain) && chain.Grown?
    ensures chain.update.addressTransactions.Keys <= ChangedAddresses(s, chain.Height())
  {
    assert RecordedBlock(s, chain.Height(), chain.update);
  }

  lemma RollbackKeepsRecords(s: State, chain: Chain, keys: set<VersionKey>, height: nat, after: State)
    requires chain.Grown? && Recorded(s, chain)
    requires after == CommitState(s, RollbackStateBatch(s, keys, height))
    ensures Recorded(after, chain.below)
  {
    hide Commit, HistoryDiscards, ValueDiscards, RecordedBlock;
    RecordedKept(s, after, chain.below, chain.Height());
  }

  /** Rolling the last block back keeps everything but perhaps the values, whether or not the block is covered. */
  lemma RollbackKeepsAnchor(db: Tables, chain: Chain)
    requires Anchored(db, chain) && chain.Height() > 1 && db.blocks.safeRollbackHeight < chain.Height()
    ensures chain.Height() in db.blocks.stored.header && db.blocks.stored.header[chain.Height()] == chain.Block().header
    ensures Bare(TransactionsAt(db.blocks.stored, chain.Height())) == chain.Block().transactions
    ensures Anchored(RollbackTables(db, chain.Height()), chain.below)
  {
    hide BlocksStored, AddressesStored, ListsStored, Recorded, Indexed, IdsKnown, RollbackKeys,
      CommitState, CommitAddressTxs, RollbackStateBatch, RollbackAddressTxBatch;
    HeightOfStored(db.blocks, chain);
    ScanFindsTop(db.blocks, chain);
    RollbackKeepsBlocks(db.blocks, chain);
    var after, keys := RollbackTables(db, chain.Height()), RollbackKeys(db, chain.Height());
    RecordedIncludeListed(db.state, chain);
    RollbackKeepsLists(db.addressTxs, chain, ChangedAddresses(db.state, chain.Height()), after.addressTxs);
    RollbackKeepsRecords(db.state, chain, keys, chain.Height(), after.state);
    RollbackKeepsIdsKnown(db.addresses, db.state, db.indexes, keys, chain.Height(), after.state);
    RollbackKeepsIndexes(db.indexes, db.state, keys, chain.Height(), after.state);
  }

  /** Rolling the last block back gives the store of the chain below it exactly when the block is covered. */
  lemma RollbackRestoresStore(db: Tables, chain: Chain)
    requires Stored(db, chain) && chain.Height() > 1 && db.blocks.safeRollbackHeight < chain.Height()
    ensures chain.Height() in db.blocks.stored.header && db.blocks.stored.header[chain.Height()] == chain.Block().header
    ensures Stored(RollbackTables(db, chain.Height()), chain.below) <==> Covered(chain.update, db.addresses.addressId)
  {
    hide BlocksStored, AddressesStored, ListsStored, StateStored, Indexed, IdsKnown, Covered, RollbackKeys, Anchored,
      CommitState, CommitAddressTxs, RollbackStateBatch, RollbackAddressTxBatch;
    HeightOfStored(db.blocks, chain);
    StoredIsAnchored(db, chain);
    RollbackKeepsAnchor(db, chain);
    AnchorParts(RollbackTables(db, chain.Height()), chain.below);
    RollbackRestoresState(db, chain);
  }

  lemma AnchorParts(db: Tables, chain: Chain)
    requires Anchored(db, chain)
    ensures Stored(db, chain) <==> StateStored(db.state, db.blocks.safeRollbackHeight, chain)
  {
    hide BlocksStored, AddressesStored, ListsStored, Recorded, Represents, Indexed, IdsKnown;
  }
}
