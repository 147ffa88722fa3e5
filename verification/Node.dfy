/**
 The node's store with its caches (Caches and LevelDBWriter). Ghost fields hold the plain meaning of the state: the chain of
 blocks and the sequence of differences they were appended with.
 */
module Node {
  import opened Common
  import opened Types
  import opened Histories
  import opened Versions
  import opened Tables
  import opened Batches
  import opened ChainBlocks
  import opened ChainState
  import opened ChainNode
  import opened ChainRuns
  import opened Snapshots
  import opened RollingBack
  import opened Appending
  import opened Diffs
  import opened Coherence
  import opened HeightCaches
  import opened Updates
  import opened Survivors
  import opened DiffCoverage
  import opened Exactness
  import opened Leftovers
  import opened Laws
  import ChainAddressTxs
  import ChainIndexes

  datatype Current = Current(height: nat, score: nat, lastBlock: Option<Block>)

  datatype RollbackResult = NoSuchBlock | TooDeep(lowest: nat) | Done(discarded: seq<Block>)

  function LoadCurrent(db: Tables): Current {
    var height := db.blocks.height;
    Current(height, ScoreAt(db.blocks, height),
            if height in db.blocks.stored.header then Some(LoadBlock(db.blocks.stored, height)) else None)
  }

  /** The transactions with the first numbers at a height, missing ones left out. */
  function ReadFirst(t: BlockTables, height: nat, count: nat): seq<Transaction> {
    if count == 0 then [] else
    ReadFirst(t, height, count - 1) + if (height, count - 1) in t.transactionAt then [t.transactionAt[(height, count - 1)]] else []
  }

  /** loadBlock: the header, and as many transactions as it says. */
  function LoadBlock(t: BlockTables, height: nat): Block
    requires height in t.header
  {
    Block(t.header[height], ReadFirst(t, height, t.header[height].transactionCount))
  }

  /** The headers say how many transactions their blocks have. */
  ghost predicate Counted(chain: Chain) {
    chain.Grown? ==> chain.Block().header.transactionCount == |chain.Block().transactions| && Counted(chain.below)
  }

  lemma {:induction false} ReadsBlock(chain: Chain, count: nat)
    requires ValidChain(chain) && chain.Grown? && count <= |chain.Block().transactions|
    ensures ReadFirst(Replay(chain), chain.Height(), count) == chain.Block().transactions[..count]
  {
    hide ValidChain, Replay;
    if count > 0 {
      ReadsBlock(chain, count - 1);
      StoredTransactions(chain, chain.Height(), count - 1);
    }
  }

  ghost predicate AllChangedKnown(db: Tables) {
    forall height: nat :: ChangedAreKnown(db, height)
  }

  /** Only scripts are stored as scripts. */
  ghost predicate ScriptsStored(s: State) {
    forall p :: p in s.value && (p.0.AddressScript? || p.0.AssetScript?) ==> s.value[p].Code?
  }

  /**
   The store has the blocks, records and indexes of the chain, whose blocks changed what the deltas touch. Of the values this
   says no more than what appends and rollbacks of any blocks keep.
   */
  ghost predicate Based(db: Tables, chain: Chain, deltas: seq<Delta>) {
    && Anchored(db, chain)
    && MatchesDeltas(chain, deltas, db.addresses.addressId)
    && AllChangedKnown(db)
    && (chain.Start? ==> db.addresses.addressId == map[])
    && Counted(chain)
    && ScriptsStored(db.state)
    && Exact(db, chain, deltas, Keyed(CarryFee))
  }

  /** The store holds the values of the chain, and these are what the deltas make of them. */
  ghost predicate Meant(db: Tables, chain: Chain, deltas: seq<Delta>) {
    Stored(db, chain) && FromDeltas(chain, deltas, db.addresses.addressId)
  }

  /** The store holds the chain, and the chain is what the deltas did. */
  ghost predicate Faithful(db: Tables, chain: Chain, deltas: seq<Delta>) {
    Based(db, chain, deltas) && Meant(db, chain, deltas)
  }

  // ---- what the store answers ----

  /** Every latest value is the fold of the deltas. */
  lemma ItemIsFold(db: Tables, chain: Chain, deltas: seq<Delta>, item: Item)
    requires Faithful(db, chain, deltas)
    ensures LatestItem(db, item) == Fold(deltas, item)
  {
    hide Stored, Anchored, LatestItem, Fold, AllChangedKnown, MatchesDeltas, FromDeltas, Exact;
    AllExact(db, chain, deltas, item);
    ExactIsFold(db, chain, deltas, item);
  }

  /** The effective balance the first differences leave an address with. */
  ghost function EffectiveAfter(deltas: seq<Delta>, address: Address): int {
    var leases := LeasesOf(Fold(deltas, LeaseOf(address)));
    AmountOf(Fold(deltas, BalanceOf(address, None))) - leases.outgoing + leases.incoming
  }

  lemma ValueIsFold(db: Tables, chain: Chain, deltas: seq<Delta>, item: Item, height: nat)
    requires FromDeltas(chain, deltas, db.addresses.addressId) && height <= chain.Height()
    ensures height <= |deltas|
    ensures Fold(deltas[..height], item) ==
            match KeyOf(db.addresses.addressId, item)
            case None => None
            case Some(key) => ValueAt(Deltas(chain), key, height)
  {
    hide Realized, Fold, KeyOf, ValueAt;
    FromDeltasUpto(chain, deltas, db.addresses.addressId, height);
    FoldIsValue(chain.Upto(height), deltas[..height], db.addresses.addressId, item);
    if KeyOf(db.addresses.addressId, item).Some? {
      ValueOfUpto(chain, KeyOf(db.addresses.addressId, item).value, height);
    }
  }

  lemma EffectiveIsFold(db: Tables, chain: Chain, deltas: seq<Delta>, address: Address, height: nat)
    requires Faithful(db, chain, deltas) && height <= chain.Height()
    ensures height <= |deltas|
    ensures EffectiveOf(db, chain, address, height) == EffectiveAfter(deltas[..height], address)
  {
    hide Based, Stored, FromDeltas, Fold, ValueAt;
    ValueIsFold(db, chain, deltas, BalanceOf(address, None), height);
    ValueIsFold(db, chain, deltas, LeaseOf(address), height);
  }

  /**
   The snapshots of an address, known or not, have the least effective balance of the range, as the differences add it up: a bound
   holds for all of them exactly if it holds after every block of the range.
   */
  lemma SnapshotsBound(db: Tables, chain: Chain, deltas: seq<Delta>, address: Address, from: nat, toBlock: Id, bound: int)
    requires Faithful(db, chain, deltas) && db.blocks.safeRollbackHeight - 1000 <= from
    requires var to := Lookup(db.blocks.stored.heightOf, toBlock).GetOr(db.blocks.height);
             1 <= from <= to <= chain.Height()
    ensures |deltas| == chain.Height()
    ensures var to := Lookup(db.blocks.stored.heightOf, toBlock).GetOr(db.blocks.height);
            var snapshots := BalanceSnapshots(db, address, from, toBlock);
            (forall i :: 0 <= i < |snapshots| ==> Effective(snapshots[i]) >= bound) <==>
            (forall height: nat :: from <= height <= to ==> EffectiveAfter(deltas[..height], address) >= bound)
  {
    hide Stored, Based, FromDeltas, BalanceSnapshots, EffectiveAfter, EffectiveOf, Effective;
    BasedLength(db, chain, deltas);
    SnapshotsExact(db, chain, address, from, toBlock, bound);
    forall height: nat | height <= chain.Height() ensures EffectiveAfter(deltas[..height], address) == EffectiveOf(db, chain, address, height) {
      EffectiveIsFold(db, chain, deltas, address, height);
    }
  }

  lemma BasedLength(db: Tables, chain: Chain, deltas: seq<Delta>)
    requires Based(db, chain, deltas)
    ensures |deltas| == chain.Height()
  {
    hide Anchored, Matched, RecordsDelta, AllChangedKnown, Counted, ScriptsStored, Exact;
  }

  lemma TopIsStored(db: Tables, chain: Chain)
    requires Anchored(db, chain) && Counted(chain)
    ensures LoadCurrent(db).height == chain.Height() && LoadCurrent(db).score == ScoreOf(chain)
    ensures LoadCurrent(db).lastBlock == if chain.Start? then None else Some(chain.Block())
    ensures chain.Grown? ==> Lookup(db.blocks.stored.heightOf, chain.Block().header.id) == Some(chain.Height())
  {
    hide AddressesStored, ChainAddressTxs.ListsStored, Recorded, ChainIndexes.Indexed, IdsKnown, ScoreOf, TransactionsAt, Bare,
      Replay, ValidChain, FreshTransactions;
    TopHeader(chain);
    if chain.Grown? {
      var txs := chain.Block().transactions;
      ReadsBlock(chain, |txs|);
      assert txs[..|txs|] == txs;
    }
  }

  lemma TopHeader(chain: Chain)
    requires ValidChain(chain)
    ensures chain.Start? ==> Replay(chain).header == map[]
    ensures chain.Grown? ==>
              && Lookup(Replay(chain).header, chain.Height()) == Some(chain.Block().header)
              && Lookup(Replay(chain).heightOf, chain.Block().header.id) == Some(chain.Height())
  {
    hide TransactionPuts, TransactionIndexPuts, FreshTransactions;
    if chain.Grown? {
      var t, block, height := Replay(chain.below), chain.Block(), chain.Height();
      CommitAt(t.header, map[height := Some(block.header)], height);
      CommitAt(t.heightOf, map[block.header.id := Some(height)], block.header.id);
    }
  }

  lemma NothingStored()
    ensures Faithful(EmptyTables(), Start, [])
  {
    hide Stored, Anchored, Exact;
    EmptyStore();
    EmptyAnchored();
    AllExact(EmptyTables(), Start, [], Keyed(CarryFee));
  }

  lemma EmptyAnchored()
    requires Stored(EmptyTables(), Start)
    ensures Anchored(EmptyTables(), Start)
  {
    hide Stored, Anchored, Represents;
    StoredIsAnchored(EmptyTables(), Start);
  }

  // ---- append ----

  lemma ChangedAddressesAfter(s: State, u: Update, height: nat, maxRollbackDepth: nat, h: nat)
    ensures ChangedAddresses(CommitState(s, AppendStateBatch(s, u, height, maxRollbackDepth)), h) ==
            if h == height then RecordedAddresses(u) else ChangedAddresses(s, h)
  {
    hide Commit, HistoryWrites, ValueWrites, ChangesOf, AssetListPuts, ChangedDataPuts, RecordedAddresses;
  }

  lemma StillKnown(a: Addresses, newAddresses: map<Address, nat>, id: nat)
    requires NewIds(a, newAddresses) && id in a.idToAddress
    ensures id in AppendAddresses(a, newAddresses).idToAddress
  {
    hide Inverse;
  }

  lemma RecordedAreKnown(db: Tables, u: Update, maxRollbackDepth: nat)
    requires AllChangedKnown(db) && Acceptable(db, u)
    requires forall id :: id in RecordedAddresses(u) ==> Knows(db.addresses, u, id)
    ensures AllChangedKnown(After(db, u, maxRollbackDepth))
  {
    AfterParts(db, u, maxRollbackDepth);
    AfterAddresses(db, u, maxRollbackDepth);
    hide Fresh, SpeaksOfKnown, Knows, After, NewIds, RecordedAddresses, AppendAddresses, ChangedAddresses, CommitState, AppendStateBatch,
      ChainAddressTxs.Listed, Injective;
    var after, height := After(db, u, maxRollbackDepth), db.blocks.height + 1;
    forall h: nat, id | id in ChangedAddresses(after.state, h) ensures id in after.addresses.idToAddress {
      ChangedAddressesAfter(db.state, u, height, maxRollbackDepth, h);
      if h == height {
        NewIdsKnown(db.addresses, u, after.addresses, id);
      } else {
        assert ChangedAreKnown(db, h);
        StillKnown(db.addresses, u.newAddresses, id);
      }
    }
  }

  lemma AppendKeepsScripts(db: Tables, u: Update, maxRollbackDepth: nat)
    requires ScriptsStored(db.state) && Acceptable(db, u)
    ensures ScriptsStored(After(db, u, maxRollbackDepth).state)
  {
    hide Acceptable, After, ChangesOf, ChangedKeys, HistoryWrites, AssetListPuts, ChangedDataPuts, Commit, ValueWrites, HistoryOf, Threshold;
    AfterParts(db, u, maxRollbackDepth);
    var s, after, height := db.state, After(db, u, maxRollbackDepth).state, db.blocks.height + 1;
    forall p | p in after.value && (p.0.AddressScript? || p.0.AssetScript?) ensures after.value[p].Code? {
      WrittenIs(s.history, s.value, ChangesOf(s, u), height, maxRollbackDepth, p);
      if p.0 in ChangesOf(s, u) {
        ScriptChange(s, u, p.0);
      }
    }
  }

  lemma ScriptChange(s: State, u: Update, key: VersionKey)
    requires key in ChangesOf(s, u) && (key.AddressScript? || key.AssetScript?)
    ensures ChangesOf(s, u)[key].Some? ==> ChangesOf(s, u)[key].value.Code?
  {
    hide ChangedKeys;
    ChangedKeysAre(u, key);
  }

  lemma WrittenIs(histories: HistoryTable, values: ValueTable, changes: Changes, height: nat, maxRollbackDepth: nat, p: (VersionKey, nat))
    ensures var after := Commit(values, ValueWrites(histories, changes, height, maxRollbackDepth));
            p in after ==> Lookup(values, p) == Some(after[p]) || (p.0 in changes && changes[p.0] == Some(after[p]))
  {
  }

  lemma RollbackKeepsScripts(db: Tables, height: nat)
    requires ScriptsStored(db.state) && height in db.blocks.stored.header && height > 0
    ensures ScriptsStored(RollbackTables(db, height).state)
  {
    hide RollbackKeys, CommitBlocks, CommitAddressTxs, HistoryDiscards, ValueDiscards, Commit;
    forall p | p in RollbackTables(db, height).state.value ensures Lookup(db.state.value, p) == Some(RollbackTables(db, height).state.value[p]) {
      StepLeaves(db, height, p.0);
      assert p == (p.0, p.1);
    }
  }

  /** Every block sets the carry fee and every rollback takes it back, so it is always what the last block left. */
  lemma RollbackKeepsCarryFee(db: Tables, chain: Chain, deltas: seq<Delta>)
    requires Anchored(db, chain) && chain.Height() > 1 && db.blocks.safeRollbackHeight < chain.Height()
    requires Exact(db, chain, deltas, Keyed(CarryFee))
    ensures chain.Height() in db.blocks.stored.header && |deltas| == chain.Height()
    ensures Exact(RollbackTables(db, chain.Height()), chain.below, deltas[..|deltas| - 1], Keyed(CarryFee))
  {
    hide Anchored, KeyKept, RollbackTables, Effect, ValueAt;
    KeyAfterRollback(db, chain, CarryFee);
  }

  lemma LongerMatches(chain: Chain, deltas: seq<Delta>, known: map<Address, nat>, u: Update, changes: Changes, delta: Delta, ids: map<Address, nat>)
    requires MatchesDeltas(chain, deltas, known) && Injective(ids)
    requires forall a :: a in known ==> a in ids && ids[a] == known[a]
    requires Matched(changes, delta.diff, ids) && RecordsDelta(u, delta.diff, ids)
    ensures MatchesDeltas(Grown(chain, u, changes), deltas + [delta], ids)
  {
    hide Matched, RecordsDelta, Injective;
    MatchesWithMoreIds(chain, deltas, known, ids);
    assert (deltas + [delta])[..|deltas|] == deltas;
  }

  lemma AppendKeepsBased(db: Tables, chain: Chain, deltas: seq<Delta>, u: Update, maxRollbackDepth: nat, delta: Delta)
    requires Based(db, chain, deltas) && Acceptable(db, u)
    requires Injective(db.addresses.addressId + u.newAddresses)
    requires Realizes(db.state, db.addresses.addressId + u.newAddresses, delta, u)
    requires RecordsDelta(u, delta.diff, db.addresses.addressId + u.newAddresses)
    requires forall id :: id in RecordedAddresses(u) ==> Knows(db.addresses, u, id)
    requires u.block.header.transactionCount == |u.block.transactions|
    ensures Based(After(db, u, maxRollbackDepth), Grown(chain, u, ChangesOf(db.state, u)), deltas + [delta])
  {
    hide Anchored, Acceptable, After, Realizes, Matched, RecordsDelta, AllChangedKnown, Injective, RecordedAddresses, Knows, ChangesOf, ChangedKeys,
      ScriptsStored, Exact, MatchesDeltas;
    var ids := db.addresses.addressId + u.newAddresses;
    AppendKeepsAnchor(db, chain, u, maxRollbackDepth);
    AppendKeepsScripts(db, u, maxRollbackDepth);
    AppendKeepsExact(db, chain, deltas, u, maxRollbackDepth, delta, Keyed(CarryFee));
    RecordedAreKnown(db, u, maxRollbackDepth);
    MatchedOnChain(db.state, ids, delta, u);
    forall a | a in db.addresses.addressId ensures a in ids && ids[a] == db.addresses.addressId[a] {
      AddressesAfter(db, chain, u, maxRollbackDepth, a);
    }
    AddressesAfter(db, chain, u, maxRollbackDepth, []);
    LongerMatches(chain, deltas, db.addresses.addressId, u, ChangesOf(db.state, u), delta, ids);
  }

  /** An append keeps the store faithful, with one more block and one more delta. */
  lemma AppendKeepsFaithful(db: Tables, chain: Chain, deltas: seq<Delta>, u: Update, maxRollbackDepth: nat, delta: Delta)
    requires Faithful(db, chain, deltas) && Acceptable(db, u)
    requires Injective(db.addresses.addressId + u.newAddresses)
    requires Realizes(db.state, db.addresses.addressId + u.newAddresses, delta, u)
    requires RecordsDelta(u, delta.diff, db.addresses.addressId + u.newAddresses)
    requires forall id :: id in RecordedAddresses(u) ==> Knows(db.addresses, u, id)
    requires u.block.header.transactionCount == |u.block.transactions|
    ensures Faithful(After(db, u, maxRollbackDepth), Grown(chain, u, ChangesOf(db.state, u)), deltas + [delta])
  {
    hide Stored, Based, Anchored, Represents, Acceptable, After, Realizes, Realized, RecordsDelta, Injective, RecordedAddresses, Knows,
      ChangesOf, ChangedKeys;
    var ids := db.addresses.addressId + u.newAddresses;
    AppendKeepsBased(db, chain, deltas, u, maxRollbackDepth, delta);
    AppendKeepsStore(db, chain, u, maxRollbackDepth);
    RealizesOnChain(db, chain, ids, delta, u);
    StoredIsAnchored(db, chain);
    forall a | a in db.addresses.addressId ensures a in ids && ids[a] == db.addresses.addressId[a] {
      AddressesAfter(db, chain, u, maxRollbackDepth, a);
    }
    AddressesAfter(db, chain, u, maxRollbackDepth, []);
    FromDeltasWithMoreIds(chain, deltas, db.addresses.addressId, ids);
    assert (deltas + [delta])[..|deltas|] == deltas;
  }

  // ---- rollback ----

  /** Taking the last block off keeps the store based on the shorter chain, covered or not. */
  lemma RollbackKeepsBased(db: Tables, chain: Chain, deltas: seq<Delta>)
    requires Based(db, chain, deltas) && chain.Height() > 1 && db.blocks.safeRollbackHeight < chain.Height()
    ensures chain.Height() in db.blocks.stored.header && |deltas| == chain.Height()
    ensures Based(RollbackTables(db, chain.Height()), chain.below, deltas[..|deltas| - 1])
    ensures StoredBlock(db.blocks.stored, chain.Height()) == chain.Block()
  {
    hide Anchored, RollbackKeys, CommitBlocks, CommitState, CommitAddressTxs, RollbackStateBatch, RollbackAddressTxBatch, Matched, RecordsDelta,
      AllChangedKnown, ScriptsStored, Exact;
    RollbackKeepsAnchor(db, chain);
    RollbackKeepsScripts(db, chain.Height());
    RollbackKeepsCarryFee(db, chain, deltas);
    ChangedAddressesStay(db, chain.Height());
  }

  /** The state is then the fold of one delta less exactly if the block is covered. */
  lemma RollbackKeepsFaithful(db: Tables, chain: Chain, deltas: seq<Delta>)
    requires Faithful(db, chain, deltas) && chain.Height() > 1 && db.blocks.safeRollbackHeight < chain.Height()
    ensures chain.Height() in db.blocks.stored.header && |deltas| == chain.Height()
    ensures Faithful(RollbackTables(db, chain.Height()), chain.below, deltas[..|deltas| - 1])
            <==> DiffCovered(deltas[|deltas| - 1].diff, chain.Block().transactions)
  {
    hide Stored, Based, Covered, Realized, CommitBlocks, CommitState, CommitAddressTxs;
    RollbackKeepsBased(db, chain, deltas);
    RollbackRestoresStore(db, chain);
    BasedCovered(db, chain, deltas);
  }

  lemma BasedCovered(db: Tables, chain: Chain, deltas: seq<Delta>)
    requires Based(db, chain, deltas) && chain.Grown?
    ensures |deltas| == chain.Height()
    ensures Covered(chain.update, db.addresses.addressId) <==> DiffCovered(deltas[|deltas| - 1].diff, chain.Block().transactions)
  {
    hide Anchored, Covered, DiffCovered, Matched, RecordsDelta, Injective, AllChangedKnown, RecordedBlock, ChangedKeys, ScriptsStored, Exact;
    StoredAddresses(db, chain);
    AnchoredIsRecorded(db, chain);
    CoveredByDiff(chain, deltas[|deltas| - 1].diff, db.addresses.addressId);
  }

  lemma ChangedAddressesStay(db: Tables, height: nat)
    requires height in db.blocks.stored.header && height > 0 && AllChangedKnown(db)
    ensures AllChangedKnown(RollbackTables(db, height))
  {
    hide RollbackKeys, CommitBlocks, CommitAddressTxs, Commit, HistoryDiscards, ValueDiscards;
    var after := RollbackTables(db, height);
    forall h: nat ensures ChangedAreKnown(after, h) {
      assert ChangedAreKnown(db, h);
    }
  }

  lemma StoredAddresses(db: Tables, chain: Chain)
    requires Anchored(db, chain)
    ensures AddressesStored(db.addresses) && db.blocks.height == chain.Height() && Injective(db.addresses.addressId)
  {
    hide BlocksStored, ChainAddressTxs.ListsStored, Recorded, ChainIndexes.Indexed, IdsKnown;
    HeightOfStored(db.blocks, chain);
    forall a, b | a in db.addresses.addressId && b in db.addresses.addressId && db.addresses.addressId[a] == db.addresses.addressId[b]
      ensures a == b
    {
      assert Lookup(db.addresses.idToAddress, db.addresses.addressId[a]) == Some(a);
    }
  }

  lemma ChosenFrom(db: Tables, chain: Chain, deltas: seq<Delta>, diff: Diff, newIds: map<Address, nat>, ids: map<Address, nat>)
    requires Based(db, chain, deltas)
    requires newIds.Keys == Touched(diff) - db.addresses.addressId.Keys
    requires NumberedFrom(newIds, db.addresses.lastAddressId, |newIds.Keys|)
    requires ids.Keys == Touched(diff) + diff.scripts.Keys + diff.accountData.Keys
    requires ids.Keys <= newIds.Keys + db.addresses.addressId.Keys
    requires forall a :: a in ids ==> ids[a] == (db.addresses.addressId + newIds)[a]
    ensures IdsChosen(db, diff, newIds, ids) && Injective(ids)
  {
    hide Based, NumberedFrom, Injective, Touched, IdsChosen;
    assert |newIds.Keys| == |newIds|;
    ResolvedInjective(db, chain, deltas, newIds, ids);
    ResolvedChosen(db, diff, newIds, ids);
  }

  lemma ResolvedChosen(db: Tables, diff: Diff, newIds: map<Address, nat>, ids: map<Address, nat>)
    requires newIds.Keys == Touched(diff) - db.addresses.addressId.Keys
    requires NumberedFrom(newIds, db.addresses.lastAddressId, |newIds|)
    requires ids.Keys == Touched(diff) + diff.scripts.Keys + diff.accountData.Keys
    requires ids.Keys <= newIds.Keys + db.addresses.addressId.Keys
    requires forall a :: a in ids ==> ids[a] == (db.addresses.addressId + newIds)[a]
    ensures IdsChosen(db, diff, newIds, ids)
  {
    hide NumberedFrom, Touched;
    var known := db.addresses.addressId;
    forall a | a in ids ensures a in known + newIds {
      assert a in newIds.Keys + known.Keys;
    }
  }

  lemma ResolvedInjective(db: Tables, chain: Chain, deltas: seq<Delta>, newIds: map<Address, nat>, ids: map<Address, nat>)
    requires Based(db, chain, deltas)
    requires NumberedFrom(newIds, db.addresses.lastAddressId, |newIds|) && newIds.Keys !! db.addresses.addressId.Keys
    requires ids.Keys <= newIds.Keys + db.addresses.addressId.Keys
    requires forall x :: x in ids ==> ids[x] == (db.addresses.addressId + newIds)[x]
    ensures Injective(ids)
  {
    hide Stored, Anchored, NumberedFrom, Injective;
    StoredAddresses(db, chain);
    InjectiveIds(db.addresses, newIds, ids);
  }

  lemma InjectiveIds(a: Addresses, newIds: map<Address, nat>, ids: map<Address, nat>)
    requires AddressesStored(a) && NumberedFrom(newIds, a.lastAddressId, |newIds|) && newIds.Keys !! a.addressId.Keys
    requires ids.Keys <= newIds.Keys + a.addressId.Keys
    requires forall x :: x in ids ==> ids[x] == (a.addressId + newIds)[x]
    ensures Injective(ids)
  {
    hide AddressesStored, NumberedFrom, NewIds;
    NumberedAreNew(a, newIds);
    AllIdsInjective(a, newIds);
  }

  /** Everything an append has to keep, from what went into its update. */
  lemma AppendWorks(db: Tables, chain: Chain, deltas: seq<Delta>, caches: CacheTables, u: Update, maxRollbackDepth: nat,
                    ids: map<Address, nat>, delta: Delta, v: Values)
    requires Based(db, chain, deltas) && Coherent(caches, db)
    requires Fresh(db.blocks.stored, u.block, db.blocks.height + 1)
    requires u.block.header.transactionCount == |u.block.transactions|
    requires delta.diff.transactions.Keys <= TransactionIds(u.block.transactions)
    requires Built(db, u, ids, delta, v)
    ensures LoadCurrent(db).height == db.blocks.height && WellFormed(u) && Acceptable(db, u)
    ensures var after, longer := After(db, u, maxRollbackDepth), Grown(chain, u, ChangesOf(db.state, u));
            var c := CachesAfterAppend(caches, u.newAddresses, delta.diff, v);
            && after == AppendTables(db, u, db.blocks.height + 1, maxRollbackDepth)
            && Based(after, longer, deltas + [delta]) && AtHeights(c) == AtHeights(caches)
            && (Ready(db, delta.diff, maxRollbackDepth) ==> Coherent(c, after))
            && (Meant(db, chain, deltas) ==> Ready(db, delta.diff, maxRollbackDepth) && Meant(after, longer, deltas + [delta]))
            && (Meant(db, chain, deltas) && HeightsCoherent(caches, db.state, chain) ==> HeightsCoherent(c, after.state, longer))
            && LoadCurrent(after) == Current(db.blocks.height + 1, LoadCurrent(db).score + u.block.header.score, Some(u.block))
            && after.addresses.lastAddressId == db.addresses.lastAddressId + |u.newAddresses|
            && ListedByAddress(after.addresses.addressId, delta.diff, u.addressTransactions)
            && AppliedWhereReady(db, delta, maxRollbackDepth, after)
            && StayExact(db, chain, deltas, after, longer, deltas + [delta])
  {
    hide Stored, Meant, AllChangedKnown, Coherent, HeightsCoherent, Fresh, TransactionIds, Acceptable, AppendTables, Anchored, Counted, MatchesDeltas,
      Realizes, NewValues, Built, ListedByAddress, Knows, RecordedAddresses, Injective, LoadCurrent, AddressesStored, ChangesOf,
      CachesAfterAppend, WellFormed, ChangedKeys, After, RecordsDelta, Ready, ItemReady, LatestItem, Applied, ScriptsStored, Exact;
    var all := db.addresses.addressId + u.newAddresses;
    StoredAddresses(db, chain);
    UpdateIsReady(db, chain, u, ids, delta, v);
    BuiltParts(db, u, ids, delta, v);
    AppendKeepsBased(db, chain, deltas, u, maxRollbackDepth, delta);
    AppendedCurrent(db, chain, u, maxRollbackDepth);
    forall item
      ensures LatestItem(After(db, u, maxRollbackDepth), item) == Applied(delta, item, LatestItem(db, item))
              <==> ItemReady(db, delta.diff, maxRollbackDepth, item)
    {
      AppendedItem(db, chain, u, maxRollbackDepth, delta, item);
    }
    forall item | Exact(db, chain, deltas, item)
      ensures Exact(After(db, u, maxRollbackDepth), Grown(chain, u, ChangesOf(db.state, u)), deltas + [delta], item)
    {
      AppendKeepsExact(db, chain, deltas, u, maxRollbackDepth, delta, item);
    }
    if Ready(db, delta.diff, maxRollbackDepth) {
      AppendKeepsCoherence(caches, db, chain, u, maxRollbackDepth, delta, v);
    }
    if Meant(db, chain, deltas) {
      AppendKeepsFaithful(db, chain, deltas, u, maxRollbackDepth, delta);
      MeantIsStored(db, chain, deltas);
      StoredIsReady(db, chain, delta.diff, maxRollbackDepth);
      if HeightsCoherent(caches, db.state, chain) {
        AppendKeepsHeights(caches, db, chain, u, maxRollbackDepth);
      }
    }
    HeightsUntouched(caches, u.newAddresses, delta.diff, v, After(db, u, maxRollbackDepth).state,
                     Grown(chain, u, ChangesOf(db.state, u)));
  }

  /** An item holds what the delta makes of what it held exactly if the next height was ready for it. */
  ghost predicate AppliedWhereReady(before: Tables, delta: Delta, maxRollbackDepth: nat, after: Tables) {
    forall item :: LatestItem(after, item) == Applied(delta, item, LatestItem(before, item)) <==> ItemReady(before, delta.diff, maxRollbackDepth, item)
  }

  ghost predicate StayExact(before: Tables, chain: Chain, deltas: seq<Delta>, after: Tables, longer: Chain, longerDeltas: seq<Delta>) {
    forall item :: Exact(before, chain, deltas, item) ==> Exact(after, longer, longerDeltas, item)
  }

  lemma MeantIsStored(db: Tables, chain: Chain, deltas: seq<Delta>)
    requires Meant(db, chain, deltas)
    ensures Stored(db, chain)
  {
  }

  lemma HeightsAside(c: CacheTables, filled: CacheTables, s: State, chain: Chain)
    requires AtHeights(c) == AtHeights(filled)
    ensures HeightsCoherent(c, s, chain) ==> HeightsCoherent(filled, s, chain)
  {
    hide AmountCached, LeasesCached;
  }

  lemma HeightsUntouched(c: CacheTables, newAddresses: map<Address, nat>, diff: Diff, v: Values, s: State, chain: Chain)
    ensures HeightsCoherent(c, s, chain) ==> HeightsCoherent(CachesAfterAppend(c, newAddresses, diff, v), s, chain)
    ensures AtHeights(CachesAfterAppend(c, newAddresses, diff, v)) == AtHeights(c)
  {
    hide AmountCached, LeasesCached;
  }

  lemma AppendedCurrent(db: Tables, chain: Chain, u: Update, maxRollbackDepth: nat)
    requires Anchored(db, chain) && Acceptable(db, u) && Counted(chain) && u.block.header.transactionCount == |u.block.transactions|
    ensures LoadCurrent(db).height == db.blocks.height && WellFormed(u)
    ensures var after := After(db, u, maxRollbackDepth);
            && after == AppendTables(db, u, db.blocks.height + 1, maxRollbackDepth)
            && LoadCurrent(after) == Current(db.blocks.height + 1, LoadCurrent(db).score + u.block.header.score, Some(u.block))
            && after.addresses.addressId == db.addresses.addressId + u.newAddresses
            && after.addresses.lastAddressId == db.addresses.lastAddressId + |u.newAddresses|
  {
    hide Anchored, AppendTables, LoadCurrent, Acceptable, WellFormed, ChangesOf, ChangedKeys, Inverse;
    AcceptableIsWellFormed(db, u);
    AppendKeepsAnchor(db, chain, u, maxRollbackDepth);
    CurrentHeight(db, chain);
    TopIsStored(db, chain);
    TopIsStored(After(db, u, maxRollbackDepth), Grown(chain, u, ChangesOf(db.state, u)));
    AfterAddresses(db, u, maxRollbackDepth);
  }

  lemma AcceptableIsWellFormed(db: Tables, u: Update)
    requires Acceptable(db, u)
    ensures WellFormed(u)
  {
    NewIdsInjective(db.addresses, u.newAddresses);
  }

  // ---- reads ----

  /** The key of a balance: None is the native asset. */
  function BalanceKey(id: nat, asset: Option<AssetId>): VersionKey {
    match asset
    case None => EarthsBalance(id)
    case Some(a) => AssetBalance(id, a)
  }

  lemma LoadedBalance(db: Tables, address: Address, asset: Option<AssetId>)
    ensures LoadBalance(db, address, asset) ==
            match Lookup(db.addresses.addressId, address)
            case None => 0
            case Some(id) => AmountOf(LatestValue(db.state, BalanceKey(id, asset)))
  {
  }

  function StoredPortfolio(s: State, id: nat): Portfolio {
    Portfolio(AmountOf(LatestValue(s, EarthsBalance(id))), LeasesOf(LatestValue(s, LeaseBalanceOf(id))),
              map asset | asset in AssetList(s, id) :: AmountOf(LatestValue(s, AssetBalance(id, asset))))
  }

  lemma LoadedPortfolio(db: Tables, address: Address)
    ensures LoadPortfolio(db, address) ==
            match Lookup(db.addresses.addressId, address)
            case None => Portfolio(0, NO_LEASES, map[])
            case Some(id) => StoredPortfolio(db.state, id)
  {
    hide LatestValue;
  }

  /** hasInHistory: the newest entry of the history has stored bytes. */
  predicate HasInHistory(s: State, key: VersionKey) {
    var history := HistoryOf(s.history, key);
    history != [] && (key, history[0]) in s.value
  }

  lemma CurrentHeight(db: Tables, chain: Chain)
    requires Anchored(db, chain)
    ensures LoadCurrent(db).height == db.blocks.height == chain.Height()
  {
    hide Anchored;
    AnchoredHeight(db, chain);
  }

  /** Every block sets the carry fee, so the latest one is stored under the last height. */
  lemma CarryFeeAtTop(db: Tables, chain: Chain)
    requires Anchored(db, chain) && KeyKept(db, chain, CarryFee)
    ensures Lookup(db.state.value, (CarryFee, chain.Height())) == LatestValue(db.state, CarryFee)
  {
    hide BlocksStored, AddressesStored, ChainAddressTxs.ListsStored, ChainIndexes.Indexed, IdsKnown, RecordedBlock, ChangedKeys;
    var history := HistoryOf(db.state.history, CarryFee);
    AnchoredHeight(db, chain);
    if chain.Grown? {
      ChangedKeysAre(chain.update, CarryFee);
      assert ChangedAt(Deltas(chain), CarryFee, chain.Height());
      assert LastChange(Deltas(chain), CarryFee, chain.Height()) == chain.Height();
      assert history[0] in history;
    }
  }

  lemma ThroughCaches(c: CacheTables, db: Tables, chain: Chain, id: nat, from: nat, to: nat)
    requires HeightsCoherent(c, db.state, chain) && Stored(db, chain) && chain.Height() >= 1
    requires var w, l := Slice(HistoryOf(db.state.history, EarthsBalance(id)), from, to), Slice(HistoryOf(db.state.history, LeaseBalanceOf(id)), from, to);
             w != [] && l != []
    ensures forall p :: p in BalancePairs(db.state, id, from, to) ==>
              Placed(chain, EarthsBalance(id), p.0) && Placed(chain, LeaseBalanceOf(id), p.1)
              && LoadsRightly(db.state, chain, id, p)
  {
    hide Stored, Placed, Live, ChangeAt, Slice, Merge;
    var w, l := Slice(HistoryOf(db.state.history, EarthsBalance(id)), from, to), Slice(HistoryOf(db.state.history, LeaseBalanceOf(id)), from, to);
    forall p | p in BalancePairs(db.state, id, from, to)
      ensures Placed(chain, EarthsBalance(id), p.0) && Placed(chain, LeaseBalanceOf(id), p.1) && LoadsRightly(db.state, chain, id, p)
    {
      MergedHeights(w, l, p);
      SliceIsLive(db, chain, EarthsBalance(id), from, to, p.0);
      SliceIsLive(db, chain, LeaseBalanceOf(id), from, to, p.1);
      LoadedRightly(db, chain, EarthsBalance(id), p.0);
      LoadedRightly(db, chain, LeaseBalanceOf(id), p.1);
    }
  }

  /** What a miss loads for a pair of heights may be cached. */
  ghost predicate LoadsRightly(s: State, chain: Chain, id: nat, p: (nat, nat)) {
    && AmountCached(s, chain, id, p.0, AmountOf(Lookup(s.value, (EarthsBalance(id), p.0))))
    && LeasesCached(s, chain, id, p.1, LeasesOf(Lookup(s.value, (LeaseBalanceOf(id), p.1))))
  }

  lemma LoadedRightly(db: Tables, chain: Chain, key: VersionKey, height: nat)
    requires Stored(db, chain) && Placed(chain, key, height) && (height != 1 ==> Live(db.state, chain, key, height))
    ensures Live(db.state, chain, key, height) ==> Lookup(db.state.value, (key, height)) == ChangeAt(chain, key, height)
    ensures !Live(db.state, chain, key, height) ==> height == 1 && Lookup(db.state.value, (key, height)) == None
  {
    hide Stored, LastChange;
    KeptValue(db, chain, key, height);
  }

  lemma ExactReads(db: Tables, chain: Chain, deltas: seq<Delta>, item: Item)
    requires Based(db, chain, deltas) && Exact(db, chain, deltas, item)
    ensures LatestItem(db, item) == Fold(deltas, item)
  {
    hide Anchored, MatchesDeltas, AllChangedKnown, Counted, ScriptsStored, Exact, LatestItem, Fold;
    ExactIsFold(db, chain, deltas, item);
  }

  /** What a portfolio says is held of an asset. */
  function HeldIn(p: Portfolio, asset: AssetId): int {
    if asset in p.assets then p.assets[asset] else 0
  }

  /** A portfolio agrees with the balances and lease balance of its address, also for assets it does not list. */
  lemma PortfolioHolds(db: Tables, chain: Chain, deltas: seq<Delta>, address: Address)
    requires Based(db, chain, deltas)
    ensures var p := LoadPortfolio(db, address);
            && (Exact(db, chain, deltas, BalanceOf(address, None)) ==> p.balance == AmountOf(Fold(deltas, BalanceOf(address, None))))
            && (Exact(db, chain, deltas, LeaseOf(address)) ==> p.lease == LeasesOf(Fold(deltas, LeaseOf(address))))
            && (forall asset :: HeldIn(p, asset) == LoadBalance(db, address, Some(asset)))
            && (forall asset :: Exact(db, chain, deltas, BalanceOf(address, Some(asset))) ==>
                  HeldIn(p, asset) == AmountOf(Fold(deltas, BalanceOf(address, Some(asset)))))
  {
    hide Based, Exact, LatestItem, Fold, AssetsHeld;
    if Exact(db, chain, deltas, BalanceOf(address, None)) { ExactReads(db, chain, deltas, BalanceOf(address, None)); }
    if Exact(db, chain, deltas, LeaseOf(address)) { ExactReads(db, chain, deltas, LeaseOf(address)); }
    forall asset
      ensures HeldIn(LoadPortfolio(db, address), asset) == LoadBalance(db, address, Some(asset))
      ensures Exact(db, chain, deltas, BalanceOf(address, Some(asset))) ==>
                LoadBalance(db, address, Some(asset)) == AmountOf(Fold(deltas, BalanceOf(address, Some(asset))))
    {
      if asset !in AssetsHeld(db, address) { UnlistedIsNone(db, chain, deltas, address, asset); }
      if Exact(db, chain, deltas, BalanceOf(address, Some(asset))) { ExactReads(db, chain, deltas, BalanceOf(address, Some(asset))); }
    }
  }

  /** The asset list of an address has every asset it has a balance of. */
  lemma UnlistedIsNone(db: Tables, chain: Chain, deltas: seq<Delta>, address: Address, asset: AssetId)
    requires Based(db, chain, deltas) && asset !in AssetsHeld(db, address)
    ensures LatestItem(db, BalanceOf(address, Some(asset))) == None
  {
    hide BlocksStored, AddressesStored, ChainAddressTxs.ListsStored, Recorded, ChainIndexes.EarthsIndexed, ChainIndexes.DataIndexed,
      ChainIndexes.AssetIndexed, IdsKnown, MatchesDeltas, AllChangedKnown, Counted, ScriptsStored, Exact;
    if address in db.addresses.addressId {
      assert !ChainIndexes.HasHistory(db.state, AssetBalance(db.addresses.addressId[address], asset));
    }
  }

  lemma ScriptsAreCode(db: Tables, chain: Chain, deltas: seq<Delta>)
    requires Based(db, chain, deltas)
    ensures forall key: VersionKey :: key.AddressScript? || key.AssetScript? ==>
              && (LatestValue(db.state, key).Some? <==> HasInHistory(db.state, key))
              && (LatestValue(db.state, key).Some? ==> LatestValue(db.state, key).value.Code?)
  {
    hide Anchored, MatchesDeltas, AllChangedKnown, Counted, ScriptsStored, Exact, LatestValue, HasInHistory;
    forall key: VersionKey | key.AddressScript? || key.AssetScript?
      ensures LatestValue(db.state, key).Some? <==> HasInHistory(db.state, key)
      ensures LatestValue(db.state, key).Some? ==> LatestValue(db.state, key).value.Code?
    {
      ScriptIsCode(db.state, key);
    }
  }

  lemma BasedHeight(db: Tables, chain: Chain, deltas: seq<Delta>)
    requires Based(db, chain, deltas)
    ensures LoadCurrent(db).height == db.blocks.height == chain.Height() && |deltas| == chain.Height()
    ensures ChangedAreKnown(db, chain.Height())
  {
    hide Based, ChangedAreKnown, Recorded, AddressesStored;
    KnownHere(db, chain, deltas);
  }

  lemma OneBlockOff(chain: Chain, target: nat, ids: map<Address, nat>)
    requires chain.Height() > target
    ensures BlocksAbove(chain, target) == BlocksAbove(chain.below, target) + [chain.Block()]
    ensures CoveredAbove(chain, target, ids) ==> Covered(chain.update, ids) && CoveredAbove(chain.below, target, ids)
  {
    hide Covered;
  }

  lemma NothingAbove(chain: Chain, target: nat)
    requires chain.Height() <= target
    ensures BlocksAbove(chain, target) == []
  {
  }

  lemma RolledAddresses(db: Tables, height: nat)
    requires height in db.blocks.stored.header && height > 0
    ensures RollbackTables(db, height).addresses == db.addresses
    ensures RollbackTables(db, height).blocks.safeRollbackHeight == db.blocks.safeRollbackHeight
  {
    hide RollbackKeys, CommitBlocks, CommitState, CommitAddressTxs;
  }

  lemma NothingLeaves(c: CacheTables, db: Tables, target: nat)
    requires db.blocks.height <= target
    ensures HeightsLeft(c, db, target) == AtHeights(c)
  {
    NothingGoes(c.balanceAt, db, target);
    NothingGoes(c.leaseAt, db, target);
  }

  // ---- rollback of several blocks ----

  lemma KnownHere(db: Tables, chain: Chain, deltas: seq<Delta>)
    requires Based(db, chain, deltas)
    ensures ChangedAreKnown(db, chain.Height()) && AddressesStored(db.addresses) && db.blocks.height == chain.Height()
    ensures Recorded(db.state, chain) && |deltas| == chain.Height()
  {
    hide Anchored, Matched, RecordsDelta, ChangedAreKnown, Counted, ScriptsStored, Exact;
    StoredAddresses(db, chain);
    AnchoredIsRecorded(db, chain);
    assert ChangedAreKnown(db, chain.Height());
  }

  lemma TopHeights(caches: CacheTables, db: Tables, chain: Chain, deltas: seq<Delta>)
    requires Based(db, chain, deltas) && chain.Height() > 1 && chain.Height() in db.blocks.stored.header
    requires HeightsCoherent(caches, db.state, chain) && Covered(chain.update, db.addresses.addressId)
    ensures HeightsCoherent(CachesAfterRollback(caches, StaleAfter(db, chain.Height()), chain.Height()), RollbackTables(db, chain.Height()).state, chain.below)
  {
    hide Based, HeightsCoherent, Covered, Recorded, CachesAfterRollback, StaleAfter, RollbackTables, ChangedAreKnown;
    KnownHere(db, chain, deltas);
    CoveredDropsLeases(caches, db, chain);
    RollbackKeepsHeights(caches, db, chain);
  }

  /**
   What a rollback makes of the items: each reads the value under the newest height that is left. One that was exact is the fold of
   the deltas it survives from. If every discarded block that touched it has it undone, these are the ones up to the target, and it
   stays exact; otherwise it does not.
   */
  ghost predicate ItemsRolledBack(before: Tables, chain: Chain, deltas: seq<Delta>, target: nat, after: Tables)
    requires |deltas| == chain.Height() && target <= chain.Height()
  {
    forall item :: ItemRolledBack(before, chain, deltas, target, after, item)
  }

  ghost predicate ItemRolledBack(before: Tables, chain: Chain, deltas: seq<Delta>, target: nat, after: Tables, item: Item)
    requires |deltas| == chain.Height() && target <= chain.Height()
  {
    && LatestItem(after, item) == ItemLeft(before, item, target)
    && (Exact(before, chain, deltas, item) ==>
          && LatestItem(after, item) == Fold(deltas[..Surviving(chain, deltas, item, target)], item)
          && (UndoneAbove(chain, deltas, item, target) ==> LatestItem(after, item) == Fold(deltas[..target], item))
          && (Exact(after, chain.Upto(target), deltas[..target], item) <==> UndoneAbove(chain, deltas, item, target)))
  }

  lemma AfterRollback(db: Tables, chain: Chain, deltas: seq<Delta>, target: nat)
    requires Based(db, chain, deltas) && db.blocks.safeRollbackHeight < target <= chain.Height()
    ensures |deltas| == chain.Height()
    ensures ItemsRolledBack(db, chain, deltas, target, RolledBack(db, target))
    ensures CoveredAbove(chain, target, db.addresses.addressId) <==> DiffsCoveredAbove(chain, deltas, target)
    ensures Meant(db, chain, deltas) ==>
              (Meant(RolledBack(db, target), chain.Upto(target), deltas[..target]) <==> DiffsCoveredAbove(chain, deltas, target))
  {
    hide Stored, Anchored, Matched, Realized, RecordsDelta, RecordedBlock, RolledBack, Surviving, Fold, LatestItem, Injective, AllChangedKnown, Covered,
      DiffCovered, ChangedKeys, Recorded, CoveredAbove, DiffsCoveredAbove, ScriptsStored, Exact, ItemLeft, UndoneAbove;
    StoredAddresses(db, chain);
    AnchoredIsRecorded(db, chain);
    CoveredAboveByDiffs(db.state, chain, deltas, db.addresses.addressId, target);
    forall item ensures ItemRolledBack(db, chain, deltas, target, RolledBack(db, target), item)
    {
      RollbackReadsLeft(db, chain, item, target);
      if Exact(db, chain, deltas, item) {
        ItemAfterRollback(db, chain, deltas, item, target);
        ExactAfterRollback(db, chain, deltas, item, target);
      }
    }
    if Meant(db, chain, deltas) {
      RollbackToTarget(db, chain, target);
      RollbackExactlyCovered(db, chain, target);
      FromDeltasUpto(chain, deltas, db.addresses.addressId, target);
    }
  }

  lemma HeightsInChain(db: Tables, chain: Chain, blockId: Id)
    requires Anchored(db, chain) && blockId in db.blocks.stored.heightOf
    ensures db.blocks.stored.heightOf[blockId] <= chain.Height()
  {
    hide AddressesStored, ChainAddressTxs.ListsStored, Recorded, ChainIndexes.Indexed, IdsKnown, Replay, ValidChain;
    ReplayedHeights(chain, blockId);
  }

  lemma {:induction false} ReplayedHeights(chain: Chain, blockId: Id)
    requires ValidChain(chain)
    ensures blockId in Replay(chain).heightOf ==> Replay(chain).heightOf[blockId] <= chain.Height()
  {
    hide TransactionPuts, TransactionIndexPuts, FreshTransactions, Commit;
    if chain.Grown? {
      ReplayedHeights(chain.below, blockId);
      CommitAt(Replay(chain.below).heightOf, map[chain.Block().header.id := Some(chain.Height())], blockId);
    }
  }

  // ---- what validation ensures of scripts ----

  ghost predicate ScriptsSetAlong(chain: Chain, deltas: seq<Delta>)
    requires |deltas| == chain.Height()
  {
    chain.Grown? ==> ScriptsSet(deltas[|deltas| - 1].diff, chain.Block().transactions) && ScriptsSetAlong(chain.below, deltas[..|deltas| - 1])
  }

  /** Blocks only set scripts of accounts by such transactions, and these scripts are what they set. */
  ghost predicate Lawful(db: Tables, chain: Chain, deltas: seq<Delta>) {
    |deltas| == chain.Height() && ScriptsSetAlong(chain, deltas) && forall a :: Exact(db, chain, deltas, ScriptOf(a))
  }

  lemma {:induction false} ScriptSurvivesNowhere(chain: Chain, deltas: seq<Delta>, a: Address, target: nat)
    requires |deltas| == chain.Height() && ScriptsSetAlong(chain, deltas) && target <= chain.Height()
    ensures Surviving(chain, deltas, ScriptOf(a), target) == target
  {
    if chain.Height() > target {
      ScriptSurvivesNowhere(chain.below, deltas[..|deltas| - 1], a, target);
    }
  }

  lemma {:induction false} ScriptsSetUpto(chain: Chain, deltas: seq<Delta>, height: nat)
    requires |deltas| == chain.Height() && ScriptsSetAlong(chain, deltas) && height <= chain.Height()
    ensures ScriptsSetAlong(chain.Upto(height), deltas[..height])
  {
    hide ScriptsSet;
    if height < chain.Height() {
      ScriptsSetUpto(chain.below, deltas[..|deltas| - 1], height);
      assert deltas[..|deltas| - 1][..height] == deltas[..height];
    } else {
      assert deltas[..height] == deltas;
    }
  }

  lemma RollbackKeepsLawful(db: Tables, chain: Chain, deltas: seq<Delta>, target: nat, after: Tables)
    requires Lawful(db, chain, deltas) && target <= chain.Height() && ItemsRolledBack(db, chain, deltas, target, after)
    ensures Lawful(after, chain.Upto(target), deltas[..target])
  {
    hide Exact, ScriptsSetAlong, Surviving, Fold, LatestItem, ItemLeft, UndoneAbove;
    ScriptsSetUpto(chain, deltas, target);
    forall a ensures Exact(after, chain.Upto(target), deltas[..target], ScriptOf(a)) {
      assert Exact(db, chain, deltas, ScriptOf(a));
      assert ItemRolledBack(db, chain, deltas, target, after, ScriptOf(a));
      ScriptSurvivesNowhere(chain, deltas, a, target);
      UndoneAboveExactly(chain, deltas, ScriptOf(a), target);
    }
  }

  lemma AppendKeepsLawful(db: Tables, chain: Chain, deltas: seq<Delta>, after: Tables, longer: Chain, delta: Delta)
    requires Lawful(db, chain, deltas) && StayExact(db, chain, deltas, after, longer, deltas + [delta])
    requires longer.Grown? && longer.below == chain && ScriptsSet(delta.diff, longer.Block().transactions)
    ensures Lawful(after, longer, deltas + [delta])
  {
    hide Exact, ScriptsSet;
    assert (deltas + [delta])[..|deltas|] == deltas;
    forall a ensures Exact(after, longer, deltas + [delta], ScriptOf(a)) {
      assert Exact(db, chain, deltas, ScriptOf(a));
    }
  }

  /**
   Validation lets scripts of accounts be set by such transactions only and no script of an asset be removed. Then, with a rollback
   depth, every append finds the next height ready, whatever blocks were rolled back before.
   */
  lemma LawfulIsReady(db: Tables, chain: Chain, deltas: seq<Delta>, diff: Diff, maxRollbackDepth: nat)
    requires Anchored(db, chain) && Lawful(db, chain, deltas) && maxRollbackDepth > 0
    requires forall asset :: asset in diff.assetScripts ==> diff.assetScripts[asset].Some?
    ensures Ready(db, diff, maxRollbackDepth)
  {
    hide Anchored, Exact, ItemReady, ScriptsSetAlong, KeyOf;
    forall item ensures ItemReady(db, diff, maxRollbackDepth, item) {
      ReadyWithDepth(db, diff, maxRollbackDepth, item);
      match item
      case ScriptOf(a) =>
        assert Exact(db, chain, deltas, ScriptOf(a));
        ExactIsReady(db, chain, deltas, diff, maxRollbackDepth, item);
      case Keyed(AssetScript(asset)) =>
      case _ => assert !Removes(diff, item);
    }
  }

  /** A stored script is code, so asking for stored bytes is asking for a script. */
  lemma ScriptIsCode(s: State, key: VersionKey)
    requires ScriptsStored(s) && (key.AddressScript? || key.AssetScript?)
    ensures LatestValue(s, key).Some? <==> HasInHistory(s, key)
    ensures LatestValue(s, key).Some? ==> LatestValue(s, key).value.Code?
  {
  }

  class LevelDBWriter {
    const maxRollbackDepth: nat
    var db: Tables
    var current: Current
    var lastAddressId: nat
    var caches: CacheTables
    ghost var chain: Chain
    ghost var deltas: seq<Delta>

    /** What appends and rollbacks of any blocks leave: the fields and caches agree with the store, whatever its values are. */
    ghost predicate Usable()
      reads this
    {
      && Based(db, chain, deltas)
      && current == LoadCurrent(db)
      && lastAddressId == db.addresses.lastAddressId
      && Coherent(caches, db)
    }

    /** The state is moreover what the deltas add up to, and the values cached for single heights are right. */
    ghost predicate Valid()
      reads this
    {
      Usable() && Meant(db, chain, deltas) && HeightsCoherent(caches, db.state, chain)
    }

    /** Nothing but other caches than those at single heights has changed, and what held of the object still holds. */
    twostate predicate OnlyCached()
      reads this
    {
      Usable() && (old(Valid()) ==> Valid()) && AtHeights(caches) == old(AtHeights(caches))
    }

    /** Opens a store, new or left behind by an earlier run. */
    constructor (db: Tables, maxRollbackDepth: nat, ghost chain: Chain, ghost deltas: seq<Delta>)
      requires Based(db, chain, deltas)
      ensures Usable() && (Meant(db, chain, deltas) ==> Valid()) && AtHeights(caches) == (map[], map[])
      ensures this.db == db && this.chain == chain && this.deltas == deltas && this.maxRollbackDepth == maxRollbackDepth
    {
      hide Based, Meant, LoadCurrent, Coherent, HeightsCoherent;
      this.db, this.maxRollbackDepth := db, maxRollbackDepth;
      this.chain, this.deltas := chain, deltas;
      current := LoadCurrent(db);
      lastAddressId := db.addresses.lastAddressId;
      caches := CacheTables(map[], map[], map[], map[], map[], map[], map[], map[], map[]);
      new;
      NothingCached(caches, db, chain);
    }

    /** The item's value is the fold of the deltas. In a valid store every item is exact. */
    ghost predicate IsExact(item: Item)
      reads this
    {
      Exact(db, chain, deltas, item)
    }

    lemma ValidIsExact(item: Item)
      requires Valid()
      ensures IsExact(item)
    {
      hide Based, Stored, LoadCurrent, Coherent, HeightsCoherent, FromDeltas, Exact;
      AllExact(db, chain, deltas, item);
    }

    /** Any cache may lose any entries at any time. */
    method Evict(kept: CacheTables)
      requires Usable() && Evicted(kept, caches)
      modifies this`caches
      ensures Usable() && caches == kept && (old(Valid()) ==> Valid())
    {
      hide Based, Meant, LoadCurrent, Coherent, HeightsCoherent, Evicted;
      EvictionKeepsCoherence(kept, caches, db);
      if HeightsCoherent(caches, db.state, chain) {
        EvictionKeepsHeights(kept, caches, db.state, chain);
      }
      caches := kept;
    }

    // ---- reads ----

    method AddressId(address: Address) returns (r: Option<nat>)
      requires Usable()
      modifies this`caches
      ensures OnlyCached() && r == Lookup(db.addresses.addressId, address)
    {
      hide Based, Meant, LoadCurrent, HeightsCoherent, Exact, LoadBalance, LoadLeaseBalance, LoadPortfolio, LoadVolumeAndFee, LoadScript, LoadAssetScript;
      if address in caches.addressId {
        r := caches.addressId[address];
      } else {
        r := Lookup(db.addresses.addressId, address);
        HeightsAside(caches, caches.(addressId := caches.addressId[address := r]), db.state, chain);
        caches := caches.(addressId := caches.addressId[address := r]);
      }
    }

    method Balance(address: Address, asset: Option<AssetId>) returns (r: int)
      requires Usable()
      modifies this`caches
      ensures OnlyCached()
      ensures r == LoadBalance(db, address, asset) && (IsExact(BalanceOf(address, asset)) ==> r == AmountOf(Fold(deltas, BalanceOf(address, asset))))
      ensures IsExact(BalanceOf(address, asset)) ==> Is64BitSum(r, SumOfChanges(deltas, address, asset))
    {
      hide Based, Meant, LoadCurrent, Coherent, HeightsCoherent, Exact, LatestItem, Fold, Is64BitSum, SumOfChanges;
      BalanceIn64Bits(deltas, address, asset);
      if IsExact(BalanceOf(address, asset)) { ExactReads(db, chain, deltas, BalanceOf(address, asset)); }
      BalanceEntry(caches, db, (address, asset));
      if (address, asset) in caches.balances {
        r := caches.balances[(address, asset)];
      } else {
        var id := AddressId(address);
        r := if id == None then 0 else AmountOf(LatestValue(db.state, BalanceKey(id.value, asset)));
        LoadedBalance(db, address, asset);
        BalanceEntry(caches, db, (address, asset));
        HeightsAside(caches, caches.(balances := caches.balances[(address, asset) := r]), db.state, chain);
        caches := caches.(balances := caches.balances[(address, asset) := r]);
      }
    }

    method LeaseBalanceFor(address: Address) returns (r: LeaseBalance)
      requires Usable()
      modifies this`caches
      ensures OnlyCached()
      ensures r == LoadLeaseBalance(db, address) && (IsExact(LeaseOf(address)) ==> r == LeasesOf(Fold(deltas, LeaseOf(address))))
      ensures IsExact(LeaseOf(address)) ==> AreLeaseSums(r, deltas, address)
    {
      LeasesAreSums(deltas, address);
      hide Based, Meant, LoadCurrent, Coherent, HeightsCoherent, Exact, LatestValue, Fold;
      if IsExact(LeaseOf(address)) { ExactReads(db, chain, deltas, LeaseOf(address)); }
      LeaseEntry(caches, db, address);
      if address in caches.leases {
        r := caches.leases[address];
      } else {
        var id := AddressId(address);
        r := if id == None then NO_LEASES else LeasesOf(LatestValue(db.state, LeaseBalanceOf(id.value)));
        LeaseEntry(caches, db, address);
        HeightsAside(caches, caches.(leases := caches.leases[address := r]), db.state, chain);
        caches := caches.(leases := caches.leases[address := r]);
      }
    }

    method FilledVolume(order: Id) returns (r: VolumeAndFee)
      requires Usable()
      modifies this`caches
      ensures OnlyCached()
      ensures r == LoadVolumeAndFee(db, order) && (IsExact(Keyed(FilledVolumeAndFee(order))) ==> r == FillOf(Fold(deltas, Keyed(FilledVolumeAndFee(order)))))
      ensures IsExact(Keyed(FilledVolumeAndFee(order))) ==>
                Is64BitSum(r.volume, VolumeFilled(deltas, order)) && Is64BitSum(r.fee, FeesPaid(deltas, order))
    {
      FillIsSum(deltas, order);
      hide Is64BitSum, VolumeFilled, FeesPaid, FillOf, Based, Meant, LoadCurrent, HeightsCoherent, Exact, LoadBalance, LoadLeaseBalance, LoadPortfolio, LoadScript, LoadAssetScript, LatestItem, Fold;
      if IsExact(Keyed(FilledVolumeAndFee(order))) { ExactReads(db, chain, deltas, Keyed(FilledVolumeAndFee(order))); }
      if order in caches.fills {
        r := caches.fills[order];
      } else {
        r := LoadVolumeAndFee(db, order);
        HeightsAside(caches, caches.(fills := caches.fills[order := r]), db.state, chain);
        caches := caches.(fills := caches.fills[order := r]);
      }
    }

    /** A portfolio has the native balance, the lease balance and the balances of all assets; what it does not list is 0. */
    method PortfolioOf(address: Address) returns (r: Portfolio)
      requires Usable()
      modifies this`caches
      ensures OnlyCached() && r == LoadPortfolio(db, address)
      ensures IsExact(BalanceOf(address, None)) ==> r.balance == AmountOf(Fold(deltas, BalanceOf(address, None)))
      ensures IsExact(LeaseOf(address)) ==> r.lease == LeasesOf(Fold(deltas, LeaseOf(address)))
      ensures forall asset :: HeldIn(r, asset) == LoadBalance(db, address, Some(asset))
      ensures forall asset :: IsExact(BalanceOf(address, Some(asset))) ==> HeldIn(r, asset) == AmountOf(Fold(deltas, BalanceOf(address, Some(asset))))
    {
      hide Based, Meant, LoadCurrent, Coherent, HeightsCoherent, Exact, StoredPortfolio, LoadPortfolio, LoadBalance, Fold;
      PortfolioEntry(caches, db, address);
      PortfolioHolds(db, chain, deltas, address);
      if address in caches.portfolios {
        r := caches.portfolios[address];
      } else {
        var id := AddressId(address);
        r := if id == None then Portfolio(0, NO_LEASES, map[]) else StoredPortfolio(db.state, id.value);
        LoadedPortfolio(db, address);
        PortfolioEntry(caches, db, address);
        HeightsAside(caches, caches.(portfolios := caches.portfolios[address := r]), db.state, chain);
        caches := caches.(portfolios := caches.portfolios[address := r]);
      }
    }

    method AccountScript(address: Address) returns (r: Option<Script>)
      requires Usable()
      modifies this`caches
      ensures OnlyCached()
      ensures r == LoadScript(db, address) && (IsExact(ScriptOf(address)) ==> r == ScriptIn(Fold(deltas, ScriptOf(address))))
    {
      hide Based, Meant, LoadCurrent, Coherent, HeightsCoherent, Exact, LatestValue, Fold;
      if IsExact(ScriptOf(address)) { ExactReads(db, chain, deltas, ScriptOf(address)); }
      ScriptEntry(caches, db, address);
      if address in caches.scripts {
        r := caches.scripts[address];
      } else {
        var id := AddressId(address);
        r := if id == None then None else ScriptIn(LatestValue(db.state, AddressScript(id.value)));
        ScriptEntry(caches, db, address);
        HeightsAside(caches, caches.(scripts := caches.scripts[address := r]), db.state, chain);
        caches := caches.(scripts := caches.scripts[address := r]);
      }
    }

    /** Whether an address has a script, decided on a cache miss by the presence of the stored bytes alone. */
    method HasScript(address: Address) returns (r: bool)
      requires Usable()
      modifies this`caches
      ensures OnlyCached() && r == LoadScript(db, address).Some?
    {
      hide Based, Meant, LoadCurrent, HeightsCoherent, LoadBalance, LoadLeaseBalance, LoadPortfolio, LoadVolumeAndFee, LoadAssetScript, LatestValue,
        HasInHistory;
      ScriptsAreCode(db, chain, deltas);
      if address in caches.scripts {
        r := caches.scripts[address].Some?;
      } else {
        var id := AddressId(address);
        r := id.Some? && HasInHistory(db.state, AddressScript(id.value));
      }
    }

    method AssetScriptFor(asset: AssetId) returns (r: Option<Script>)
      requires Usable()
      modifies this`caches
      ensures OnlyCached()
      ensures r == LoadAssetScript(db, asset) && (IsExact(Keyed(AssetScript(asset))) ==> r == ScriptIn(Fold(deltas, Keyed(AssetScript(asset)))))
    {
      hide Based, Meant, LoadCurrent, HeightsCoherent, Exact, LoadBalance, LoadLeaseBalance, LoadPortfolio, LoadVolumeAndFee, LoadScript, LatestItem, Fold;
      if IsExact(Keyed(AssetScript(asset))) { ExactReads(db, chain, deltas, Keyed(AssetScript(asset))); }
      if asset in caches.assetScripts {
        r := caches.assetScripts[asset];
      } else {
        r := LoadAssetScript(db, asset);
        HeightsAside(caches, caches.(assetScripts := caches.assetScripts[asset := r]), db.state, chain);
        caches := caches.(assetScripts := caches.assetScripts[asset := r]);
      }
    }

    method HasAssetScript(asset: AssetId) returns (r: bool)
      requires Usable()
      ensures r == LoadAssetScript(db, asset).Some?
    {
      hide Based, Meant, LoadCurrent, BalancesCoherent, HeightsCoherent, LatestValue;
      ScriptsAreCode(db, chain, deltas);
      if asset in caches.assetScripts {
        r := caches.assetScripts[asset].Some?;
      } else {
        r := LatestValue(db.state, AssetScript(asset)).Some?;
      }
    }

    method AccountData(address: Address, name: string) returns (r: Option<Value>)
      requires Usable()
      modifies this`caches
      ensures OnlyCached()
      ensures r == LatestItem(db, DataOf(address, name)) && (IsExact(DataOf(address, name)) ==> r == Fold(deltas, DataOf(address, name)))
    {
      hide Based, Meant, LoadCurrent, Coherent, HeightsCoherent, LatestValue, Fold;
      if IsExact(DataOf(address, name)) { ExactReads(db, chain, deltas, DataOf(address, name)); }
      var id := AddressId(address);
      r := if id == None then None else LatestValue(db.state, Data(id.value, name));
    }

    /** The fee carried over by the last block, read at its height. */
    method CarryFeeNow() returns (r: int)
      requires Usable()
      ensures r == AmountOf(Fold(deltas, Keyed(CarryFee)))
    {
      hide Stored, Anchored, MatchesDeltas, AllChangedKnown, LoadCurrent, Coherent, HeightsCoherent, Fold, KeyKept, RealizedFor, ScriptsStored, LatestValue;
      ExactReads(db, chain, deltas, Keyed(CarryFee));
      CurrentHeight(db, chain);
      CarryFeeAtTop(db, chain);
      r := AmountOf(Lookup(db.state.value, (CarryFee, current.height)));
    }

    /** The height of a block; the last block is answered without the store. */
    method HeightOf(blockId: Id) returns (r: Option<nat>)
      requires Usable()
      ensures r == Lookup(db.blocks.stored.heightOf, blockId)
    {
      hide Stored, Anchored, FromDeltas, MatchesDeltas, AllChangedKnown, Coherent, HeightsCoherent, LoadCurrent;
      TopIsStored(db, chain);
      if current.lastBlock.Some? && current.lastBlock.value.header.id == blockId {
        r := Some(current.height);
      } else {
        r := Lookup(db.blocks.stored.heightOf, blockId);
      }
    }

    // ---- balance snapshots ----

    method BalanceAtHeight(id: nat, height: nat) returns (r: int)
      requires Usable()
      modifies this`caches
      ensures Usable() && r == BalanceThrough(old(caches), db.state, id, height)
      ensures caches == old(caches).(balanceAt := old(caches).balanceAt[(height, id) := r])
      ensures old(Valid()) && AmountCached(db.state, chain, id, height, AmountOf(Lookup(db.state.value, (EarthsBalance(id), height)))) ==> Valid()
    {
      hide Based, Meant, LoadCurrent, AmountCached, LeasesCached, LoadBalance, LoadLeaseBalance, LoadPortfolio, LoadVolumeAndFee, LoadScript, LoadAssetScript;
      if (height, id) in caches.balanceAt {
        r := caches.balanceAt[(height, id)];
      } else {
        r := AmountOf(Lookup(db.state.value, (EarthsBalance(id), height)));
        caches := caches.(balanceAt := caches.balanceAt[(height, id) := r]);
      }
    }

    method LeaseBalanceAtHeight(id: nat, height: nat) returns (r: LeaseBalance)
      requires Usable()
      modifies this`caches
      ensures Usable() && r == LeasesThrough(old(caches), db.state, id, height)
      ensures caches == old(caches).(leaseAt := old(caches).leaseAt[(height, id) := r])
      ensures old(Valid()) && LeasesCached(db.state, chain, id, height, LeasesOf(Lookup(db.state.value, (LeaseBalanceOf(id), height)))) ==> Valid()
    {
      hide Based, Meant, LoadCurrent, AmountCached, LeasesCached, LoadBalance, LoadLeaseBalance, LoadPortfolio, LoadVolumeAndFee, LoadScript, LoadAssetScript;
      if (height, id) in caches.leaseAt {
        r := caches.leaseAt[(height, id)];
      } else {
        r := LeasesOf(Lookup(db.state.value, (LeaseBalanceOf(id), height)));
        caches := caches.(leaseAt := caches.leaseAt[(height, id) := r]);
      }
    }

    /**
     The snapshots read through the caches. In a valid store they are the store's exactly if no pruned height 1 that is asked for is still
     cached; from the floor of the balances on that is never so (HeightCaches.NothingOutlived).
     */
    method SnapshotsFor(address: Address, from: nat, toBlock: Id) returns (r: seq<BalanceSnapshot>)
      requires Usable()
      modifies this`caches
      ensures Usable() && (old(Valid()) ==> Valid())
      ensures var to := Lookup(db.blocks.stored.heightOf, toBlock).GetOr(db.blocks.height);
              match Lookup(db.addresses.addressId, address)
              case None => r == BalanceSnapshots(db, address, from, toBlock)
              case Some(id) =>
                && ReadThrough(old(caches), db.state, id, BalancePairs(db.state, id, from, to), r)
                && AnswerAlike(caches, old(caches), db.state) && AllCached(caches, id, BalancePairs(db.state, id, from, to))
                && (old(Valid()) ==> (r == BalanceSnapshots(db, address, from, toBlock) <==> !Outlived(old(caches), db.state, chain, id, from, to)))
    {
      hide Stored, Anchored, FromDeltas, MatchesDeltas, AllChangedKnown, LoadCurrent, Coherent, HeightsCoherent, AmountCached, LeasesCached, Slice, Merge,
        SnapshotsOf, Outlived, ReadThrough, AnswerAlike, AllCached, BalanceThrough, LeasesThrough, ScriptsStored, Exact;
      if address !in db.addresses.addressId {
        return [BalanceSnapshot(1, 0, 0, 0)];
      }
      var id := db.addresses.addressId[address];
      var height := HeightOf(toBlock);
      CurrentHeight(db, chain);
      var to := height.GetOr(current.height);
      SlicesNotEmpty(db.state, id, from, to);
      var pairs := MergeHeights(Slice(HistoryOf(db.state.history, EarthsBalance(id)), from, to),
                                Slice(HistoryOf(db.state.history, LeaseBalanceOf(id)), from, to));
      if Valid() { ThroughCaches(caches, db, chain, id, from, to); }
      ghost var before := caches;
      r := [];
      NothingRead(caches, db.state, id);
      for i := 0 to |pairs|
        invariant Usable() && (old(Valid()) ==> Valid()) && ReadThrough(before, db.state, id, pairs[..i], r)
        invariant AnswerAlike(caches, before, db.state) && AllCached(caches, id, pairs[..i])
      {
        var (wh, lh) := pairs[i];
        ghost var at := caches;
        assert pairs[i] in pairs && (old(Valid()) ==> LoadsRightly(db.state, chain, id, pairs[i]));
        var wb := BalanceAtHeight(id, wh);
        SameLeases(at, db.state, id, lh, wh, wb);
        var lb := LeaseBalanceAtHeight(id, lh);
        OneMoreRead(before, at, caches, db.state, id, pairs, i, r);
        r := r + [BalanceSnapshot(if wh > lh then wh else lh, wb, lb.incoming, lb.outgoing)];
      }
      assert pairs[..|pairs|] == pairs;
      if old(Valid()) { SnapshotsThroughExact(before, db, chain, id, from, to, r); }
    }

    // ---- append ----

    method NewAddresses(diff: Diff) returns (newAddresses: set<Address>)
      requires Usable()
      modifies this`caches
      ensures OnlyCached() && newAddresses == Touched(diff) - db.addresses.addressId.Keys
    {
      hide Based, Meant, LoadCurrent, Coherent, HeightsCoherent, Touched;
      newAddresses := {};
      var todo := Touched(diff);
      while todo != {}
        invariant OnlyCached() && todo <= Touched(diff)
        invariant newAddresses == (Touched(diff) - todo) - db.addresses.addressId.Keys
      {
        var a :| a in todo;
        var id := AddressId(a);
        if id == None {
          newAddresses := newAddresses + {a};
        }
        todo := todo - {a};
      }
    }

    /** The new values of one address; None where nothing changes. */
    method ChangeAddress(address: Address, p: Portfolio)
      returns (native: Option<int>, assets: map<AssetId, int>, lease: Option<LeaseBalance>)
      requires Usable()
      modifies this`caches
      ensures OnlyCached()
      ensures native == if p.balance == 0 then None else Some(Plus(p.balance, LoadBalance(db, address, None)))
      ensures forall k :: Lookup(assets, k) ==
                if k in p.assets && p.assets[k] != 0 then Some(Plus(p.assets[k], LoadBalance(db, address, Some(k)))) else None
      ensures lease == if p.lease == NO_LEASES then None else Some(CombineLeases(LoadLeaseBalance(db, address), p.lease))
    {
      hide Based, Meant, LoadCurrent, Coherent, HeightsCoherent, LoadBalance, LoadLeaseBalance, Fold;
      native, assets, lease := None, map[], None;
      if p.balance != 0 {
        var balance := Balance(address, None);
        native := Some(Plus(p.balance, balance));
      }
      if p.lease != NO_LEASES {
        var leases := LeaseBalanceFor(address);
        lease := Some(CombineLeases(leases, p.lease));
      }
      var todo := p.assets.Keys;
      while todo != {}
        invariant OnlyCached() && todo <= p.assets.Keys
        invariant forall k :: Lookup(assets, k) ==
                    if k in p.assets && k !in todo && p.assets[k] != 0 then Some(Plus(p.assets[k], LoadBalance(db, address, Some(k)))) else None
      {
        var k :| k in todo;
        if p.assets[k] != 0 {
          var balance := Balance(address, Some(k));
          assets := assets[k := Plus(p.assets[k], balance)];
        }
        todo := todo - {k};
      }
    }

    method ChangePortfolios(diff: Diff) returns (v: Values)
      requires Usable()
      modifies this`caches
      ensures OnlyCached() && PartlyChanged(db, diff, diff.portfolios.Keys, v)
    {
      hide Based, Meant, LoadCurrent, Coherent, HeightsCoherent, LoadBalance, LoadLeaseBalance, PartlyChanged, WithAddress;
      v := NO_VALUES;
      NoneChanged(db, diff);
      var todo := diff.portfolios.Keys;
      assert diff.portfolios.Keys - todo == {};
      while todo != {}
        invariant OnlyCached() && todo <= diff.portfolios.Keys
        invariant PartlyChanged(db, diff, diff.portfolios.Keys - todo, v)
      {
        ghost var done := diff.portfolios.Keys - todo;
        var a :| a in todo;
        var native, assets, lease := ChangeAddress(a, diff.portfolios[a]);
        OneChanged(db, diff, done, v, a, native, assets, lease);
        v := WithAddress(v, a, native, assets, lease);
        todo := todo - {a};
        assert diff.portfolios.Keys - todo == done + {a};
      }
      assert diff.portfolios.Keys - todo == diff.portfolios.Keys;
    }

    method NewFills(diff: Diff) returns (fills: map<Id, VolumeAndFee>)
      requires Usable()
      modifies this`caches
      ensures OnlyCached() && AllFills(db, diff, fills)
    {
      hide Based, Meant, LoadCurrent, Coherent, HeightsCoherent, LoadVolumeAndFee, CombineFills, Fold;
      fills := map[];
      var orderFills := diff.orderFills;
      var todo := orderFills.Keys;
      while todo != {}
        invariant OnlyCached() && todo <= orderFills.Keys
        invariant forall order :: Lookup(fills, order) ==
                    if order in orderFills && order !in todo then Some(CombineFills(LoadVolumeAndFee(db, order), orderFills[order])) else None
      {
        var order :| order in todo;
        var filled := FilledVolume(order);
        fills := fills[order := CombineFills(filled, orderFills[order])];
        todo := todo - {order};
      }
    }

    /** The ids of addresses, new or known. */
    method ResolveIds(addresses: set<Address>, newIds: map<Address, nat>) returns (ids: map<Address, nat>)
      requires Usable() && addresses <= newIds.Keys + db.addresses.addressId.Keys
      modifies this`caches
      ensures OnlyCached() && ids.Keys == addresses
      ensures forall a :: a in ids ==> ids[a] == (db.addresses.addressId + newIds)[a]
    {
      hide Based, Meant, LoadCurrent, Coherent, HeightsCoherent;
      ids := map[];
      var todo := addresses;
      while todo != {}
        invariant OnlyCached() && todo <= addresses && ids.Keys == addresses - todo
        invariant forall a :: a in ids ==> ids[a] == (db.addresses.addressId + newIds)[a]
      {
        var a :| a in todo;
        var id := Lookup(newIds, a);
        if id == None {
          id := AddressId(a);
        }
        ids := ids[a := id.value];
        todo := todo - {a};
      }
    }

    /** Ids for the new addresses of a difference, and the ids of all its addresses. */
    method ChooseIds(diff: Diff) returns (newIds: map<Address, nat>, ids: map<Address, nat>)
      requires Usable()
      requires diff.scripts.Keys + diff.accountData.Keys <= Touched(diff) + db.addresses.addressId.Keys
      modifies this`caches
      ensures OnlyCached() && IdsChosen(db, diff, newIds, ids) && Injective(ids)
    {
      hide Based, Meant, Coherent, HeightsCoherent, NumberedFrom, Injective, LoadCurrent, Touched, IdsChosen;
      var newAddresses := NewAddresses(diff);
      newIds := AssignIds(newAddresses, lastAddressId);
      ids := ResolveIds(Touched(diff) + diff.scripts.Keys + diff.accountData.Keys, newIds);
      ChosenFrom(db, chain, deltas, diff, newIds, ids);
    }

    /** Turns a difference into an update, reading current values through the caches. */
    method BuildUpdate(diff: Diff, carryFee: int, block: Block) returns (u: Update, v: Values, ghost ids: map<Address, nat>)
      requires Usable()
      requires diff.scripts.Keys + diff.accountData.Keys <= Touched(diff) + db.addresses.addressId.Keys
      modifies this`caches
      ensures OnlyCached() && u.block == block
      ensures Built(db, u, ids, Delta(diff, carryFee), v)
    {
      hide Based, Meant, Coherent, HeightsCoherent, PartlyChanged, AllFills, IdsChosen, MadeOf, ListedByAddress, NewValues, Split, Injective,
        LoadCurrent, Built, Touched;
      var newIds, resolved := ChooseIds(diff);
      v := ChangePortfolios(diff);
      var fills := NewFills(diff);
      FillsAside(db, diff, v, fills);
      v := v.(fills := fills);
      AllChanged(db, Delta(diff, carryFee), v);
      ChosenCover(db, diff, newIds, resolved);
      u := Assemble(block, carryFee, diff, newIds, resolved, v);
      BuiltFrom(db, u, resolved, Delta(diff, carryFee), v);
      ids := resolved;
    }

    /** Blocks only set scripts of accounts by transactions, and these scripts are what they set. */
    ghost predicate KeepsLaw()
      reads this
    {
      Lawful(db, chain, deltas)
    }

    /** The second half of append: what was built goes to the fields, the store and the caches. */
    method StoreUpdate(diff: Diff, carryFee: int, u: Update, v: Values, ghost ids: map<Address, nat>)
      requires Usable() && Built(db, u, ids, Delta(diff, carryFee), v) && Fresh(db.blocks.stored, u.block, db.blocks.height + 1)
      requires u.block.header.transactionCount == |u.block.transactions|
      requires diff.transactions.Keys <= TransactionIds(u.block.transactions)
      modifies this
      ensures Based(db, chain, deltas) && current == LoadCurrent(db) && lastAddressId == db.addresses.lastAddressId
      ensures old(Ready(db, diff, maxRollbackDepth)) ==> Usable()
      ensures (old(Valid()) ==> Valid()) && AtHeights(caches) == old(AtHeights(caches))
      ensures AppliedWhereReady(old(db), Delta(diff, carryFee), maxRollbackDepth, db)
      ensures StayExact(old(db), old(chain), old(deltas), db, chain, deltas)
      ensures old(KeepsLaw()) && ScriptsSet(diff, u.block.transactions) ==> KeepsLaw()
      ensures chain.Grown? && chain == Grown(old(chain), chain.update, ChangesOf(old(db).state, chain.update)) && chain.Block() == u.block
      ensures deltas == old(deltas) + [Delta(diff, carryFee)]
      ensures ListedByAddress(db.addresses.addressId, diff, chain.update.addressTransactions)
      ensures Acceptable(old(db), chain.update) && db == After(old(db), chain.update, maxRollbackDepth)
    {
      hide Based, Meant, Coherent, HeightsCoherent, Fresh, Touched, TransactionIds, Built, LoadCurrent, Ready, AppliedWhereReady, StayExact,
        ListedByAddress, Acceptable, CachesAfterAppend, AppendTables, Faithful, After, ChangesOf, ChangedKeys, WellFormed, AtHeights,
        Stored, Lawful, ScriptsSet;
      ghost var longer := Grown(chain, u, ChangesOf(db.state, u));
      AppendWorks(db, chain, deltas, caches, u, maxRollbackDepth, ids, Delta(diff, carryFee), v);
      if Lawful(db, chain, deltas) && ScriptsSet(diff, u.block.transactions) {
        AppendKeepsLawful(db, chain, deltas, After(db, u, maxRollbackDepth), longer, Delta(diff, carryFee));
      }

      var height := current.height + 1;
      assert height == db.blocks.height + 1;
      var longerDb := DoAppend(db, u, height, maxRollbackDepth);
      var filled := CachesAfterAppend(caches, u.newAddresses, diff, v);
      ghost var longerDeltas := deltas + [Delta(diff, carryFee)];
      assert longerDb == After(db, u, maxRollbackDepth);
      assert Based(longerDb, longer, longerDeltas);
      lastAddressId := lastAddressId + |u.newAddresses|;
      current := Current(height, current.score + u.block.header.score, Some(u.block));
      db, caches, chain, deltas := longerDb, filled, longer, longerDeltas;
    }

    /**
     Appends a block with its difference. Whatever the caches held and whatever rollbacks left, an item holds what the difference makes
     of it exactly if the next height was ready for it, and exact items stay exact. If it was ready for all, the caches agree with the
     store; that is so in a valid store, and by LawfulIsReady after any rollbacks of validated blocks.
     */
    method Append(diff: Diff, carryFee: int, block: Block)
      requires Usable() && Fresh(db.blocks.stored, block, db.blocks.height + 1)
      requires block.header.transactionCount == |block.transactions|
      requires diff.transactions.Keys <= TransactionIds(block.transactions)
      requires diff.scripts.Keys + diff.accountData.Keys <= Touched(diff) + db.addresses.addressId.Keys
      modifies this
      ensures Based(db, chain, deltas) && current == LoadCurrent(db) && lastAddressId == db.addresses.lastAddressId
      ensures old(Ready(db, diff, maxRollbackDepth)) ==> Usable()
      ensures (old(Valid()) ==> Valid()) && AtHeights(caches) == old(AtHeights(caches))
      ensures AppliedWhereReady(old(db), Delta(diff, carryFee), maxRollbackDepth, db)
      ensures StayExact(old(db), old(chain), old(deltas), db, chain, deltas)
      ensures old(KeepsLaw()) && ScriptsSet(diff, block.transactions) ==> KeepsLaw()
      ensures chain.Grown? && chain == Grown(old(chain), chain.update, ChangesOf(old(db).state, chain.update)) && chain.Block() == block
      ensures deltas == old(deltas) + [Delta(diff, carryFee)]
      ensures ListedByAddress(db.addresses.addressId, diff, chain.update.addressTransactions)
      ensures Acceptable(old(db), chain.update) && db == After(old(db), chain.update, maxRollbackDepth)
    {
      hide Based, Meant, Coherent, HeightsCoherent, Fresh, Touched, TransactionIds, Built, LoadCurrent, Ready, AppliedWhereReady, StayExact,
        ListedByAddress, Acceptable, After, ChangesOf, ChangedKeys, AtHeights, Lawful, ScriptsSet;
      var u, v; ghost var ids;
      u, v, ids := BuildUpdate(diff, carryFee, block);
      StoreUpdate(diff, carryFee, u, v, ids);
    }

    // ---- rollback ----

    /** One turn of doRollback: takes the last block off, then drops what the caches hold of it. */
    method RollbackTop() returns (block: Block)
      requires Based(db, chain, deltas) && Coherent(caches, db)
      requires chain.Height() > 1 && db.blocks.safeRollbackHeight < chain.Height()
      modifies this`db, this`caches, this`chain, this`deltas
      ensures Based(db, chain, deltas) && Coherent(caches, db)
      ensures chain == old(chain).below && deltas == old(deltas)[..|old(deltas)| - 1] && block == old(chain).Block()
      ensures old(chain).Height() in old(db).blocks.stored.header && db == RollbackTables(old(db), old(chain).Height())
      ensures db.addresses == old(db).addresses && db.blocks.safeRollbackHeight == old(db).blocks.safeRollbackHeight
      ensures old(Meant(db, chain, deltas)) ==> (Meant(db, chain, deltas) <==> DiffCovered(old(deltas)[|old(deltas)| - 1].diff, old(chain).Block().transactions))
      ensures old(HeightsCoherent(caches, db.state, chain)) && Covered(old(chain).update, old(db).addresses.addressId) ==>
                HeightsCoherent(caches, db.state, chain)
      ensures caches == CachesAfterRollback(old(caches), StaleAfter(old(db), old(chain).Height()), old(chain).Height())
    {
      hide Based, Meant, Recorded, Coherent, HeightsCoherent, Covered, DiffCovered, CachesAfterRollback, StaleAfter, RollbackTables,
        ChangedAreKnown, AddressesStored, TransactionsAt;
      KnownHere(db, chain, deltas);
      RollbackKeepsBased(db, chain, deltas);
      RolledAddresses(db, chain.Height());
      RollbackKeepsCoherence(caches, db, chain.Height());
      if HeightsCoherent(caches, db.state, chain) && Covered(chain.update, db.addresses.addressId) {
        TopHeights(caches, db, chain, deltas);
      }
      if Meant(db, chain, deltas) {
        RollbackKeepsFaithful(db, chain, deltas);
      }
      var currentHeight := db.blocks.height;
      var stale;
      db, block, stale := RollbackBlock(db, currentHeight);
      caches := CachesAfterRollback(caches, stale, currentHeight);
      chain, deltas := chain.below, deltas[..|deltas| - 1];
    }

    /** The same turn, seen from the height the loop goes to. */
    method RollbackTurn(ghost targetHeight: nat) returns (block: Block)
      requires Based(db, chain, deltas) && Coherent(caches, db)
      requires chain.Height() > targetHeight > db.blocks.safeRollbackHeight
      modifies this`db, this`caches, this`chain, this`deltas
      ensures Based(db, chain, deltas) && Coherent(caches, db)
      ensures old(chain).Grown? && chain == old(chain).below && deltas == old(deltas)[..|old(deltas)| - 1]
      ensures db.addresses == old(db).addresses && db.blocks.safeRollbackHeight == old(db).blocks.safeRollbackHeight
      ensures RolledBack(db, targetHeight) == RolledBack(old(db), targetHeight)
      ensures HeightsLeft(caches, db, targetHeight) == HeightsLeft(old(caches), old(db), targetHeight)
      ensures BlocksAbove(old(chain), targetHeight) == BlocksAbove(chain, targetHeight) + [block]
      ensures old(HeightsCoherent(caches, db.state, chain)) && CoveredAbove(old(chain), targetHeight, db.addresses.addressId) ==>
                HeightsCoherent(caches, db.state, chain) && CoveredAbove(chain, targetHeight, db.addresses.addressId)
    {
      hide Based, Meant, Coherent, HeightsCoherent, Covered, RollbackTables, HeightsLeft, CachesAfterRollback, StaleAfter, ChangedAreKnown,
        RolledBack, DiffCovered, BlocksAbove, CoveredAbove;
      OneBlockOff(chain, targetHeight, db.addresses.addressId);
      BasedHeight(db, chain, deltas);
      OneTurn(db, targetHeight);
      RollbackKeepsBased(db, chain, deltas);
      EntriesAfterRollback(caches, db, targetHeight);
      block := RollbackTop();
    }

    method DoRollback(targetHeight: nat) returns (discarded: seq<Block>)
      requires Usable()
      requires db.blocks.safeRollbackHeight < targetHeight <= chain.Height()
      modifies this`db, this`caches, this`chain, this`deltas
      ensures Based(db, chain, deltas) && Coherent(caches, db) && db == RolledBack(old(db), targetHeight)
      ensures chain == old(chain).Upto(targetHeight) && deltas == old(deltas)[..targetHeight]
      ensures discarded == BlocksAbove(old(chain), targetHeight) && db.addresses == old(db.addresses)
      ensures old(HeightsCoherent(caches, db.state, chain)) && CoveredAbove(old(chain), targetHeight, db.addresses.addressId) ==>
                HeightsCoherent(caches, db.state, chain)
      ensures AtHeights(caches) == HeightsLeft(old(caches), old(db), targetHeight)
    {
      hide Based, Coherent, HeightsCoherent, LoadCurrent, HeightsLeft, AtHeights, RolledBack, BlocksAbove, CoveredAbove;
      BasedHeight(db, chain, deltas);
      discarded := [];
      var currentHeight := current.height;
      while currentHeight > targetHeight
        invariant targetHeight <= currentHeight == chain.Height() <= old(chain).Height()
        invariant Based(db, chain, deltas) && Coherent(caches, db) && RolledBack(db, targetHeight) == RolledBack(old(db), targetHeight)
        invariant chain == old(chain).Upto(currentHeight) && deltas == old(deltas)[..currentHeight]
        invariant BlocksAbove(chain, targetHeight) + discarded == BlocksAbove(old(chain), targetHeight)
        invariant db.addresses == old(db.addresses) && db.blocks.safeRollbackHeight < targetHeight
        invariant old(HeightsCoherent(caches, db.state, chain)) && CoveredAbove(old(chain), targetHeight, db.addresses.addressId) ==>
                    HeightsCoherent(caches, db.state, chain) && CoveredAbove(chain, targetHeight, db.addresses.addressId)
        invariant HeightsLeft(caches, db, targetHeight) == HeightsLeft(old(caches), old(db), targetHeight)
      {
        UptoBelow(old(chain), currentHeight);
        var block := RollbackTurn(targetHeight);
        discarded := [block] + discarded;
        currentHeight := currentHeight - 1;
      }
      BasedHeight(db, chain, deltas);
      OneTurn(db, targetHeight);
      NothingLeaves(caches, db, targetHeight);
      NothingAbove(chain, targetHeight);
    }

    /**
     Goes back to a block, if it is known and not too deep. Exactly the blocks above it are returned, oldest first and with
     their transactions in order. Every item reads the value under the newest height that is left; one that was exact is the fold of the
     differences it survives from, and stays exact if and only if these are the ones up to the block. All items and all later snapshots
     do exactly if the differences of the blocks above it are covered.
     */
    method RollbackTo(targetBlockId: Id) returns (r: RollbackResult)
      requires Usable()
      modifies this
      ensures Usable()
      ensures match old(Lookup(db.blocks.stored.heightOf, targetBlockId))
              case None => r == NoSuchBlock && unchanged(this)
              case Some(target) =>
                if target <= old(db.blocks.safeRollbackHeight)
                then r == TooDeep(old(db.blocks.safeRollbackHeight) + 1) && unchanged(this)
                else target <= old(chain).Height() && chain == old(chain).Upto(target) && deltas == old(deltas)[..target]
                     && r == Done(BlocksAbove(old(chain), target))
                     && db == RolledBack(old(db), target) && ItemsRolledBack(old(db), old(chain), old(deltas), target, db)
                     && AtHeights(caches) == HeightsLeft(old(caches), old(db), target)
                     && (old(Valid()) ==> (Valid() <==> DiffsCoveredAbove(old(chain), old(deltas), target)))
                     && (old(KeepsLaw()) ==> KeepsLaw())
    {
      hide MatchesDeltas, Meant, AllChangedKnown, Coherent, HeightsCoherent, LoadCurrent, CoveredAbove, DiffsCoveredAbove, Stored, Anchored, RolledBack,
        ItemsRolledBack, HeightsLeft, AtHeights, Lawful, ScriptsStored, Exact;
      var height := HeightOf(targetBlockId);
      if height == None {
        return NoSuchBlock;
      }
      if height.value <= db.blocks.safeRollbackHeight {
        return TooDeep(db.blocks.safeRollbackHeight + 1);
      }
      HeightsInChain(db, chain, targetBlockId);
      AfterRollback(db, chain, deltas, height.value);
      if Lawful(db, chain, deltas) {
        RollbackKeepsLawful(db, chain, deltas, height.value, RolledBack(db, height.value));
      }
      var discarded := DoRollback(height.value);
      current := LoadCurrent(db);
      r := Done(discarded);
    }
  }
}
